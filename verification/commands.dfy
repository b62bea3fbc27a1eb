/**
 * The slash-command menu of the document editor: the nine fixed commands,
 * the filter the menu applies to the text typed after `/`, and the
 * placeholder shown in an empty block.
 */
module SlashCommands {
  import opened Text
  import opened Sequences
  import opened Blocks

  /** A menu entry (its icon is presentation only and is not modelled). */
  datatype SlashCommand = SlashCommand(
    id: string,
    name: string,
    description: string,
    kind: Kind,
    keywords: seq<string>)

  /** The commands in menu order. */
  const Commands: seq<SlashCommand> := [
    SlashCommand("paragraph", "Text", "Just start typing with plain text",
      Paragraph, ["text", "paragraph", "p"]),
    SlashCommand("heading_1", "Heading 1", "Big section heading",
      Heading1, ["heading", "h1", "title", "big"]),
    SlashCommand("heading_2", "Heading 2", "Medium section heading",
      Heading2, ["heading", "h2", "subtitle", "medium"]),
    SlashCommand("heading_3", "Heading 3", "Small section heading",
      Heading3, ["heading", "h3", "small"]),
    SlashCommand("bullet_list", "Bulleted list", "Create a simple bulleted list",
      BulletList, ["bullet", "list", "ul", "unordered"]),
    SlashCommand("numbered_list", "Numbered list", "Create a list with numbering",
      NumberedList, ["numbered", "list", "ol", "ordered", "1"]),
    SlashCommand("todo", "To-do list", "Track tasks with a to-do list",
      Todo, ["todo", "task", "check", "checkbox"]),
    SlashCommand("quote", "Quote", "Capture a quote",
      Quote, ["quote", "blockquote", "citation"]),
    SlashCommand("code", "Code", "Capture a code snippet",
      Code, ["code", "snippet", "programming", "monospace"])
  ]

  /** `keywords.some(k => k.includes(q))`. */
  predicate SomeKeywordContains(keywords: seq<string>, q: string)
  {
    keywords != [] && (Contains(keywords[0], q) || SomeKeywordContains(keywords[1..], q))
  }

  /** `some` holds exactly when one of the keywords includes the query. */
  lemma {:induction false} SomeKeywordContainsIff(keywords: seq<string>, q: string)
    ensures SomeKeywordContains(keywords, q) <==> exists k :: k in keywords && Contains(k, q)
  {
    if keywords != [] {
      SomeKeywordContainsIff(keywords[1..], q);
      if Contains(keywords[0], q) {
        assert keywords[0] in keywords;
      } else if SomeKeywordContains(keywords[1..], q) {
        var k :| k in keywords[1..] && Contains(k, q);
        assert k in keywords;
      }
      forall k | k in keywords && Contains(k, q) ensures SomeKeywordContains(keywords, q) {
        if k != keywords[0] {
          var i :| 0 <= i < |keywords| && keywords[i] == k;
          assert keywords[1..][i - 1] == k;
          assert k in keywords[1..];
        }
      }
    }
  }

  /**
   * The menu's test: the lower-cased name includes the lower-cased query, or
   * some keyword (taken as it is) includes the lower-cased query.
   */
  predicate CommandMatches(c: SlashCommand, query: string)
  {
    var q := ToLower(query);
    Contains(ToLower(c.name), q) || SomeKeywordContains(c.keywords, q)
  }

  /** `filteredCommands`: the commands the menu shows for a query. */
  function FilteredCommands(query: string): seq<SlashCommand>
  {
    Filter(Commands, c => CommandMatches(c, query))
  }

  /**
   * The menu shows, in menu order, exactly the commands whose lower-cased
   * name or one of whose keywords includes the lower-cased query.
   */
  lemma FilteredCommandsIff(query: string, c: SlashCommand)
    ensures IsSubsequence(FilteredCommands(query), Commands)
    ensures c in FilteredCommands(query) <==>
      c in Commands
      && (Contains(ToLower(c.name), ToLower(query))
          || exists k :: k in c.keywords && Contains(k, ToLower(query)))
  {
    SomeKeywordContainsIff(c.keywords, ToLower(query));
  }

  /** With nothing typed after `/`, the menu shows all nine commands. */
  lemma EmptyQueryShowsAll()
    ensures FilteredCommands("") == Commands
    ensures |FilteredCommands("")| == 9
  {
    forall i | 0 <= i < |Commands| ensures CommandMatches(Commands[i], "") {
      ContainsEmpty(ToLower(Commands[i].name));
    }
    FilterAll(Commands, c => CommandMatches(c, ""));
  }

  /** Every block type can be chosen from the menu, by exactly one command. */
  lemma EveryKindHasOneCommand(k: Kind)
    ensures exists i :: 0 <= i < |Commands| && Commands[i].kind == k
    ensures forall i, j :: 0 <= i < j < |Commands| ==> Commands[i].kind != Commands[j].kind
  {
    match k
    case Paragraph => assert Commands[0].kind == k;
    case Heading1 => assert Commands[1].kind == k;
    case Heading2 => assert Commands[2].kind == k;
    case Heading3 => assert Commands[3].kind == k;
    case BulletList => assert Commands[4].kind == k;
    case NumberedList => assert Commands[5].kind == k;
    case Todo => assert Commands[6].kind == k;
    case Quote => assert Commands[7].kind == k;
    case Code => assert Commands[8].kind == k;
  }

  /** `getPlaceholder`: the hint an empty block of each type shows. */
  function Placeholder(kind: Kind): (r: string)
    ensures r != []
  {
    match kind
    case Heading1 => "Heading 1"
    case Heading2 => "Heading 2"
    case Heading3 => "Heading 3"
    case BulletList => "List item"
    case NumberedList => "List item"
    case Todo => "To-do"
    case Quote => "Quote"
    case Code => "Code"
    case Paragraph => "Type '/' for commands"
  }

  /** Only the two list types share a placeholder; every other type has its own. */
  lemma PlaceholderDistinguishesKinds(a: Kind, b: Kind)
    requires Placeholder(a) == Placeholder(b)
    ensures a == b || (a in {BulletList, NumberedList} && b in {BulletList, NumberedList})
  {
  }

  /** A heading's, a quote's and a code block's placeholder is its command's name. */
  lemma PlaceholderIsCommandName(i: nat)
    requires i < |Commands|
    requires Commands[i].kind in {Heading1, Heading2, Heading3, Quote, Code}
    ensures Placeholder(Commands[i].kind) == Commands[i].name
  {
  }

}
