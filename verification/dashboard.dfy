/**
 * The dashboard's document list: a case-insensitive search over title and
 * preview, combined with the active tab ("starred", "shared", or anything
 * else for all documents).
 */
module Dashboard {
  import opened Text
  import opened Sequences

  /** A document card. */
  datatype Note = Note(
    id: string,
    title: string,
    preview: string,
    lastEdited: string,
    collaborators: seq<string>,
    isStarred: bool)

  /** The three documents the dashboard lists. */
  const Roadmap: Note := Note("1", "Project Roadmap Q1 2024",
    "Planning and timeline for the first quarter including feature releases...",
    "2 hours ago", ["A", "B"], true)
  const MeetingNotes: Note := Note("2", "Team Meeting Notes",
    "Weekly standup notes and action items for the development team...",
    "1 day ago", ["C", "D", "E"], false)
  const DesignGuidelines: Note := Note("3", "Design System Guidelines",
    "Comprehensive guide for our design system components and usage...",
    "3 days ago", ["B"], true)
  const MockNotes: seq<Note> := [Roadmap, MeetingNotes, DesignGuidelines]

  /** `matchesSearch`: the lower-cased title or preview includes the lower-cased query. */
  predicate MatchesSearch(n: Note, query: string)
  {
    Contains(ToLower(n.title), ToLower(query)) || Contains(ToLower(n.preview), ToLower(query))
  }

  /** The test `filteredNotes` applies to each note under the active tab. */
  predicate Keeps(n: Note, query: string, tab: string)
  {
    if tab == "starred" then MatchesSearch(n, query) && n.isStarred
    else if tab == "shared" then MatchesSearch(n, query) && |n.collaborators| > 1
    else MatchesSearch(n, query)
  }

  /** `notes.filter(...)` with the search and the tab. */
  function FilterNotes(notes: seq<Note>, query: string, tab: string): seq<Note>
  {
    Filter(notes, n => Keeps(n, query, tab))
  }

  /** `filteredNotes`. */
  function FilteredNotes(query: string, tab: string): seq<Note>
  {
    FilterNotes(MockNotes, query, tab)
  }

  /** One field's test: the lower-cased field includes the lower-cased query at some offset. */
  lemma FieldMatchesIff(field: string, query: string)
    ensures Contains(ToLower(field), ToLower(query)) <==> exists i :: OccursAt(ToLower(field), ToLower(query), i)
  {
    ContainsIff(ToLower(field), ToLower(query));
  }

  /** The search is a plain substring search once both sides are lower-cased. */
  lemma MatchesSearchIff(n: Note, query: string)
    ensures MatchesSearch(n, query) <==>
      ((exists i :: OccursAt(ToLower(n.title), ToLower(query), i))
       || (exists i :: OccursAt(ToLower(n.preview), ToLower(query), i)))
  {
    FieldMatchesIff(n.title, query);
    FieldMatchesIff(n.preview, query);
  }

  /** The search ignores the case of the query's letters. */
  lemma SearchIgnoresQueryCase(n: Note, q1: string, q2: string)
    requires ToLower(q1) == ToLower(q2)
    ensures MatchesSearch(n, q1) == MatchesSearch(n, q2)
  {
  }

  /** Searching for a lower-cased query finds the same notes. */
  lemma SearchOfLoweredQuery(n: Note, query: string)
    ensures MatchesSearch(n, ToLower(query)) == MatchesSearch(n, query)
  {
    ToLowerIdempotent(query);
  }

  /**
   * The result keeps the notes' order, and a note is in it exactly when it
   * is one of the notes and passes the search and the tab.
   */
  lemma FilterNotesIff(notes: seq<Note>, query: string, tab: string, n: Note)
    ensures IsSubsequence(FilterNotes(notes, query, tab), notes)
    ensures n in FilterNotes(notes, query, tab) <==>
      n in notes
      && MatchesSearch(n, query)
      && (tab == "starred" ==> n.isStarred)
      && (tab == "shared" ==> |n.collaborators| > 1)
  {
  }

  /** With an empty query, every tab other than starred and shared lists every note. */
  lemma EmptyQueryListsAll(notes: seq<Note>, tab: string)
    requires tab != "starred" && tab != "shared"
    ensures FilterNotes(notes, "", tab) == notes
  {
    forall i | 0 <= i < |notes| ensures Keeps(notes[i], "", tab) {
      ContainsEmpty(ToLower(notes[i].title));
    }
    FilterAll(notes, n => Keeps(n, "", tab));
  }

  /** Under the starred tab every listed note is starred and matches, and no starred match is dropped. */
  lemma StarredTab(notes: seq<Note>, query: string)
    ensures forall n :: n in FilterNotes(notes, query, "starred") ==> n.isStarred && MatchesSearch(n, query)
    ensures forall n :: n in notes && n.isStarred && MatchesSearch(n, query) ==> n in FilterNotes(notes, query, "starred")
  {
  }

  /** Under the shared tab every listed note has more than one collaborator and matches, and no such note is dropped. */
  lemma SharedTab(notes: seq<Note>, query: string)
    ensures forall n :: n in FilterNotes(notes, query, "shared") ==> |n.collaborators| > 1 && MatchesSearch(n, query)
    ensures forall n :: n in notes && |n.collaborators| > 1 && MatchesSearch(n, query) ==> n in FilterNotes(notes, query, "shared")
  {
  }

  /** The starred and shared lists are sub-lists, in order, of the all-documents list for the same query. */
  lemma TabsNarrowTheList(notes: seq<Note>, query: string, tab: string)
    requires tab != "starred" && tab != "shared"
    ensures IsSubsequence(FilterNotes(notes, query, "starred"), FilterNotes(notes, query, tab))
    ensures IsSubsequence(FilterNotes(notes, query, "shared"), FilterNotes(notes, query, tab))
  {
    FilterMonotone(notes, n => Keeps(n, query, "starred"), n => Keeps(n, query, tab));
    FilterMonotone(notes, n => Keeps(n, query, "shared"), n => Keeps(n, query, tab));
  }

  /** With an empty query, the starred tab lists exactly the starred notes, in order. */
  lemma EmptyQueryStarred(notes: seq<Note>)
    ensures FilterNotes(notes, "", "starred") == Filter(notes, (n: Note) => n.isStarred)
  {
    forall i | 0 <= i < |notes| ensures Keeps(notes[i], "", "starred") == notes[i].isStarred {
      ContainsEmpty(ToLower(notes[i].title));
    }
    FilterCongruent(notes, n => Keeps(n, "", "starred"), (n: Note) => n.isStarred);
  }

  /** On the dashboard's own notes: the starred tab with no query lists the roadmap and the design guidelines, in that order. */
  lemma StarredMockNotes()
    ensures FilteredNotes("", "starred") == [Roadmap, DesignGuidelines]
  {
    EmptyQueryStarred(MockNotes);
    FilterOfThree(Roadmap, MeetingNotes, DesignGuidelines, (n: Note) => n.isStarred);
  }

}
