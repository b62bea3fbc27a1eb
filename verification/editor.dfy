/**
 * The document editor component as a sequential state machine. Each
 * handler is one step on the component state (the block list, the focused
 * block id, whether the slash menu is open, and the text typed after `/`).
 * The steps are first given as functions on `EditorState`, with lemmas
 * stating what each does; the class `DocumentEditor` then holds the state
 * in fields and its methods, written as the handlers are, are proved to
 * perform those steps.
 */
module Editor {
  import opened Wrappers
  import opened Text
  import opened Blocks
  import opened SlashCommands

  /** The component state the handlers rewrite. */
  datatype EditorState = EditorState(
    blocks: seq<Block>,
    focusedBlockId: string,
    showSlashMenu: bool,
    slashQuery: string)

  /** A new editor: one empty paragraph, focused, menu closed. */
  const InitialState: EditorState := EditorState([InitialBlock], "initial", false, "")

  /** The document invariant, on the editor state. */
  predicate Invariant(s: EditorState)
  {
    WellFormed(s.blocks)
  }

  /** `addBlock(kind, afterId, content)`, with the generated id passed in as `newId`. */
  function AddStep(s: EditorState, kind: Kind, afterId: string, content: string, newId: string): EditorState
  {
    s.(blocks := AddBlockTo(s.blocks, kind, afterId, content, newId), focusedBlockId := newId)
  }

  /** `updateBlock(id, patch)`. */
  function UpdateStep(s: EditorState, id: string, patch: Patch): EditorState
  {
    s.(blocks := UpdateById(s.blocks, id, patch))
  }

  /** `deleteBlock(id)`: refused on the last block; focus moves to the block before the deleted one. */
  function DeleteStep(s: EditorState, id: string): EditorState
  {
    if |s.blocks| == 1 then s
    else
      var k := FindIndex(s.blocks, id);
      s.(blocks := RemoveId(s.blocks, id),
         focusedBlockId := if k >= 1 then s.blocks[k - 1].id else s.focusedBlockId)
  }

  /** `handleKeyDown` for a key press on the block `id`. */
  function KeyDown(s: EditorState, key: string, shift: bool, id: string, newId: string): EditorState
  {
    match FindBlock(s.blocks, id)
    case None => s
    case Some(b) =>
      if key == "Enter" && !shift then
        if Trim(b.content) == "" && b.kind != Paragraph then UpdateStep(s, id, KindPatch(Paragraph))
        else AddStep(s, Paragraph, id, "", newId)
      else if key == "Backspace" && b.content == "" then
        if b.kind != Paragraph then UpdateStep(s, id, KindPatch(Paragraph))
        else if |s.blocks| > 1 then DeleteStep(s, id)
        else s
      else if key == "/" && b.content == "" then
        s.(showSlashMenu := true, slashQuery := "")
      else if key == "Escape" then
        s.(showSlashMenu := false)
      else
        s
  }

  /** `handleInput`: the block's text becomes `text`, and the open slash menu tracks it. */
  function Input(s: EditorState, id: string, text: string): EditorState
  {
    var updated := UpdateStep(s, id, ContentPatch(text));
    if s.showSlashMenu && StartsWith(text, "/") then updated.(slashQuery := text[1..])
    else if s.showSlashMenu then updated.(showSlashMenu := false)
    else updated
  }

  /** `applySlashCommand(cmd)`, on the focused block. */
  function ApplyCommand(s: EditorState, cmd: SlashCommand): EditorState
  {
    match FindBlock(s.blocks, s.focusedBlockId)
    case None => s
    case Some(_) =>
      UpdateStep(s, s.focusedBlockId, Patch(Some(cmd.kind), Some(""), None)).(showSlashMenu := false)
  }

  /** The `onChange` of a to-do block's checkbox. */
  function CheckTodo(s: EditorState, id: string, checked: bool): EditorState
  {
    match FindBlock(s.blocks, id)
    case None => s
    case Some(b) => UpdateStep(s, id, Patch(None, None, Some(SetChecked(b.properties, checked))))
  }

  /**
   * Adding a block: the invariant holds afterwards, exactly one block is
   * added, with the fresh id, the requested type and content and no
   * properties, every old block is still there, the new block is focused
   * and the slash-menu state is untouched.
   */
  lemma AddStepSpec(s: EditorState, kind: Kind, afterId: string, content: string, newId: string)
    requires Invariant(s)
    requires newId !in Ids(s.blocks)
    ensures var r := AddStep(s, kind, afterId, content, newId);
      && Invariant(r)
      && |r.blocks| == |s.blocks| + 1
      && multiset(r.blocks) == multiset(s.blocks) + multiset{NewBlock(s.blocks, kind, afterId, content, newId)}
      && NewBlock(s.blocks, kind, afterId, content, newId) == Block(newId, kind, content, NewPosition(s.blocks, afterId), None)
      && r.focusedBlockId == newId
      && r.showSlashMenu == s.showSlashMenu && r.slashQuery == s.slashQuery
  {
    AddPreservesWellFormed(s.blocks, kind, afterId, content, newId);
    var nb := NewBlock(s.blocks, kind, afterId, content, newId);
    assert multiset(s.blocks + [nb]) == multiset(s.blocks) + multiset{nb};
  }

  /** An update keeps the invariant and touches neither the focus nor the menu. */
  lemma UpdateStepSpec(s: EditorState, id: string, patch: Patch)
    requires Invariant(s)
    ensures var r := UpdateStep(s, id, patch);
      && Invariant(r)
      && Ids(r.blocks) == Ids(s.blocks)
      && r.focusedBlockId == s.focusedBlockId
      && r.showSlashMenu == s.showSlashMenu && r.slashQuery == s.slashQuery
      && (id !in Ids(s.blocks) ==> r == s)
  {
    UpdatePreservesWellFormed(s.blocks, id, patch);
    if id !in Ids(s.blocks) {
      UpdateUnknownIsIdentity(s.blocks, id, patch);
    }
  }

  /**
   * Deleting: nothing happens to a one-block document; otherwise the block
   * with the id (if any) is removed, the others keep their order, and focus
   * moves to the block just before the deleted one when there is one.
   */
  lemma DeleteStepSpec(s: EditorState, id: string)
    requires Invariant(s)
    ensures var r := DeleteStep(s, id);
      && Invariant(r)
      && (|s.blocks| == 1 ==> r == s)
      && (id !in Ids(s.blocks) ==> r.blocks == s.blocks && r.focusedBlockId == s.focusedBlockId)
      && (forall k :: 0 <= k < |s.blocks| && s.blocks[k].id == id && |s.blocks| > 1 ==>
            && r.blocks == s.blocks[..k] + s.blocks[k + 1..]
            && r.focusedBlockId == (if k > 0 then s.blocks[k - 1].id else s.focusedBlockId))
      && r.showSlashMenu == s.showSlashMenu && r.slashQuery == s.slashQuery
  {
    if |s.blocks| > 1 {
      RemovePreservesWellFormed(s.blocks, id);
      if id !in Ids(s.blocks) {
        FindIndexFailsIff(s.blocks, id);
        RemoveAbsent(s.blocks, id);
      }
      forall k | 0 <= k < |s.blocks| && s.blocks[k].id == id
        ensures DeleteStep(s, id).blocks == s.blocks[..k] + s.blocks[k + 1..]
        ensures DeleteStep(s, id).focusedBlockId == (if k > 0 then s.blocks[k - 1].id else s.focusedBlockId)
      {
        FindIndexUnique(s.blocks, id, k);
        RemoveAt(s.blocks, id, k);
      }
    }
  }

  /** A key press on a block the document does not hold does nothing. */
  lemma KeyDownUnknownBlock(s: EditorState, key: string, shift: bool, id: string, newId: string)
    requires id !in Ids(s.blocks)
    ensures KeyDown(s, key, shift, id, newId) == s
  {
  }

  /** The block the key press is on, when it exists. */
  function Target(s: EditorState, id: string): (k: nat)
    requires id in Ids(s.blocks)
    ensures k < |s.blocks| && s.blocks[k].id == id
  {
    FindIndexFailsIff(s.blocks, id);
    FindIndex(s.blocks, id)
  }

  /** Enter without Shift either converts the block to a paragraph or adds one after it. */
  lemma KeyDownEnterCases(s: EditorState, id: string, newId: string)
    requires id in Ids(s.blocks)
    ensures var b := s.blocks[Target(s, id)];
      KeyDown(s, "Enter", false, id, newId)
      == if IsBlank(b.content) && b.kind != Paragraph then UpdateStep(s, id, KindPatch(Paragraph))
         else AddStep(s, Paragraph, id, "", newId)
  {
    TrimEmptyIff(s.blocks[Target(s, id)].content);
  }

  /**
   * Enter without Shift on a block that is not a paragraph and is empty
   * after trimming turns it into a paragraph and adds nothing.
   */
  lemma KeyDownEnterConverts(s: EditorState, id: string, newId: string)
    requires Invariant(s)
    requires id in Ids(s.blocks)
    requires var b := s.blocks[Target(s, id)]; IsBlank(b.content) && b.kind != Paragraph
    ensures var k := Target(s, id);
      var r := KeyDown(s, "Enter", false, id, newId);
      && |r.blocks| == |s.blocks|
      && r.blocks[k] == s.blocks[k].(kind := Paragraph)
      && (forall j :: 0 <= j < |s.blocks| && j != k ==> r.blocks[j] == s.blocks[j])
      && r.focusedBlockId == s.focusedBlockId
      && r.showSlashMenu == s.showSlashMenu && r.slashQuery == s.slashQuery
  {
    KeyDownEnterCases(s, id, newId);
    var k := Target(s, id);
    var r := UpdateStep(s, id, KindPatch(Paragraph));
    forall j | 0 <= j < |s.blocks| && j != k ensures r.blocks[j] == s.blocks[j] {
      assert s.blocks[j].id != s.blocks[k].id;
    }
  }

  /**
   * Any other Enter without Shift adds an empty paragraph after the block
   * (half a position unit after it) and focuses it.
   */
  lemma KeyDownEnterAdds(s: EditorState, id: string, newId: string)
    requires Invariant(s)
    requires id in Ids(s.blocks) && newId !in Ids(s.blocks)
    requires var b := s.blocks[Target(s, id)]; !(IsBlank(b.content) && b.kind != Paragraph)
    ensures var k := Target(s, id);
      var r := KeyDown(s, "Enter", false, id, newId);
      && |r.blocks| == |s.blocks| + 1
      && r.blocks[k] == s.blocks[k]
      && (exists j :: k < j < |r.blocks|
            && r.blocks[j] == Block(newId, Paragraph, "", s.blocks[k].position + 0.5, None))
      && r.focusedBlockId == newId
      && r.showSlashMenu == s.showSlashMenu && r.slashQuery == s.slashQuery
  {
    KeyDownEnterCases(s, id, newId);
    var k := Target(s, id);
    assert KeyDown(s, "Enter", false, id, newId) == AddStep(s, Paragraph, id, "", newId);
    AddAfterIndex(s.blocks, Paragraph, k, "", newId);
  }

  /** Shift+Enter is left to the browser: the state does not change. */
  lemma KeyDownShiftEnter(s: EditorState, id: string, newId: string)
    ensures KeyDown(s, "Enter", true, id, newId) == s
  {
  }

  /**
   * Backspace on an exactly empty block turns a non-paragraph into a
   * paragraph, deletes a paragraph when another block remains, and does
   * nothing to the last block; Backspace on a block with text does nothing.
   */
  lemma KeyDownBackspace(s: EditorState, id: string, newId: string)
    requires Invariant(s)
    requires id in Ids(s.blocks)
    ensures var k := Target(s, id);
      var b := s.blocks[k];
      var r := KeyDown(s, "Backspace", false, id, newId);
      && (b.content != "" ==> r == s)
      && (b.content == "" && b.kind != Paragraph ==>
            && |r.blocks| == |s.blocks|
            && r.blocks[k] == b.(kind := Paragraph)
            && (forall j :: 0 <= j < |s.blocks| && j != k ==> r.blocks[j] == s.blocks[j])
            && r.focusedBlockId == s.focusedBlockId
            && r.showSlashMenu == s.showSlashMenu && r.slashQuery == s.slashQuery)
      && (b.content == "" && b.kind == Paragraph && |s.blocks| > 1 ==>
            && r.blocks == s.blocks[..k] + s.blocks[k + 1..]
            && id !in Ids(r.blocks)
            && r.focusedBlockId == (if k > 0 then s.blocks[k - 1].id else s.focusedBlockId)
            && r.showSlashMenu == s.showSlashMenu && r.slashQuery == s.slashQuery)
      && (b.content == "" && b.kind == Paragraph && |s.blocks| == 1 ==> r == s)
  {
    var k := Target(s, id);
    var b := s.blocks[k];
    var r := KeyDown(s, "Backspace", false, id, newId);
    if b.content == "" && b.kind != Paragraph {
      forall j | 0 <= j < |s.blocks| && j != k ensures r.blocks[j] == s.blocks[j] {
        assert s.blocks[j].id != id;
      }
    } else if b.content == "" && |s.blocks| > 1 {
      assert r == DeleteStep(s, id);
      DeleteStepSpec(s, id);
      RemoveIdDropsId(s.blocks, id);
    }
  }

  /** `/` on an empty block opens the menu with an empty query; Escape closes it. Neither touches the blocks. */
  lemma KeyDownMenu(s: EditorState, id: string, newId: string)
    requires id in Ids(s.blocks)
    ensures var b := s.blocks[Target(s, id)];
      var r := KeyDown(s, "/", false, id, newId);
      b.content == "" ==>
        r.blocks == s.blocks && r.focusedBlockId == s.focusedBlockId && r.showSlashMenu && r.slashQuery == ""
    ensures var r := KeyDown(s, "Escape", false, id, newId);
      r.blocks == s.blocks && r.focusedBlockId == s.focusedBlockId
      && !r.showSlashMenu && r.slashQuery == s.slashQuery
  {
  }

  /** `/` on a block that holds text does nothing: the menu opens only on an empty block. */
  lemma KeyDownSlashOnText(s: EditorState, shift: bool, id: string, newId: string)
    requires id in Ids(s.blocks) && s.blocks[Target(s, id)].content != ""
    ensures KeyDown(s, "/", shift, id, newId) == s
  {
  }

  /** A key the handler does not test for, such as a typed letter, does nothing. */
  lemma KeyDownOtherKeys(s: EditorState, key: string, shift: bool, id: string, newId: string)
    requires key != "Enter" && key != "Backspace" && key != "/" && key != "Escape"
    ensures KeyDown(s, key, shift, id, newId) == s
  {
  }

  /** Shift matters only to Enter: Backspace, `/`, Escape and the rest act the same with it held. */
  lemma KeyDownShiftOnlyForEnter(s: EditorState, key: string, id: string, newId: string)
    requires key != "Enter"
    ensures KeyDown(s, key, true, id, newId) == KeyDown(s, key, false, id, newId)
  {
  }

  /** Every key press keeps the document invariant. */
  lemma KeyDownPreservesInvariant(s: EditorState, key: string, shift: bool, id: string, newId: string)
    requires Invariant(s)
    requires key == "Enter" && !shift ==> newId !in Ids(s.blocks)
    ensures Invariant(KeyDown(s, key, shift, id, newId))
  {
    match FindBlock(s.blocks, id)
    case None =>
    case Some(b) =>
      if key == "Enter" && !shift {
        if Trim(b.content) == "" && b.kind != Paragraph {
          UpdateStepSpec(s, id, KindPatch(Paragraph));
        } else {
          AddPreservesWellFormed(s.blocks, Paragraph, id, "", newId);
        }
      } else if key == "Backspace" && b.content == "" {
        if b.kind != Paragraph {
          UpdateStepSpec(s, id, KindPatch(Paragraph));
        } else if |s.blocks| > 1 {
          RemovePreservesWellFormed(s.blocks, id);
        }
      }
  }

  /**
   * Typing sets the content of the block with the id and nothing else of
   * it; with the menu open, text that starts with `/` becomes the query
   * (minus the slash), and any other text closes the menu.
   */
  lemma InputSpec(s: EditorState, id: string, text: string)
    requires Invariant(s)
    ensures var r := Input(s, id, text);
      && Invariant(r)
      && |r.blocks| == |s.blocks|
      && (forall j :: 0 <= j < |s.blocks| ==>
            r.blocks[j] == if s.blocks[j].id == id then s.blocks[j].(content := text) else s.blocks[j])
      && r.focusedBlockId == s.focusedBlockId
      && (s.showSlashMenu && StartsWith(text, "/") ==> r.showSlashMenu && r.slashQuery == text[1..])
      && (s.showSlashMenu && !StartsWith(text, "/") ==> !r.showSlashMenu && r.slashQuery == s.slashQuery)
      && (!s.showSlashMenu ==> !r.showSlashMenu && r.slashQuery == s.slashQuery)
  {
    UpdateStepSpec(s, id, ContentPatch(text));
  }

  /**
   * A slash command gives the focused block the command's type and empty
   * content and closes the menu; with no focused block it does nothing.
   */
  lemma ApplyCommandSpec(s: EditorState, cmd: SlashCommand)
    requires Invariant(s)
    ensures var r := ApplyCommand(s, cmd);
      && Invariant(r)
      && (s.focusedBlockId !in Ids(s.blocks) ==> r == s)
      && (s.focusedBlockId in Ids(s.blocks) ==>
            var k := Target(s, s.focusedBlockId);
            && |r.blocks| == |s.blocks|
            && r.blocks[k] == s.blocks[k].(kind := cmd.kind, content := "")
            && (forall j :: 0 <= j < |s.blocks| && j != k ==> r.blocks[j] == s.blocks[j])
            && !r.showSlashMenu
            && r.slashQuery == s.slashQuery
            && r.focusedBlockId == s.focusedBlockId)
  {
    var p := Patch(Some(cmd.kind), Some(""), None);
    UpdateStepSpec(s, s.focusedBlockId, p);
    if s.focusedBlockId in Ids(s.blocks) {
      var k := Target(s, s.focusedBlockId);
      var r := ApplyCommand(s, cmd);
      forall j | 0 <= j < |s.blocks| && j != k ensures r.blocks[j] == s.blocks[j] {
        assert s.blocks[j].id != s.focusedBlockId;
      }
    }
  }

  /** Ticking a to-do box sets `checked` on that block, keeps its `level`, and changes nothing else. */
  lemma CheckTodoSpec(s: EditorState, id: string, checked: bool)
    requires Invariant(s)
    requires id in Ids(s.blocks)
    ensures var k := Target(s, id);
      var r := CheckTodo(s, id, checked);
      && Invariant(r)
      && |r.blocks| == |s.blocks|
      && r.blocks[k].properties.Some?
      && r.blocks[k].properties.value.checked == Some(checked)
      && (s.blocks[k].properties.Some? ==>
            r.blocks[k].properties.value.level == s.blocks[k].properties.value.level)
      && r.blocks[k].(properties := s.blocks[k].properties) == s.blocks[k]
      && (forall j :: 0 <= j < |s.blocks| && j != k ==> r.blocks[j] == s.blocks[j])
      && r.focusedBlockId == s.focusedBlockId
      && r.showSlashMenu == s.showSlashMenu && r.slashQuery == s.slashQuery
  {
    var k := Target(s, id);
    var b := s.blocks[k];
    UpdateStepSpec(s, id, Patch(None, None, Some(SetChecked(b.properties, checked))));
    var r := CheckTodo(s, id, checked);
    forall j | 0 <= j < |s.blocks| && j != k ensures r.blocks[j] == s.blocks[j] {
      assert s.blocks[j].id != id;
    }
  }

  /** The editor component, its state held in fields that the handlers rewrite. */
  class DocumentEditor {
    var blocks: seq<Block>
    var focusedBlockId: string
    var showSlashMenu: bool
    var slashQuery: string

    /** The fields, as one value. */
    function State(): EditorState
      reads this
    {
      EditorState(blocks, focusedBlockId, showSlashMenu, slashQuery)
    }

    ghost predicate Valid()
      reads this
    {
      Invariant(State())
    }

    constructor ()
      ensures Valid()
      ensures State() == InitialState
    {
      blocks := [InitialBlock];
      focusedBlockId := "initial";
      showSlashMenu := false;
      slashQuery := "";
    }

    /** `addBlock`; returns the new block's id. */
    method AddBlock(kind: Kind, afterId: string, content: string, newId: string) returns (id: string)
      requires Valid()
      requires newId !in Ids(blocks)
      modifies this
      ensures Valid()
      ensures id == newId
      ensures State() == AddStep(old(State()), kind, afterId, content, newId)
    {
      AddStepSpec(State(), kind, afterId, content, newId);
      var anchor := FindBlock(blocks, afterId);
      var position := if anchor.Some? then anchor.value.position + 0.5 else |blocks| as real;
      var newBlock := Block(newId, kind, content, position, None);
      assert newBlock == NewBlock(blocks, kind, afterId, content, newId);
      blocks := SortByPosition(blocks + [newBlock]);
      focusedBlockId := newBlock.id;
      id := newBlock.id;
    }

    /** `updateBlock`. */
    method UpdateBlock(id: string, patch: Patch)
      requires Valid()
      modifies this
      ensures Valid()
      ensures State() == UpdateStep(old(State()), id, patch)
    {
      UpdateStepSpec(State(), id, patch);
      blocks := UpdateById(blocks, id, patch);
    }

    /** `deleteBlock`. */
    method DeleteBlock(id: string)
      requires Valid()
      modifies this
      ensures Valid()
      ensures State() == DeleteStep(old(State()), id)
    {
      DeleteStepSpec(State(), id);
      if |blocks| == 1 {
        return;
      }
      var index := FindIndex(blocks, id);
      var prev := if index >= 1 then Some(blocks[index - 1]) else None;
      blocks := RemoveId(blocks, id);
      if prev.Some? {
        focusedBlockId := prev.value.id;
      }
    }

    /** `handleKeyDown`; `newId` is the id a new block would get. */
    method HandleKeyDown(key: string, shift: bool, id: string, newId: string)
      requires Valid()
      requires key == "Enter" && !shift ==> newId !in Ids(blocks)
      modifies this
      ensures Valid()
      ensures State() == KeyDown(old(State()), key, shift, id, newId)
    {
      var found := FindBlock(blocks, id);
      if found.None? {
        return;
      }
      var block := found.value;

      if key == "Enter" && !shift {
        if Trim(block.content) == "" && block.kind != Paragraph {
          UpdateBlock(id, KindPatch(Paragraph));
        } else {
          var _ := AddBlock(Paragraph, id, "", newId);
        }
      }

      if key == "Backspace" && block.content == "" {
        if block.kind != Paragraph {
          UpdateBlock(id, KindPatch(Paragraph));
        } else if |blocks| > 1 {
          DeleteBlock(id);
        }
      }

      if key == "/" && block.content == "" {
        showSlashMenu := true;
        slashQuery := "";
      }

      if key == "Escape" {
        showSlashMenu := false;
      }
    }

    /** `handleInput`, with the block's new text content. */
    method HandleInput(id: string, text: string)
      requires Valid()
      modifies this
      ensures Valid()
      ensures State() == Input(old(State()), id, text)
    {
      var menuOpen := showSlashMenu;
      UpdateBlock(id, ContentPatch(text));
      if menuOpen && StartsWith(text, "/") {
        slashQuery := text[1..];
      } else if menuOpen && !StartsWith(text, "/") {
        showSlashMenu := false;
      }
    }

    /** `applySlashCommand`. */
    method ApplySlashCommand(cmd: SlashCommand)
      requires Valid()
      modifies this
      ensures Valid()
      ensures State() == ApplyCommand(old(State()), cmd)
    {
      var found := FindBlock(blocks, focusedBlockId);
      if found.None? {
        return;
      }
      UpdateBlock(focusedBlockId, Patch(Some(cmd.kind), Some(""), None));
      showSlashMenu := false;
    }

    /** The to-do checkbox's `onChange`. */
    method ToggleTodo(id: string, checked: bool)
      requires Valid()
      modifies this
      ensures Valid()
      ensures State() == CheckTodo(old(State()), id, checked)
    {
      var found := FindBlock(blocks, id);
      if found.None? {
        return;
      }
      var block := found.value;
      UpdateBlock(id, Patch(None, None, Some(SetChecked(block.properties, checked))));
    }

    /** A block's `onFocus`: that block becomes the focused one. */
    method Focus(id: string)
      requires Valid()
      modifies this
      ensures Valid()
      ensures State() == old(State()).(focusedBlockId := id)
    {
      focusedBlockId := id;
    }

    /** `filteredCommands`, for the current query. */
    function MenuCommands(): (r: seq<SlashCommand>)
      reads this
      ensures slashQuery == "" ==> r == Commands
    {
      EmptyQueryShowsAll();
      FilteredCommands(slashQuery)
    }
  }

}
