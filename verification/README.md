# Block editor and dashboard list, modelled in Dafny

This project models the logic of two React components of a collaborative
note-taking application.

- **The document editor** (`src/app/components/DocumentEditor.tsx`). A document
  is a list of typed blocks, kept ordered by a numeric `position`. The editor
  adds, updates and deletes blocks. Its key handler turns Enter, Backspace,
  `/` and Escape into those edits and into opening or closing the
  slash-command menu. The menu filters nine fixed commands by the text typed
  after `/`. Applying a command changes the focused block's type. A to-do
  block's checkbox sets its `checked` property. An empty block shows a
  placeholder that depends on its type.
- **The dashboard** (`src/app/components/DashBoard.tsx`). It lists document
  cards, filtered by a case-insensitive search over title and preview and by
  the active tab ("starred", "shared", anything else for all).

The modules follow the program:

- `Text`: the JavaScript string operations used (`toLowerCase`, `includes`,
  `startsWith`, `trim`).
- `Sequences`: `Array.prototype.filter` and the subsequence order it keeps.
- `Blocks`: the block datatype and the list transforms the handlers are
  built from.
- `SlashCommands`: the command table, the menu filter and the placeholders.
- `Editor`: the component state and each handler as a step on it.
  - The pure functions on `EditorState` come with lemmas that state what
    each step does.
  - The class `DocumentEditor` keeps the same state in fields. Its methods
    follow the handlers' code, and each is proved to make exactly the
    matching pure step while keeping the document invariant.
- `Dashboard`: the note card, the mock notes and `filteredNotes`.

The document invariant (`Blocks.WellFormed`) has three parts:

- the list is never empty;
- block ids are unique;
- blocks are in order by position.

Every handler keeps it. The generated id of a new block is a parameter that
must be fresh.

React state is modelled sequentially: each handler reads the state, and the
updates it makes are applied in order. Positions are exact rationals (`real`).

## Model

| member | source | states |
|---|---|---|
| Text.ToLower | src/app/components/DocumentEditor.tsx:150 | keeps the length and lower-cases each character on its own |
| Text.ToLowerIdempotent | src/app/components/DashBoard.tsx:81-82 | lower-casing an already lower-cased string changes nothing |
| Text.ContainsIff | src/app/components/DocumentEditor.tsx:150-151 | `includes` holds exactly when the pattern occurs at some offset |
| Text.StartsWith | src/app/components/DocumentEditor.tsx:261 | `startsWith`: the string's first characters are the prefix |
| Text.Contains | src/app/components/DocumentEditor.tsx:150 | `includes`, as a scan over the start offsets; its meaning is given by `Text.ContainsIff` |
| Text.OccursAtContains | src/app/components/DocumentEditor.tsx:150 | an occurrence at any offset makes `includes` hold |
| Text.ContainsOccurs | src/app/components/DocumentEditor.tsx:150 | when `includes` holds, it names an offset where the pattern occurs |
| Text.ContainsEmpty | src/app/components/DocumentEditor.tsx:150 | every string includes the empty string |
| Text.TrimStart | src/app/components/DocumentEditor.tsx:215 | the result is the input with a prefix removed; every removed character is trimmable and the result does not start with one |
| Text.TrimEnd | src/app/components/DocumentEditor.tsx:215 | the result is the input with a suffix removed; every removed character is trimmable and the result does not end with one |
| Text.Trim | src/app/components/DocumentEditor.tsx:215 | `trim()`, the end trim of the start trim; its emptiness is given by `Text.TrimEmptyIff` |
| Text.TrimStartEmptyIff | src/app/components/DocumentEditor.tsx:215 | the start trim is empty exactly for a blank string |
| Text.TrimEndOfNonEmptyStart | src/app/components/DocumentEditor.tsx:215 | the end trim of a string that starts with a non-trimmable character is not empty |
| Text.TrimEmptyIff | src/app/components/DocumentEditor.tsx:215 | `trim() === ''` holds exactly when every character is JavaScript white space or a line terminator |
| Sequences.Filter | src/app/components/DashBoard.tsx:80-87 | `filter`: the result is a subsequence of the input, every element of it passes the test, and a value is in it exactly when it is in the input and passes |
| Sequences.FilterCount | src/app/components/DashBoard.tsx:80-87 | `filter` keeps every copy of a passing value and no copy of a failing one |
| Sequences.FilterAll | src/app/components/DashBoard.tsx:86 | when every element passes, `filter` returns its input |
| Sequences.FilterOfThree | src/app/components/DashBoard.tsx:80-87 | the `filter` of a three-element list keeps each element exactly when it passes |
| Sequences.FilterMonotone | src/app/components/DashBoard.tsx:84-86 | a stricter test keeps a subsequence of what a looser one keeps |
| Sequences.FilterCongruent | src/app/components/DashBoard.tsx:80-87 | two tests that agree on every element give the same list |
| Blocks.InitialBlock | src/app/components/DocumentEditor.tsx:52-59 | the constant first block: id "initial", an empty paragraph at position 0 with no properties |
| Blocks.FindIndex | src/app/components/DocumentEditor.tsx:192 | `findIndex` gives the first index holding the id, or -1 when no block holds it |
| Blocks.FindIndexFailsIff | src/app/components/DocumentEditor.tsx:192 | `findIndex` gives -1 exactly for an id the document does not hold |
| Blocks.FindIndexUnique | src/app/components/DocumentEditor.tsx:192 | with unique ids, `findIndex` gives the one index holding the id |
| Blocks.FindBlock | src/app/components/DocumentEditor.tsx:208-209 | `find` gives nothing exactly for an unknown id, and otherwise the first block of the list with that id |
| Blocks.ApplyPatch | src/app/components/DocumentEditor.tsx:184 | the spread `{ ...block, ...updates }` never changes a block's id or position (the other fields: `Blocks.PatchKeepsUnnamedFields`) |
| Blocks.PatchKeepsUnnamedFields | src/app/components/DocumentEditor.tsx:184 | the spread `{ ...block, ...updates }` replaces each field the update names and keeps every other field, including id and position |
| Blocks.UpdateById | src/app/components/DocumentEditor.tsx:183-185 | the `map` patches every block with the id and keeps every other block at its index |
| Blocks.UpdatePreservesWellFormed | src/app/components/DocumentEditor.tsx:182-186 | an update keeps the document invariant and the set of ids |
| Blocks.UpdateUnknownIsIdentity | src/app/components/DocumentEditor.tsx:183-185 | updating an id the document does not hold leaves it unchanged |
| Blocks.OtherThan | src/app/components/DocumentEditor.tsx:195 | the filter's callback `b => b.id !== id` |
| Blocks.RemoveId | src/app/components/DocumentEditor.tsx:195 | the delete's `filter`, defined as `Sequences.Filter` with the test `Blocks.OtherThan`: an ordered sub-list of the input in which no block has the id (exactly which block goes: `Blocks.RemoveIdShape`) |
| Blocks.RemoveIdDropsId | src/app/components/DocumentEditor.tsx:195 | after the `filter`, no block has the id |
| Blocks.RemoveAbsent | src/app/components/DocumentEditor.tsx:195 | the `filter` by id leaves a list without that id unchanged |
| Blocks.RemoveAt | src/app/components/DocumentEditor.tsx:195 | with unique ids, the `filter` removes exactly the block with the id, keeping the rest in order |
| Blocks.RemoveIdShape | src/app/components/DocumentEditor.tsx:192-195 | the `filter` removes exactly the block at the index `findIndex` gives, if any |
| Blocks.RemovePreservesWellFormed | src/app/components/DocumentEditor.tsx:189-195 | deleting from a document of two or more blocks keeps the invariant |
| Blocks.CutKeepsWellFormed | src/app/components/DocumentEditor.tsx:189-195 | cutting one block out of a well-formed list of two or more keeps it well formed |
| Blocks.FirstAfter | src/app/components/DocumentEditor.tsx:169 | the insertion point is past every position at most the key and before a greater one |
| Blocks.InsertAt | src/app/components/DocumentEditor.tsx:169 | inserting by position splices the block in at the insertion point |
| Blocks.InsertMultiset | src/app/components/DocumentEditor.tsx:169 | inserting adds the block and nothing else |
| Blocks.InsertSorted | src/app/components/DocumentEditor.tsx:169 | inserting into an ordered list keeps it ordered |
| Blocks.InsertPlacement | src/app/components/DocumentEditor.tsx:169 | in an ordered list, every block from the insertion point on has a greater position than the inserted one |
| Blocks.InsertLast | src/app/components/DocumentEditor.tsx:169 | a block whose position is at least every other one's is inserted at the end |
| Blocks.SortByPosition | src/app/components/DocumentEditor.tsx:169 | the sort by position is a permutation of its input and is ordered by position |
| Blocks.SortSnoc | src/app/components/DocumentEditor.tsx:169 | sorting a list with one more element inserts it into the sorted rest |
| Blocks.SortOfSortedIsIdentity | src/app/components/DocumentEditor.tsx:169 | the stable sort of an ordered list is that list |
| Blocks.NewPosition | src/app/components/DocumentEditor.tsx:159-160 | the new position is the first anchor's position plus 0.5, or the block count when no block is the anchor |
| Blocks.NewBlock | src/app/components/DocumentEditor.tsx:162-167 | the `newBlock` literal: the generated id, the given type and content, the new position and no properties |
| Blocks.AddBlockTo | src/app/components/DocumentEditor.tsx:169 | `[...prev, newBlock].sort(...)` is one block longer, ordered by position, and holds exactly the old blocks and the new one |
| Blocks.AddBlockShape | src/app/components/DocumentEditor.tsx:158-169 | adding to an ordered list splices in only the new block, after every block whose position is at most its own and before every greater one |
| Blocks.AddBlockAfterAnchor | src/app/components/DocumentEditor.tsx:159-169 | the new block lands after its anchor |
| Blocks.AddAfterIndex | src/app/components/DocumentEditor.tsx:158-169 | adding after the block at index k keeps that block at k and puts the new block, at its position plus 0.5, after it |
| Blocks.AddBlockAfterTie | src/app/components/DocumentEditor.tsx:160-169 | when a block already sits half a unit after the anchor, the new block goes after that block, not directly after the anchor |
| Blocks.SpliceUnique | src/app/components/DocumentEditor.tsx:162-169 | splicing in a block with a fresh id keeps ids unique |
| Blocks.SpliceIds | src/app/components/DocumentEditor.tsx:162-169 | splicing in a block adds exactly its id to the set of ids |
| Blocks.AddPreservesWellFormed | src/app/components/DocumentEditor.tsx:158-169 | adding a block with a fresh id keeps the invariant, adds one block and adds exactly the new id |
| Blocks.SetChecked | src/app/components/DocumentEditor.tsx:339-341 | `{ ...block.properties, checked }` sets `checked` and keeps `level` (absent when there were no properties) |
| SlashCommands.Commands | src/app/components/DocumentEditor.tsx:70-146 | the nine commands of the menu, in menu order, with their names, descriptions, block types and keywords as written (one per type: `SlashCommands.EveryKindHasOneCommand`) |
| SlashCommands.SomeKeywordContains | src/app/components/DocumentEditor.tsx:151 | `keywords.some(keyword => keyword.includes(q))`, walking the keywords in order; its meaning is given by `SlashCommands.SomeKeywordContainsIff` |
| SlashCommands.SomeKeywordContainsIff | src/app/components/DocumentEditor.tsx:151 | `keywords.some(k => k.includes(q))` holds exactly when some keyword includes the query |
| SlashCommands.CommandMatches | src/app/components/DocumentEditor.tsx:149-151 | the filter callback: the lower-cased name includes the lower-cased query, or some keyword, not lower-cased, includes it (`SlashCommands.FilteredCommandsIff`) |
| SlashCommands.FilteredCommands | src/app/components/DocumentEditor.tsx:149-152 | `filteredCommands`, the `filter` of the command table by the menu's test; its meaning is given by `SlashCommands.FilteredCommandsIff` |
| SlashCommands.FilteredCommandsIff | src/app/components/DocumentEditor.tsx:149-152 | the menu shows, in menu order, exactly the commands whose lower-cased name includes the lower-cased query or one of whose keywords (not lower-cased) includes it |
| SlashCommands.EmptyQueryShowsAll | src/app/components/DocumentEditor.tsx:149-152 | with an empty query the menu shows all nine commands in order |
| SlashCommands.EveryKindHasOneCommand | src/app/components/DocumentEditor.tsx:73-146 | every block type is the type of exactly one command |
| SlashCommands.Placeholder | src/app/components/DocumentEditor.tsx:364-376 | every block type has a non-empty placeholder |
| SlashCommands.PlaceholderDistinguishesKinds | src/app/components/DocumentEditor.tsx:364-376 | two types share a placeholder only when both are list types |
| SlashCommands.PlaceholderIsCommandName | src/app/components/DocumentEditor.tsx:364-376 | a heading's, a quote's and a code block's placeholder is its command's menu name |
| Editor.InitialState | src/app/components/DocumentEditor.tsx:52-65 | the initial state: the one initial block, focus on "initial", the menu closed and an empty query |
| Editor.AddStep | src/app/components/DocumentEditor.tsx:158-179 | `addBlock` as a step on the editor state; what it does is given by `Editor.AddStepSpec` |
| Editor.UpdateStep | src/app/components/DocumentEditor.tsx:182-186 | `updateBlock` as a step; given by `Editor.UpdateStepSpec` |
| Editor.DeleteStep | src/app/components/DocumentEditor.tsx:189-204 | `deleteBlock` as a step, with the one-block guard and the focus move; given by `Editor.DeleteStepSpec` |
| Editor.KeyDown | src/app/components/DocumentEditor.tsx:207-253 | `handleKeyDown` as a step; every case is given by a lemma: unknown block, Enter with and without Shift, Backspace, `/` on an empty block and on text, Escape, other keys, and Shift on keys other than Enter |
| Editor.Input | src/app/components/DocumentEditor.tsx:256-266 | `handleInput` as a step; given by `Editor.InputSpec` |
| Editor.ApplyCommand | src/app/components/DocumentEditor.tsx:269-285 | `applySlashCommand` as a step; given by `Editor.ApplyCommandSpec` |
| Editor.CheckTodo | src/app/components/DocumentEditor.tsx:339-341 | the checkbox's `onChange` as a step; given by `Editor.CheckTodoSpec` |
| Editor.AddStepSpec | src/app/components/DocumentEditor.tsx:158-179 | `addBlock` keeps the invariant, adds exactly one block (fresh id, the given type and content, no properties), keeps every old block, focuses the new one and leaves the menu alone |
| Editor.UpdateStepSpec | src/app/components/DocumentEditor.tsx:182-186 | `updateBlock` keeps the invariant and the ids, leaves focus and menu alone, and does nothing for an unknown id |
| Editor.DeleteStepSpec | src/app/components/DocumentEditor.tsx:189-204 | `deleteBlock` does nothing to a one-block document; otherwise it removes exactly the block with the id, keeps the rest in order, and moves focus to the block before it when there is one |
| Editor.KeyDownUnknownBlock | src/app/components/DocumentEditor.tsx:208-209 | a key press on an unknown block does nothing |
| Editor.Target | src/app/components/DocumentEditor.tsx:208 | the block a key press is on has the id pressed on |
| Editor.KeyDownEnterCases | src/app/components/DocumentEditor.tsx:212-222 | Enter without Shift converts a blank non-paragraph to a paragraph, and otherwise adds a paragraph after the block |
| Editor.KeyDownEnterConverts | src/app/components/DocumentEditor.tsx:215-217 | on a blank non-paragraph, Enter changes only that block's type, to paragraph, adds no block, and leaves focus and menu as they were |
| Editor.KeyDownEnterAdds | src/app/components/DocumentEditor.tsx:218-221 | otherwise Enter adds one empty paragraph, after the block and half a unit further on, focuses it, and leaves the menu as it was |
| Editor.KeyDownShiftEnter | src/app/components/DocumentEditor.tsx:212 | Shift+Enter changes nothing |
| Editor.KeyDownBackspace | src/app/components/DocumentEditor.tsx:225-232 | Backspace on an empty block turns a non-paragraph into a paragraph, deletes a paragraph unless it is the last block, and does nothing on a block with text; converting keeps focus and menu, deleting keeps the menu |
| Editor.KeyDownMenu | src/app/components/DocumentEditor.tsx:235-252 | `/` on an empty block opens the menu with an empty query; Escape closes it; neither changes the blocks or the focus |
| Editor.KeyDownSlashOnText | src/app/components/DocumentEditor.tsx:235 | `/` on a block that holds text leaves the state unchanged |
| Editor.KeyDownOtherKeys | src/app/components/DocumentEditor.tsx:207-253 | a key other than Enter, Backspace, `/` and Escape, such as a typed letter, leaves the state unchanged |
| Editor.KeyDownShiftOnlyForEnter | src/app/components/DocumentEditor.tsx:211-251 | only the Enter test reads `shiftKey`: for every other key the step is the same with Shift held or not |
| Editor.KeyDownPreservesInvariant | src/app/components/DocumentEditor.tsx:207-253 | every key press keeps the document invariant |
| Editor.InputSpec | src/app/components/DocumentEditor.tsx:256-266 | typing sets only the content of the block with the id; with the menu open, text starting with `/` becomes the query without the slash, and other text closes the menu |
| Editor.ApplyCommandSpec | src/app/components/DocumentEditor.tsx:269-285 | a command gives the focused block the command's type and empty content, changes no other block, closes the menu and keeps the query and the focus; with no focused block it does nothing |
| Editor.CheckTodoSpec | src/app/components/DocumentEditor.tsx:339-341 | the checkbox sets `checked` on that block only and keeps its `level` and every other field, and leaves focus and menu as they were |
| Editor.DocumentEditor.constructor | src/app/components/DocumentEditor.tsx:52-65 | a new editor holds one empty paragraph with id `initial`, focused, with the menu closed |
| Editor.DocumentEditor.AddBlock | src/app/components/DocumentEditor.tsx:158-179 | performs the `addBlock` step, keeps the invariant and returns the new id |
| Editor.DocumentEditor.UpdateBlock | src/app/components/DocumentEditor.tsx:182-186 | performs the `updateBlock` step and keeps the invariant |
| Editor.DocumentEditor.DeleteBlock | src/app/components/DocumentEditor.tsx:189-204 | performs the `deleteBlock` step and keeps the invariant |
| Editor.DocumentEditor.HandleKeyDown | src/app/components/DocumentEditor.tsx:207-253 | the handler's sequence of tests performs the `handleKeyDown` step and keeps the invariant |
| Editor.DocumentEditor.HandleInput | src/app/components/DocumentEditor.tsx:256-266 | performs the `handleInput` step and keeps the invariant |
| Editor.DocumentEditor.ApplySlashCommand | src/app/components/DocumentEditor.tsx:269-285 | performs the `applySlashCommand` step and keeps the invariant |
| Editor.DocumentEditor.ToggleTodo | src/app/components/DocumentEditor.tsx:339-341 | performs the checkbox step and keeps the invariant |
| Editor.DocumentEditor.Focus | src/app/components/DocumentEditor.tsx:296 | focusing a block makes it the focused block and changes nothing else |
| Editor.DocumentEditor.MenuCommands | src/app/components/DocumentEditor.tsx:149-152 | with nothing typed after `/`, the menu lists every command |
| Dashboard.MockNotes | src/app/components/DashBoard.tsx:43-68 | the three mock notes in order, with the fields as written (`Dashboard.StarredMockNotes`) |
| Dashboard.MatchesSearch | src/app/components/DashBoard.tsx:81-82 | `matchesSearch`: the lower-cased title or preview includes the lower-cased query (`Dashboard.MatchesSearchIff`) |
| Dashboard.Keeps | src/app/components/DashBoard.tsx:84-86 | the tab tests: "starred" also needs the star, "shared" more than one collaborator, any other tab only the search (`Dashboard.StarredTab`, `Dashboard.SharedTab`) |
| Dashboard.FilterNotes | src/app/components/DashBoard.tsx:80-87 | `notes.filter(...)` with the search and the tab; its meaning is given by `Dashboard.FilterNotesIff` |
| Dashboard.FilteredNotes | src/app/components/DashBoard.tsx:80-87 | `filteredNotes`, that filter on the dashboard's own notes |
| Dashboard.FieldMatchesIff | src/app/components/DashBoard.tsx:81 | one field matches when its lower-cased text contains the lower-cased query at some offset |
| Dashboard.MatchesSearchIff | src/app/components/DashBoard.tsx:81-82 | a note matches when its lower-cased title or preview contains the lower-cased query at some offset |
| Dashboard.SearchIgnoresQueryCase | src/app/components/DashBoard.tsx:81-82 | two queries that lower-case alike match the same notes |
| Dashboard.SearchOfLoweredQuery | src/app/components/DashBoard.tsx:81-82 | lower-casing the query first changes nothing |
| Dashboard.FilterNotesIff | src/app/components/DashBoard.tsx:80-87 | the list keeps the notes' order and holds exactly the notes that match the search and the tab |
| Dashboard.EmptyQueryListsAll | src/app/components/DashBoard.tsx:86 | with an empty query, any tab other than starred and shared lists every note |
| Dashboard.StarredTab | src/app/components/DashBoard.tsx:84 | under the starred tab, a note is listed exactly when it is starred and matches |
| Dashboard.SharedTab | src/app/components/DashBoard.tsx:85 | under the shared tab, a note is listed exactly when it has more than one collaborator and matches |
| Dashboard.TabsNarrowTheList | src/app/components/DashBoard.tsx:84-86 | the starred and shared lists are ordered sub-lists of the all-notes list for the same query |
| Dashboard.EmptyQueryStarred | src/app/components/DashBoard.tsx:84 | with an empty query, the starred tab lists exactly the starred notes, in order |
| Dashboard.StarredMockNotes | src/app/components/DashBoard.tsx:43-68 | on the dashboard's three notes, the starred tab with no query lists the first and the third, in that order |

## Left out

- Rendering, CSS classes, icons, the header and title input, the share and
  star buttons, and drag handles are presentation only. The `draggedBlock`
  state is declared but never read by the handlers.
- Focusing DOM elements after `setTimeout`, and the slash menu's screen
  position computed from `getBoundingClientRect`, are DOM effects. The
  state change they accompany is modelled.
- Closing the menu on a click outside it (the `mousedown` listener) is not
  modelled, because it depends on DOM containment of the event target.
- `generateBlockId` reads the clock and a random source. The id is a
  parameter that must not already be in use.
- Partial updates: `updateBlock` accepts any `Partial<Block>`, but the model's
  patch covers only type, content and properties. No call site passes an
  id or a position.
- Blocks.NewPosition: positions are exact rationals, not IEEE doubles.
  Rounding of `position + 0.5` is not modelled.
- Text.ToLower: maps only the ASCII letters A–Z. JavaScript's
  `toLowerCase` maps every Unicode upper-case letter.
- React batching and stale closures are not modelled: handlers are
  sequential steps on one state.
- `textContent || ''` is modelled as a string parameter of the input
  handler, because a null text content is a DOM matter.
- The dashboard's logout, profile menu, navigation and "create new" button
  are I/O. The landing page, the database connection and the
  authentication route are not part of this model.
