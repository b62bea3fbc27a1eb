/**
 * The editor's document: an ordered list of blocks, and the list
 * transforms the editor's handlers are built from (`find`, `findIndex`,
 * the by-id `map` of an update, the by-id `filter` of a delete, and the
 * stable sort by position that follows an insertion).
 */
module Blocks {
  import opened Wrappers
  import opened Sequences

  /** The nine block types of the editor. */
  datatype Kind =
    | Paragraph
    | Heading1
    | Heading2
    | Heading3
    | BulletList
    | NumberedList
    | Todo
    | Quote
    | Code

  /** The optional per-block properties; both entries may be absent. */
  datatype Properties = Properties(checked: Option<bool>, level: Option<int>)

  /**
   * One block. `position` is the sort key; it is a JavaScript number in the
   * component and an exact rational here.
   */
  datatype Block = Block(
    id: string,
    kind: Kind,
    content: string,
    position: real,
    properties: Option<Properties>)

  /**
   * A partial update of a block: each present field replaces the block's
   * field, each absent one leaves it as it was.
   */
  datatype Patch = Patch(kind: Option<Kind>, content: Option<string>, properties: Option<Properties>)

  /** The patch that only changes the block type. */
  function KindPatch(k: Kind): Patch
  {
    Patch(Some(k), None, None)
  }

  /** The patch that only changes the content. */
  function ContentPatch(text: string): Patch
  {
    Patch(None, Some(text), None)
  }

  /** The single empty paragraph a new document starts with. */
  const InitialBlock: Block := Block("initial", Paragraph, "", 0.0, None)

  /** The ids in use. */
  function Ids(blocks: seq<Block>): set<string>
  {
    set b | b in blocks :: b.id
  }

  predicate UniqueIds(blocks: seq<Block>)
  {
    forall i, j :: 0 <= i < j < |blocks| ==> blocks[i].id != blocks[j].id
  }

  predicate SortedByPosition(blocks: seq<Block>)
  {
    forall i, j :: 0 <= i < j < |blocks| ==> blocks[i].position <= blocks[j].position
  }

  /** The document invariant: never empty, ids unique, ordered by position. */
  predicate WellFormed(blocks: seq<Block>)
  {
    |blocks| > 0 && UniqueIds(blocks) && SortedByPosition(blocks)
  }

  /** `blocks.findIndex(b => b.id === id)`: the first index with that id, or -1. */
  function FindIndex(blocks: seq<Block>, id: string): (r: int)
    ensures -1 <= r < |blocks|
    ensures r >= 0 ==> blocks[r].id == id
    ensures r == -1 ==> forall j :: 0 <= j < |blocks| ==> blocks[j].id != id
    ensures forall j :: 0 <= j < r ==> blocks[j].id != id
  {
    if blocks == [] then -1
    else if blocks[0].id == id then 0
    else
      var k := FindIndex(blocks[1..], id);
      if k < 0 then -1 else k + 1
  }

  /** `findIndex` fails exactly on an id the list does not hold. */
  lemma FindIndexFailsIff(blocks: seq<Block>, id: string)
    ensures FindIndex(blocks, id) == -1 <==> id !in Ids(blocks)
  {
    var k := FindIndex(blocks, id);
    if k >= 0 {
      assert blocks[k] in blocks;
    }
  }

  /** With unique ids, `findIndex` gives the one index holding the id. */
  lemma FindIndexUnique(blocks: seq<Block>, id: string, k: nat)
    requires UniqueIds(blocks)
    requires k < |blocks| && blocks[k].id == id
    ensures FindIndex(blocks, id) == k
  {
    var f := FindIndex(blocks, id);
    assert f >= 0 && f <= k;
    assert blocks[f].id == blocks[k].id;
  }

  /** `blocks.find(b => b.id === id)`. */
  function FindBlock(blocks: seq<Block>, id: string): (r: Option<Block>)
    ensures r.None? <==> id !in Ids(blocks)
    ensures r.Some? ==> r.value.id == id && r.value in blocks
    ensures r.Some? ==> exists k :: 0 <= k < |blocks| && blocks[k] == r.value
                                   && forall j :: 0 <= j < k ==> blocks[j].id != id
  {
    FindIndexFailsIff(blocks, id);
    var k := FindIndex(blocks, id);
    if k < 0 then None else Some(blocks[k])
  }

  /** `{ ...block, ...updates }`. */
  function ApplyPatch(b: Block, p: Patch): (r: Block)
    ensures r.id == b.id && r.position == b.position
  {
    Block(
      b.id,
      if p.kind.Some? then p.kind.value else b.kind,
      if p.content.Some? then p.content.value else b.content,
      b.position,
      if p.properties.Some? then p.properties else b.properties)
  }

  /** A patch never changes a block's id or position, and each field it leaves out keeps its value. */
  lemma PatchKeepsUnnamedFields(b: Block, p: Patch)
    ensures ApplyPatch(b, p).id == b.id && ApplyPatch(b, p).position == b.position
    ensures p.kind.None? ==> ApplyPatch(b, p).kind == b.kind
    ensures p.content.None? ==> ApplyPatch(b, p).content == b.content
    ensures p.properties.None? ==> ApplyPatch(b, p).properties == b.properties
    ensures p.kind.Some? ==> ApplyPatch(b, p).kind == p.kind.value
    ensures p.content.Some? ==> ApplyPatch(b, p).content == p.content.value
    ensures p.properties.Some? ==> ApplyPatch(b, p).properties == p.properties
  {
  }

  /** `blocks.map(b => b.id === id ? { ...b, ...patch } : b)`. */
  function UpdateById(blocks: seq<Block>, id: string, patch: Patch): (r: seq<Block>)
    ensures |r| == |blocks|
    ensures forall i :: 0 <= i < |blocks| ==>
      r[i] == if blocks[i].id == id then ApplyPatch(blocks[i], patch) else blocks[i]
  {
    if blocks == [] then []
    else
      [if blocks[0].id == id then ApplyPatch(blocks[0], patch) else blocks[0]]
      + UpdateById(blocks[1..], id, patch)
  }

  /** An update keeps every id and every position, so it keeps the document invariant. */
  lemma UpdatePreservesWellFormed(blocks: seq<Block>, id: string, patch: Patch)
    requires WellFormed(blocks)
    ensures WellFormed(UpdateById(blocks, id, patch))
    ensures Ids(UpdateById(blocks, id, patch)) == Ids(blocks)
  {
    var r := UpdateById(blocks, id, patch);
    forall x | x in Ids(r) ensures x in Ids(blocks) {
      var i :| 0 <= i < |r| && r[i].id == x;
      assert blocks[i] in blocks;
    }
    forall x | x in Ids(blocks) ensures x in Ids(r) {
      var i :| 0 <= i < |blocks| && blocks[i].id == x;
      assert r[i] in r;
    }
  }

  /** An update of an id the document does not hold changes nothing. */
  lemma UpdateUnknownIsIdentity(blocks: seq<Block>, id: string, patch: Patch)
    requires id !in Ids(blocks)
    ensures UpdateById(blocks, id, patch) == blocks
  {
    var r := UpdateById(blocks, id, patch);
    forall i | 0 <= i < |blocks| ensures r[i] == blocks[i] {
      assert blocks[i] in blocks;
    }
  }

  /** The delete's filter test: the block does not have the id. */
  function OtherThan(id: string): Block -> bool
  {
    (b: Block) => b.id != id
  }

  /** `blocks.filter(b => b.id !== id)`. */
  function RemoveId(blocks: seq<Block>, id: string): (r: seq<Block>)
    ensures IsSubsequence(r, blocks)
    ensures forall i :: 0 <= i < |r| ==> r[i].id != id
  {
    Filter(blocks, OtherThan(id))
  }

  /** After the filter, no block has the id. */
  lemma RemoveIdDropsId(blocks: seq<Block>, id: string)
    ensures id !in Ids(RemoveId(blocks, id))
  {
  }

  /** The filter keeps a list that holds no block with that id. */
  lemma {:induction false} RemoveAbsent(blocks: seq<Block>, id: string)
    requires forall j :: 0 <= j < |blocks| ==> blocks[j].id != id
    ensures RemoveId(blocks, id) == blocks
  {
    if blocks != [] {
      RemoveAbsent(blocks[1..], id);
      assert blocks == [blocks[0]] + blocks[1..];
    }
  }

  /** With unique ids the filter removes exactly the one block that has the id. */
  lemma {:induction false} RemoveAt(blocks: seq<Block>, id: string, k: nat)
    requires UniqueIds(blocks)
    requires k < |blocks| && blocks[k].id == id
    ensures RemoveId(blocks, id) == blocks[..k] + blocks[k + 1..]
  {
    var tail := blocks[1..];
    if k == 0 {
      RemoveAbsent(tail, id);
    } else {
      assert UniqueIds(tail);
      RemoveAt(tail, id, k - 1);
      assert blocks[..k] == [blocks[0]] + tail[..k - 1];
      assert blocks[k + 1..] == tail[k..];
    }
  }

  /** With unique ids the filter removes exactly the block `findIndex` finds, if any. */
  lemma RemoveIdShape(blocks: seq<Block>, id: string)
    requires UniqueIds(blocks)
    ensures var k := FindIndex(blocks, id);
      RemoveId(blocks, id) == if k < 0 then blocks else blocks[..k] + blocks[k + 1..]
  {
    var k := FindIndex(blocks, id);
    if k < 0 {
      RemoveAbsent(blocks, id);
    } else {
      RemoveAt(blocks, id, k);
    }
  }

  /** Dropping one block from a well-formed list of two or more keeps it well formed. */
  lemma RemovePreservesWellFormed(blocks: seq<Block>, id: string)
    requires WellFormed(blocks) && |blocks| > 1
    ensures WellFormed(RemoveId(blocks, id))
  {
    RemoveIdShape(blocks, id);
    var k := FindIndex(blocks, id);
    if k >= 0 {
      CutKeepsWellFormed(blocks, k);
    }
  }

  /** Cutting one block out of a well-formed list of two or more keeps it well formed. */
  lemma CutKeepsWellFormed(blocks: seq<Block>, k: nat)
    requires WellFormed(blocks) && |blocks| > 1 && k < |blocks|
    ensures WellFormed(blocks[..k] + blocks[k + 1..])
  {
    var r := blocks[..k] + blocks[k + 1..];
    assert |r| == |blocks| - 1;
    forall i, j | 0 <= i < j < |r|
      ensures r[i].id != r[j].id && r[i].position <= r[j].position
    {
      var i', j' := if i < k then i else i + 1, if j < k then j else j + 1;
      assert r[i] == blocks[i'] && r[j] == blocks[j'] && i' < j';
    }
  }

  /**
   * The first index whose position is greater than `x`, or `|s|`: where a
   * stable insertion places a new element with key `x`.
   */
  function FirstAfter(s: seq<Block>, x: real): (k: nat)
    ensures k <= |s|
    ensures forall i :: 0 <= i < k ==> s[i].position <= x
    ensures k < |s| ==> x < s[k].position
  {
    if s == [] then 0
    else if x < s[0].position then 0
    else 1 + FirstAfter(s[1..], x)
  }

  /** Insertion of `b` before the first element whose position is greater. */
  function InsertByPosition(s: seq<Block>, b: Block): seq<Block>
  {
    if s == [] then [b]
    else if b.position < s[0].position then [b] + s
    else [s[0]] + InsertByPosition(s[1..], b)
  }

  /** The insertion puts `b` at `FirstAfter` and leaves every other element in order around it. */
  lemma {:induction false} InsertAt(s: seq<Block>, b: Block)
    ensures var k := FirstAfter(s, b.position);
      InsertByPosition(s, b) == s[..k] + [b] + s[k..]
  {
    if s != [] && s[0].position <= b.position {
      InsertAt(s[1..], b);
      var k := FirstAfter(s[1..], b.position);
      assert s[..k + 1] == [s[0]] + s[1..][..k];
      assert s[k + 1..] == s[1..][k..];
    }
  }

  /** The insertion adds `b` and nothing else. */
  lemma InsertMultiset(s: seq<Block>, b: Block)
    ensures multiset(InsertByPosition(s, b)) == multiset(s) + multiset{b}
  {
    InsertAt(s, b);
    var k := FirstAfter(s, b.position);
    var front, back := s[..k], s[k..];
    assert s == front + back;
    assert multiset(s) == multiset(front) + multiset(back);
    assert multiset(front + [b] + back) == multiset(front) + multiset{b} + multiset(back);
  }

  /** Inserting into a list ordered by position keeps it ordered. */
  lemma InsertSorted(s: seq<Block>, b: Block)
    requires SortedByPosition(s)
    ensures SortedByPosition(InsertByPosition(s, b))
  {
    InsertAt(s, b);
    InsertPlacement(s, b);
    var k := FirstAfter(s, b.position);
    var r := s[..k] + [b] + s[k..];
    assert forall i :: 0 <= i < k ==> r[i] == s[i];
    assert forall i :: k < i < |r| ==> r[i] == s[i - 1];
    forall i, j | 0 <= i < j < |r| ensures r[i].position <= r[j].position {
      if j == k {
        assert r[i] == s[i];
      } else if i == k {
        assert r[j] == s[j - 1];
      }
    }
  }

  /** In an ordered list, every block from the insertion point on has a greater position. */
  lemma InsertPlacement(s: seq<Block>, b: Block)
    requires SortedByPosition(s)
    ensures forall i :: FirstAfter(s, b.position) <= i < |s| ==> b.position < s[i].position
  {
    var k := FirstAfter(s, b.position);
    if k < |s| {
      assert b.position < s[k].position;
      assert forall i :: k <= i < |s| ==> s[k].position <= s[i].position;
    }
  }

  /**
   * `[...s].sort((a, b) => a.position - b.position)`: the stable sort by
   * position, built as an insertion sort. Its contract gives a permutation
   * ordered by position; how it orders blocks of equal position is proved
   * only for the input `addBlock` builds, an ordered list with one block
   * appended (`SortOfSortedIsIdentity`, `AddBlockShape`).
   */
  function SortByPosition(s: seq<Block>): (r: seq<Block>)
    ensures multiset(r) == multiset(s)
    ensures SortedByPosition(r)
  {
    if s == [] then []
    else
      var init := s[..|s| - 1];
      assert s == init + [s[|s| - 1]];
      var sorted := SortByPosition(init);
      InsertSorted(sorted, s[|s| - 1]);
      InsertMultiset(sorted, s[|s| - 1]);
      InsertByPosition(sorted, s[|s| - 1])
  }

  /** Sorting a list with one more element inserts that element into the sorted rest. */
  lemma SortSnoc(init: seq<Block>, x: Block)
    ensures SortByPosition(init + [x]) == InsertByPosition(SortByPosition(init), x)
  {
    var s := init + [x];
    assert s[..|s| - 1] == init && s[|s| - 1] == x;
  }

  /** A block whose position is at least every other goes at the end. */
  lemma {:induction false} InsertLast(s: seq<Block>, b: Block)
    requires forall i :: 0 <= i < |s| ==> s[i].position <= b.position
    ensures InsertByPosition(s, b) == s + [b]
  {
    if s != [] {
      InsertLast(s[1..], b);
      assert s + [b] == [s[0]] + (s[1..] + [b]);
    }
  }

  /** A list that is already ordered is its own stable sort. */
  lemma {:induction false} SortOfSortedIsIdentity(s: seq<Block>)
    requires SortedByPosition(s)
    ensures SortByPosition(s) == s
    decreases |s|
  {
    if s != [] {
      var n := |s| - 1;
      var init := s[..n];
      assert s == init + [s[n]];
      assert SortedByPosition(init);
      SortOfSortedIsIdentity(init);
      SortSnoc(init, s[n]);
      InsertLast(init, s[n]);
    }
  }

  /**
   * The position `addBlock` gives a new block: half a unit after the first
   * block with the anchor id, or the list's length when no block has it.
   */
  function NewPosition(blocks: seq<Block>, afterId: string): (p: real)
    ensures afterId !in Ids(blocks) ==> p == |blocks| as real
    ensures forall i :: (0 <= i < |blocks| && blocks[i].id == afterId
                          && forall j :: 0 <= j < i ==> blocks[j].id != afterId)
                         ==> p == blocks[i].position + 0.5
  {
    var k := FindIndex(blocks, afterId);
    if k >= 0 then blocks[k].position + 0.5 else |blocks| as real
  }

  /** The block `addBlock` creates. */
  function NewBlock(blocks: seq<Block>, kind: Kind, afterId: string, content: string, newId: string): Block
  {
    Block(newId, kind, content, NewPosition(blocks, afterId), None)
  }

  /** `[...blocks, newBlock].sort(byPosition)`. */
  function AddBlockTo(blocks: seq<Block>, kind: Kind, afterId: string, content: string, newId: string): (r: seq<Block>)
    ensures |r| == |blocks| + 1
    ensures SortedByPosition(r)
    ensures forall b :: b in r <==> b in blocks || b == NewBlock(blocks, kind, afterId, content, newId)
  {
    var nb := NewBlock(blocks, kind, afterId, content, newId);
    var r := SortByPosition(blocks + [nb]);
    assert forall b :: b in r <==> b in multiset(blocks + [nb]);
    r
  }

  /**
   * On an ordered list, adding a block inserts it, and only it, in front of
   * the first block with a greater position: every old block stays, in its
   * old order, and the new block comes after every block it ties with.
   */
  lemma AddBlockShape(blocks: seq<Block>, kind: Kind, afterId: string, content: string, newId: string)
    requires SortedByPosition(blocks)
    ensures var nb := NewBlock(blocks, kind, afterId, content, newId);
      var k := FirstAfter(blocks, nb.position);
      && AddBlockTo(blocks, kind, afterId, content, newId) == blocks[..k] + [nb] + blocks[k..]
      && (forall i :: 0 <= i < k ==> blocks[i].position <= nb.position)
      && (forall i :: k <= i < |blocks| ==> nb.position < blocks[i].position)
  {
    var nb := NewBlock(blocks, kind, afterId, content, newId);
    SortSnoc(blocks, nb);
    SortOfSortedIsIdentity(blocks);
    InsertAt(blocks, nb);
    InsertPlacement(blocks, nb);
  }

  /**
   * Adding after the block at index `k` keeps that block at `k` and puts the
   * new block, at its position plus 0.5, somewhere after it.
   */
  lemma AddAfterIndex(blocks: seq<Block>, kind: Kind, k: nat, content: string, newId: string)
    requires WellFormed(blocks) && k < |blocks|
    ensures var r := AddBlockTo(blocks, kind, blocks[k].id, content, newId);
      && |r| == |blocks| + 1
      && r[k] == blocks[k]
      && exists j :: k < j < |r| && r[j] == Block(newId, kind, content, blocks[k].position + 0.5, None)
  {
    var afterId := blocks[k].id;
    FindIndexUnique(blocks, afterId, k);
    AddBlockShape(blocks, kind, afterId, content, newId);
    var nb := NewBlock(blocks, kind, afterId, content, newId);
    assert nb == Block(newId, kind, content, blocks[k].position + 0.5, None);
    var j := FirstAfter(blocks, nb.position);
    assert j > k;
    var r := blocks[..j] + [nb] + blocks[j..];
    assert r[k] == blocks[k] && r[j] == nb;
  }

  /** The new block lands strictly after its anchor. */
  lemma AddBlockAfterAnchor(blocks: seq<Block>, kind: Kind, afterId: string, content: string, newId: string)
    requires SortedByPosition(blocks)
    requires afterId in Ids(blocks)
    ensures FindIndex(blocks, afterId) < FirstAfter(blocks, NewBlock(blocks, kind, afterId, content, newId).position)
  {
    var a := FindIndex(blocks, afterId);
    var nb := NewBlock(blocks, kind, afterId, content, newId);
    AddBlockShape(blocks, kind, afterId, content, newId);
    assert nb.position == blocks[a].position + 0.5;
  }

  /**
   * A new block ties with a block already half a unit after the anchor and
   * is placed after it, so it does not land directly after its anchor.
   */
  lemma AddBlockAfterTie(blocks: seq<Block>, kind: Kind, k: nat, content: string, newId: string)
    requires WellFormed(blocks)
    requires k + 1 < |blocks| && blocks[k + 1].position == blocks[k].position + 0.5
    requires newId !in Ids(blocks)
    ensures var r := AddBlockTo(blocks, kind, blocks[k].id, content, newId);
      |r| == |blocks| + 1 && r[k] == blocks[k] && r[k + 1] == blocks[k + 1] && r[k + 1].id != newId
  {
    var afterId := blocks[k].id;
    var a := FindIndex(blocks, afterId);
    assert a == k by {
      assert blocks[a].id == blocks[k].id;
    }
    AddBlockShape(blocks, kind, afterId, content, newId);
    var nb := NewBlock(blocks, kind, afterId, content, newId);
    var j := FirstAfter(blocks, nb.position);
    assert j > k + 1;
    assert blocks[k + 1] in blocks;
  }

  /** Splicing a block with a fresh id into a list with unique ids keeps them unique. */
  lemma SpliceUnique(s: seq<Block>, k: nat, nb: Block)
    requires UniqueIds(s) && nb.id !in Ids(s) && k <= |s|
    ensures UniqueIds(s[..k] + [nb] + s[k..])
  {
    var r := s[..k] + [nb] + s[k..];
    assert forall i :: 0 <= i < k ==> r[i] == s[i];
    assert forall i :: k < i < |r| ==> r[i] == s[i - 1];
    forall i, j | 0 <= i < j < |r| ensures r[i].id != r[j].id {
      if i == k {
        assert s[j - 1] in s;
      } else if j == k {
        assert s[i] in s;
      }
    }
  }

  /** Splicing a block into a list adds exactly its id. */
  lemma SpliceIds(s: seq<Block>, k: nat, nb: Block)
    requires k <= |s|
    ensures Ids(s[..k] + [nb] + s[k..]) == Ids(s) + {nb.id}
  {
    var r := s[..k] + [nb] + s[k..];
    assert multiset(r) == multiset(s) + multiset{nb} by {
      assert s == s[..k] + s[k..];
    }
    forall x | x in Ids(r) ensures x in Ids(s) + {nb.id} {
      var b :| b in r && b.id == x;
      assert b in multiset(r);
    }
    forall x | x in Ids(s) ensures x in Ids(r) {
      var b :| b in s && b.id == x;
      assert b in multiset(s);
    }
  }

  /** Adding a block with a fresh id to a well-formed list keeps it well formed and one longer. */
  lemma AddPreservesWellFormed(blocks: seq<Block>, kind: Kind, afterId: string, content: string, newId: string)
    requires WellFormed(blocks)
    requires newId !in Ids(blocks)
    ensures WellFormed(AddBlockTo(blocks, kind, afterId, content, newId))
    ensures |AddBlockTo(blocks, kind, afterId, content, newId)| == |blocks| + 1
    ensures Ids(AddBlockTo(blocks, kind, afterId, content, newId)) == Ids(blocks) + {newId}
  {
    AddBlockShape(blocks, kind, afterId, content, newId);
    var nb := NewBlock(blocks, kind, afterId, content, newId);
    SpliceUnique(blocks, FirstAfter(blocks, nb.position), nb);
    SpliceIds(blocks, FirstAfter(blocks, nb.position), nb);
  }

  /** The `checked` toggle of a to-do block: `{ ...block.properties, checked }`. */
  function SetChecked(props: Option<Properties>, checked: bool): (r: Properties)
    ensures r.checked == Some(checked)
    ensures props.Some? ==> r.level == props.value.level
    ensures props.None? ==> r.level.None?
  {
    match props
    case None => Properties(Some(checked), None)
    case Some(p) => p.(checked := Some(checked))
  }

}
