/** The history is a bounded zipper, and an upload belongs to its block until touched. */
module EditorProperties {
  import opened Options
  import opened EditorState

  // ----- the history -----

  predicate Bounded(s: State) {
    |s.past| + |s.future| <= HISTORY
  }

  lemma EditKeepsBound(s: State, a: Action, newId: string)
    requires Bounded(s)
    ensures Bounded(Edit(s, a, newId))
  {
    hide EditedBlocks;
  }

  lemma ReduceKeepsBound(s: State, a: Action, newId: string)
    requires Bounded(s)
    ensures Bounded(Reduce(s, a, newId))
  {
    hide Edit, HasImage;
    EditKeepsBound(s, a, newId);
    if a.FinishUpload? && a.asset.Some? {
      EditKeepsBound(s.(uploads := s.uploads - {a.id}), Patch(a.id, map["assetId" := a.asset.value]), newId);
    }
  }

  lemma {:induction false} HistoryIsBounded(s: State, acts: seq<(Action, string)>)
    requires Bounded(s)
    ensures Bounded(Run(s, acts))
    decreases |acts|
  {
    hide Reduce;
    if acts != [] {
      ReduceKeepsBound(s, acts[0].0, acts[0].1);
      HistoryIsBounded(Reduce(s, acts[0].0, acts[0].1), acts[1..]);
    }
  }

  predicate SameHistory(a: State, b: State) {
    a.blocks == b.blocks && a.past == b.past && a.future == b.future
  }

  /** Within the bound, redo takes back an undo and undo a redo, exactly. */
  lemma UndoAndRedoAreInverse(s: State, x: string, y: string)
    requires Bounded(s)
    ensures s.past != [] ==> SameHistory(Reduce(Reduce(s, Undo, x), Redo, y), s)
    ensures s.future != [] ==> SameHistory(Reduce(Reduce(s, Redo, x), Undo, y), s)
  {
    if s.past != [] {
      assert s.past[..|s.past| - 1] + [s.past[|s.past| - 1]] == s.past;
    }
    if s.future != [] {
      assert s.future[..|s.future| - 1] + [s.future[|s.future| - 1]] == s.future;
    }
  }

  /** Actions that push the current blocks on the history. */
  predicate Pushes(s: State, a: Action, newId: string) {
    Reduce(s, a, newId).past == Last50(s.past + [s.blocks]) && Reduce(s, a, newId).future == []
  }

  predicate AllPush(s: State, acts: seq<(Action, string)>)
    decreases |acts|
  {
    acts == [] || (Pushes(s, acts[0].0, acts[0].1) && AllPush(Reduce(s, acts[0].0, acts[0].1), acts[1..]))
  }

  function Undos(s: State, n: nat): State
    decreases n
  {
    if n == 0 then s else Undos(Reduce(s, Undo, ""), n - 1)
  }

  /** The blocks before each of the edits, oldest first. */
  function Trail(s: State, acts: seq<(Action, string)>): seq<seq<Block>>
    decreases |acts|
  {
    if acts == [] then [] else [s.blocks] + Trail(Reduce(s, acts[0].0, acts[0].1), acts[1..])
  }

  lemma PushedLast(s: State, a: Action, newId: string)
    requires Pushes(s, a, newId) && |s.past| <= HISTORY
    ensures var h := Reduce(s, a, newId).past; h != [] && |h| <= HISTORY && h[|h| - 1] == s.blocks
  {
    hide Reduce;
  }

  /** After up to fifty edits the history ends with every state in between. */
  lemma {:induction false} EditsLeaveTrail(s: State, acts: seq<(Action, string)>)
    requires |s.past| <= HISTORY && AllPush(s, acts) && |acts| <= HISTORY
    ensures var h := Run(s, acts).past;
            |Trail(s, acts)| == |acts| <= |h| && h[|h| - |acts|..] == Trail(s, acts)
    decreases |acts|
  {
    hide Reduce, Last50, Pushes;
    if acts != [] {
      var s1 := Reduce(s, acts[0].0, acts[0].1);
      PushedLast(s, acts[0].0, acts[0].1);
      EditsLeaveTrail(s1, acts[1..]);
      PastGrows(s1, acts[1..]);
      var h, n := Run(s, acts).past, |acts|;
      assert h[|h| - n..] == [h[|h| - n]] + h[|h| - (n - 1)..];
    }
  }

  /** The newest entry is still there after fewer than fifty further edits. */
  lemma {:induction false} PastGrows(s: State, acts: seq<(Action, string)>)
    requires AllPush(s, acts) && s.past != [] && |s.past| <= HISTORY && |acts| < HISTORY
    ensures var h := Run(s, acts).past;
            |acts| < |h| <= HISTORY && h[|h| - |acts| - 1] == s.past[|s.past| - 1]
    decreases |acts|
  {
    hide Reduce;
    if acts != [] {
      PastGrowsFrom(s, acts, 1);
    }
  }

  /** `k` places from the end, before `acts` further edits. */
  lemma {:induction false} PastGrowsFrom(s: State, acts: seq<(Action, string)>, k: nat)
    requires AllPush(s, acts) && 1 <= k <= |s.past| <= HISTORY && |acts| + k <= HISTORY
    ensures var h := Run(s, acts).past;
            |acts| + k <= |h| <= HISTORY && h[|h| - |acts| - k] == s.past[|s.past| - k]
    decreases |acts|
  {
    hide Reduce;
    if acts != [] {
      PastGrowsFrom(Reduce(s, acts[0].0, acts[0].1), acts[1..], k + 1);
    }
  }

  lemma {:induction false} UndosWalkBack(s: State, trail: seq<seq<Block>>)
    requires |trail| <= |s.past| && s.past[|s.past| - |trail|..] == trail && trail != []
    ensures Undos(s, |trail|).blocks == trail[0]
    decreases |trail|
  {
    var s1 := Reduce(s, Undo, "");
    var n := |trail|;
    if n > 1 {
      assert s1.past[|s1.past| - (n - 1)..] == trail[..n - 1];
      UndosWalkBack(s1, trail[..n - 1]);
    } else {
      assert s.past[|s.past| - 1] == trail[0];
    }
  }

  /** Up to fifty edits can all be undone: the blocks are those from before the first. */
  lemma FiftyEditsCanBeUndone(s: State, acts: seq<(Action, string)>)
    requires Bounded(s) && AllPush(s, acts) && |acts| <= HISTORY
    ensures Undos(Run(s, acts), |acts|).blocks == s.blocks
  {
    EditsLeaveTrail(s, acts);
    if acts != [] {
      UndosWalkBack(Run(s, acts), Trail(s, acts));
    }
  }

  // ----- uploads -----

  predicate DistinctIds(blocks: seq<Block>) {
    forall i, j | 0 <= i < j < |blocks| :: blocks[i].id != blocks[j].id
  }

  /** Ids are distinct in every remembered state, and every upload names an image block. */
  predicate Owned(s: State) {
    && DistinctIds(s.blocks)
    && (forall i | 0 <= i < |s.past| :: DistinctIds(s.past[i]))
    && (forall i | 0 <= i < |s.future| :: DistinctIds(s.future[i]))
    && forall id <- s.uploads :: HasImage(s.blocks, id)
  }

  /** The environment's promise: an id it hands out is not in use. */
  predicate Fresh(s: State, newId: string) {
    forall i | 0 <= i < |s.blocks| :: s.blocks[i].id != newId
  }

  /** The new blocks have distinct ids, and keep every image but a removed one. */
  lemma EditKeepsImages(s: State, a: Action, newId: string, blocks: seq<Block>)
    requires DistinctIds(s.blocks) && Fresh(s, newId) && EditedBlocks(s, a, newId) == Some(blocks)
    ensures DistinctIds(blocks)
    ensures forall id :: HasImage(s.blocks, id) && !(a.Remove? && a.id == id) ==> HasImage(blocks, id)
  {
    match a
    case Add(_, _) =>
      forall id | HasImage(s.blocks, id) ensures HasImage(blocks, id) {
        var k :| 0 <= k < |s.blocks| && s.blocks[k].id == id && s.blocks[k].kind == "image";
        assert blocks[k] == s.blocks[k];
      }
    case Duplicate(_) => DuplicateKeepsImages(s.blocks, IndexOf(s.blocks, a.id), newId, blocks);
    case Remove(_) => RemoveKeepsImages(s.blocks, IndexOf(s.blocks, a.id), blocks);
    case Move(_, up) =>
      var i := IndexOf(s.blocks, a.id);
      SwapKeepsImages(s.blocks, i, if up then i - 1 else i + 1);
    case Update(_, props) => SetKeepsImages(s.blocks, IndexOf(s.blocks, a.id), props);
    case Patch(_, fields) =>
      var i := IndexOf(s.blocks, a.id);
      SetKeepsImages(s.blocks, i, Merge(s.blocks[i].props, fields));
  }

  lemma DuplicateKeepsImages(before: seq<Block>, i: nat, newId: string, blocks: seq<Block>)
    requires DistinctIds(before) && i < |before| && forall k | 0 <= k < |before| :: before[k].id != newId
    requires blocks == before[..i + 1] + [before[i].(id := newId)] + before[i + 1..]
    ensures DistinctIds(blocks) && forall id :: HasImage(before, id) ==> HasImage(blocks, id)
  {
    forall id | HasImage(before, id) ensures HasImage(blocks, id) {
      var k :| 0 <= k < |before| && before[k].id == id && before[k].kind == "image";
      assert blocks[if k <= i then k else k + 1] == before[k];
    }
  }

  lemma RemoveKeepsImages(before: seq<Block>, i: nat, blocks: seq<Block>)
    requires DistinctIds(before) && i < |before| && blocks == before[..i] + before[i + 1..]
    ensures DistinctIds(blocks) && forall id :: HasImage(before, id) && id != before[i].id ==> HasImage(blocks, id)
  {
    forall id | HasImage(before, id) && id != before[i].id ensures HasImage(blocks, id) {
      var k :| 0 <= k < |before| && before[k].id == id && before[k].kind == "image";
      assert blocks[if k < i then k else k - 1] == before[k];
    }
  }

  lemma SwapKeepsImages(blocks: seq<Block>, i: nat, j: nat)
    requires DistinctIds(blocks) && i < |blocks| && j < |blocks|
    ensures DistinctIds(Swap(blocks, i, j)) && forall id :: HasImage(blocks, id) ==> HasImage(Swap(blocks, i, j), id)
  {
    var swapped := Swap(blocks, i, j);
    forall id | HasImage(blocks, id) ensures HasImage(swapped, id) {
      var k :| 0 <= k < |blocks| && blocks[k].id == id && blocks[k].kind == "image";
      assert swapped[if k == i then j else if k == j then i else k] == blocks[k];
    }
  }

  lemma SetKeepsImages(blocks: seq<Block>, i: nat, props: Props)
    requires DistinctIds(blocks) && i < |blocks|
    ensures var after := blocks[i := blocks[i].(props := props)];
            DistinctIds(after) && forall id :: HasImage(blocks, id) ==> HasImage(after, id)
  {
    var after := blocks[i := blocks[i].(props := props)];
    forall id | HasImage(blocks, id) ensures HasImage(after, id) {
      var k :| 0 <= k < |blocks| && blocks[k].id == id && blocks[k].kind == "image";
      assert after[k].id == id && after[k].kind == "image";
    }
  }

  lemma EditKeepsOwned(s: State, a: Action, newId: string)
    requires Owned(s) && Fresh(s, newId)
    ensures Owned(Edit(s, a, newId))
  {
    hide EditedBlocks, HasImage, DistinctIds;
    if EditedBlocks(s, a, newId).Some? {
      EditKeepsImages(s, a, newId, EditedBlocks(s, a, newId).value);
    }
  }

  lemma ReduceKeepsOwned(s: State, a: Action, newId: string)
    requires Owned(s) && Fresh(s, newId)
    ensures Owned(Reduce(s, a, newId))
  {
    hide Edit, HasImage, DistinctIds;
    EditKeepsOwned(s, a, newId);
    if a.FinishUpload? && a.asset.Some? {
      EditKeepsOwned(s.(uploads := s.uploads - {a.id}), Patch(a.id, map["assetId" := a.asset.value]), newId);
    }
  }

  /** Every id handed out along a run is fresh when it is used. */
  predicate AllFresh(s: State, acts: seq<(Action, string)>)
    decreases |acts|
  {
    acts == [] || (Fresh(s, acts[0].1) && AllFresh(Reduce(s, acts[0].0, acts[0].1), acts[1..]))
  }

  /** After any run every upload names an existing image block. */
  lemma {:induction false} UploadsNameImages(s: State, acts: seq<(Action, string)>)
    requires Owned(s) && AllFresh(s, acts)
    ensures Owned(Run(s, acts))
    decreases |acts|
  {
    hide Reduce, Owned, Fresh;
    if acts != [] {
      ReduceKeepsOwned(s, acts[0].0, acts[0].1);
      UploadsNameImages(Reduce(s, acts[0].0, acts[0].1), acts[1..]);
    }
  }

  // ----- when a result still counts -----

  /** The action ends the upload `request` of block `id`. */
  predicate Touches(s: State, a: Action, id: string, request: string) {
    match a
    case StartUpload(x, r) => x == id && r != request && HasImage(s.blocks, id)
    case FinishUpload(x, r, _) => x == id && r == request
    case Undo => s.past != []
    case Redo => s.future != []
    case Remove(x) => x == id && IndexOf(s.blocks, id) < |s.blocks|
    case Update(x, _) => x == id && Revokes(s, a)
    case Patch(x, fields) => x == id && "assetId" in fields && IndexOf(s.blocks, id) < |s.blocks|
    case _ => false
  }

  lemma EditTouches(s: State, a: Action, newId: string, id: string, request: string)
    requires Owns(s, id, request) && !a.StartUpload? && !a.FinishUpload? && !a.Undo? && !a.Redo? && !a.Select?
    ensures Owns(Edit(s, a, newId), id, request) <==> !Touches(s, a, id, request)
  {
  }

  /** One action: an upload stays exactly when the action does not touch it. */
  lemma UploadStaysIff(s: State, a: Action, newId: string, id: string, request: string)
    requires Owns(s, id, request) && Owned(s)
    ensures Owns(Reduce(s, a, newId), id, request) <==> !Touches(s, a, id, request)
  {
    hide Edit, EditedBlocks, Last50;
    match a
    case StartUpload(_, _) =>
    case FinishUpload(x, r, asset) =>
      if Owns(s, x, r) && asset.Some? {
        FinishLeavesOthers(s, x, asset.value, newId, id, request);
      }
    case Select(_) =>
    case Undo =>
    case Redo =>
    case _ => EditTouches(s, a, newId, id, request);
  }

  lemma FinishLeavesOthers(s: State, x: string, asset: string, newId: string, id: string, request: string)
    requires Owns(s, id, request)
    ensures var next := Edit(s.(uploads := s.uploads - {x}), Patch(x, map["assetId" := asset]), newId);
            Owns(next, id, request) <==> x != id
  {
    hide EditedBlocks;
  }

  /** Without a new start, an upload that was lost does not come back. */
  lemma UploadDoesNotReturn(s: State, a: Action, newId: string, id: string, request: string)
    requires !Owns(s, id, request) && a != StartUpload(id, request)
    ensures !Owns(Reduce(s, a, newId), id, request)
  {
    hide EditedBlocks, HasImage, Last50;
  }

  /** Some action of the run touches the upload, in the state it acts on. */
  predicate TouchedDuring(s: State, acts: seq<(Action, string)>, id: string, request: string)
    decreases |acts|
  {
    acts != []
    && (Touches(s, acts[0].0, id, request) || TouchedDuring(Reduce(s, acts[0].0, acts[0].1), acts[1..], id, request))
  }

  lemma {:induction false} LostStaysLost(s: State, acts: seq<(Action, string)>, id: string, request: string)
    requires !Owns(s, id, request)
    requires forall k | 0 <= k < |acts| :: acts[k].0 != StartUpload(id, request)
    ensures !Owns(Run(s, acts), id, request)
    decreases |acts|
  {
    hide Reduce;
    if acts != [] {
      UploadDoesNotReturn(s, acts[0].0, acts[0].1, id, request);
      assert forall k | 0 <= k < |acts[1..]| :: acts[1..][k] == acts[k + 1];
      LostStaysLost(Reduce(s, acts[0].0, acts[0].1), acts[1..], id, request);
    }
  }

  lemma {:induction false} OwnedUntilTouched(s: State, acts: seq<(Action, string)>, id: string, request: string)
    requires Owns(s, id, request) && Owned(s) && AllFresh(s, acts)
    requires forall k | 0 <= k < |acts| :: acts[k].0 != StartUpload(id, request)
    ensures Owns(Run(s, acts), id, request) <==> !TouchedDuring(s, acts, id, request)
    decreases |acts|
  {
    hide Reduce, Touches, Owned, Fresh, Owns;
    if acts != [] {
      var s1 := Reduce(s, acts[0].0, acts[0].1);
      assert forall k | 0 <= k < |acts[1..]| :: acts[1..][k] == acts[k + 1];
      UploadStaysIff(s, acts[0].0, acts[0].1, id, request);
      ReduceKeepsOwned(s, acts[0].0, acts[0].1);
      if Touches(s, acts[0].0, id, request) {
        LostStaysLost(s1, acts[1..], id, request);
      } else {
        OwnedUntilTouched(s1, acts[1..], id, request);
      }
    }
  }

  /** The blocks with the result of an upload in place. */
  function WithAsset(blocks: seq<Block>, id: string, asset: string): seq<Block> {
    var i := IndexOf(blocks, id);
    if i < |blocks| then blocks[i := blocks[i].(props := Merge(blocks[i].props, map["assetId" := asset]))] else blocks
  }

  /** An upload starts, anything may happen, and its result arrives.  The result is put in
      place exactly when nothing touched the upload in between; and otherwise it changes
      nothing at all. */
  lemma {:induction false} ResultCountsIffUntouched(s: State, id: string, request: string, acts: seq<(Action, string)>, asset: string, x: string, y: string)
    requires Owned(s) && HasImage(s.blocks, id) && Fresh(s, x)
    requires var s1 := Reduce(s, StartUpload(id, request), x); AllFresh(s1, acts)
    requires forall k | 0 <= k < |acts| :: acts[k].0 != StartUpload(id, request)
    ensures var s1 := Reduce(s, StartUpload(id, request), x);
            var s2 := Run(s1, acts);
            var s3 := Reduce(s2, FinishUpload(id, request, Some(asset)), y);
            if TouchedDuring(s1, acts, id, request) then s3 == s2
            else s3.blocks == WithAsset(s2.blocks, id, asset) && id !in s3.uploads && HasImage(s2.blocks, id)
  {
    hide Run, TouchedDuring, AllFresh, HasImage, Owned, Fresh, Last50, IndexOf, Merge;
    var s1 := Reduce(s, StartUpload(id, request), x);
    ReduceKeepsOwned(s, StartUpload(id, request), x);
    OwnedUntilTouched(s1, acts, id, request);
    UploadsNameImages(s1, acts);
    var s2 := Run(s1, acts);
    if Owns(s2, id, request) {
      OwnerIsImage(s2, id);
      ImageIsFound(s2.blocks, id);
    }
  }

  lemma OwnerIsImage(s: State, id: string)
    requires Owned(s) && id in s.uploads
    ensures HasImage(s.blocks, id)
  {
  }

  lemma ImageIsFound(blocks: seq<Block>, id: string)
    requires HasImage(blocks, id)
    ensures IndexOf(blocks, id) < |blocks|
  {
  }
}
