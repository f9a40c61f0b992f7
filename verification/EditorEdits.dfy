/** What each action does to the blocks, position by position. */
module EditorEdits {
  import opened Options
  import opened EditorState

  /** The block that an action with this id is about: the first one. */
  predicate IsFirst(blocks: seq<Block>, id: string, k: nat) {
    k < |blocks| && blocks[k].id == id && forall j | 0 <= j < k :: blocks[j].id != id
  }

  lemma FirstIsFound(blocks: seq<Block>, id: string, k: nat)
    requires IsFirst(blocks, id, k)
    ensures IndexOf(blocks, id) == k
  {
    var i := IndexOf(blocks, id);
  }

  lemma NoneIsFound(blocks: seq<Block>, id: string)
    requires forall j | 0 <= j < |blocks| :: blocks[j].id != id
    ensures IndexOf(blocks, id) == |blocks|
  {
  }

  /** An effective edit can be undone, and nothing can be redone after it. */
  predicate Recorded(s: State, t: State) {
    && t.future == []
    && t.past == if |s.past| < 50 then s.past + [s.blocks] else (s.past + [s.blocks])[|s.past| - 49..]
  }

  /** A new block comes last, is selected, and shifts no other; a full lesson takes none. */
  lemma AddAppends(s: State, kind: string, defaults: Props, newId: string)
    ensures var t := Reduce(s, Add(kind, defaults), newId);
            if |s.blocks| >= 300 then t == s
            else
              && |t.blocks| == |s.blocks| + 1 && t.blocks[|s.blocks|] == Block(newId, kind, defaults)
              && (forall j | 0 <= j < |s.blocks| :: t.blocks[j] == s.blocks[j])
              && t.selected == Some(newId) && t.uploads == s.uploads && Recorded(s, t)
  {
  }

  /** The copy stands right after its original, under a new id. */
  lemma DuplicateFollows(s: State, id: string, newId: string, k: nat)
    requires IsFirst(s.blocks, id, k)
    ensures var t := Reduce(s, Duplicate(id), newId);
            if |s.blocks| >= 300 then t == s
            else
              && |t.blocks| == |s.blocks| + 1
              && t.blocks[k + 1] == Block(newId, s.blocks[k].kind, s.blocks[k].props)
              && (forall j | 0 <= j <= k :: t.blocks[j] == s.blocks[j])
              && (forall j | k < j < |s.blocks| :: t.blocks[j + 1] == s.blocks[j])
              && t.selected == Some(newId) && t.uploads == s.uploads && Recorded(s, t)
  {
    FirstIsFound(s.blocks, id, k);
  }

  /** Exactly the named block goes, with its upload and its selection. */
  lemma RemoveRemoves(s: State, id: string, newId: string, k: nat)
    requires IsFirst(s.blocks, id, k)
    ensures var t := Reduce(s, Remove(id), newId);
            && |t.blocks| == |s.blocks| - 1
            && (forall j | 0 <= j < k :: t.blocks[j] == s.blocks[j])
            && (forall j | k < j < |s.blocks| :: t.blocks[j - 1] == s.blocks[j])
            && t.selected == (if s.selected == Some(id) then None else s.selected)
            && id !in t.uploads && (forall x | x != id :: x in t.uploads <==> x in s.uploads)
            && (forall x <- t.uploads :: t.uploads[x] == s.uploads[x]) && Recorded(s, t)
  {
    FirstIsFound(s.blocks, id, k);
  }

  /** A block moved up changes places with the one before it, and one moved down with the one
      after it; the first cannot move up and the last cannot move down. */
  lemma MoveSwaps(s: State, id: string, up: bool, newId: string, k: nat)
    requires IsFirst(s.blocks, id, k)
    ensures var t := Reduce(s, Move(id, up), newId);
            if (up && k == 0) || (!up && k == |s.blocks| - 1) then t == s
            else
              var other := if up then k - 1 else k + 1;
              && |t.blocks| == |s.blocks|
              && t.blocks[other] == s.blocks[k] && t.blocks[k] == s.blocks[other]
              && (forall j | 0 <= j < |s.blocks| && j != k && j != other :: t.blocks[j] == s.blocks[j])
              && t.selected == s.selected && t.uploads == s.uploads && Recorded(s, t)
  {
    FirstIsFound(s.blocks, id, k);
  }

  /** Only the properties of the named block change, and they become the given ones. */
  lemma UpdateReplaces(s: State, id: string, props: Props, newId: string, k: nat)
    requires IsFirst(s.blocks, id, k)
    ensures var t := Reduce(s, Update(id, props), newId);
            && |t.blocks| == |s.blocks| && t.blocks[k] == Block(id, s.blocks[k].kind, props)
            && (forall j | 0 <= j < |s.blocks| && j != k :: t.blocks[j] == s.blocks[j])
            && t.selected == s.selected && Recorded(s, t)
            && (forall x | x != id :: x in t.uploads <==> x in s.uploads)
            && (forall x <- t.uploads :: x in s.uploads && t.uploads[x] == s.uploads[x])
            && (id in t.uploads <==> id in s.uploads && !(s.blocks[k].kind == "image" && AssetId(s.blocks[k].props) != AssetId(props)))
  {
    FirstIsFound(s.blocks, id, k);
  }

  /** The given fields are set, all others kept. */
  lemma PatchMerges(s: State, id: string, fields: map<string, string>, newId: string, k: nat)
    requires IsFirst(s.blocks, id, k)
    ensures var t := Reduce(s, Patch(id, fields), newId); var old' := s.blocks[k].props;
            && |t.blocks| == |s.blocks| && t.blocks[k].id == id && t.blocks[k].kind == s.blocks[k].kind
            && t.blocks[k].props.Object?
            && (forall f <- fields :: f in t.blocks[k].props.fields && t.blocks[k].props.fields[f] == fields[f])
            && (forall f | f !in fields :: f in t.blocks[k].props.fields <==> old'.Object? && f in old'.fields)
            && (forall f <- t.blocks[k].props.fields | f !in fields :: t.blocks[k].props.fields[f] == old'.fields[f])
            && (forall j | 0 <= j < |s.blocks| && j != k :: t.blocks[j] == s.blocks[j])
            && t.selected == s.selected && Recorded(s, t)
            && (forall x | x != id :: x in t.uploads <==> x in s.uploads)
            && (forall x <- t.uploads :: x in s.uploads && t.uploads[x] == s.uploads[x])
            && (id in t.uploads <==> id in s.uploads && "assetId" !in fields)
  {
    FirstIsFound(s.blocks, id, k);
  }

  /** An action about a block that does not exist changes nothing. */
  lemma UnknownIdIsIgnored(s: State, a: Action, newId: string)
    requires a.Duplicate? || a.Remove? || a.Move? || a.Update? || a.Patch? || a.StartUpload?
    requires forall j | 0 <= j < |s.blocks| :: s.blocks[j].id != a.id
    ensures Reduce(s, a, newId) == s
  {
    if !a.StartUpload? {
      NoneIsFound(s.blocks, a.id);
    }
  }

  /** Selecting changes the selection only; undo and redo bring back the neighbouring state of
      the history, unselect and forget all uploads. */
  lemma OthersMeanWhatTheySay(s: State, id: string, request: string, newId: string)
    ensures Reduce(s, Select(id), newId) == s.(selected := Some(id))
    ensures HasImage(s.blocks, id) ==> Reduce(s, StartUpload(id, request), newId) == s.(uploads := s.uploads[id := request])
    ensures s.past == [] ==> Reduce(s, Undo, newId) == s
    ensures s.future == [] ==> Reduce(s, Redo, newId) == s
    ensures s.past != [] ==>
              var t := Reduce(s, Undo, newId);
              t.blocks == s.past[|s.past| - 1] && t.past == s.past[..|s.past| - 1]
              && t.future == s.future + [s.blocks] && t.selected == None && t.uploads == map[]
    ensures s.future != [] ==>
              var t := Reduce(s, Redo, newId);
              t.blocks == s.future[|s.future| - 1] && t.future == s.future[..|s.future| - 1]
              && t.selected == None && t.uploads == map[]
  {
  }

  /** A result for an upload that still owns its block ends the upload.  A failure changes
      nothing else; any other result is ignored, and so is an upload for what is not an image. */
  lemma OtherResultsAreIgnored(s: State, id: string, request: string, asset: Option<string>, newId: string)
    ensures !(id in s.uploads && s.uploads[id] == request) ==> Reduce(s, FinishUpload(id, request, asset), newId) == s
    ensures (forall j | 0 <= j < |s.blocks| :: s.blocks[j].id == id ==> s.blocks[j].kind != "image") ==>
              Reduce(s, StartUpload(id, request), newId) == s
    ensures id in s.uploads && s.uploads[id] == request && asset.None? ==>
              Reduce(s, FinishUpload(id, request, asset), newId) == s.(uploads := s.uploads - {id})
  {
    hide Edit;
  }

  /** A success names the asset in the block and keeps all its other properties. */
  lemma AssetArrives(s: State, id: string, request: string, asset: string, newId: string, k: nat)
    requires IsFirst(s.blocks, id, k) && id in s.uploads && s.uploads[id] == request
    ensures var t := Reduce(s, FinishUpload(id, request, Some(asset)), newId);
            && |t.blocks| == |s.blocks| && t.uploads == s.uploads - {id} && t.selected == s.selected && Recorded(s, t)
            && t.blocks[k] == Block(id, s.blocks[k].kind, t.blocks[k].props)
            && AssetId(t.blocks[k].props) == Some(asset)
            && (s.blocks[k].props.Object? ==> t.blocks[k].props == Object(s.blocks[k].props.fields["assetId" := asset]))
            && (forall j | 0 <= j < |s.blocks| && j != k :: t.blocks[j] == s.blocks[j])
  {
    hide EditedBlocks, Last50, IndexOf;
    var next := s.(uploads := s.uploads - {id});
    PatchMerges(next, id, map["assetId" := asset], newId, k);
    PatchEnds(next, id, asset, newId);
    var props := s.blocks[k].props;
    var t := Reduce(s, FinishUpload(id, request, Some(asset)), newId);
    assert props.Object? ==> t.blocks[k].props.fields == props.fields["assetId" := asset];
  }

  lemma PatchEnds(s: State, id: string, asset: string, newId: string)
    requires id !in s.uploads
    ensures Edit(s, Patch(id, map["assetId" := asset]), newId).uploads == s.uploads
  {
    hide EditedBlocks, Last50;
    assert s.uploads - {id} == s.uploads;
  }
}
