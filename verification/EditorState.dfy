/** The lesson editor's state: blocks with a bounded undo history, and uploads that belong
    to image blocks until something else touches them. */
module EditorState {
  import opened Options

  const HISTORY := 50
  const MAX_BLOCKS := 300

  /** Property objects; `NotAnObject` is any other value. */
  datatype Props = Object(fields: map<string, string>) | NotAnObject

  datatype Block = Block(id: string, kind: string, props: Props)

  datatype State = State(
    blocks: seq<Block>,
    selected: Option<string>,
    past: seq<seq<Block>>,
    future: seq<seq<Block>>,
    uploads: map<string, string>)

  const EMPTY := State([], None, [], [], map[])

  datatype Action =
    | Add(kind: string, defaults: Props)
    | Duplicate(id: string)
    | Remove(id: string)
    | Select(id: string)
    | Move(id: string, up: bool)
    | Update(id: string, props: Props)
    | Patch(id: string, fields: map<string, string>)
    | StartUpload(id: string, request: string)
    | FinishUpload(id: string, request: string, asset: Option<string>)
    | Undo
    | Redo

  // ----- lookups -----

  function AssetId(p: Props): Option<string> {
    if p.Object? && "assetId" in p.fields then Some(p.fields["assetId"]) else None
  }

  /** `findIndex` by id, or the number of blocks. */
  function IndexOf(blocks: seq<Block>, id: string): (i: nat)
    ensures i <= |blocks| && (i < |blocks| ==> blocks[i].id == id)
    ensures forall j | 0 <= j < i :: blocks[j].id != id
  {
    if blocks == [] || blocks[0].id == id then 0 else 1 + IndexOf(blocks[1..], id)
  }

  predicate HasImage(blocks: seq<Block>, id: string) {
    exists i | 0 <= i < |blocks| :: blocks[i].id == id && blocks[i].kind == "image"
  }

  /** `slice(-50)` */
  function Last50(h: seq<seq<Block>>): seq<seq<Block>> {
    if |h| > HISTORY then h[|h| - HISTORY..] else h
  }

  // ----- edits -----

  function Merge(p: Props, fields: map<string, string>): Props {
    Object((if p.Object? then p.fields else map[]) + fields)
  }

  function Swap(blocks: seq<Block>, i: nat, j: nat): seq<Block>
    requires i < |blocks| && j < |blocks|
  {
    blocks[i := blocks[j]][j := blocks[i]]
  }

  /** The blocks after an edit, or nothing when the action changes nothing. */
  function EditedBlocks(s: State, a: Action, newId: string): Option<seq<Block>> {
    var i := if a.Duplicate? || a.Remove? || a.Move? || a.Update? || a.Patch? then IndexOf(s.blocks, a.id) else |s.blocks|;
    match a
    case Add(kind, defaults) =>
      if |s.blocks| >= MAX_BLOCKS then None else Some(s.blocks + [Block(newId, kind, defaults)])
    case Duplicate(_) =>
      if i == |s.blocks| || |s.blocks| >= MAX_BLOCKS then None
      else Some(s.blocks[..i + 1] + [s.blocks[i].(id := newId)] + s.blocks[i + 1..])
    case Remove(_) =>
      if i == |s.blocks| then None else Some(s.blocks[..i] + s.blocks[i + 1..])
    case Move(_, up) =>
      if i == |s.blocks| || (up && i == 0) || (!up && i + 1 == |s.blocks|) then None
      else Some(Swap(s.blocks, i, if up then i - 1 else i + 1))
    case Update(_, props) =>
      if i == |s.blocks| then None else Some(s.blocks[i := s.blocks[i].(props := props)])
    case Patch(_, fields) =>
      if i == |s.blocks| then None
      else Some(s.blocks[i := s.blocks[i].(props := Merge(s.blocks[i].props, fields))])
    case _ => None
  }

  /** The action takes the upload away from the block it names. */
  predicate Revokes(s: State, a: Action) {
    match a
    case Remove(_) => true
    case Update(id, props) =>
      var i := IndexOf(s.blocks, id);
      i < |s.blocks| && s.blocks[i].kind == "image" && AssetId(s.blocks[i].props) != AssetId(props)
    case Patch(_, fields) => "assetId" in fields
    case _ => false
  }

  function SelectedAfter(s: State, a: Action, newId: string): Option<string> {
    match a
    case Add(_, _) => Some(newId)
    case Duplicate(_) => Some(newId)
    case Remove(id) => if s.selected == Some(id) then None else s.selected
    case _ => s.selected
  }

  function Edit(s: State, a: Action, newId: string): State {
    match EditedBlocks(s, a, newId)
    case None => s
    case Some(blocks) =>
      State(blocks, SelectedAfter(s, a, newId), Last50(s.past + [s.blocks]), [],
            if Revokes(s, a) then s.uploads - {a.id} else s.uploads)
  }

  predicate Owns(s: State, id: string, request: string) {
    id in s.uploads && s.uploads[id] == request
  }

  function Reduce(s: State, a: Action, newId: string): State {
    match a
    case StartUpload(id, request) =>
      if HasImage(s.blocks, id) then s.(uploads := s.uploads[id := request]) else s
    case FinishUpload(id, request, asset) =>
      if !Owns(s, id, request) then s
      else
        var next := s.(uploads := s.uploads - {id});
        if asset.None? then next else Edit(next, Patch(id, map["assetId" := asset.value]), newId)
    case Select(id) => s.(selected := Some(id))
    case Undo =>
      if s.past == [] then s
      else State(s.past[|s.past| - 1], None, s.past[..|s.past| - 1], s.future + [s.blocks], map[])
    case Redo =>
      if s.future == [] then s
      else State(s.future[|s.future| - 1], None, Last50(s.past + [s.blocks]), s.future[..|s.future| - 1], map[])
    case _ => Edit(s, a, newId)
  }

  // ----- the reducer, branch by branch on a local copy -----

  method ReduceCopy(state: State, action: Action, newId: string) returns (next: State)
    ensures next == Reduce(state, action, newId)
    decreases if action.FinishUpload? then 1 else 0
  {
    hide Last50, EditedBlocks, Revokes, SelectedAfter;
    if action.StartUpload? {
      if !HasImage(state.blocks, action.id) {
        return state;
      }
      return state.(uploads := state.uploads[action.id := action.request]);
    }
    if action.FinishUpload? {
      if action.id !in state.uploads || state.uploads[action.id] != action.request {
        return state;
      }
      next := state.(uploads := state.uploads - {action.id});
      if action.asset.Some? {
        next := ReduceCopy(next, Patch(action.id, map["assetId" := action.asset.value]), newId);
      }
      return;
    }
    if action.Select? {
      return state.(selected := Some(action.id));
    }
    if action.Undo? || action.Redo? {
      var from := if action.Undo? then state.past else state.future;
      if |from| == 0 {
        return state;
      }
      return State(from[|from| - 1], None,
                   if action.Undo? then state.past[..|state.past| - 1] else Last50(state.past + [state.blocks]),
                   if action.Redo? then state.future[..|state.future| - 1] else state.future + [state.blocks], map[]);
    }
    next := EditCopy(state, action, newId);
  }

  /** The edit branches push, splice and swap inside a local copy. */
  method EditCopy(state: State, action: Action, newId: string) returns (next: State)
    requires action.Add? || action.Duplicate? || action.Remove? || action.Move? || action.Update? || action.Patch?
    ensures next == Edit(state, action, newId)
  {
    hide Last50, IndexOf, Merge;
    var blocks, uploads, selected := state.blocks, state.uploads, state.selected;
    if action.Add? {
      if |blocks| >= MAX_BLOCKS {
        return state;
      }
      blocks := blocks + [Block(newId, action.kind, action.defaults)];
      selected := Some(newId);
    } else {
      var index: int := IndexOf(blocks, action.id);
      if index == |blocks| {
        return state;
      }
      if action.Duplicate? {
        if |blocks| >= MAX_BLOCKS {
          return state;
        }
        var copy := blocks[index].(id := newId);
        blocks := blocks[..index + 1] + [copy] + blocks[index + 1..];
        selected := Some(newId);
      }
      if action.Remove? {
        uploads := uploads - {action.id};
        blocks := blocks[..index] + blocks[index + 1..];
        if selected == Some(action.id) {
          selected := None;
        }
      }
      if action.Update? {
        if blocks[index].kind == "image" && AssetId(blocks[index].props) != AssetId(action.props) {
          uploads := uploads - {action.id};
        }
        blocks := blocks[index := blocks[index].(props := action.props)];
      }
      if action.Patch? {
        if "assetId" in action.fields {
          uploads := uploads - {action.id};
        }
        blocks := blocks[index := blocks[index].(props := Merge(blocks[index].props, action.fields))];
      }
      if action.Move? {
        var other: int := if action.up then index - 1 else index + 1;
        if other < 0 || other >= |blocks| {
          return state;
        }
        blocks := blocks[index := blocks[other]][other := blocks[index]];
      }
    }
    next := State(blocks, selected, Last50(state.past + [state.blocks]), [], uploads);
  }

  /** Fresh ids come from the environment, one per action. */
  function Run(s: State, acts: seq<(Action, string)>): State
    decreases |acts|
  {
    if acts == [] then s else Run(Reduce(s, acts[0].0, acts[0].1), acts[1..])
  }
}
