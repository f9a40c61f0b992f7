/** The lesson table of a draft: its unique constraints, and the states a renumbering
    or a reorder takes it through, row by row. */
module DraftRows {
  import opened DraftOrder

  datatype Lesson = Lesson(parent: string, contentId: string, position: int)

  type Rows = map<string, Lesson>

  /** The unique constraints on (module, position) and (module, contentId). */
  predicate RowsUnique(t: Rows) {
    forall a <- t, b <- t :: a != b && t[a].parent == t[b].parent ==>
      t[a].position != t[b].position && t[a].contentId != t[b].contentId
  }

  predicate ContentIdsDistinct(t: Rows) {
    forall a <- t, b <- t :: a != b ==> t[a].contentId != t[b].contentId
  }

  /** Some lesson has this content id. */
  predicate Owned(t: Rows, contentId: string) {
    exists l <- t :: t[l].contentId == contentId
  }

  function PositionsIn(t: Rows, m: string): Positions {
    map l | l in t && t[l].parent == m :: t[l].position
  }

  /** The rows of one module at other positions. */
  function Repositioned(t: Rows, m: string, pos: Positions): Rows {
    map l | l in t :: if t[l].parent == m && l in pos then t[l].(position := pos[l]) else t[l]
  }

  lemma RepositionedPositions(t: Rows, m: string, pos: Positions)
    requires pos.Keys == PositionsIn(t, m).Keys
    ensures PositionsIn(Repositioned(t, m, pos), m) == pos
    ensures forall n | n != m :: PositionsIn(Repositioned(t, m, pos), n) == PositionsIn(t, n)
  {
  }

  /** Rows of a draft whose content ids are distinct only need distinct positions. */
  lemma UniqueByModule(t: Rows)
    requires ContentIdsDistinct(t) && forall l <- t :: Unique(PositionsIn(t, t[l].parent))
    ensures RowsUnique(t)
  {
    forall a, b | a in t && b in t && a != b && t[a].parent == t[b].parent
      ensures t[a].position != t[b].position
    {
      var pos := PositionsIn(t, t[a].parent);
      assert a in pos && b in pos;
    }
  }

  // ----- reorder -----

  datatype Place = Place(contentId: string, parent: string, position: int)

  function Temp(draft: string, lesson: string): string {
    "reorder-" + draft + "-" + lesson
  }

  /** All rows out of the way, the first `j` of `listed` under a temporary content id. */
  function Renamed(t: Rows, draft: string, listed: seq<string>, j: nat): Rows {
    map l | l in t ::
      Lesson(t[l].parent, if Rank(listed, l) < j then Temp(draft, l) else t[l].contentId, t[l].position + POSITION_OFFSET)
  }

  function IdsOf(places: seq<Place>): (ids: seq<string>)
    ensures |ids| == |places| && forall i | 0 <= i < |ids| :: ids[i] == places[i].contentId
  {
    seq(|places|, i requires 0 <= i < |places| => places[i].contentId)
  }

  /** The first `j` places taken, every other row still out of the way. */
  function Placed(t: Rows, draft: string, places: seq<Place>, j: nat): Rows
    requires j <= |places|
  {
    map l | l in t ::
      var r := Rank(IdsOf(places), t[l].contentId);
      if r < j then Lesson(places[r].parent, t[l].contentId, places[r].position)
      else Lesson(t[l].parent, Temp(draft, l), t[l].position + POSITION_OFFSET)
  }

  /** Renaming `listed[i]` meets the authored id of a row of its module not yet renamed. */
  predicate RenameClash(t: Rows, draft: string, listed: seq<string>, i: nat)
    requires i < |listed| && forall l <- listed :: l in t
  {
    exists k | i < k < |listed| ::
      t[listed[k]].parent == t[listed[i]].parent && t[listed[k]].contentId == Temp(draft, listed[i])
  }

  /** The row with this content id, among rows whose content ids are distinct. */
  function Owner(t: Rows, contentId: string): string
    requires ContentIdsDistinct(t) && Owned(t, contentId)
  {
    var l :| l in t && t[l].contentId == contentId;
    l
  }

  /** Placing `places[i]` meets the temporary id of a row still waiting in that module. */
  predicate PlaceClash(t: Rows, draft: string, places: seq<Place>, i: nat)
    requires i < |places|
  {
    exists l <- t ::
      i < Rank(IdsOf(places), t[l].contentId) && t[l].parent == places[i].parent
      && places[i].contentId == Temp(draft, l)
  }

  /** The unique constraint on (module, contentId) stops the reorder. */
  predicate Clashes(t: Rows, draft: string, listed: seq<string>, places: seq<Place>)
    requires forall l <- listed :: l in t
  {
    || (exists i | 0 <= i < |listed| :: RenameClash(t, draft, listed, i))
    || (exists i | 0 <= i < |places| :: PlaceClash(t, draft, places, i))
  }

  lemma TempsDiffer(draft: string, a: string, b: string)
    ensures Temp(draft, a) == Temp(draft, b) <==> a == b
  {
    var prefix := "reorder-" + draft + "-";
    assert Temp(draft, a)[|prefix|..] == a && Temp(draft, b)[|prefix|..] == b;
  }

  /** `listed` names every row once. */
  predicate Covers(t: Rows, listed: seq<string>) {
    NoRepeats(listed) && (forall l <- listed :: l in t) && forall l <- t :: l in listed
  }

  lemma RankHere(s: seq<string>, i: nat)
    requires NoRepeats(s) && i < |s|
    ensures Rank(s, s[i]) == i
  {
  }

  lemma RenameBreaks(t: Rows, draft: string, listed: seq<string>, j: nat)
    requires Covers(t, listed) && j < |listed| && RenameClash(t, draft, listed, j)
    ensures !RowsUnique(Renamed(t, draft, listed, j + 1))
  {
    hide Temp;
    var v := Renamed(t, draft, listed, j + 1);
    var x := listed[j];
    var k :| j < k < |listed| && t[listed[k]].parent == t[x].parent && t[listed[k]].contentId == Temp(draft, x);
    RankHere(listed, j);
    RankHere(listed, k);
    assert x in v && listed[k] in v && x != listed[k];
    assert v[listed[k]].contentId == v[x].contentId;
  }

  lemma RenameKeeps(t: Rows, draft: string, listed: seq<string>, j: nat)
    requires RowsUnique(t) && Covers(t, listed) && j < |listed| && !RenameClash(t, draft, listed, j)
    requires RowsUnique(Renamed(t, draft, listed, j))
    ensures RowsUnique(Renamed(t, draft, listed, j + 1))
  {
    hide Temp, RenameClash, Rank, Renamed, RowsUnique;
    var u, v := Renamed(t, draft, listed, j), Renamed(t, draft, listed, j + 1);
    var x := listed[j];
    assert x in listed && x in t;
    RenameRow(t, draft, listed, j);
    RenamedParents(t, draft, listed, j);
    RenamedParents(t, draft, listed, j + 1);
    forall b | b in v && b != x && v[b].parent == v[x].parent
      ensures v[b].position != v[x].position && v[b].contentId != v[x].contentId
    {
      assert v[b].parent == t[b].parent && v[x].parent == t[x].parent;
      RenamedOther(t, draft, listed, j, b);
    }
    OnlyOneChanged(u, v, x);
  }

  lemma RenamedParents(t: Rows, draft: string, listed: seq<string>, j: nat)
    ensures var v := Renamed(t, draft, listed, j); v.Keys == t.Keys && forall l <- t :: v[l].parent == t[l].parent
    ensures Renamed(t, draft, listed, j).Keys == t.Keys
  {
  }

  /** Positions stay distinct all along; one rename keeps the content ids distinct
      exactly when it does not clash. */
  lemma RenameStep(t: Rows, draft: string, listed: seq<string>, j: nat)
    requires RowsUnique(t) && Covers(t, listed) && j < |listed|
    requires RowsUnique(Renamed(t, draft, listed, j))
    ensures RowsUnique(Renamed(t, draft, listed, j + 1)) <==> !RenameClash(t, draft, listed, j)
  {
    hide RowsUnique, Renamed, RenameClash;
    if RenameClash(t, draft, listed, j) {
      RenameBreaks(t, draft, listed, j);
    } else {
      RenameKeeps(t, draft, listed, j);
    }
  }

  lemma RenamedOther(t: Rows, draft: string, listed: seq<string>, j: nat, b: string)
    requires RowsUnique(t) && Covers(t, listed) && j < |listed| && !RenameClash(t, draft, listed, j)
    requires b in t && b != listed[j] && t[b].parent == t[listed[j]].parent
    ensures var v := Renamed(t, draft, listed, j + 1);
            v[b].position != v[listed[j]].position && v[b].contentId != v[listed[j]].contentId
  {
    var k := Rank(listed, b);
    RankHere(listed, j);
    TempsDiffer(draft, b, listed[j]);
    assert b == listed[k];
  }

  /** Changing one row so that it still differs from the others keeps the constraints. */
  lemma OnlyOneChanged(u: Rows, v: Rows, x: string)
    requires RowsUnique(u) && u.Keys == v.Keys && x in v && forall l <- u :: l != x ==> v[l] == u[l]
    requires forall b <- v :: b != x && v[b].parent == v[x].parent ==>
               v[b].position != v[x].position && v[b].contentId != v[x].contentId
    ensures RowsUnique(v)
  {
  }

  /** The target of a reorder: places are distinct, and below the shifted positions. */
  predicate GoodPlaces(t: Rows, places: seq<Place>) {
    && NoRepeats(IdsOf(places))
    && (forall l <- t :: t[l].contentId in IdsOf(places))
    && (forall i | 0 <= i < |places| :: Owned(t, places[i].contentId))
    && (forall i | 0 <= i < |places| :: 1 <= places[i].position <= POSITION_OFFSET)
    && (forall i, j | 0 <= i < j < |places| ::
          places[i].parent == places[j].parent ==> places[i].position != places[j].position)
    && (forall l <- t :: 1 <= t[l].position <= POSITION_OFFSET)
  }

  lemma PlacedOther(t: Rows, draft: string, places: seq<Place>, j: nat, x: string, b: string)
    requires RowsUnique(t) && ContentIdsDistinct(t) && GoodPlaces(t, places) && j < |places|
    requires !PlaceClash(t, draft, places, j)
    requires x in t && t[x].contentId == places[j].contentId && b in t && b != x
    ensures var v := Placed(t, draft, places, j + 1);
            v[b].parent == v[x].parent ==> v[b].position != v[x].position && v[b].contentId != v[x].contentId
  {
    var ids := IdsOf(places);
    RankHere(ids, j);
    var k := Rank(ids, t[b].contentId);
    assert k != j;
    if j < k && t[b].parent == places[j].parent {
      assert places[j].contentId != Temp(draft, b);
    }
  }

  lemma PlaceRow(t: Rows, draft: string, places: seq<Place>, j: nat, x: string)
    requires ContentIdsDistinct(t) && NoRepeats(IdsOf(places)) && j < |places|
    requires x in t && t[x].contentId == places[j].contentId
    ensures Placed(t, draft, places, j + 1)
         == Placed(t, draft, places, j)[x := Lesson(places[j].parent, places[j].contentId, places[j].position)]
  {
    hide Temp;
    var ids := IdsOf(places);
    RankHere(ids, j);
    forall l | l in t && l != x ensures Rank(ids, t[l].contentId) != j {
    }
  }

  lemma PlaceBreaks(t: Rows, draft: string, places: seq<Place>, j: nat, x: string)
    requires ContentIdsDistinct(t) && NoRepeats(IdsOf(places)) && j < |places|
    requires x in t && t[x].contentId == places[j].contentId && PlaceClash(t, draft, places, j)
    ensures !RowsUnique(Placed(t, draft, places, j + 1))
  {
    hide Temp;
    var v := Placed(t, draft, places, j + 1);
    var ids := IdsOf(places);
    RankHere(ids, j);
    var l :| l in t && j < Rank(ids, t[l].contentId) && t[l].parent == places[j].parent
             && places[j].contentId == Temp(draft, l);
    assert l in v && x in v && l != x;
    assert v[l].parent == v[x].parent && v[l].contentId == v[x].contentId;
  }

  lemma PlaceKeeps(t: Rows, draft: string, places: seq<Place>, j: nat, x: string)
    requires RowsUnique(t) && ContentIdsDistinct(t) && GoodPlaces(t, places) && j < |places|
    requires x in t && t[x].contentId == places[j].contentId && !PlaceClash(t, draft, places, j)
    requires RowsUnique(Placed(t, draft, places, j))
    ensures RowsUnique(Placed(t, draft, places, j + 1))
  {
    hide Temp, PlaceClash, Rank, Placed, RowsUnique, GoodPlaces, ContentIdsDistinct;
    var u, v := Placed(t, draft, places, j), Placed(t, draft, places, j + 1);
    assert NoRepeats(IdsOf(places)) by { GoodPlacesDistinct(t, places); }
    PlaceRow(t, draft, places, j, x);
    PlacedKeys(t, draft, places, j);
    forall b | b in v && b != x && v[b].parent == v[x].parent
      ensures v[b].position != v[x].position && v[b].contentId != v[x].contentId
    {
      PlacedOther(t, draft, places, j, x, b);
    }
    OnlyOneChanged(u, v, x);
  }

  lemma GoodPlacesDistinct(t: Rows, places: seq<Place>)
    requires GoodPlaces(t, places)
    ensures NoRepeats(IdsOf(places))
  {
  }

  lemma PlacedKeys(t: Rows, draft: string, places: seq<Place>, j: nat)
    requires j <= |places|
    ensures Placed(t, draft, places, j).Keys == t.Keys
  {
  }

  lemma PlaceStep(t: Rows, draft: string, places: seq<Place>, j: nat, x: string)
    requires RowsUnique(t) && ContentIdsDistinct(t) && GoodPlaces(t, places) && j < |places|
    requires x in t && t[x].contentId == places[j].contentId
    requires RowsUnique(Placed(t, draft, places, j))
    ensures RowsUnique(Placed(t, draft, places, j + 1)) <==> !PlaceClash(t, draft, places, j)
  {
    hide PlaceClash, Placed, RowsUnique, ContentIdsDistinct, GoodPlaces;
    GoodPlacesDistinct(t, places);
    if PlaceClash(t, draft, places, j) {
      PlaceBreaks(t, draft, places, j, x);
    } else {
      PlaceKeeps(t, draft, places, j, x);
    }
  }

  lemma RenameRow(t: Rows, draft: string, listed: seq<string>, j: nat)
    requires Covers(t, listed) && j < |listed|
    ensures var u := Renamed(t, draft, listed, j);
            Renamed(t, draft, listed, j + 1) == u[listed[j] := u[listed[j]].(contentId := Temp(draft, listed[j]))]
  {
    RankHere(listed, j);
    forall l | l in t && l != listed[j] ensures Rank(listed, l) != j {
    }
  }

  /** Between the two phases: everything renamed, nothing placed. */
  lemma RenamedIsUnplaced(t: Rows, draft: string, listed: seq<string>, places: seq<Place>)
    requires Covers(t, listed)
    ensures Renamed(t, draft, listed, |listed|) == Placed(t, draft, places, 0)
  {
    forall l | l in t ensures Rank(listed, l) < |listed| {
      assert l in listed;
    }
  }

  /** Shifting positions row by row clashes with nothing. */
  function ShiftedRows(t: Rows, done: set<string>): Rows {
    map l | l in t :: if l in done then t[l].(position := t[l].position + POSITION_OFFSET) else t[l]
  }

  lemma ShiftedIsUnique(t: Rows, done: set<string>)
    requires RowsUnique(t) && forall l <- t :: 1 <= t[l].position <= POSITION_OFFSET
    ensures RowsUnique(ShiftedRows(t, done))
  {
  }

  lemma ShiftedAll(t: Rows, draft: string, listed: seq<string>)
    ensures ShiftedRows(t, t.Keys) == Renamed(t, draft, listed, 0)
  {
  }

  // ----- when the reorder cannot clash, and when it does -----

  predicate Reserved(contentId: string) {
    8 <= |contentId| && contentId[..8] == "reorder-"
  }

  /** Content ids outside the temporary name space never clash. */
  lemma UnreservedNeverClash(t: Rows, draft: string, listed: seq<string>, places: seq<Place>)
    requires (forall l <- listed :: l in t) && (forall l <- t :: !Reserved(t[l].contentId))
    requires forall i | 0 <= i < |places| :: Owned(t, places[i].contentId)
    ensures !Clashes(t, draft, listed, places)
  {
    forall l: string ensures Reserved(Temp(draft, l)) {
      assert Temp(draft, l)[..8] == "reorder-";
    }
  }

  /** A draft whose two lessons cannot be reordered, not even to the order they are in:
      the second one's content id, which the slug pattern accepts, is the temporary id of
      the first. */
  lemma ReservedClashes(draft: string, m: string, a: string, b: string)
    requires a != b
    ensures var t: Rows := map[a := Lesson(m, "intro", 1), b := Lesson(m, Temp(draft, a), 2)];
            && RowsUnique(t) && ContentIdsDistinct(t) && Covers(t, [a, b])
            && Clashes(t, draft, [a, b], [Place("intro", m, 1), Place(Temp(draft, a), m, 2)])
  {
    var t: Rows := map[a := Lesson(m, "intro", 1), b := Lesson(m, Temp(draft, a), 2)];
    assert Temp(draft, a)[0] == 'r';
    assert [a, b][1] == b;
    assert RenameClash(t, draft, [a, b], 0);
  }
}
