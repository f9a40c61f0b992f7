/** The requested order of a reorder, and what it makes of the lesson table. */
module DraftPlaces {
  import opened DraftOrder
  import opened DraftRows

  /** One module of the requested order with the content ids it should hold. */
  datatype Entry = Entry(id: string, lessons: seq<string>)

  function EntryPlaces(e: Entry, from: nat): seq<Place>
    requires from <= |e.lessons|
  {
    seq(|e.lessons| - from, i requires 0 <= i < |e.lessons| - from =>
      Place(e.lessons[from + i], e.id, from + i + 1))
  }

  function PlacesFrom(entries: seq<Entry>): seq<Place> {
    if entries == [] then [] else EntryPlaces(entries[0], 0) + PlacesFrom(entries[1..])
  }

  function ModuleIds(entries: seq<Entry>): (ids: seq<string>)
    ensures |ids| == |entries| && forall i | 0 <= i < |ids| :: ids[i] == entries[i].id
  {
    seq(|entries|, i requires 0 <= i < |entries| => entries[i].id)
  }

  /** The content ids of the whole request, in order. */
  function ContentIds(entries: seq<Entry>): seq<string> {
    if entries == [] then [] else entries[0].lessons + ContentIds(entries[1..])
  }

  lemma {:induction false} PlacesAreContentIds(entries: seq<Entry>)
    ensures IdsOf(PlacesFrom(entries)) == ContentIds(entries)
    decreases |entries|
  {
    if entries != [] {
      PlacesAreContentIds(entries[1..]);
      var a, b := EntryPlaces(entries[0], 0), PlacesFrom(entries[1..]);
      assert IdsOf(a) == entries[0].lessons;
      assert IdsOf(a + b) == IdsOf(a) + IdsOf(b);
    }
  }

  /** Place `k` is lesson `i` of entry `a`. */
  lemma {:induction false} PlaceComesFrom(entries: seq<Entry>, k: nat) returns (a: nat, i: nat)
    requires k < |PlacesFrom(entries)|
    ensures a < |entries| && i < |entries[a].lessons|
    ensures PlacesFrom(entries)[k] == Place(entries[a].lessons[i], entries[a].id, i + 1)
    decreases |entries|
  {
    var n := |entries[0].lessons|;
    if k < n {
      a, i := 0, k;
    } else {
      a, i := PlaceComesFrom(entries[1..], k - n);
      a := a + 1;
    }
  }

  lemma {:induction false} PlaceGoesTo(entries: seq<Entry>, a: nat, i: nat) returns (k: nat)
    requires a < |entries| && i < |entries[a].lessons|
    ensures k < |PlacesFrom(entries)|
    ensures PlacesFrom(entries)[k] == Place(entries[a].lessons[i], entries[a].id, i + 1)
    decreases |entries|
  {
    if a == 0 {
      k := i;
    } else {
      k := PlaceGoesTo(entries[1..], a - 1, i);
      k := k + |entries[0].lessons|;
    }
  }

  /** The request is a complete permutation of the draft's modules and lessons. */
  predicate Complete(t: Rows, order: seq<string>, entries: seq<Entry>) {
    && Rearranges(ModuleIds(entries), order)
    && NoRepeats(ContentIds(entries))
    && (forall c <- ContentIds(entries) :: Owned(t, c))
    && (forall l <- t :: t[l].contentId in ContentIds(entries))
  }

  lemma SameModuleSameEntry(entries: seq<Entry>, a: nat, b: nat)
    requires NoRepeats(ModuleIds(entries)) && a < |entries| && b < |entries| && entries[a].id == entries[b].id
    ensures a == b
  {
    assert ModuleIds(entries)[a] == ModuleIds(entries)[b];
  }

  lemma PlacesAreDistinct(t: Rows, order: seq<string>, entries: seq<Entry>, j: nat, k: nat)
    requires Complete(t, order, entries) && j < k < |PlacesFrom(entries)|
    requires PlacesFrom(entries)[j].parent == PlacesFrom(entries)[k].parent
    ensures PlacesFrom(entries)[j].position != PlacesFrom(entries)[k].position
  {
    var places := PlacesFrom(entries);
    PlacesAreContentIds(entries);
    var a, i := PlaceComesFrom(entries, j);
    var b, h := PlaceComesFrom(entries, k);
    SameModuleSameEntry(entries, a, b);
    assert IdsOf(places)[j] != IdsOf(places)[k];
  }

  lemma {:induction false} PositionBound(entries: seq<Entry>, a: nat)
    requires a < |entries|
    ensures |entries[a].lessons| <= |ContentIds(entries)|
    decreases |entries|
  {
    if a > 0 {
      PositionBound(entries[1..], a - 1);
    }
  }

  lemma CompletePlacesAreGood(t: Rows, order: seq<string>, entries: seq<Entry>)
    requires Complete(t, order, entries) && |ContentIds(entries)| <= POSITION_OFFSET
    requires forall l <- t :: 1 <= t[l].position <= POSITION_OFFSET
    ensures GoodPlaces(t, PlacesFrom(entries))
  {
    var places := PlacesFrom(entries);
    PlacesAreContentIds(entries);
    forall k | 0 <= k < |places|
      ensures 1 <= places[k].position <= POSITION_OFFSET && Owned(t, places[k].contentId)
    {
      var a, i := PlaceComesFrom(entries, k);
      PositionBound(entries, a);
      assert IdsOf(places)[k] in ContentIds(entries);
    }
    forall j, k | 0 <= j < k < |places| && places[j].parent == places[k].parent
      ensures places[j].position != places[k].position
    {
      PlacesAreDistinct(t, order, entries, j, k);
    }
  }

  /** The order of the lessons of each module that the request asks for. */
  function Requested(t: Rows, e: Entry): seq<string>
    requires ContentIdsDistinct(t) && forall c <- e.lessons :: Owned(t, c)
  {
    seq(|e.lessons|, i requires 0 <= i < |e.lessons| => assert e.lessons[i] in e.lessons; Owner(t, e.lessons[i]))
  }

  lemma {:induction false} EntryLessons(entries: seq<Entry>, a: nat)
    requires a < |entries|
    ensures forall c <- entries[a].lessons :: c in ContentIds(entries)
    decreases |entries|
  {
    if a > 0 {
      EntryLessons(entries[1..], a - 1);
    }
  }

  lemma OwnerIs(t: Rows, l: string)
    requires ContentIdsDistinct(t) && l in t
    ensures Owner(t, t[l].contentId) == l
  {
  }

  /** All placed: every module holds exactly the lessons asked for, in that order. */
  lemma PlacedIsRequested(t: Rows, draft: string, order: seq<string>, entries: seq<Entry>, a: nat)
    requires ContentIdsDistinct(t) && Complete(t, order, entries) && a < |entries|
    ensures forall c <- entries[a].lessons :: Owned(t, c)
    ensures var end := Placed(t, draft, PlacesFrom(entries), |PlacesFrom(entries)|);
            Listed(PositionsIn(end, entries[a].id), Requested(t, entries[a]))
  {
    var places := PlacesFrom(entries);
    var e := entries[a];
    EntryLessons(entries, a);
    PlacesAreContentIds(entries);
    var pos := PositionsIn(Placed(t, draft, places, |places|), e.id);
    var wanted := Requested(t, e);
    forall i | 0 <= i < |wanted| ensures wanted[i] in pos && pos[wanted[i]] == i + 1 {
      var k := PlaceGoesTo(entries, a, i);
      RankHere(IdsOf(places), k);
    }
    forall l | l in pos ensures l in wanted {
      RowIsWanted(t, draft, order, entries, a, l);
    }
  }

  lemma RowIsWanted(t: Rows, draft: string, order: seq<string>, entries: seq<Entry>, a: nat, l: string)
    requires ContentIdsDistinct(t) && Complete(t, order, entries) && a < |entries| && l in t
    requires forall c <- entries[a].lessons :: Owned(t, c)
    requires Placed(t, draft, PlacesFrom(entries), |PlacesFrom(entries)|)[l].parent == entries[a].id
    ensures l in Requested(t, entries[a])
  {
    var places := PlacesFrom(entries);
    PlacesAreContentIds(entries);
    var k := Rank(IdsOf(places), t[l].contentId);
    assert t[l].contentId in IdsOf(places);
    var b, i := PlaceComesFrom(entries, k);
    SameModuleSameEntry(entries, a, b);
    OwnerIs(t, l);
    assert Requested(t, entries[a])[i] == l;
  }

  /** Every row keeps its own content id, and ends up in a module of the draft. */
  lemma PlacedKeepsContent(t: Rows, draft: string, order: seq<string>, entries: seq<Entry>)
    requires ContentIdsDistinct(t) && Complete(t, order, entries)
    ensures var end := Placed(t, draft, PlacesFrom(entries), |PlacesFrom(entries)|);
            && end.Keys == t.Keys
            && (forall l <- t :: end[l].contentId == t[l].contentId && end[l].parent in ModuleIds(entries))
            && ContentIdsDistinct(end)
  {
    var places := PlacesFrom(entries);
    PlacesAreContentIds(entries);
    var end := Placed(t, draft, places, |places|);
    forall l | l in t ensures end[l].contentId == t[l].contentId && end[l].parent in ModuleIds(entries) {
      var k := Rank(IdsOf(places), t[l].contentId);
      var b, i := PlaceComesFrom(entries, k);
      assert ModuleIds(entries)[b] == end[l].parent;
    }
  }
}
