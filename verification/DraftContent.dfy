/** `DraftContentService`: the rows of one draft, renumbered in place.  A write method
    demands the unique constraint it must not break, so every call below is a proof that
    this intermediate row is accepted by the database; the writes of a reorder, which can
    be refused, report it. */
module DraftContent {
  import opened DraftOrder
  import opened DraftRows
  import opened DraftPlaces

  datatype Outcome = Done | NotFound | Conflict | BadRequest | UniqueViolation

  /** The rows after position `p`, in order. */
  method Later(pos: Positions, p: nat, ghost order: seq<string>) returns (ids: seq<string>)
    requires NoRepeats(order) && p <= |order|
    requires forall i | p <= i < |order| :: order[i] in pos && pos[order[i]] == i + 1
    requires forall a <- pos :: pos[a] > p ==> a in order[p..]
    ensures ids == order[p..]
  {
    hide NoRepeats;
    ids := [];
    var rest := set a | a in pos && pos[a] > p;
    while rest != {}
      invariant p + |ids| <= |order| && ids == order[p..p + |ids|]
      invariant rest == set a | a in pos && pos[a] > p + |ids|
      decreases rest
    {
      ghost var next := NextOf(pos, p, order, rest, |ids|);
      var a :| a in rest && forall b <- rest :: pos[a] <= pos[b];
      AfterNext(pos, p, order, |ids|, a);
      ids := ids + [a];
      rest := rest - {a};
    }
    AllTaken(pos, p, order, |ids|, rest);
  }

  lemma AllTaken(pos: Positions, p: nat, order: seq<string>, n: nat, rest: set<string>)
    requires p + n <= |order| && rest == set a | a in pos && pos[a] > p + n
    requires forall i | p <= i < |order| :: order[i] in pos && pos[order[i]] == i + 1
    ensures rest == {} ==> p + n == |order|
  {
    if p + n < |order| {
      assert order[p + n] in rest;
    }
  }

  lemma NextOf(pos: Positions, p: nat, order: seq<string>, rest: set<string>, n: nat) returns (a: string)
    requires NoRepeats(order) && p + n <= |order| && rest != {}
    requires forall i | p <= i < |order| :: order[i] in pos && pos[order[i]] == i + 1
    requires forall a <- pos :: pos[a] > p ==> a in order[p..]
    requires rest == set a | a in pos && pos[a] > p + n
    ensures p + n < |order| && a == order[p + n] && a in rest && forall b <- rest :: pos[a] <= pos[b]
  {
    var b :| b in rest;
    var i :| 0 <= i < |order[p..]| && order[p..][i] == b;
    a := order[p + n];
  }

  lemma IsNext(pos: Positions, p: nat, order: seq<string>, n: nat, a: string)
    requires p + n < |order|
    requires forall i | p <= i < |order| :: order[i] in pos && pos[order[i]] == i + 1
    requires forall a <- pos :: pos[a] > p ==> a in order[p..]
    requires a in pos && p + n < pos[a] <= p + n + 1
    ensures a == order[p + n]
  {
    var i :| 0 <= i < |order[p..]| && order[p..][i] == a;
    assert order[p + i] == a;
  }

  lemma AfterNext(pos: Positions, p: nat, order: seq<string>, n: nat, a: string)
    requires NoRepeats(order) && p + n < |order|
    requires forall i | p <= i < |order| :: order[i] in pos && pos[order[i]] == i + 1
    requires forall a <- pos :: pos[a] > p ==> a in order[p..]
    requires a in pos && p + n < pos[a] <= pos[order[p + n]]
    ensures a == order[p + n] && order[p..p + n + 1] == order[p..p + n] + [a]
    ensures (set b | b in pos && pos[b] > p + n) - {a} == set b | b in pos && pos[b] > p + (n + 1)
  {
    hide NoRepeats;
    IsNext(pos, p, order, n, a);
    forall b | b in pos && p + n < pos[b] <= p + n + 1 ensures b == a {
      IsNext(pos, p, order, n, b);
    }
  }

  lemma ListedLater(pos: Positions, order: seq<string>, p: nat)
    requires Listed(pos, order) && p <= |order|
    ensures NoRepeats(order) && forall a <- pos :: pos[a] > p ==> a in order[p..]
  {
    ListedIsUnique(pos, order);
    forall a | a in pos && pos[a] > p ensures a in order[p..] {
      assert order[p..][pos[a] - 1 - p] == a;
    }
  }

  /** One past the highest position, or the first. */
  method NextPosition(pos: Positions, ghost order: seq<string>) returns (p: int)
    requires Listed(pos, order)
    ensures p == |order| + 1
  {
    ListedSize(pos, order);
    if pos == map[] {
      p := 1;
    } else {
      assert order[|order| - 1] in pos;
      forall b | b in pos ensures pos[b] <= pos[order[|order| - 1]] {
        assert b in order;
      }
      var last :| last in pos && forall b <- pos :: pos[b] <= pos[last];
      p := pos[last] + 1;
    }
  }

  lemma {:induction false} FlattenCovers(t: Rows, order: seq<string>, within: map<string, seq<string>>)
    requires (forall m <- order :: m in within && Listed(PositionsIn(t, m), within[m])) && NoRepeats(order)
    ensures NoRepeats(Flatten(order, within))
    ensures forall l :: l in Flatten(order, within) <==> l in t && t[l].parent in order
    decreases |order|
  {
    if order != [] {
      var m := order[0];
      assert m in order;
      FlattenCovers(t, order[1..], within);
      ListedIsUnique(PositionsIn(t, m), within[m]);
      forall l ensures l in within[m] <==> l in t && t[l].parent == m {
        if l in t && t[l].parent == m {
          assert l in PositionsIn(t, m);
        }
        if l in within[m] {
          assert l in PositionsIn(t, m);
        }
      }
      assert m !in order[1..];
    }
  }

  /** All lessons, module by module. */
  function Flatten(order: seq<string>, within: map<string, seq<string>>): seq<string>
    requires forall m <- order :: m in within
  {
    if order == [] then [] else
      assert order[0] in order;
      within[order[0]] + Flatten(order[1..], within)
  }

  lemma PositionsAreFewer(t: Rows, m: string)
    ensures |PositionsIn(t, m)| <= |t|
  {
    Fewer(PositionsIn(t, m).Keys, t.Keys);
  }

  lemma Fewer(a: set<string>, b: set<string>)
    requires a <= b
    ensures |a| <= |b|
  {
    assert b == a + (b - a);
  }

  /** Modules are numbered 1..n, and so are the lessons of each; no content id occurs twice. */
  ghost predicate Arranged(modules: Positions, lessons: Rows, order: seq<string>, within: map<string, seq<string>>) {
    && Listed(modules, order) && within.Keys == modules.Keys
    && (forall m <- modules :: Listed(PositionsIn(lessons, m), within[m]))
    && (forall l <- lessons :: lessons[l].parent in modules)
    && ContentIdsDistinct(lessons)
  }

  lemma AddModuleKeeps(modules: Positions, lessons: Rows, order: seq<string>, within: map<string, seq<string>>, m: string)
    requires Arranged(modules, lessons, order, within) && m !in modules
    ensures Arranged(modules[m := |order| + 1], lessons, order + [m], within[m := []])
  {
    hide Listed;
    AppendListed(modules, order, m);
    assert PositionsIn(lessons, m) == map[];
    NothingListed();
  }

  lemma NothingListed()
    ensures Listed(map[], [])
  {
  }

  lemma AddLessonKeeps(modules: Positions, lessons: Rows, order: seq<string>, within: map<string, seq<string>>,
      l: string, row: Lesson)
    requires Arranged(modules, lessons, order, within) && l !in lessons && row.parent in modules
    requires !Owned(lessons, row.contentId) && row.position == |within[row.parent]| + 1
    ensures Arranged(modules, lessons[l := row], order, within[row.parent := within[row.parent] + [l]])
  {
    hide Listed, PositionsIn, ContentIdsDistinct, Owned;
    AddedRow(lessons, l, row);
    AppendListed(PositionsIn(lessons, row.parent), within[row.parent], l);
  }

  lemma DropModuleKeeps(modules: Positions, lessons: Rows, order: seq<string>, within: map<string, seq<string>>, k: nat)
    requires Arranged(modules, lessons, order, within) && k < |order|
    ensures var rest := map l | l in lessons && lessons[l].parent != order[k] :: lessons[l];
            Arranged(Closing(modules, order, k, |order| - k - 1), rest, Without(order, k), within - {order[k]})
  {
    hide Listed, PositionsIn, ContentIdsDistinct, Closing;
    CascadedRows(lessons, order[k]);
    ClosingEnds(modules, order, k);
    ClosingKeys(modules, order, k, |order| - k - 1);
  }

  lemma DropLessonKeeps(modules: Positions, lessons: Rows, order: seq<string>, within: map<string, seq<string>>,
      l: string, k: nat)
    requires Arranged(modules, lessons, order, within) && l in lessons
    requires var o := within[lessons[l].parent]; k < |o| && o[k] == l
    ensures var m := lessons[l].parent; var o := within[m];
            var pos := Closing(PositionsIn(lessons, m), o, k, |o| - k - 1);
            Arranged(modules, Repositioned(lessons - {l}, m, pos), order, within[m := Without(o, k)])
  {
    hide Listed, PositionsIn, ContentIdsDistinct, Closing, Repositioned;
    var m := lessons[l].parent;
    ClosingEnds(PositionsIn(lessons, m), within[m], k);
    ClosedRows(lessons, l, m, within[m], k);
  }

  class Draft {
    const id: string
    var modules: Positions
    var lessons: Rows
    ghost var order: seq<string>
    ghost var within: map<string, seq<string>>

    ghost predicate Valid()
      reads this
    {
      Arranged(modules, lessons, order, within)
    }

    /** Renumbering keeps rows apart by this offset, so counts must stay below it. */
    predicate Small()
      reads this
    {
      |modules| <= POSITION_OFFSET && |lessons| <= POSITION_OFFSET
    }

    constructor (id: string)
      ensures Valid() && Small() && order == [] && lessons == map[]
    {
      this.id := id;
      modules, lessons, order, within := map[], map[], [], map[];
    }

    /** The database's own constraints hold, and positions fit below the offset. */
    lemma Facts()
      requires Valid() && Small()
      ensures Unique(modules) && RowsUnique(lessons) && |order| <= POSITION_OFFSET
      ensures forall m <- modules :: |within[m]| <= POSITION_OFFSET
      ensures forall l <- lessons :: 1 <= lessons[l].position <= POSITION_OFFSET
    {
      hide RowsUnique, PositionsIn;
      ListedIsUnique(modules, order);
      ListedSize(modules, order);
      forall m | m in modules ensures |within[m]| <= POSITION_OFFSET && Unique(PositionsIn(lessons, m)) {
        ListedIsUnique(PositionsIn(lessons, m), within[m]);
        ListedSize(PositionsIn(lessons, m), within[m]);
        PositionsAreFewer(lessons, m);
      }
      forall l | l in lessons ensures 1 <= lessons[l].position <= POSITION_OFFSET {
        InItsModule(lessons, l, within[lessons[l].parent]);
      }
      UniqueByModule(lessons);
    }

    // ----- row writes -----

    method WriteModule(m: string, position: int)
      requires m in modules && Unique(modules[m := position])
      modifies `modules
      ensures modules == old(modules)[m := position]
    {
      modules := modules[m := position];
    }

    method WritePosition(l: string, position: int)
      requires l in lessons && RowsUnique(lessons[l := lessons[l].(position := position)])
      modifies `lessons
      ensures lessons == old(lessons)[l := old(lessons)[l].(position := position)]
    {
      lessons := lessons[l := lessons[l].(position := position)];
    }

    /** A write the database may refuse. */
    method WriteLesson(l: string, row: Lesson) returns (ok: bool)
      requires l in lessons
      modifies `lessons
      ensures ok <==> RowsUnique(old(lessons)[l := row])
      ensures lessons == if ok then old(lessons)[l := row] else old(lessons)
    {
      var t := lessons[l := row];
      ok := RowsUnique(t);
      if ok {
        lessons := t;
      }
    }

    // ----- create -----

    method CreateModule(newId: string)
      requires Valid() && newId !in modules
      modifies this
      ensures Valid() && order == old(order) + [newId] && within == old(within)[newId := []]
      ensures lessons == old(lessons)
    {
      AddModuleKeeps(modules, lessons, order, within, newId);
      var position := NextPosition(modules, order);
      modules := modules[newId := position];
      order, within := order + [newId], within[newId := []];
    }

    method CreateLesson(m: string, contentId: string, newId: string) returns (outcome: Outcome)
      requires Valid() && newId !in lessons
      modifies this
      ensures Valid() && modules == old(modules) && order == old(order)
      ensures outcome == if m !in modules then NotFound
                         else if Owned(old(lessons), contentId) then Conflict else Done
      ensures outcome != Done ==> lessons == old(lessons) && within == old(within)
      ensures outcome == Done ==>
        && m in old(within) && within == old(within)[m := old(within)[m] + [newId]]
        && lessons.Keys == old(lessons).Keys + {newId} && lessons[newId].contentId == contentId
        && forall l <- old(lessons) :: lessons[l] == old(lessons)[l]
    {
      if m !in modules {
        return NotFound;
      }
      if exists l <- lessons :: lessons[l].contentId == contentId {
        return Conflict;
      }
      var position := NextPosition(PositionsIn(lessons, m), within[m]);
      hide Arranged;
      var row := Lesson(m, contentId, position);
      AddLessonKeeps(modules, lessons, order, within, newId, row);
      lessons := lessons[newId := row];
      within := within[m := within[m] + [newId]];
      return Done;
    }

    // ----- delete -----

    method DeleteModule(m: string) returns (outcome: Outcome)
      requires Valid() && Small()
      modifies this
      ensures Valid() && outcome == if m in old(modules) then Done else NotFound
      ensures outcome == NotFound ==> modules == old(modules) && lessons == old(lessons)
      ensures outcome == NotFound ==> order == old(order) && within == old(within)
      ensures outcome == Done ==>
        && m in old(order) && order == Without(old(order), Rank(old(order), m)) && within == old(within) - {m}
        && lessons == map l | l in old(lessons) && old(lessons)[l].parent != m :: old(lessons)[l]
    {
      hide Unique, Listed, Closing, Rank, Arranged;
      if m !in modules {
        return NotFound;
      }
      ModuleFacts(m);
      ghost var was, o, k := modules, order, Rank(order, m);
      DropModuleKeeps(modules, lessons, order, within, k);
      var position := modules[m];
      modules := modules - {m};
      lessons := map l | l in lessons && lessons[l].parent != m :: lessons[l];
      CloseModules(position, was, o, k);
      order, within := Without(order, k), within - {m};
      return Done;
    }

    lemma ModuleFacts(m: string)
      requires Valid() && Small() && m in modules
      ensures Listed(modules, order) && |order| <= POSITION_OFFSET
      ensures var k := Rank(order, m); m in order && k < |order| && order[k] == m && modules[m] == k + 1
    {
      InOrder(modules, order, m);
      ListedSize(modules, order);
    }

    method CloseModules(position: int, ghost was: Positions, ghost o: seq<string>, ghost k: nat)
      requires Listed(was, o) && k < |o| <= POSITION_OFFSET && position == k + 1
      requires modules == was - {o[k]}
      modifies `modules
      ensures modules == Closing(was, o, k, |o| - k - 1)
    {
      hide Unique, Closing, Listed, Shift;
      GapLater(was, o, k);
      var remaining := Later(modules, position, o);
      var read := modules;
      ShiftModules(position, was, o, k);
      ShiftIsClosing(was, o, k);
      var i := 0;
      while i < |remaining|
        invariant 0 <= i <= |remaining| && modules == Closing(was, o, k, i)
      {
        ClosingIsUnique(was, o, k, i + 1);
        ClosingNext(was, o, k, i);
        ListedNext(was, o, k, i);
        WriteModule(remaining[i], read[remaining[i]] - 1);
        i := i + 1;
      }
    }

    /** `updateMany` on the modules after a position, whatever order the rows come in. */
    method ShiftModules(position: int, ghost was: Positions, ghost o: seq<string>, ghost k: nat)
      requires Listed(was, o) && k < |o| <= POSITION_OFFSET && position == k + 1
      requires modules == was - {o[k]}
      modifies `modules
      ensures modules == Shift(was, set a | a in was && was[a] > position) - {o[k]}
    {
      hide Unique, Listed, Shift;
      var rest := set a | a in modules && modules[a] > position;
      ghost var all := rest;
      assert all - all == {} && all - {} == all;
      ShiftNothing(was, o[k]);
      ListedHere(was, o, k);
      while rest != {}
        invariant rest <= all && modules == Shift(was, all - rest) - {o[k]}
        decreases rest
      {
        var a :| a in rest;
        ShiftIsUnique(was, o, all - rest + {a});
        SubUnique(Shift(was, all - rest + {a}), o[k]);
        ShiftOne(was, all - rest, o[k], a);
        assert all - rest + {a} == all - (rest - {a});
        WriteModule(a, modules[a] + POSITION_OFFSET);
        rest := rest - {a};
      }
      assert all == set a | a in was && was[a] > position;
    }

    method DeleteLesson(contentId: string) returns (outcome: Outcome)
      requires Valid() && Small()
      modifies this
      ensures Valid() && modules == old(modules) && order == old(order)
      ensures outcome == if Owned(old(lessons), contentId) then Done else NotFound
      ensures outcome == NotFound ==> lessons == old(lessons) && within == old(within)
      ensures outcome == Done ==>
        ContentIdsDistinct(old(lessons)) && LessonDropped(old(lessons), lessons, old(within), within, Owner(old(lessons), contentId))
    {
      hide RowsUnique, Listed, PositionsIn, ContentIdsDistinct, Owned, Owner, Closing, Repositioned, Arranged;
      var matches := set l | l in lessons && lessons[l].contentId == contentId;
      Distinct();
      Matches(lessons, contentId, matches);
      if matches == {} {
        return NotFound;
      }
      var l :| l in matches;
      if matches != {l} {
        // an ambiguous content id is refused with Conflict; a valid draft has none
        assert false;
      }
      LessonFacts(l);
      ghost var was, m := lessons, lessons[l].parent;
      ghost var o := within[m];
      ghost var k := Rank(o, l);
      DropLessonKeeps(modules, lessons, order, within, l, k);
      var row := lessons[l];
      lessons := lessons - {l};
      CloseLessons(l, row, was, o, k);
      ClosedRows(was, l, m, o, k);
      within := within[m := Without(o, k)];
      return Done;
    }

    lemma Distinct()
      requires Valid()
      ensures ContentIdsDistinct(lessons)
    {
    }

    lemma LessonFacts(l: string)
      requires Valid() && Small() && l in lessons
      ensures var m := lessons[l].parent;
              && m in within && Listed(PositionsIn(lessons, m), within[m]) && RowsUnique(lessons)
              && l in within[m] && Rank(within[m], l) < |within[m]| <= POSITION_OFFSET
              && lessons[l].position == Rank(within[m], l) + 1 && ContentIdsDistinct(lessons)
    {
      Facts();
      hide RowsUnique;
      InItsModule(lessons, l, within[lessons[l].parent]);
    }

    /** The siblings after the deleted row: out of the way, then one up each. */
    method CloseLessons(l: string, row: Lesson, ghost was: Rows, ghost o: seq<string>, ghost k: nat)
      requires Valid'(was, o, k, l, row) && lessons == was - {l}
      modifies `lessons
      ensures lessons == Repositioned(was - {l}, row.parent, Closing(PositionsIn(was, row.parent), o, k, |o| - k - 1))
    {
      hide RowsUnique, Unique, Closing, Repositioned;
      ghost var pos := PositionsIn(was, row.parent);
      ListedIsUnique(pos, o);
      GapLater(pos, o, k);
      WithoutRow(was, l, row.parent);
      var here := PositionsIn(lessons, row.parent);
      var remaining := Later(here, row.position, o);
      ShiftLessons(row.parent, row.position, was, o, k, l);
      var i := 0;
      while i < |remaining|
        invariant 0 <= i <= |remaining|
        invariant lessons == Repositioned(was - {l}, row.parent, Closing(pos, o, k, i))
      {
        ClosingRowsUnique(was, row.parent, o, k, i + 1, l);
        ClosingRowNext(was, row.parent, o, k, i, l);
        WritePosition(remaining[i], here[remaining[i]] - 1);
        i := i + 1;
      }
    }

    /** What holds of the table just before a lesson is deleted. */
    ghost predicate Valid'(was: Rows, o: seq<string>, k: nat, l: string, row: Lesson) {
      && l in was && row == was[l] && Listed(PositionsIn(was, row.parent), o) && RowsUnique(was)
      && k < |o| <= POSITION_OFFSET && o[k] == l && row.position == k + 1
    }

    method ShiftLessons(m: string, position: int, ghost was: Rows, ghost o: seq<string>, ghost k: nat, ghost l: string)
      requires l in was && Valid'(was, o, k, l, Lesson(m, was[l].contentId, position)) && lessons == was - {l}
      modifies `lessons
      ensures lessons == Repositioned(was - {l}, m, Closing(PositionsIn(was, m), o, k, 0))
    {
      hide RowsUnique, Unique, Repositioned;
      ghost var pos := PositionsIn(was, m);
      var rest := set a | a in lessons && lessons[a].parent == m && lessons[a].position > position;
      ghost var all := rest;
      assert all - all == {} && all - {} == all;
      ShiftStart(was, m, l, pos);
      while rest != {}
        invariant rest <= all && lessons == Repositioned(was - {l}, m, Shift(pos, all - rest) - {l})
        decreases rest
      {
        var a :| a in rest;
        ShiftRowsUnique(was, m, o, k, l, all - (rest - {a}));
        ShiftRowNext(was, m, l, pos, all - rest, a);
        assert all - rest + {a} == all - (rest - {a});
        WritePosition(a, lessons[a].position + POSITION_OFFSET);
        rest := rest - {a};
      }
      assert all == set a | a in pos && pos[a] > position;
      ShiftIsClosing(pos, o, k);
    }

    // ----- reorder -----

    /** The snapshot a reorder is checked against: modules and lessons in their order. */
    method Snapshot() returns (ms: seq<string>, ls: seq<string>)
      requires Valid()
      ensures ms == order && (forall m <- order :: m in within) && ls == Flatten(order, within)
    {
      hide Listed, PositionsIn, Arranged, Covers, ContentIdsDistinct, NoRepeats;
      OrderFacts();
      ListedLater(modules, order, 0);
      ms := Later(modules, 0, order);
      ls := [];
      var i := 0;
      assert order[0..] == order;
      while i < |ms|
        invariant 0 <= i <= |ms| && ls + Flatten(order[i..], within) == Flatten(order, within)
      {
        var m := ms[i];
        assert m in order && order[i..][1..] == order[i + 1..];
        ListedLater(PositionsIn(lessons, m), within[m], 0);
        ListedFrom(PositionsIn(lessons, m), within[m]);
        var part := Later(PositionsIn(lessons, m), 0, within[m]);
        assert within[m][0..] == within[m];
        ls := ls + part;
        i := i + 1;
      }
    }

    lemma OrderFacts()
      requires Valid()
      ensures Listed(modules, order) && ContentIdsDistinct(lessons) && NoRepeats(order)
      ensures forall m <- order :: m in within && m in modules && Listed(PositionsIn(lessons, m), within[m])
      ensures forall i | 0 <= i < |order| :: order[i] in modules && modules[order[i]] == i + 1
      ensures Covers(lessons, Flatten(order, within))
    {
      ListedIsUnique(modules, order);
      FlattenCovers(lessons, order, within);
      forall l | l in lessons ensures lessons[l].parent in order {
      }
    }

    method Reorder(entries: seq<Entry>) returns (outcome: Outcome)
      requires Valid() && Small()
      modifies this
      ensures Valid()
      ensures forall m <- old(order) :: m in old(within)
      ensures forall l <- Flatten(old(order), old(within)) :: l in old(lessons)
      ensures outcome == if !Complete(old(lessons), old(order), entries) then BadRequest
                         else if Clashes(old(lessons), id, Flatten(old(order), old(within)), PlacesFrom(entries))
                         then UniqueViolation else Done
      ensures outcome != Done ==> modules == old(modules) && lessons == old(lessons)
      ensures outcome != Done ==> order == old(order) && within == old(within)
      ensures outcome == Done ==>
        && order == ModuleIds(entries)
        && ContentIdsDistinct(old(lessons)) && AllOwned(old(lessons), entries)
        && within == RequestedOrder(old(lessons), entries)
        && lessons.Keys == old(lessons).Keys
        && forall l <- lessons :: lessons[l].contentId == old(lessons)[l].contentId
    {
      hide Listed, PositionsIn, ContentIdsDistinct, Arranged, Covers, Complete, Clashes, Rearranges, NoRepeats, RowsUnique;
      hide Flatten, Placed, Placing, Ready, PlaceClash, RenameClash;
      OrderFacts();
      Facts();
      var savedModules, savedLessons := modules, lessons;
      var ms, ls := Snapshot();
      CompleteIff(lessons, order, ls, entries);
      CoversFacts(lessons, ls);
      if !Rearranges(ModuleIds(entries), ms) {
        return BadRequest;
      }
      var contentIds := ContentIds(entries);
      if !NoRepeats(contentIds) || !Rearranges(contentIds, ContentIdsOf(lessons, ls)) {
        return BadRequest;
      }
      ReadyToPlace(lessons, order, entries);
      ClashesIff(lessons, id, ls, PlacesFrom(entries));
      ReorderModules(entries);
      var places := PlacesFrom(entries);
      var renamed := RenameLessons(ls, places);
      var ok := renamed;
      if ok {
        ok := PlaceLessons(entries, savedLessons);
      }
      if !ok {
        // the transaction is rolled back
        modules, lessons := savedModules, savedLessons;
        return UniqueViolation;
      }
      ReorderKeeps(savedModules, savedLessons, order, within, id, entries);
      order, within := ModuleIds(entries), RequestedOrder(savedLessons, entries);
      return Done;
    }

    method ReorderModules(entries: seq<Entry>)
      requires Listed(modules, order) && |order| <= POSITION_OFFSET && Rearranges(ModuleIds(entries), order)
      modifies `modules
      ensures modules == Placing(old(modules), ModuleIds(entries), |entries|)
    {
      hide Unique, Listed, Shift, Placing, Rearranges;
      ghost var was := modules;
      var ids := ModuleIds(entries);
      ShiftAllModules();
      ShiftIsPlacing(was, ids);
      var i := 0;
      while i < |ids|
        invariant 0 <= i <= |ids| && modules == Placing(was, ids, i)
      {
        PlacingIsUnique(was, order, ids, i + 1);
        PlacingNext(was, order, ids, i);
        WriteModule(ids[i], i + 1);
        i := i + 1;
      }
    }

    method ShiftAllModules()
      requires Listed(modules, order) && |order| <= POSITION_OFFSET
      modifies `modules
      ensures modules == Shift(old(modules), old(modules).Keys)
    {
      hide Unique, Listed, Shift;
      ghost var was := modules;
      var rest := modules.Keys;
      assert was.Keys - was.Keys == {} && was.Keys - {} == was.Keys;
      ShiftNone(was);
      while rest != {}
        invariant rest <= was.Keys && modules == Shift(was, was.Keys - rest)
        decreases rest
      {
        var a :| a in rest;
        ShiftIsUnique(was, order, was.Keys - rest + {a});
        ShiftMore(was, was.Keys - rest, a);
        assert was.Keys - rest + {a} == was.Keys - (rest - {a});
        WriteModule(a, modules[a] + POSITION_OFFSET);
        rest := rest - {a};
      }
    }

    /** Lessons out of the way, then under temporary content ids. */
    method RenameLessons(listed: seq<string>, ghost places: seq<Place>) returns (ok: bool)
      requires RowsUnique(lessons) && Covers(lessons, listed) && forall l <- listed :: l in lessons
      requires forall l <- lessons :: 1 <= lessons[l].position <= POSITION_OFFSET
      modifies `lessons
      ensures ok <==> forall i | 0 <= i < |listed| :: !RenameClash(old(lessons), id, listed, i)
      ensures ok ==> lessons == Placed(old(lessons), id, places, 0) && RowsUnique(lessons)
    {
      hide RowsUnique, Covers, RenameClash, Renamed, ShiftedRows, Placed;
      ghost var was := lessons;
      ShiftAllLessons();
      ShiftedAll(was, id, listed);
      ShiftedIsUnique(was, was.Keys);
      var i := 0;
      while i < |listed|
        invariant 0 <= i <= |listed| && lessons == Renamed(was, id, listed, i) && RowsUnique(lessons)
        invariant forall h | 0 <= h < i :: !RenameClash(was, id, listed, h)
      {
        var l := listed[i];
        RenameStep(was, id, listed, i);
        RenameRow(was, id, listed, i);
        assert l in listed && l in was;
        RenamedParents(was, id, listed, i);
        ok := WriteLesson(l, lessons[l].(contentId := Temp(id, l)));
        if !ok {
          return false;
        }
        i := i + 1;
      }
      RenamedIsUnplaced(was, id, listed, places);
      return true;
    }

    method ShiftAllLessons()
      requires RowsUnique(lessons) && forall l <- lessons :: 1 <= lessons[l].position <= POSITION_OFFSET
      modifies `lessons
      ensures lessons == ShiftedRows(old(lessons), old(lessons).Keys)
    {
      hide RowsUnique, ShiftedRows;
      ghost var was := lessons;
      var rest := lessons.Keys;
      assert was.Keys - was.Keys == {} && was.Keys - {} == was.Keys;
      ShiftedNone(was);
      while rest != {}
        invariant rest <= was.Keys && lessons == ShiftedRows(was, was.Keys - rest)
        decreases rest
      {
        var l :| l in rest;
        ShiftedIsUnique(was, was.Keys - rest + {l});
        ShiftedMore(was, was.Keys - rest, l);
        assert was.Keys - rest + {l} == was.Keys - (rest - {l});
        WritePosition(l, lessons[l].position + POSITION_OFFSET);
        rest := rest - {l};
      }
    }

    /** One lesson to its module, position and own content id. */
    method PlaceOne(byContentId: Rows, place: Place, ghost places: seq<Place>, ghost j: nat) returns (ok: bool)
      requires Ready(byContentId, places) && j < |places| && places[j] == place
      requires lessons == Placed(byContentId, id, places, j) && RowsUnique(lessons)
      modifies `lessons
      ensures ok <==> !PlaceClash(byContentId, id, places, j)
      ensures ok ==> lessons == Placed(byContentId, id, places, j + 1) && RowsUnique(lessons)
    {
      hide RowsUnique, PlaceClash, Placed, ContentIdsDistinct, GoodPlaces;
      GoodPlacesDistinct(byContentId, places);
      OwnerOfPlace(byContentId, places, j);
      var l :| l in byContentId && byContentId[l].contentId == place.contentId;
      PlaceStep(byContentId, id, places, j, l);
      PlaceRow(byContentId, id, places, j, l);
      PlacedKeys(byContentId, id, places, j);
      ok := WriteLesson(l, Lesson(place.parent, place.contentId, place.position));
    }

    /** The lessons of every module, in the requested order. */
    method PlaceLessons(entries: seq<Entry>, byContentId: Rows) returns (ok: bool)
      requires Ready(byContentId, PlacesFrom(entries))
      requires lessons == Placed(byContentId, id, PlacesFrom(entries), 0) && RowsUnique(lessons)
      modifies `lessons
      ensures var places := PlacesFrom(entries);
              && (ok <==> forall j | 0 <= j < |places| :: !PlaceClash(byContentId, id, places, j))
              && (ok ==> lessons == Placed(byContentId, id, places, |places|))
    {
      hide RowsUnique, PlaceClash, Placed, Ready;
      ghost var places := PlacesFrom(entries);
      ghost var j := 0;
      var a := 0;
      assert places[0..] == places && entries[0..] == entries;
      while a < |entries|
        invariant 0 <= a <= |entries| && j <= |places| && places[j..] == PlacesFrom(entries[a..])
        invariant lessons == Placed(byContentId, id, places, j) && RowsUnique(lessons)
        invariant forall h | 0 <= h < j :: !PlaceClash(byContentId, id, places, h)
      {
        var item := entries[a];
        assert entries[a..][1..] == entries[a + 1..];
        var index := 0;
        while index < |item.lessons|
          invariant 0 <= index <= |item.lessons| && j <= |places|
          invariant places[j..] == EntryPlaces(item, index) + PlacesFrom(entries[a + 1..])
          invariant lessons == Placed(byContentId, id, places, j) && RowsUnique(lessons)
          invariant forall h | 0 <= h < j :: !PlaceClash(byContentId, id, places, h)
        {
          NextPlace(item, index, places, j, PlacesFrom(entries[a + 1..]));
          ok := PlaceOne(byContentId, Place(item.lessons[index], item.id, index + 1), places, j);
          if !ok {
            return false;
          }
          index, j := index + 1, j + 1;
        }
        assert EntryPlaces(item, index) + PlacesFrom(entries[a + 1..]) == PlacesFrom(entries[a + 1..]);
        a := a + 1;
      }
      assert j == |places|;
      return true;
    }
  }

  lemma AppendListed(pos: Positions, order: seq<string>, a: string)
    requires Listed(pos, order) && a !in pos
    ensures Listed(pos[a := |order| + 1], order + [a])
  {
    forall b | b in pos ensures b in order + [a] {
      assert b in order;
    }
    assert (order + [a])[|order|] == a;
  }

  lemma InItsModule(t: Rows, l: string, o: seq<string>)
    requires l in t && Listed(PositionsIn(t, t[l].parent), o)
    ensures l in o && t[l].position == Rank(o, l) + 1 && 1 <= t[l].position <= |o|
  {
    var pos := PositionsIn(t, t[l].parent);
    assert l in pos;
  }

  /** One lesson is gone from its module; every other row keeps its module and content id. */
  ghost predicate LessonDropped(t: Rows, u: Rows, within: map<string, seq<string>>, within': map<string, seq<string>>, l: string) {
    && l in t && t[l].parent in within && l in within[t[l].parent]
    && within' == within[t[l].parent := Without(within[t[l].parent], Rank(within[t[l].parent], l))]
    && u.Keys == t.Keys - {l}
    && forall x <- u :: u[x].parent == t[x].parent && u[x].contentId == t[x].contentId
  }

  lemma InOrder(pos: Positions, order: seq<string>, a: string)
    requires Listed(pos, order) && a in pos
    ensures a in order && Rank(order, a) < |order| && pos[a] == Rank(order, a) + 1
  {
  }

  lemma Matches(t: Rows, contentId: string, matches: set<string>)
    requires ContentIdsDistinct(t) && matches == set l | l in t && t[l].contentId == contentId
    ensures matches == if Owned(t, contentId) then {Owner(t, contentId)} else {}
  {
    if Owned(t, contentId) {
      assert Owner(t, contentId) in matches;
    } else {
      forall l | l in t ensures l !in matches {
      }
    }
  }

  lemma AddedRow(t: Rows, l: string, row: Lesson)
    requires ContentIdsDistinct(t) && l !in t && !Owned(t, row.contentId)
    ensures var u := t[l := row];
            && ContentIdsDistinct(u) && l !in PositionsIn(t, row.parent)
            && PositionsIn(u, row.parent) == PositionsIn(t, row.parent)[l := row.position]
            && forall n | n != row.parent :: PositionsIn(u, n) == PositionsIn(t, n)
  {
  }

  lemma ShiftNothing(pos: Positions, gone: string)
    ensures pos - {gone} == Shift(pos, {}) - {gone}
  {
  }

  lemma ListedHere(pos: Positions, order: seq<string>, k: nat)
    requires Listed(pos, order) && k < |order|
    ensures order[k] in pos && pos[order[k]] == k + 1
  {
  }

  lemma ListedNext(pos: Positions, order: seq<string>, k: nat, j: nat)
    requires Listed(pos, order) && k + 1 + j < |order|
    ensures order[k + 1..][j] == order[k + 1 + j] && order[k + 1 + j] in pos - {order[k]}
    ensures (pos - {order[k]})[order[k + 1 + j]] == k + 2 + j
  {
    ListedIsUnique(pos, order);
  }

  lemma ShiftOne(pos: Positions, done: set<string>, gone: string, a: string)
    requires a in pos && a != gone && a !in done
    ensures var u := Shift(pos, done) - {gone};
            a in u && u[a := u[a] + POSITION_OFFSET] == Shift(pos, done + {a}) - {gone}
  {
  }

  /** Deleting a module takes its lessons along and no others. */
  lemma CascadedRows(t: Rows, m: string)
    requires ContentIdsDistinct(t)
    ensures var u := map l | l in t && t[l].parent != m :: t[l];
            ContentIdsDistinct(u) && forall n | n != m :: PositionsIn(u, n) == PositionsIn(t, n)
  {
  }

  lemma SubUnique(pos: Positions, a: string)
    requires Unique(pos)
    ensures Unique(pos - {a})
  {
  }

  /** With `order[k]` gone, the rows after it are still those after its position. */
  lemma GapLater(pos: Positions, order: seq<string>, k: nat)
    requires Listed(pos, order) && k < |order|
    ensures var gap := pos - {order[k]};
            && NoRepeats(order)
            && (forall i | k + 1 <= i < |order| :: order[i] in gap && gap[order[i]] == i + 1)
            && forall a <- gap :: gap[a] > k + 1 ==> a in order[k + 1..]
  {
    ListedIsUnique(pos, order);
    forall a | a in pos && pos[a] > k + 1 ensures a in order[k + 1..] {
      assert a in order;
      assert order[k + 1..][pos[a] - 1 - (k + 1)] == a;
    }
  }

  lemma ShiftIsClosing(pos: Positions, order: seq<string>, k: nat)
    requires Listed(pos, order) && k < |order|
    ensures Shift(pos, set a | a in pos && pos[a] > k + 1) - {order[k]} == Closing(pos, order, k, 0)
  {
  }

  /** The next sibling moves one up. */
  lemma ClosingNext(pos: Positions, order: seq<string>, k: nat, j: nat)
    requires Listed(pos, order) && k + 1 + j < |order|
    ensures var a := order[k + 1 + j];
            && a in Closing(pos, order, k, j) && pos[a] == k + 2 + j
            && Closing(pos, order, k, j)[a := pos[a] - 1] == Closing(pos, order, k, j + 1)
  {
    ListedIsUnique(pos, order);
    var a := order[k + 1 + j];
    forall b | b in pos && b != a ensures pos[b] != k + 2 + j {
      assert b in order;
    }
  }

  // ----- the same, on lesson rows -----

  lemma WithoutRow(t: Rows, l: string, m: string)
    requires l in t
    ensures PositionsIn(t - {l}, m) == PositionsIn(t, m) - {l}
  {
  }

  lemma ShiftStart(t: Rows, m: string, l: string, pos: Positions)
    requires l in t && pos == PositionsIn(t, m)
    ensures t - {l} == Repositioned(t - {l}, m, Shift(pos, {}) - {l})
  {
  }

  lemma ShiftRowNext(t: Rows, m: string, l: string, pos: Positions, done: set<string>, a: string)
    requires l in t && pos == PositionsIn(t, m) && a in pos && a != l && a !in done
    ensures var u := Repositioned(t - {l}, m, Shift(pos, done) - {l});
            && a in u && u[a := u[a].(position := u[a].position + POSITION_OFFSET)]
                      == Repositioned(t - {l}, m, Shift(pos, done + {a}) - {l})
  {
  }

  /** Rows stay unique while the positions of one module are unique. */
  lemma RepositionedUnique(t: Rows, m: string, pos: Positions)
    requires RowsUnique(t) && Unique(pos) && forall a <- t :: t[a].parent == m ==> a in pos
    ensures RowsUnique(Repositioned(t, m, pos))
  {
  }

  lemma SubRowsUnique(t: Rows, l: string)
    requires RowsUnique(t)
    ensures RowsUnique(t - {l})
  {
  }

  lemma ShiftRowsUnique(t: Rows, m: string, o: seq<string>, k: nat, l: string, done: set<string>)
    requires RowsUnique(t) && Listed(PositionsIn(t, m), o) && k < |o| <= POSITION_OFFSET && o[k] == l
    ensures RowsUnique(Repositioned(t - {l}, m, Shift(PositionsIn(t, m), done) - {l}))
  {
    hide RowsUnique, Unique, Repositioned;
    ShiftIsUnique(PositionsIn(t, m), o, done);
    SubUnique(Shift(PositionsIn(t, m), done), l);
    SubRowsUnique(t, l);
    RepositionedUnique(t - {l}, m, Shift(PositionsIn(t, m), done) - {l});
  }

  lemma ClosingRowsUnique(t: Rows, m: string, o: seq<string>, k: nat, j: nat, l: string)
    requires RowsUnique(t) && Listed(PositionsIn(t, m), o) && k < |o| <= POSITION_OFFSET && o[k] == l
    ensures RowsUnique(Repositioned(t - {l}, m, Closing(PositionsIn(t, m), o, k, j)))
  {
    hide RowsUnique, Unique, Repositioned;
    ClosingIsUnique(PositionsIn(t, m), o, k, j);
    SubRowsUnique(t, l);
    RepositionedUnique(t - {l}, m, Closing(PositionsIn(t, m), o, k, j));
  }

  lemma ClosingRowNext(t: Rows, m: string, o: seq<string>, k: nat, j: nat, l: string)
    requires Listed(PositionsIn(t, m), o) && k + 1 + j < |o| && o[k] == l
    ensures var a := o[k + 1 + j]; var u := Repositioned(t - {l}, m, Closing(PositionsIn(t, m), o, k, j));
            && a in PositionsIn(t, m) && PositionsIn(t, m)[a] == k + 2 + j && a in u
            && u[a := u[a].(position := k + 1 + j)] == Repositioned(t - {l}, m, Closing(PositionsIn(t, m), o, k, j + 1))
  {
    hide Closing;
    var pos := PositionsIn(t, m);
    var a := o[k + 1 + j];
    ClosingNext(pos, o, k, j);
    ListedIsUnique(pos, o);
    ClosingKeys(pos, o, k, j);
    assert a in pos && a != l;
  }

  lemma ClosingKeys(pos: Positions, o: seq<string>, k: nat, j: nat)
    requires k < |o|
    ensures Closing(pos, o, k, j).Keys == pos.Keys - {o[k]}
  {
  }

  lemma ClosedRows(t: Rows, l: string, m: string, o: seq<string>, k: nat)
    requires l in t && t[l].parent == m && Listed(PositionsIn(t, m), o) && k < |o| && o[k] == l
    requires ContentIdsDistinct(t)
    ensures var pos := Closing(PositionsIn(t, m), o, k, |o| - k - 1); var u := Repositioned(t - {l}, m, pos);
            && ContentIdsDistinct(u) && u.Keys == t.Keys - {l} && PositionsIn(u, m) == pos
            && (forall n | n != m :: PositionsIn(u, n) == PositionsIn(t, n))
            && forall x <- u :: u[x].parent == t[x].parent && u[x].contentId == t[x].contentId
  {
    hide Closing;
    ClosingKeys(PositionsIn(t, m), o, k, |o| - k - 1);
    WithoutRow(t, l, m);
    RepositionedPositions(t - {l}, m, Closing(PositionsIn(t, m), o, k, |o| - k - 1));
  }

  // ----- reorder, on values -----

  /** The rows and places of a reorder that passed its checks. */
  ghost predicate Ready(t: Rows, places: seq<Place>) {
    RowsUnique(t) && ContentIdsDistinct(t) && GoodPlaces(t, places)
  }

  lemma ReadyToPlace(t: Rows, order: seq<string>, entries: seq<Entry>)
    requires RowsUnique(t) && ContentIdsDistinct(t) && Complete(t, order, entries)
    requires |t| <= POSITION_OFFSET && forall l <- t :: 1 <= t[l].position <= POSITION_OFFSET
    ensures Ready(t, PlacesFrom(entries))
  {
    hide RowsUnique, ContentIdsDistinct, Complete, GoodPlaces;
    ContentIdsFit(t, order, entries);
    CompletePlacesAreGood(t, order, entries);
  }

  lemma ClashesIff(t: Rows, draft: string, listed: seq<string>, places: seq<Place>)
    requires forall l <- listed :: l in t
    ensures Clashes(t, draft, listed, places) <==>
            !((forall i | 0 <= i < |listed| :: !RenameClash(t, draft, listed, i))
              && (forall j | 0 <= j < |places| :: !PlaceClash(t, draft, places, j)))
  {
    hide RenameClash, PlaceClash;
  }

  lemma ListedFrom(pos: Positions, order: seq<string>)
    requires Listed(pos, order)
    ensures forall i | 0 <= i < |order| :: order[i] in pos && pos[order[i]] == i + 1
  {
  }

  function ContentIdsOf(t: Rows, listed: seq<string>): (ids: seq<string>)
    requires forall l <- listed :: l in t
    ensures |ids| == |listed| && forall i | 0 <= i < |ids| :: listed[i] in t && ids[i] == t[listed[i]].contentId
  {
    seq(|listed|, i requires 0 <= i < |listed| => assert listed[i] in listed; t[listed[i]].contentId)
  }

  lemma CoversFacts(t: Rows, listed: seq<string>)
    requires Covers(t, listed)
    ensures forall l <- listed :: l in t
  {
  }

  lemma ContentIdsOfDistinct(t: Rows, listed: seq<string>)
    requires Covers(t, listed) && ContentIdsDistinct(t)
    ensures var ids := ContentIdsOf(t, listed); NoRepeats(ids) && forall c :: c in ids <==> Owned(t, c)
  {
    var ids := ContentIdsOf(t, listed);
    forall c ensures c in ids <==> Owned(t, c) {
      if Owned(t, c) {
        var l :| l in t && t[l].contentId == c;
        var i :| 0 <= i < |listed| && listed[i] == l;
        assert ids[i] == c;
      }
    }
  }

  lemma AcceptedIsComplete(t: Rows, order: seq<string>, listed: seq<string>, entries: seq<Entry>)
    requires Covers(t, listed) && ContentIdsDistinct(t) && (forall l <- listed :: l in t)
    requires Rearranges(ModuleIds(entries), order) && NoRepeats(ContentIds(entries))
    requires Rearranges(ContentIds(entries), ContentIdsOf(t, listed))
    ensures Complete(t, order, entries)
  {
    hide ContentIdsDistinct, Covers, NoRepeats;
    var c, ids := ContentIds(entries), ContentIdsOf(t, listed);
    ContentIdsOfDistinct(t, listed);
    RearrangesIff(c, ids);
    forall l | l in t ensures t[l].contentId in c {
      assert Owned(t, t[l].contentId);
      assert t[l].contentId in multiset(ids);
    }
  }

  lemma CompleteIsAccepted(t: Rows, order: seq<string>, listed: seq<string>, entries: seq<Entry>)
    requires Covers(t, listed) && ContentIdsDistinct(t) && (forall l <- listed :: l in t)
    requires Complete(t, order, entries)
    ensures Rearranges(ContentIds(entries), ContentIdsOf(t, listed))
  {
    hide ContentIdsDistinct, Covers, NoRepeats;
    var c, ids := ContentIds(entries), ContentIdsOf(t, listed);
    ContentIdsOfDistinct(t, listed);
    SizeOfDistinct(c);
    SizeOfDistinct(ids);
    forall x | x in ids ensures x in c {
      assert Owned(t, x);
    }
    assert Elements(c) == Elements(ids);
  }

  /** The checks of a reorder accept exactly the complete permutations. */
  lemma CompleteIff(t: Rows, order: seq<string>, listed: seq<string>, entries: seq<Entry>)
    requires Covers(t, listed) && ContentIdsDistinct(t)
    ensures forall l <- listed :: l in t
    ensures var c := ContentIds(entries);
            Complete(t, order, entries) <==>
              Rearranges(ModuleIds(entries), order) && NoRepeats(c) && Rearranges(c, ContentIdsOf(t, listed))
  {
    hide ContentIdsDistinct, Covers, NoRepeats, Rearranges, Owned;
    CoversFacts(t, listed);
    var c := ContentIds(entries);
    if Rearranges(ModuleIds(entries), order) && NoRepeats(c) && Rearranges(c, ContentIdsOf(t, listed)) {
      AcceptedIsComplete(t, order, listed, entries);
    }
    if Complete(t, order, entries) {
      CompleteIsAccepted(t, order, listed, entries);
    }
  }

  lemma ShiftNone(pos: Positions)
    ensures pos == Shift(pos, {})
  {
  }

  lemma ShiftMore(pos: Positions, done: set<string>, a: string)
    requires a in pos && a !in done
    ensures var u := Shift(pos, done); a in u && u[a := u[a] + POSITION_OFFSET] == Shift(pos, done + {a})
  {
  }

  lemma ShiftIsPlacing(pos: Positions, target: seq<string>)
    ensures Shift(pos, pos.Keys) == Placing(pos, target, 0)
  {
  }

  lemma PlacingNext(pos: Positions, order: seq<string>, target: seq<string>, j: nat)
    requires Listed(pos, order) && Rearranges(target, order) && j < |target|
    ensures target[j] in Placing(pos, target, j)
    ensures Placing(pos, target, j)[target[j] := j + 1] == Placing(pos, target, j + 1)
  {
    RankHere(target, j);
    assert target[j] in order;
    forall a | a in pos && a != target[j] ensures Rank(target, a) != j {
    }
  }

  lemma ShiftedNone(t: Rows)
    ensures t == ShiftedRows(t, {})
  {
  }

  lemma ShiftedMore(t: Rows, done: set<string>, l: string)
    requires l in t && l !in done
    ensures var u := ShiftedRows(t, done);
            l in u && u[l := u[l].(position := u[l].position + POSITION_OFFSET)] == ShiftedRows(t, done + {l})
  {
  }

  lemma NextPlace(e: Entry, index: nat, places: seq<Place>, j: nat, rest: seq<Place>)
    requires index < |e.lessons| && j <= |places| && places[j..] == EntryPlaces(e, index) + rest
    ensures j < |places| && places[j] == Place(e.lessons[index], e.id, index + 1)
    ensures places[j + 1..] == EntryPlaces(e, index + 1) + rest
  {
    assert places[j] == places[j..][0];
    assert places[j + 1..] == places[j..][1..];
  }

  lemma OwnerOfPlace(t: Rows, places: seq<Place>, j: nat)
    requires GoodPlaces(t, places) && j < |places|
    ensures exists l <- t :: t[l].contentId == places[j].contentId
  {
    assert Owned(t, places[j].contentId);
  }

  lemma ContentIdsFit(t: Rows, order: seq<string>, entries: seq<Entry>)
    requires Complete(t, order, entries) && |t| <= POSITION_OFFSET && ContentIdsDistinct(t)
    ensures |ContentIds(entries)| <= POSITION_OFFSET
  {
    var c := ContentIds(entries);
    SizeOfDistinct(c);
    var owners := set l | l in t;
    assert owners == t.Keys;
    OneEach(t, Elements(c));
  }

  lemma {:induction false} OneEach(t: Rows, ids: set<string>)
    requires ContentIdsDistinct(t) && forall c <- ids :: Owned(t, c)
    ensures |ids| <= |t|
    decreases |t|
  {
    if ids != {} {
      var c :| c in ids;
      var l :| l in t && t[l].contentId == c;
      var u := t - {l};
      forall d | d in ids - {c} ensures Owned(u, d) {
        var x :| x in t && t[x].contentId == d;
        assert x in u;
      }
      OneEach(u, ids - {c});
    }
  }

  predicate AllOwned(t: Rows, entries: seq<Entry>) {
    forall c <- ContentIds(entries) :: Owned(t, c)
  }

  /** The order of the lessons in every module, as the request gives it. */
  ghost function RequestedOrder(t: Rows, entries: seq<Entry>): map<string, seq<string>>
    requires ContentIdsDistinct(t) && AllOwned(t, entries)
  {
    map m | m in ModuleIds(entries) ::
      var a := Rank(ModuleIds(entries), m);
      EntryLessons(entries, a);
      Requested(t, entries[a])
  }

  lemma RequestedIsListed(t: Rows, draft: string, order: seq<string>, entries: seq<Entry>, m: string)
    requires ContentIdsDistinct(t) && Complete(t, order, entries) && AllOwned(t, entries) && m in ModuleIds(entries)
    ensures var places := PlacesFrom(entries);
            Listed(PositionsIn(Placed(t, draft, places, |places|), m), RequestedOrder(t, entries)[m])
  {
    hide Listed, PositionsIn, Placed, ContentIdsDistinct, Complete;
    PlacedIsRequested(t, draft, order, entries, Rank(ModuleIds(entries), m));
  }

  lemma ReorderKeeps(modules: Positions, lessons: Rows, order: seq<string>, within: map<string, seq<string>>,
      draft: string, entries: seq<Entry>)
    requires Arranged(modules, lessons, order, within) && Complete(lessons, order, entries)
    ensures AllOwned(lessons, entries) && ContentIdsDistinct(lessons)
    ensures var places := PlacesFrom(entries); var ids := ModuleIds(entries); var end := Placed(lessons, draft, places, |places|);
            && Arranged(Placing(modules, ids, |ids|), end, ids, RequestedOrder(lessons, entries))
            && end.Keys == lessons.Keys && forall l <- end :: end[l].contentId == lessons[l].contentId
  {
    hide Listed, PositionsIn, Placed, ContentIdsDistinct, Rearranges, Placing, RequestedOrder, PlacesFrom, ModuleIds;
    var places, ids := PlacesFrom(entries), ModuleIds(entries);
    var end := Placed(lessons, draft, places, |places|);
    PlacingEnds(modules, order, ids);
    PlacedKeepsContent(lessons, draft, order, entries);
    SameModules(modules, order, ids);
    RequestedKeys(lessons, entries);
    forall m | m in ids ensures Listed(PositionsIn(end, m), RequestedOrder(lessons, entries)[m]) {
      RequestedIsListed(lessons, draft, order, entries, m);
    }
    ArrangedFrom(Placing(modules, ids, |ids|), end, ids, RequestedOrder(lessons, entries));
  }

  lemma RequestedKeys(t: Rows, entries: seq<Entry>)
    requires ContentIdsDistinct(t) && AllOwned(t, entries)
    ensures forall m :: m in RequestedOrder(t, entries) <==> m in ModuleIds(entries)
  {
    hide ContentIdsDistinct, Requested, ModuleIds;
  }

  lemma ArrangedFrom(modules: Positions, lessons: Rows, order: seq<string>, within: map<string, seq<string>>)
    requires Listed(modules, order) && (forall m :: m in modules <==> m in order)
    requires (forall m :: m in within <==> m in order) && forall m <- order :: Listed(PositionsIn(lessons, m), within[m])
    requires (forall l <- lessons :: lessons[l].parent in order) && ContentIdsDistinct(lessons)
    ensures Arranged(modules, lessons, order, within)
  {
    hide Listed, PositionsIn, ContentIdsDistinct;
  }

  lemma SameModules(pos: Positions, order: seq<string>, target: seq<string>)
    requires Listed(pos, order) && Rearranges(target, order)
    ensures Placing(pos, target, |target|).Keys == pos.Keys && forall a :: a in pos <==> a in target
  {
    PlacingEnds(pos, order, target);
    var end := Placing(pos, target, |target|);
    forall a ensures a in pos <==> a in target {
      assert a in pos <==> a in end;
    }
  }
}
