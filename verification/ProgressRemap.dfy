/** Where a reading pointer goes when its lesson is removed from a course. */
module ProgressRemap {
  import opened Options
  import opened DraftOrder

  /** The first candidate at or after `i` that is retained. */
  function NextRetained(order: seq<string>, i: nat, retained: seq<string>): (r: Option<string>)
    ensures r.Some? ==> r.value in retained
    decreases |order| - i
  {
    if i >= |order| then None
    else if order[i] in retained then Some(order[i])
    else NextRetained(order, i + 1, retained)
  }

  function Replacement(oldOrder: seq<string>, newOrder: seq<string>, index: nat): string
    requires newOrder != []
  {
    match NextRetained(oldOrder, index + 1, newOrder)
    case Some(next) => next
    case None => newOrder[|newOrder| - 1]
  }

  function Remap(oldOrder: seq<string>, newOrder: seq<string>): map<string, string> {
    if newOrder == [] then map[]
    else map c | c in oldOrder && c !in newOrder :: Replacement(oldOrder, newOrder, Rank(oldOrder, c))
  }

  /** The source's loop, filling the map entry by entry. */
  method RemapRemovedLessons(oldOrder: seq<string>, newOrder: seq<string>) returns (remap: map<string, string>)
    ensures remap == Remap(oldOrder, newOrder)
  {
    hide NextRetained;
    if |newOrder| == 0 {
      return map[];
    }
    var fallback := newOrder[|newOrder| - 1];
    remap := map[];
    var index := 0;
    while index < |oldOrder|
      invariant 0 <= index <= |oldOrder|
      invariant forall c :: c in remap <==> c in oldOrder[..index] && c !in newOrder
      invariant forall c <- remap :: remap[c] == Replacement(oldOrder, newOrder, Rank(oldOrder, c))
    {
      var contentId := oldOrder[index];
      assert oldOrder[..index + 1] == oldOrder[..index] + [contentId];
      if contentId !in newOrder && contentId !in remap {
        FirstRank(oldOrder, index);
        var nextRetained := NextRetained(oldOrder, index + 1, newOrder);
        remap := remap[contentId := if nextRetained.Some? then nextRetained.value else fallback];
      }
      index := index + 1;
    }
    assert oldOrder[..index] == oldOrder;
  }

  lemma FirstRank(s: seq<string>, i: nat)
    requires i < |s| && s[i] !in s[..i]
    ensures Rank(s, s[i]) == i
  {
    forall k | 0 <= k < i ensures s[k] != s[i] {
      assert s[..i][k] == s[k] && s[k] in s[..i];
    }
  }

  /** Where a pointer at `c` stands after publishing. */
  function Follow(oldOrder: seq<string>, newOrder: seq<string>, c: string): string {
    var remap := Remap(oldOrder, newOrder);
    if c in remap then remap[c] else c
  }

  /** Exactly the removed lessons are remapped, each to a lesson of the new version; and
      every lesson of the old version leads to a lesson of the new one. */
  lemma RemapIsTotal(oldOrder: seq<string>, newOrder: seq<string>)
    requires newOrder != []
    ensures forall c :: c in Remap(oldOrder, newOrder) <==> c in oldOrder && c !in newOrder
    ensures forall c <- Remap(oldOrder, newOrder) :: Remap(oldOrder, newOrder)[c] in newOrder
    ensures forall c <- oldOrder :: Follow(oldOrder, newOrder, c) in newOrder
  {
  }

  /** Retained lessons stay in the order they were in. */
  predicate KeepsOrder(oldOrder: seq<string>, newOrder: seq<string>) {
    forall c, d | c in oldOrder && d in oldOrder && c in newOrder && d in newOrder ::
      Rank(oldOrder, c) <= Rank(oldOrder, d) ==> Rank(newOrder, c) <= Rank(newOrder, d)
  }

  /** Following never overtakes: a pointer further on stays further on. */
  predicate Monotone(oldOrder: seq<string>, newOrder: seq<string>) {
    forall c, d | c in oldOrder && d in oldOrder ::
      Rank(oldOrder, c) <= Rank(oldOrder, d) ==>
        Rank(newOrder, Follow(oldOrder, newOrder, c)) <= Rank(newOrder, Follow(oldOrder, newOrder, d))
  }

  /** The first retained lesson at or after a place, or the end. */
  lemma {:induction false} NextIsFirst(order: seq<string>, i: nat, retained: seq<string>)
    requires NoRepeats(order) && i <= |order|
    ensures match NextRetained(order, i, retained)
            case Some(c) => c in order && Rank(order, c) >= i && forall k | i <= k < Rank(order, c) :: order[k] !in retained
            case None => forall k | i <= k < |order| :: order[k] !in retained
    decreases |order| - i
  {
    if i < |order| {
      if order[i] in retained {
        SameRank(order, i);
      } else {
        NextIsFirst(order, i + 1, retained);
      }
    }
  }

  lemma SameRank(s: seq<string>, i: nat)
    requires NoRepeats(s) && i < |s|
    ensures Rank(s, s[i]) == i
  {
  }

  /** A lesson leads to the first retained one from its place on, or to the last. */
  lemma FollowIsNext(oldOrder: seq<string>, newOrder: seq<string>, c: string)
    requires newOrder != [] && NoRepeats(oldOrder) && c in oldOrder
    ensures var next := NextRetained(oldOrder, Rank(oldOrder, c), newOrder);
            Follow(oldOrder, newOrder, c) == match next case Some(d) => d case None => newOrder[|newOrder| - 1]
  {
  }

  lemma FollowKeepsOrder(oldOrder: seq<string>, newOrder: seq<string>, c: string, d: string)
    requires newOrder != [] && NoRepeats(oldOrder) && NoRepeats(newOrder) && KeepsOrder(oldOrder, newOrder)
    requires c in oldOrder && d in oldOrder && Rank(oldOrder, c) <= Rank(oldOrder, d)
    ensures Rank(newOrder, Follow(oldOrder, newOrder, c)) <= Rank(newOrder, Follow(oldOrder, newOrder, d))
  {
    hide NextRetained, Follow, Rank;
    var i, j := Rank(oldOrder, c), Rank(oldOrder, d);
    FollowIsNext(oldOrder, newOrder, c);
    FollowIsNext(oldOrder, newOrder, d);
    NextIsFirst(oldOrder, i, newOrder);
    NextIsFirst(oldOrder, j, newOrder);
    SameRank(newOrder, |newOrder| - 1);
    var x, y := NextRetained(oldOrder, i, newOrder), NextRetained(oldOrder, j, newOrder);
    if y.Some? {
      assert oldOrder[Rank(oldOrder, y.value)] == y.value;
      assert x.Some? && Rank(oldOrder, x.value) <= Rank(oldOrder, y.value);
    } else {
      assert x.Some? ==> x.value in newOrder && Rank(newOrder, x.value) < |newOrder|;
    }
  }

  /** Pointers keep their order exactly when the retained lessons keep theirs. */
  lemma MonotoneIff(oldOrder: seq<string>, newOrder: seq<string>)
    requires newOrder != [] && NoRepeats(oldOrder) && NoRepeats(newOrder)
    ensures Monotone(oldOrder, newOrder) <==> KeepsOrder(oldOrder, newOrder)
  {
    hide Rank;
    if KeepsOrder(oldOrder, newOrder) {
      forall c, d | c in oldOrder && d in oldOrder && Rank(oldOrder, c) <= Rank(oldOrder, d)
        ensures Rank(newOrder, Follow(oldOrder, newOrder, c)) <= Rank(newOrder, Follow(oldOrder, newOrder, d))
      {
        FollowKeepsOrder(oldOrder, newOrder, c, d);
      }
    }
    if Monotone(oldOrder, newOrder) {
      forall c | c in oldOrder && c in newOrder ensures Follow(oldOrder, newOrder, c) == c {
      }
    }
  }
}
