/** Positions under a unique constraint, and how renumbering moves through them. */
module DraftOrder {
  const POSITION_OFFSET := 1_000_000

  /** The position column of the rows of one parent. */
  type Positions = map<string, int>

  /** The unique constraint on (parent, position). */
  predicate Unique(pos: Positions) {
    forall a <- pos, b <- pos :: a != b ==> pos[a] != pos[b]
  }

  /** The rows are numbered 1..n in this order. */
  predicate Listed(pos: Positions, order: seq<string>) {
    && (forall i | 0 <= i < |order| :: order[i] in pos && pos[order[i]] == i + 1)
    && (forall a <- pos :: a in order)
  }

  predicate NoRepeats(s: seq<string>) {
    forall i, j | 0 <= i < j < |s| :: s[i] != s[j]
  }

  /** The index of `a` in `s`, or the length of `s`. */
  function Rank(s: seq<string>, a: string): (r: nat)
    ensures r <= |s| && (r < |s| ==> s[r] == a) && (a in s <==> r < |s|)
    ensures forall i | 0 <= i < r :: s[i] != a
  {
    if s == [] then 0 else if s[0] == a then 0 else 1 + Rank(s[1..], a)
  }

  lemma ListedIsUnique(pos: Positions, order: seq<string>)
    requires Listed(pos, order)
    ensures Unique(pos) && NoRepeats(order)
  {
    assert forall a <- pos :: a in order && pos[a] == Rank(order, a) + 1;
  }

  lemma ListedSize(pos: Positions, order: seq<string>)
    requires Listed(pos, order)
    ensures |order| == |pos|
  {
    ListedIsUnique(pos, order);
    SizeOfDistinct(order);
    assert Elements(order) == pos.Keys;
  }

  function Elements(s: seq<string>): set<string> {
    set a | a in s
  }

  lemma {:induction false} SizeOfDistinct(s: seq<string>)
    requires NoRepeats(s)
    ensures |Elements(s)| == |s|
    decreases |s|
  {
    if s != [] {
      SizeOfDistinct(s[1..]);
      assert Elements(s) == {s[0]} + Elements(s[1..]);
    }
  }

  // ----- the states a renumbering passes through -----

  /** Some rows moved out of the way. */
  function Shift(pos: Positions, done: set<string>): Positions {
    map a | a in pos :: if a in done then pos[a] + POSITION_OFFSET else pos[a]
  }

  lemma ShiftIsUnique(pos: Positions, order: seq<string>, done: set<string>)
    requires Listed(pos, order) && |order| <= POSITION_OFFSET
    ensures Unique(Shift(pos, done))
  {
    ListedIsUnique(pos, order);
    assert forall a <- pos :: a in order && 1 <= pos[a] <= |order|;
  }

  function Without(order: seq<string>, k: nat): seq<string>
    requires k < |order|
  {
    order[..k] + order[k + 1..]
  }

  /** `order[k]` is gone and the rest moved out of the way; `j` of them are back. */
  function Closing(pos: Positions, order: seq<string>, k: nat, j: nat): Positions
    requires k < |order|
  {
    map a | a in pos && a != order[k] ::
      if pos[a] <= k + 1 then pos[a] else if pos[a] <= k + 1 + j then pos[a] - 1 else pos[a] + POSITION_OFFSET
  }

  lemma ClosingIsUnique(pos: Positions, order: seq<string>, k: nat, j: nat)
    requires Listed(pos, order) && |order| <= POSITION_OFFSET && k < |order|
    ensures Unique(Closing(pos, order, k, j))
  {
    ListedIsUnique(pos, order);
    assert forall a <- pos :: a in order && 1 <= pos[a] <= |order|;
    assert order[k] in pos;
  }

  lemma ClosingEnds(pos: Positions, order: seq<string>, k: nat)
    requires Listed(pos, order) && k < |order|
    ensures Listed(Closing(pos, order, k, |order| - k - 1), Without(order, k))
  {
    ListedIsUnique(pos, order);
    var end := Closing(pos, order, k, |order| - k - 1);
    var rest := Without(order, k);
    forall a <- end ensures a in rest {
      var r := Rank(order, a);
      assert rest[if r < k then r else r - 1] == a;
    }
  }

  /** All rows moved out of the way, and the first `j` of `target` placed. */
  function Placing(pos: Positions, target: seq<string>, j: nat): Positions {
    map a | a in pos :: if Rank(target, a) < j then Rank(target, a) + 1 else pos[a] + POSITION_OFFSET
  }

  /** The same rows in another order. */
  predicate Rearranges(target: seq<string>, order: seq<string>) {
    NoRepeats(target) && |target| == |order| && forall a <- target :: a in order
  }

  lemma {:induction false} RearrangesIff(target: seq<string>, order: seq<string>)
    requires NoRepeats(order)
    ensures Rearranges(target, order) <==> multiset(target) == multiset(order)
  {
    CountOne(order);
    if multiset(target) == multiset(order) {
      forall i, j | 0 <= i < j < |target| ensures target[i] != target[j] {
        if target[i] == target[j] {
          TwiceInside(target, i, j);
        }
      }
      assert |target| == |multiset(target)| == |order|;
      forall a <- target ensures a in order {
        assert a in multiset(target);
      }
    }
    if Rearranges(target, order) {
      CountOne(target);
      SizeOfDistinct(target);
      SizeOfDistinct(order);
      var x, y := Elements(target), Elements(order);
      SubsetOfSameSize(x, y);
      assert forall a :: multiset(target)[a] == (if a in x then 1 else 0);
      assert forall a :: multiset(order)[a] == (if a in y then 1 else 0);
    }
  }

  lemma SubsetOfSameSize(x: set<string>, y: set<string>)
    requires x <= y && |x| == |y|
    ensures x == y
  {
    assert y == x + (y - x);
    assert |y - x| == 0;
  }

  lemma {:induction false} CountOne(s: seq<string>)
    requires NoRepeats(s)
    ensures forall a :: multiset(s)[a] == (if a in s then 1 else 0)
    decreases |s|
  {
    if s != [] {
      CountOne(s[1..]);
      assert s == [s[0]] + s[1..];
    }
  }

  lemma TwiceInside(s: seq<string>, i: nat, j: nat)
    requires i < j < |s| && s[i] == s[j]
    ensures multiset(s)[s[i]] >= 2
  {
    assert s == s[..j] + s[j..];
    assert s[i] in multiset(s[..j]) by { assert s[..j][i] == s[i]; }
    assert s[j] in multiset(s[j..]) by { assert s[j..][0] == s[j]; }
  }

  lemma PlacingIsUnique(pos: Positions, order: seq<string>, target: seq<string>, j: nat)
    requires Listed(pos, order) && Rearranges(target, order) && |order| <= POSITION_OFFSET && j <= |target|
    ensures Unique(Placing(pos, target, j))
  {
    ListedIsUnique(pos, order);
    assert forall a <- pos :: a in order && 1 <= pos[a] <= |order|;
  }

  lemma PlacingEnds(pos: Positions, order: seq<string>, target: seq<string>)
    requires Listed(pos, order) && Rearranges(target, order)
    ensures Listed(Placing(pos, target, |target|), target)
  {
    ListedIsUnique(pos, order);
    RearrangesIff(target, order);
    forall a <- pos ensures a in target {
      assert a in multiset(order);
    }
    forall i | 0 <= i < |target| ensures target[i] in pos && Rank(target, target[i]) == i {
      assert target[i] in order;
    }
  }
}
