/** Weighted token consumption: usage is summed first and rounded up once. */
module TokenWeights {
  datatype Usage = Usage(hit: nat, miss: nat, output: nat)

  datatype Weights = Weights(hit: real, miss: real, output: real)

  predicate NonNegative(w: Weights) {
    w.hit >= 0.0 && w.miss >= 0.0 && w.output >= 0.0
  }

  function Ceil(x: real): int {
    -((-x).Floor)
  }

  function Scaled(n: nat, x: real): real {
    n as real * x
  }

  function Weight(u: Usage, w: Weights): real {
    Scaled(u.hit, w.hit) + Scaled(u.miss, w.miss) + Scaled(u.output, w.output)
  }

  function Sum(us: seq<Usage>): Usage {
    if us == [] then Usage(0, 0, 0)
    else
      var t := Sum(us[1..]);
      Usage(us[0].hit + t.hit, us[0].miss + t.miss, us[0].output + t.output)
  }

  /** `weightedConsumption` of an aggregate. */
  function Consumed(us: seq<Usage>, w: Weights): int {
    Ceil(Weight(Sum(us), w))
  }

  /** The exact cost of the replies one by one. */
  function Cost(us: seq<Usage>, w: Weights): real {
    if us == [] then 0.0 else Weight(us[0], w) + Cost(us[1..], w)
  }

  lemma CeilBounds(x: real)
    ensures Ceil(x) as real - 1.0 < x <= Ceil(x) as real
    ensures x == 0.0 ==> Ceil(x) == 0
    ensures x > 0.0 ==> Ceil(x) > 0
  {
  }

  /** Rounding two parts up separately costs at most one unit more than together. */
  lemma CeilOfSum(x: real, y: real)
    ensures 0 <= Ceil(x) + Ceil(y) - Ceil(x + y) <= 1
  {
    CeilBounds(x);
    CeilBounds(y);
    CeilBounds(x + y);
    var d := Ceil(x) + Ceil(y) - Ceil(x + y);
    assert -1.0 < d as real < 2.0;
  }

  lemma Distribute(a: nat, b: nat, x: real)
    ensures Scaled(a + b, x) == Scaled(a, x) + Scaled(b, x) && Scaled(0, x) == 0.0
  {
    assert (a + b) as real == a as real + b as real;
  }

  /** Summing the columns first changes nothing before the rounding. */
  lemma {:induction false} WeightOfSum(us: seq<Usage>, w: Weights)
    ensures Weight(Sum(us), w) == Cost(us, w)
    decreases |us|
  {
    hide Scaled;
    Distribute(0, 0, w.hit);
    Distribute(0, 0, w.miss);
    Distribute(0, 0, w.output);
    if us != [] {
      var t := Sum(us[1..]);
      WeightOfSum(us[1..], w);
      Distribute(us[0].hit, t.hit, w.hit);
      Distribute(us[0].miss, t.miss, w.miss);
      Distribute(us[0].output, t.output, w.output);
    }
  }

  // ----- which weight goes with which column -----

  function Hits(us: seq<Usage>): nat {
    if us == [] then 0 else us[0].hit + Hits(us[1..])
  }

  function Misses(us: seq<Usage>): nat {
    if us == [] then 0 else us[0].miss + Misses(us[1..])
  }

  function Outputs(us: seq<Usage>): nat {
    if us == [] then 0 else us[0].output + Outputs(us[1..])
  }

  lemma {:induction false} SumIsByColumn(us: seq<Usage>)
    ensures Sum(us) == Usage(Hits(us), Misses(us), Outputs(us))
  {
    if us != [] {
      SumIsByColumn(us[1..]);
    }
  }

  /** Cached input tokens cost the hit weight, other input tokens the miss weight, and output
      tokens the output weight. */
  lemma CostIsByColumn(us: seq<Usage>, w: Weights)
    ensures Cost(us, w) == Hits(us) as real * w.hit + Misses(us) as real * w.miss + Outputs(us) as real * w.output
  {
    SumIsByColumn(us);
    WeightOfSum(us, w);
  }

  /** What is charged is that sum, rounded up. */
  lemma ConsumedIsByColumn(us: seq<Usage>, w: Weights)
    ensures var exact := Hits(us) as real * w.hit + Misses(us) as real * w.miss + Outputs(us) as real * w.output;
            Consumed(us, w) as real - 1.0 < exact <= Consumed(us, w) as real
  {
    SumIsByColumn(us);
    CeilBounds(Weight(Sum(us), w));
  }

  /** A single token of a column costs exactly its own weight. */
  lemma OneTokenCosts(w: Weights)
    ensures Cost([Usage(1, 0, 0)], w) == w.hit
    ensures Cost([Usage(0, 1, 0)], w) == w.miss
    ensures Cost([Usage(0, 0, 1)], w) == w.output
  {
    CostOne(Usage(1, 0, 0), w);
    CostOne(Usage(0, 1, 0), w);
    CostOne(Usage(0, 0, 1), w);
  }

  lemma WeightIsNonNegative(u: Usage, w: Weights)
    requires NonNegative(w)
    ensures Weight(u, w) >= 0.0
  {
    ScaledIsNonNegative(u.hit, w.hit);
    ScaledIsNonNegative(u.miss, w.miss);
    ScaledIsNonNegative(u.output, w.output);
  }

  lemma ScaledIsNonNegative(n: nat, x: real)
    requires x >= 0.0
    ensures Scaled(n, x) >= 0.0
  {
  }

  lemma {:induction false} CostIsNonNegative(us: seq<Usage>, w: Weights)
    requires NonNegative(w)
    ensures Cost(us, w) >= 0.0
    decreases |us|
  {
    if us != [] {
      WeightIsNonNegative(us[0], w);
      CostIsNonNegative(us[1..], w);
    }
  }

  lemma {:induction false} CostConcat(a: seq<Usage>, b: seq<Usage>, w: Weights)
    ensures Cost(a + b, w) == Cost(a, w) + Cost(b, w)
    decreases |a|
  {
    if a == [] {
      assert a + b == b;
    } else {
      assert (a + b)[1..] == a[1..] + b;
      CostConcat(a[1..], b, w);
    }
  }

  /** The cost depends on which replies there are, not on their order. */
  lemma {:induction false} CostOfSame(a: seq<Usage>, b: seq<Usage>, w: Weights)
    requires multiset(a) == multiset(b)
    ensures Cost(a, w) == Cost(b, w)
    decreases |a|
  {
    hide Weight;
    if a == [] {
      NotEmpty(b);
    } else {
      var u := a[0];
      assert a == [u] + a[1..];
      assert u in multiset(b);
      var i :| 0 <= i < |b| && b[i] == u;
      MoveOut(b, i);
      assert multiset(a) == multiset(a[1..]) + multiset{u};
      Cancel(multiset(a[1..]), multiset(b[..i] + b[i + 1..]), u);
      CostOfSame(a[1..], b[..i] + b[i + 1..], w);
      CostWithout(b, i, w);
    }
  }

  lemma NotEmpty(b: seq<Usage>)
    ensures b != [] ==> multiset(b) != multiset{}
  {
    if b != [] {
      assert b == [b[0]] + b[1..];
    }
  }

  lemma Cancel(a: multiset<Usage>, b: multiset<Usage>, u: Usage)
    requires a + multiset{u} == b + multiset{u}
    ensures a == b
  {
    assert a == a + multiset{u} - multiset{u};
    assert b == b + multiset{u} - multiset{u};
  }

  lemma MoveOut(b: seq<Usage>, i: nat)
    requires i < |b|
    ensures multiset(b) == multiset(b[..i] + b[i + 1..]) + multiset{b[i]}
  {
    assert b == b[..i] + ([b[i]] + b[i + 1..]);
  }

  lemma CostWithout(b: seq<Usage>, i: nat, w: Weights)
    requires i < |b|
    ensures Cost(b, w) == Weight(b[i], w) + Cost(b[..i] + b[i + 1..], w)
  {
    hide Weight;
    assert b == b[..i] + ([b[i]] + b[i + 1..]);
    CostConcat(b[..i], [b[i]] + b[i + 1..], w);
    CostConcat([b[i]], b[i + 1..], w);
    CostConcat(b[..i], b[i + 1..], w);
    CostOne(b[i], w);
  }

  lemma CostOne(u: Usage, w: Weights)
    ensures Cost([u], w) == Weight(u, w)
  {
    assert Cost([], w) == 0.0 && [u][1..] == [];
  }
}
