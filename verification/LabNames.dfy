/** The text form of a VM name. */
module LabNames {
  import opened Text

  /** The workspace id, then `-` and the provision generation from 1 on. */
  function LabName(workspace: string, generation: nat): string {
    if generation == 0 then workspace else workspace + "-" + Decimal(generation)
  }

  /** The characters before the first dash. */
  function BeforeDash(s: string): string {
    if s == "" || s[0] == '-' then "" else s[..1] + BeforeDash(s[1..])
  }

  lemma {:induction false} BeforeFirstDash(a: string, x: string)
    requires '-' !in a && (x == "" || x[0] == '-')
    ensures BeforeDash(a + x) == a
    decreases |a|
  {
    if a != "" {
      assert (a + x)[1..] == a[1..] + x && (a + x)[..1] == a[..1];
      BeforeFirstDash(a[1..], x);
    } else {
      assert a + x == x;
    }
  }

  /** The workspace and the generation can be read back from a VM name. */
  lemma LabNameReads(w: string, g: nat)
    requires '-' !in w
    ensures var s := LabName(w, g);
            && BeforeDash(s) == w
            && if g == 0 then s == w else |s| > |w| + 1 && Digits(s[|w| + 1..]) && Value(s[|w| + 1..]) == g
  {
    if g == 0 {
      BeforeFirstDash(w, "");
      assert w + "" == w;
    } else {
      BeforeFirstDash(w, "-" + Decimal(g));
      ValueOfDecimal(g);
      assert LabName(w, g) == w + ("-" + Decimal(g));
      assert LabName(w, g)[|w| + 1..] == Decimal(g);
    }
  }

  /** Two different attempts never share a VM name, as long as workspace ids hold no dash. */
  lemma LabNamesDiffer(w1: string, g1: nat, w2: string, g2: nat)
    requires '-' !in w1 && '-' !in w2
    ensures LabName(w1, g1) == LabName(w2, g2) <==> w1 == w2 && g1 == g2
  {
    LabNameReads(w1, g1);
    LabNameReads(w2, g2);
  }

  /** Without that assumption they can: id `a-1` at generation 0 is id `a` at generation 1. */
  lemma DashedIdsCollide()
    ensures LabName("a-1", 0) == LabName("a", 1)
  {
    assert Decimal(1) == "1";
    assert "a" + "-" + "1" == "a-1";
  }
}
