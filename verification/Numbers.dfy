/** The dotted lexicographic order on step and section numbers. */
module Numbers {
  import opened Decimals
  import opened TestMachine

  predicate Less(a: Number, b: Number) {
    b != [] && (a == [] || a[0] < b[0] || (a[0] == b[0] && Less(a[1..], b[1..])))
  }

  lemma {:induction false} LessTransitive(a: Number, b: Number, c: Number)
    requires Less(a, b) && Less(b, c)
    ensures Less(a, c)
  {
    if a != [] && a[0] == b[0] == c[0] {
      LessTransitive(a[1..], b[1..], c[1..]);
    }
  }

  lemma {:induction false} LessIrreflexive(a: Number)
    ensures !Less(a, a)
  {
    if a != [] {
      LessIrreflexive(a[1..]);
    }
  }

  /** Whatever is numbered under `p.k` comes before `p.n` for every later n. */
  lemma {:induction false} LessUnder(p: Number, k: nat, rest: Number, n: nat)
    requires k < n
    ensures Less(p + [k] + rest, p + [n])
  {
    if p != [] {
      assert (p + [k] + rest)[1..] == p[1..] + [k] + rest;
      assert (p + [n])[1..] == p[1..] + [n];
      LessUnder(p[1..], k, rest, n);
    }
  }

  /** A number comes before everything numbered under it. */
  lemma {:induction false} LessExtended(p: Number, k: nat)
    ensures Less(p, p + [k])
  {
    if p != [] {
      assert (p + [k])[1..] == p[1..] + [k];
      LessExtended(p[1..], k);
    }
  }

  /** Every number is smaller than all later ones. */
  predicate Increasing(ns: seq<Number>) {
    forall i, j :: 0 <= i < j < |ns| ==> Less(ns[i], ns[j])
  }

  predicate AllLess(ns: seq<Number>, bound: Number) {
    forall n :: n in ns ==> Less(n, bound)
  }

  lemma {:induction false} AllLessWeaken(ns: seq<Number>, a: Number, b: Number)
    requires AllLess(ns, a) && Less(a, b)
    ensures AllLess(ns, b)
  {
    forall n | n in ns
      ensures Less(n, b)
    {
      LessTransitive(n, a, b);
    }
  }

  lemma {:induction false} IncreasingDistinct(ns: seq<Number>)
    requires Increasing(ns)
    ensures forall i, j :: 0 <= i < j < |ns| ==> ns[i] != ns[j]
  {
    forall i, j | 0 <= i < j < |ns|
      ensures ns[i] != ns[j]
    {
      LessIrreflexive(ns[i]);
    }
  }

  // ---------- as they are printed ----------

  /** "1.2.3": the tag, then a dot and the step at every level. */
  function Dotted(n: Number): string
    requires n != []
  {
    if |n| == 1 then Decimal(n[0]) else Decimal(n[0]) + "." + Dotted(n[1..])
  }

  /** What stands before the first dot, or the length. */
  function FirstDot(s: string): (d: nat)
    ensures d <= |s|
  {
    if s == "" || s[0] == '.' then 0 else 1 + FirstDot(s[1..])
  }

  lemma {:induction false} FirstDotAfter(a: string, b: string)
    requires '.' !in a
    ensures FirstDot(a + "." + b) == |a| && FirstDot(a) == |a|
  {
    if a == "" {
      assert (a + "." + b)[0] == '.';
    } else {
      assert (a + "." + b)[1..] == a[1..] + "." + b;
      FirstDotAfter(a[1..], b);
    }
  }

  lemma {:induction false} DottedHead(n: Number)
    requires n != []
    ensures var s := Dotted(n);
            && FirstDot(s) == |Decimal(n[0])| && s[..FirstDot(s)] == Decimal(n[0])
            && (|n| == 1 <==> FirstDot(s) == |s|)
            && (|n| > 1 ==> s[FirstDot(s) + 1..] == Dotted(n[1..]))
  {
    DecimalHasNoDot(n[0]);
    if |n| == 1 {
      FirstDotAfter(Decimal(n[0]), "");
    } else {
      FirstDotAfter(Decimal(n[0]), Dotted(n[1..]));
    }
  }

  /** The parts are printed in order, with a dot between each two. */
  lemma {:induction false} DottedParts(a: Number, b: Number)
    requires a != [] && b != []
    ensures Dotted(a + b) == Dotted(a) + "." + Dotted(b)
    ensures forall k: nat :: Dotted([k]) == Decimal(k)
  {
    assert (a + b)[0] == a[0] && (a + b)[1..] == a[1..] + b;
    if |a| == 1 {
      assert a[1..] + b == b;
    } else {
      DottedParts(a[1..], b);
      assert Decimal(a[0]) + "." + (Dotted(a[1..]) + "." + Dotted(b))
          == Decimal(a[0]) + "." + Dotted(a[1..]) + "." + Dotted(b);
    }
  }

  /** Different numbers are printed differently. */
  lemma {:induction false} DottedInjective(a: Number, b: Number)
    requires a != [] && b != [] && Dotted(a) == Dotted(b)
    ensures a == b
  {
    DottedHead(a);
    DottedHead(b);
    DecimalInjective(a[0], b[0]);
    if |a| > 1 {
      DottedInjective(a[1..], b[1..]);
      assert a == [a[0]] + a[1..] && b == [b[0]] + b[1..];
    }
  }
}
