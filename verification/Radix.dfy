/** Positional notation: the meaning of every printed number. */
module Radix {

  function Pow(base: nat, k: nat): nat
  {
    if k == 0 then 1 else base * Pow(base, k - 1)
  }

  ghost predicate AreDigits(ds: seq<nat>, base: nat)
  {
    forall i :: 0 <= i < |ds| ==> ds[i] < base
  }

  /** The number that a digit sequence denotes. */
  function Value(ds: seq<nat>, base: nat): nat
  {
    if ds == [] then 0 else Value(ds[..|ds| - 1], base) * base + ds[|ds| - 1]
  }

  /** The digits of `n` without leading zeros; zero has none. */
  function Digits(n: nat, base: nat): seq<nat>
    requires base >= 2
  {
    if n == 0 then [] else Shrinks(n, base); Digits(n / base, base) + [n % base]
  }

  lemma Shrinks(n: nat, base: nat)
    requires base >= 2 && n > 0
    ensures n / base < n
  {
    var q, r := n / base, n % base;
    assert n == q * base + r;
    if q > 0 {
      MulMono(2, base, q);
    }
  }

  lemma MulMono(a: nat, b: nat, c: nat)
    requires a <= b
    ensures a * c <= b * c
  {
  }

  /** Division with remainder has one answer. */
  lemma DivModUnique(q: nat, d: nat, r: nat)
    requires r < d
    ensures (q * d + r) / d == q && (q * d + r) % d == r
  {
    var n := q * d + r;
    assert n == n / d * d + n % d;
    if n / d < q {
      MulMono(n / d + 1, q, d);
    } else if n / d > q {
      MulMono(q + 1, n / d, d);
    }
  }

  // Arithmetic steps used by the inductions below, kept apart from sequences.

  lemma Shift(a: nat, p: nat, b: nat, base: nat, d: nat)
    ensures (a * p + b) * base + d == a * (base * p) + (b * base + d)
  {
    assert (a * p) * base == a * (base * p);
  }

  lemma Append(v: nat, p: nat, base: nat, d: nat)
    requires v < p && d < base
    ensures v * base + d < base * p
  {
    MulMono(v + 1, p, base);
  }

  lemma Quotient(n: nat, p: nat, base: nat)
    requires base > 0
    ensures n / base < p <==> n < base * p
  {
    var q, r := n / base, n % base;
    assert n == q * base + r;
    if q < p {
      Append(q, p, base, r);
    } else {
      MulMono(p, q, base);
    }
  }

  lemma PowPos(base: nat, k: nat)
    requires base > 0
    ensures Pow(base, k) > 0
  {
  }

  lemma MulAssoc(a: nat, b: nat, c: nat)
    ensures a * (b * c) == (a * b) * c
  {
  }

  lemma {:induction false} PowAdd(base: nat, a: nat, b: nat)
    ensures Pow(base, a + b) == Pow(base, a) * Pow(base, b)
  {
    if a > 0 {
      PowAdd(base, a - 1, b);
      MulAssoc(base, Pow(base, a - 1), Pow(base, b));
    }
  }

  /** Reading two pieces one after the other. */
  lemma {:induction false} ValueConcat(a: seq<nat>, b: seq<nat>, base: nat)
    ensures Value(a + b, base) == Value(a, base) * Pow(base, |b|) + Value(b, base)
  {
    if b == [] {
      assert a + b == a;
    } else {
      var b' := b[..|b| - 1];
      assert (a + b)[..|a + b| - 1] == a + b';
      ValueConcat(a, b', base);
      Shift(Value(a, base), Pow(base, |b'|), Value(b', base), base, b[|b| - 1]);
    }
  }

  lemma ValueSnoc(ds: seq<nat>, d: nat, base: nat)
    ensures Value(ds + [d], base) == Value(ds, base) * base + d
  {
    assert (ds + [d])[..|ds|] == ds;
  }

  lemma ValueCons(d: nat, ds: seq<nat>, base: nat)
    ensures Value([d] + ds, base) == d * Pow(base, |ds|) + Value(ds, base)
  {
    ValueConcat([d], ds, base);
    assert [d][..0] == [];
    assert Value([d], base) == d;
  }

  function Zeros(n: nat): (zs: seq<nat>)
    ensures |zs| == n
  {
    seq(n, _ => 0)
  }

  lemma {:induction false} ValueZeros(n: nat, base: nat)
    ensures Value(Zeros(n), base) == 0
  {
    if n > 0 {
      ValueZeros(n - 1, base);
      assert Zeros(n)[..n - 1] == Zeros(n - 1);
    }
  }

  lemma LeadingZeros(n: nat, ds: seq<nat>, base: nat)
    ensures Value(Zeros(n) + ds, base) == Value(ds, base)
  {
    ValueConcat(Zeros(n), ds, base);
    ValueZeros(n, base);
  }

  /** A digit sequence of length `k` denotes a number below base to the `k`. */
  lemma {:induction false} ValueBound(ds: seq<nat>, base: nat)
    requires AreDigits(ds, base)
    ensures Value(ds, base) < Pow(base, |ds|)
  {
    if ds != [] {
      var front := ds[..|ds| - 1];
      ValueBound(front, base);
      Append(Value(front, base), Pow(base, |front|), base, ds[|ds| - 1]);
    }
  }

  lemma {:induction false} DigitsCanonical(n: nat, base: nat)
    requires base >= 2
    ensures AreDigits(Digits(n, base), base)
    ensures n > 0 ==> Digits(n, base) != [] && Digits(n, base)[0] > 0
  {
    if n > 0 {
      Shrinks(n, base);
      DigitsCanonical(n / base, base);
    }
  }

  lemma ValueStep(n: nat, front: seq<nat>, base: nat)
    requires base >= 2 && Value(front, base) == n / base
    ensures Value(front + [n % base], base) == n
  {
    var r := n % base;
    ValueSnoc(front, r, base);
    assert n == n / base * base + r;
  }

  lemma {:induction false} ValueDigits(n: nat, base: nat)
    requires base >= 2
    ensures Value(Digits(n, base), base) == n
  {
    if n > 0 {
      Shrinks(n, base);
      ValueDigits(n / base, base);
      ValueStep(n, Digits(n / base, base), base);
    }
  }

  /** A digit sequence that does not start with zero is the canonical one of its value. */
  lemma {:induction false} DigitsValue(ds: seq<nat>, base: nat)
    requires base >= 2 && AreDigits(ds, base)
    requires ds == [] || ds[0] > 0
    ensures Digits(Value(ds, base), base) == ds
    ensures ds != [] ==> Value(ds, base) > 0
  {
    if ds != [] {
      var front := ds[..|ds| - 1];
      DigitsValue(front, base);
      DivModUnique(Value(front, base), base, ds[|ds| - 1]);
      if front == [] {
        assert Value(ds, base) == ds[0];
      } else {
        MulMono(1, Value(front, base), base);
      }
      assert front + [ds[|ds| - 1]] == ds;
    }
  }

  /** How many digits a number has is decided by the powers of the base. */
  lemma {:induction false} DigitsLength(n: nat, base: nat, k: nat)
    requires base >= 2
    ensures |Digits(n, base)| <= k <==> n < Pow(base, k)
  {
    if n == 0 {
      PowPos(base, k);
    } else if k > 0 {
      Shrinks(n, base);
      DigitsLength(n / base, base, k - 1);
      Quotient(n, Pow(base, k - 1), base);
    }
  }

  /** Equal length and equal value make equal digits. */
  lemma {:induction false} ValueInjective(a: seq<nat>, b: seq<nat>, base: nat)
    requires |a| == |b| && AreDigits(a, base) && AreDigits(b, base)
    requires Value(a, base) == Value(b, base)
    ensures a == b
  {
    if a != [] {
      var n := |a| - 1;
      DivModUnique(Value(a[..n], base), base, a[n]);
      DivModUnique(Value(b[..n], base), base, b[n]);
      ValueInjective(a[..n], b[..n], base);
      assert a == a[..n] + [a[n]] && b == b[..n] + [b[n]];
    }
  }
}
