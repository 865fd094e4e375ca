/** print_u64 and print_i64 of libsol/printer.c. */
module Decimal {
  import opened Bytes
  import opened Radix
  import opened Text

  /** The decimal digits of `n`, with zeros in front to make at least `k` of them. */
  function Padded(n: nat, k: nat): (ds: seq<nat>)
    ensures |ds| >= k && AreDigits(ds, 10)
    decreases n, k
  {
    if n == 0 && k == 0 then []
    else Padded(n / 10, if k > 0 then k - 1 else 0) + [n % 10]
  }

  /** What is left of `n` after its last `i` digits have gone. */
  function Rest(n: nat, i: nat): nat
  {
    if i == 0 then n else Rest(n / 10, i - 1)
  }

  lemma {:induction false} RestStep(n: nat, i: nat)
    ensures Rest(n, i + 1) == Rest(n, i) / 10
  {
    if i > 0 {
      RestStep(n / 10, i - 1);
    }
  }

  /** The digits seen from the right: which one comes next, and whether there is another. */
  lemma {:induction false} DigitFromRight(n: nat, k: nat, i: nat)
    requires i < |Padded(n, k)|
    ensures Padded(n, k)[|Padded(n, k)| - 1 - i] == Rest(n, i) % 10
    ensures i + 1 < |Padded(n, k)| <==> Rest(n, i) / 10 > 0 || i + 1 < k
    decreases i
  {
    var k' := if k > 0 then k - 1 else 0;
    if i > 0 {
      DigitFromRight(n / 10, k', i - 1);
    } else {
      PaddedEmpty(n / 10, k');
    }
  }

  lemma PaddedEmpty(n: nat, k: nat)
    ensures Padded(n, k) == [] <==> n == 0 && k == 0
  {
  }

  lemma {:induction false} PaddedValue(n: nat, k: nat)
    ensures Value(Padded(n, k), 10) == n
    ensures |Padded(n, k)| > k ==> Padded(n, k)[0] > 0
    decreases n, k
  {
    if n > 0 || k > 0 {
      var k' := if k > 0 then k - 1 else 0;
      PaddedValue(n / 10, k');
      ValueSnoc(Padded(n / 10, k'), n % 10, 10);
    }
  }

  /** The padded digits are the only ones with their value, their width and no surplus zero. */
  lemma {:induction false} PaddedUnique(ds: seq<nat>, k: nat)
    requires AreDigits(ds, 10) && |ds| >= k
    requires |ds| > k ==> ds[0] > 0
    ensures Padded(Value(ds, 10), k) == ds
  {
    if ds != [] {
      var front, last := ds[..|ds| - 1], ds[|ds| - 1];
      var n := Value(ds, 10);
      PaddedUnique(front, if k > 0 then k - 1 else 0);
      DivModUnique(Value(front, 10), 10, last);
      assert front + [last] == ds;
    }
  }

  /** The decimal text of a number. */
  function DecimalText(n: nat): string
  {
    Chars(Padded(n, 1))
  }

  function SignedText(n: int): string
  {
    if n < 0 then "-" + DecimalText(-n) else DecimalText(n)
  }

  // ---- What the texts mean ----

  ghost predicate Canonical(t: string)
  {
    t != "" && AllDigits(t) && (t[0] == '0' ==> |t| == 1)
  }

  lemma DecimalTextValue(n: nat)
    ensures Canonical(DecimalText(n)) && Value(Parse(DecimalText(n)), 10) == n
  {
    PaddedValue(n, 1);
    ParseChars(Padded(n, 1));
  }

  lemma CanonicalText(t: string)
    requires Canonical(t)
    ensures t == DecimalText(Value(Parse(t), 10))
  {
    PaddedUnique(Parse(t), 1);
    assert Chars(Parse(t)) == t;
  }

  /** There is one canonical text whose value is `n`, and it is the printed one. */
  lemma DecimalTextUnique(n: nat, t: string)
    ensures t == DecimalText(n) <==> Canonical(t) && Value(Parse(t), 10) == n
  {
    DecimalTextValue(n);
    if Canonical(t) {
      CanonicalText(t);
    }
  }

  ghost predicate IsSigned(t: string)
  {
    t != "" && if t[0] == '-' then AllDigits(t[1..]) else AllDigits(t)
  }

  ghost function ParseSigned(t: string): int
    requires IsSigned(t)
  {
    if t[0] == '-' then -(Value(Parse(t[1..]), 10) as int) else Value(Parse(t), 10)
  }

  lemma MinusRead(t: string, n: nat)
    requires AllDigits(t) && Value(Parse(t), 10) == n
    ensures IsSigned("-" + t) && ParseSigned("-" + t) == -(n as int)
  {
    assert ("-" + t)[1..] == t;
  }

  lemma NaturalRead(n: nat)
    ensures AllDigits(DecimalText(n)) && DecimalText(n) != "" && ParseSigned(DecimalText(n)) == n
  {
    DecimalTextValue(n);
  }

  lemma NegativeRead(n: int)
    requires n < 0
    ensures IsSigned(SignedText(n)) && ParseSigned(SignedText(n)) == n
  {
    DecimalTextValue(-n);
    MinusRead(DecimalText(-n), -n);
  }

  /** Printing a signed number and reading it back gives the number. */
  lemma SignedRoundTrip(n: int)
    ensures IsSigned(SignedText(n)) && ParseSigned(SignedText(n)) == n
  {
    if n < 0 {
      NegativeRead(n);
    } else {
      NaturalRead(n);
    }
  }

  // ---- The printers ----

  /** The do-while loop of the source: least significant digit first, until none is left or no room is. */
  method EmitDigits(u: nat, out: array<char>, off: nat, outLength: nat) returns (i: nat)
    requires outLength >= 2 && off + outLength <= out.Length
    modifies out
    ensures Frame(out, old(out[..]), off, off + outLength)
    ensures 0 < i <= outLength && i <= |DecimalText(u)|
    ensures i < outLength ==> i == |DecimalText(u)| && Backward(out, off, DecimalText(u))
  {
    ghost var t := DecimalText(u);
    var dVal := u;
    i := 0;
    var more := true;
    while more
      invariant 0 <= i <= outLength && i <= |t| && dVal == Rest(u, i)
      invariant forall x :: off <= x < off + i ==> out[x] == t[off + |t| - 1 - x]
      invariant Frame(out, old(out[..]), off, off + outLength)
      invariant i == 0 ==> more
      invariant more ==> i < |t| && i < outLength
      invariant !more ==> i == outLength || i == |t|
      decreases outLength - i
    {
      DigitFromRight(u, 1, i);
      RestStep(u, i);
      if dVal > 0 {
        out[off + i] := DigitChar(dVal % 10);
        dVal := dVal / 10;
      } else {
        out[off + i] := '0';
      }
      i := i + 1;
      more := dVal > 0 && i < outLength;
    }
  }

  /**
   * `out` and `off` stand for the pointer that the source is given.  The return code is zero
   * exactly when the text and its NUL fit, but for one case: a buffer of one byte skips
   * the digit loop and is reported as a success although it holds the empty text.
   */
  method PrintU64(u: u64, out: array<char>, off: nat, outLength: nat) returns (rc: int)
    requires off + outLength <= out.Length
    modifies out
    ensures Frame(out, old(out[..]), off, off + outLength)
    ensures rc == 0 <==> outLength == 1 || |DecimalText(u)| < outLength <= INT_MAX
    ensures rc == 0 && outLength != 1 ==> Holds(out, off, DecimalText(u))
    ensures outLength == 1 ==> Holds(out, off, "")
  {
    if outLength > INT_MAX {
      return 1;
    }
    var i := 0;
    if i < outLength - 1 {
      i := EmitDigits(u, out, off, outLength);
    }
    if i >= outLength {
      return 1;
    }
    out[off + i] := '\0';
    ReverseInPlace(out, off, i, if outLength == 1 then "" else DecimalText(u));
    rc := 0;
  }

  /**
   * A negative number is complemented as a 64-bit word, so that the least one prints too.
   * The one-byte case of `PrintU64` shows up here when one byte is left after the sign.
   */
  method PrintI64(n: i64, out: array<char>, off: nat, outLength: nat) returns (rc: int)
    requires off + outLength <= out.Length
    modifies out
    ensures Frame(out, old(out[..]), off, off + outLength)
    ensures var sign := if n < 0 then 1 else 0;
      rc == 0 <==> outLength == 1 + sign || |SignedText(n)| < outLength <= INT_MAX + sign
    ensures rc == 0 && outLength != (if n < 0 then 2 else 1) ==> Holds(out, off, SignedText(n))
  {
    if outLength < 1 {
      return 1;
    }
    var u: u64 := if n < 0 then n + TWO_64 else n;
    var at, left := off, outLength;
    if n < 0 {
      out[at] := '-';
      at := at + 1;
      left := left - 1;
      u := (TWO_64 - 1 - u) + 1;
    }
    rc := PrintU64(u, out, at, left);
    if n < 0 && rc == 0 && left != 1 {
      HoldsCons(out, off, '-', DecimalText(u));
    }
  }
}
