/** print_token_amount and print_amount of libsol/printer.c. */
module TokenAmount {
  import opened Bytes
  import opened Radix
  import opened Text
  import opened Decimal


  // ---- The text ----

  /** A digit sequence without its trailing zeros. */
  function TrimZeros(ds: seq<nat>): (r: seq<nat>)
    ensures r <= ds
  {
    if ds != [] && ds[|ds| - 1] == 0 then TrimZeros(ds[..|ds| - 1]) else ds
  }

  /** The digits before the decimal point. */
  function Whole(amount: nat, decimals: nat): (ds: seq<nat>)
    ensures AreDigits(ds, 10) && ds != []
  {
    var all := Padded(amount, decimals + 1);
    all[..|all| - decimals]
  }

  /** All `decimals` digits after the decimal point. */
  function Fraction(amount: nat, decimals: nat): (ds: seq<nat>)
    ensures AreDigits(ds, 10) && |ds| == decimals
  {
    var all := Padded(amount, decimals + 1);
    all[|all| - decimals..]
  }

  function Pointed(whole: seq<nat>, fraction: seq<nat>): (t: string)
    requires AreDigits(whole, 10) && AreDigits(fraction, 10)
    ensures |t| == |whole| + 1 + |fraction|
  {
    Chars(whole) + "." + Chars(fraction)
  }

  /** The amount as a decimal number: no trailing zero in the fraction and no bare point. */
  function AmountText(amount: nat, decimals: nat): string
  {
    var fraction := TrimZeros(Fraction(amount, decimals));
    if fraction == [] then Chars(Whole(amount, decimals))
    else Pointed(Whole(amount, decimals), fraction)
  }

  /** The amount followed by the name of the asset, when there is one. */
  function AssetText(amount: nat, asset: Option<string>, decimals: nat): string
  {
    if asset.Some? then AmountText(amount, decimals) + " " + asset.value else AmountText(amount, decimals)
  }

  // ---- What the text means ----

  ghost function PointIndex(t: string): (k: nat)
    ensures k <= |t| && '.' !in t[..k] && (k < |t| ==> t[k] == '.')
  {
    if t == "" || t[0] == '.' then 0 else 1 + PointIndex(t[1..])
  }

  /** A whole part without surplus zeros; after a point, digits that do not end in zero. */
  ghost predicate CanonicalAmount(t: string)
  {
    var k := PointIndex(t);
    && Canonical(t[..k])
    && (k < |t| ==> k + 1 < |t| && AllDigits(t[k + 1..]) && t[|t| - 1] != '0')
  }

  ghost function FractionDigits(t: string): seq<nat>
    requires CanonicalAmount(t)
  {
    var k := PointIndex(t);
    if k < |t| then Parse(t[k + 1..]) else []
  }

  /**
   * The value of the text times ten to the `decimals`: the number read with the fraction
   * filled up to `decimals` places and the point left out.
   */
  ghost function Units(t: string, decimals: nat): nat
    requires CanonicalAmount(t) && |FractionDigits(t)| <= decimals
  {
    var fraction := FractionDigits(t);
    Value(Parse(t[..PointIndex(t)]) + fraction + Zeros(decimals - |fraction|), 10)
  }

  lemma PointIndexOf(whole: seq<nat>, tail: string)
    requires AreDigits(whole, 10) && (tail == "" || tail[0] == '.')
    ensures PointIndex(Chars(whole) + tail) == |whole|
  {
    var t := Chars(whole) + tail;
    assert forall i :: 0 <= i < |whole| ==> t[i] == Chars(whole)[i];
    assert tail != "" ==> t[|whole|] == '.';
  }

  lemma {:induction false} TrimmedZeros(ds: seq<nat>)
    ensures ds == TrimZeros(ds) + Zeros(|ds| - |TrimZeros(ds)|)
    ensures TrimZeros(ds) != [] ==> TrimZeros(ds)[|TrimZeros(ds)| - 1] != 0
  {
    if ds != [] && ds[|ds| - 1] == 0 {
      TrimmedZeros(ds[..|ds| - 1]);
    }
  }

  ghost function Tail(fraction: seq<nat>): string
    requires AreDigits(fraction, 10)
  {
    if fraction == [] then "" else "." + Chars(fraction)
  }

  lemma Regroup(a: seq<nat>, b: seq<nat>, c: seq<nat>)
    ensures a + b + c == a + (b + c)
  {
  }

  lemma Slices(front: string, back: string)
    ensures (front + back)[..|front|] == front
    ensures back != "" ==> (front + back)[|front| + 1..] == back[1..]
    ensures back != "" ==> (front + back)[|front + back| - 1] == back[|back| - 1]
  {
  }

  lemma ReadBack(whole: seq<nat>, fraction: seq<nat>)
    requires AreDigits(whole, 10) && AreDigits(fraction, 10)
    requires Canonical(Chars(whole)) && (fraction != [] ==> fraction[|fraction| - 1] != 0)
    ensures var t := Chars(whole) + Tail(fraction);
      CanonicalAmount(t) && Parse(t[..PointIndex(t)]) == whole && FractionDigits(t) == fraction
  {
    PointIndexOf(whole, Tail(fraction));
    ParseChars(whole);
    ParseChars(fraction);
    Slices(Chars(whole), Tail(fraction));
    if fraction != [] {
      assert Tail(fraction)[1..] == Chars(fraction);
    }
  }

  lemma WholeFraction(amount: nat, decimals: nat)
    ensures Value(Whole(amount, decimals) + Fraction(amount, decimals), 10) == amount
    ensures Canonical(Chars(Whole(amount, decimals)))
  {
    PaddedValue(amount, decimals + 1);
    assert Whole(amount, decimals) + Fraction(amount, decimals) == Padded(amount, decimals + 1);
    ParseChars(Whole(amount, decimals));
  }

  lemma UnitsOf(whole: seq<nat>, fraction: seq<nat>, full: seq<nat>)
    requires AreDigits(whole, 10) && AreDigits(fraction, 10)
    requires Canonical(Chars(whole)) && (fraction != [] ==> fraction[|fraction| - 1] != 0)
    requires |fraction| <= |full| && full == fraction + Zeros(|full| - |fraction|)
    ensures var t := Chars(whole) + Tail(fraction);
      CanonicalAmount(t) && |FractionDigits(t)| <= |full| && Units(t, |full|) == Value(whole + full, 10)
  {
    ReadBack(whole, fraction);
    Regroup(whole, fraction, Zeros(|full| - |fraction|));
  }

  lemma TailAdded(whole: seq<nat>, fraction: seq<nat>)
    requires AreDigits(whole, 10) && AreDigits(fraction, 10)
    ensures fraction == [] ==> Chars(whole) + Tail(fraction) == Chars(whole)
    ensures fraction != [] ==> Chars(whole) + Tail(fraction) == Pointed(whole, fraction)
  {
  }

  lemma AmountTextTail(amount: nat, decimals: nat)
    ensures AmountText(amount, decimals)
      == Chars(Whole(amount, decimals)) + Tail(TrimZeros(Fraction(amount, decimals)))
  {
    TailAdded(Whole(amount, decimals), TrimZeros(Fraction(amount, decimals)));
  }

  /** The printed text is canonical and means exactly the amount. */
  lemma AmountRoundTrip(amount: nat, decimals: nat)
    ensures var t := AmountText(amount, decimals);
      CanonicalAmount(t) && |FractionDigits(t)| <= decimals && Units(t, decimals) == amount
  {
    WholeFraction(amount, decimals);
    TrimmedZeros(Fraction(amount, decimals));
    AmountTextTail(amount, decimals);
    UnitsOf(Whole(amount, decimals), TrimZeros(Fraction(amount, decimals)), Fraction(amount, decimals));
  }

  /** Amounts with the same text are the same; the name of the asset does not help to confuse them. */
  lemma AssetInjective(a: nat, b: nat, asset: Option<string>, decimals: nat)
    requires AssetText(a, asset, decimals) == AssetText(b, asset, decimals)
    ensures a == b
  {
    var s, t := AmountText(a, decimals), AmountText(b, decimals);
    if asset.Some? {
      assert s == AssetText(a, asset, decimals)[..|s|];
      assert t == AssetText(b, asset, decimals)[..|t|];
    }
    AmountRoundTrip(a, decimals);
    AmountRoundTrip(b, decimals);
  }

  // ---- Which amounts look alike ----

  /** The number with the point left out. */
  ghost function Mantissa(t: string): nat
    requires CanonicalAmount(t)
  {
    Value(Parse(t[..PointIndex(t)]) + FractionDigits(t), 10)
  }

  lemma UnitsScaled(t: string, decimals: nat)
    requires CanonicalAmount(t) && |FractionDigits(t)| <= decimals
    ensures Units(t, decimals) == Mantissa(t) * Pow(10, decimals - |FractionDigits(t)|)
  {
    var digits, rest := Parse(t[..PointIndex(t)]) + FractionDigits(t), decimals - |FractionDigits(t)|;
    ValueConcat(digits, Zeros(rest), 10);
    ValueZeros(rest, 10);
  }

  lemma CrossScaled(n: nat, a: nat, b: nat, d: nat, e: nat, k: nat)
    requires k <= d && k <= e && a == n * Pow(10, d - k) && b == n * Pow(10, e - k)
    ensures a * Pow(10, e) == b * Pow(10, d)
  {
    PowAdd(10, d - k, e);
    PowAdd(10, e - k, d);
    MulAssoc(n, Pow(10, d - k), Pow(10, e));
    MulAssoc(n, Pow(10, e - k), Pow(10, d));
    assert d - k + e == e - k + d;
  }

  lemma UnitsAgree(t: string, d: nat, e: nat)
    requires CanonicalAmount(t) && |FractionDigits(t)| <= d && |FractionDigits(t)| <= e
    ensures Units(t, d) * Pow(10, e) == Units(t, e) * Pow(10, d)
  {
    UnitsScaled(t, d);
    UnitsScaled(t, e);
    CrossScaled(Mantissa(t), Units(t, d), Units(t, e), d, e, |FractionDigits(t)|);
  }

  lemma SameTextScaled(a: nat, d: nat, b: nat, e: nat)
    requires AmountText(a, d) == AmountText(b, e)
    ensures a * Pow(10, e) == b * Pow(10, d)
  {
    AmountRoundTrip(a, d);
    AmountRoundTrip(b, e);
    UnitsAgree(AmountText(a, d), d, e);
  }

  lemma TenTimes(a: nat, m: nat)
    requires m > 0
    ensures a * Pow(10, m) == 10 * (a * Pow(10, m - 1))
  {
    MulAssoc(a, 10, Pow(10, m - 1));
    MulAssoc(10, a, Pow(10, m - 1));
  }

  lemma PaddedTen(n: nat, k: nat)
    ensures Padded(10 * n, k + 1) == Padded(n, k) + [0]
  {
  }

  lemma ZerosSnoc(m: nat)
    requires m > 0
    ensures Zeros(m) == Zeros(m - 1) + [0]
  {
  }

  lemma Appended(ds: seq<nat>, m: nat)
    requires m > 0
    ensures ds + Zeros(m) == ds + Zeros(m - 1) + [0]
  {
    ZerosSnoc(m);
  }

  lemma {:induction false} PaddedScaled(a: nat, k: nat, m: nat)
    ensures Padded(a * Pow(10, m), k + m) == Padded(a, k) + Zeros(m)
  {
    if m == 0 {
      assert a * Pow(10, 0) == a;
    } else {
      TenTimes(a, m);
      PaddedScaled(a, k, m - 1);
      PaddedTen(a * Pow(10, m - 1), k + (m - 1));
      Appended(Padded(a, k), m);
    }
  }

  lemma {:induction false} TrimMore(ds: seq<nat>, m: nat)
    ensures TrimZeros(ds + Zeros(m)) == TrimZeros(ds)
  {
    if m == 0 {
      assert ds + Zeros(0) == ds;
    } else {
      Appended(ds, m);
      TrimMore(ds, m - 1);
      TrimOne(ds + Zeros(m - 1));
    }
  }

  lemma TrimOne(ds: seq<nat>)
    ensures TrimZeros(ds + [0]) == TrimZeros(ds)
  {
    assert (ds + [0])[..|ds|] == ds;
  }

  lemma PartsScaled(a: nat, d: nat, m: nat, b: nat, e: nat)
    requires Padded(b, e + 1) == Padded(a, d + 1) + Zeros(m) && e == d + m
    ensures Whole(b, e) == Whole(a, d) && Fraction(b, e) == Fraction(a, d) + Zeros(m)
  {
  }

  lemma DecimalsMore(a: nat, d: nat, m: nat, b: nat, e: nat)
    requires b == a * Pow(10, m) && e == d + m
    ensures AmountText(b, e) == AmountText(a, d)
  {
    PaddedScaled(a, d + 1, m);
    assert d + 1 + m == e + 1;
    PartsScaled(a, d, m, b, e);
    TrimMore(Fraction(a, d), m);
  }

  lemma MulStrict(a: nat, b: nat, p: nat)
    requires p > 0 && a < b
    ensures a * p < b * p
  {
    MulMono(a + 1, b, p);
  }

  lemma Cancel(a: nat, b: nat, p: nat)
    requires p > 0 && a * p == b * p
    ensures a == b
  {
    if a < b {
      MulStrict(a, b, p);
    } else if b < a {
      MulStrict(b, a, p);
    }
  }

  lemma ScaledBy(a: nat, d: nat, b: nat, e: nat)
    requires d <= e && a * Pow(10, e) == b * Pow(10, d)
    ensures b == a * Pow(10, e - d)
  {
    PowAdd(10, e - d, d);
    MulAssoc(a, Pow(10, e - d), Pow(10, d));
    PowPos(10, d);
    Cancel(a * Pow(10, e - d), b, Pow(10, d));
  }

  lemma ScaledSameText(a: nat, d: nat, b: nat, e: nat)
    requires d <= e && a * Pow(10, e) == b * Pow(10, d)
    ensures AmountText(a, d) == AmountText(b, e)
  {
    ScaledBy(a, d, b, e);
    DecimalsMore(a, d, e - d, b, e);
  }

  /** Two amounts have one text exactly when they are the same number. */
  lemma AmountsAlike(a: nat, d: nat, b: nat, e: nat)
    ensures AmountText(a, d) == AmountText(b, e) <==> a * Pow(10, e) == b * Pow(10, d)
  {
    if AmountText(a, d) == AmountText(b, e) {
      SameTextScaled(a, d, b, e);
    } else if a * Pow(10, e) == b * Pow(10, d) {
      if d <= e {
        ScaledSameText(a, d, b, e);
      } else {
        ScaledSameText(b, e, a, d);
      }
    }
  }

  /** Digits and points only. */
  predicate Plain(s: string)
  {
    forall i :: 0 <= i < |s| ==> s[i] == '.' || '0' <= s[i] <= '9'
  }

  lemma PlainPointed(whole: seq<nat>, fraction: seq<nat>)
    requires AreDigits(whole, 10) && AreDigits(fraction, 10)
    ensures Plain(Chars(whole)) && Plain(Pointed(whole, fraction))
  {
  }

  lemma PlainAmount(a: nat, d: nat)
    ensures Plain(AmountText(a, d))
  {
    PlainPointed(Whole(a, d), TrimZeros(Fraction(a, d)));
  }

  function BlankIndex(u: string): (k: nat)
    ensures k <= |u| && ' ' !in u[..k] && (k < |u| ==> u[k] == ' ')
  {
    if u == "" || u[0] == ' ' then 0 else 1 + BlankIndex(u[1..])
  }

  lemma {:induction false} BlankIs(u: string, i: nat)
    requires i < |u| && u[i] == ' ' && ' ' !in u[..i]
    ensures BlankIndex(u) == i
  {
    if i > 0 {
      assert u[0] == u[..i][0] && u[1..][..i - 1] == u[..i][1..];
      BlankIs(u[1..], i - 1);
    }
  }

  lemma BlankIndexOf(s: string, x: string)
    requires ' ' !in s
    ensures BlankIndex(s + " " + x) == |s|
  {
    var u := s + " " + x;
    assert u[|s|] == ' ' && u[..|s|] == s;
    BlankIs(u, |s|);
  }

  /** A text is split at its first blank in one way. */
  lemma SplitAtBlank(s: string, x: string, t: string, y: string)
    requires ' ' !in s && ' ' !in t && s + " " + x == t + " " + y
    ensures s == t && x == y
  {
    var u := s + " " + x;
    BlankIndexOf(s, x);
    BlankIndexOf(t, y);
    assert s == u[..|s|] && t == u[..|t|] && x == u[|s| + 1..] && y == u[|t| + 1..];
  }

  /** Two token amounts look alike exactly when they are the same number of the same tokens. */
  lemma AssetsAlike(a: nat, d: nat, x: string, b: nat, e: nat, y: string)
    ensures AssetText(a, Some(x), d) == AssetText(b, Some(y), e) <==> x == y && a * Pow(10, e) == b * Pow(10, d)
  {
    AmountsAlike(a, d, b, e);
    PlainAmount(a, d);
    PlainAmount(b, e);
    if AssetText(a, Some(x), d) == AssetText(b, Some(y), e) {
      SplitAtBlank(AmountText(a, d), x, AmountText(b, e), y);
    }
  }

  // ---- The printer ----

  /** All digits with the point in its place, before anything is stripped. */
  ghost function RawText(amount: nat, decimals: nat): string
  {
    Pointed(Whole(amount, decimals), Fraction(amount, decimals))
  }

  /** Where digit number `m` from the right stands in the unstripped text, counted from the right. */
  function Place(decimals: nat, m: nat): nat
  {
    if m < decimals then m else m + 1
  }

  /** What one turn of the digit loop has to know about the text that it writes backwards. */
  ghost predicate StepFacts(t: string, amount: nat, decimals: nat, m: nat)
  {
    && decimals < |t| && t[|t| - 1 - decimals] == '.'
    && Place(decimals, m) < |t| && t[|t| - 1 - Place(decimals, m)] == DigitChar(Rest(amount, m) % 10)
    && (Place(decimals, m) + 1 < |t| <==> Rest(amount, m + 1) > 0 || m < decimals)
    && Rest(amount, m + 1) == Rest(amount, m) / 10
  }

  /** A text with a point and its digits, counted from the right. */
  lemma PointedFromRight(all: seq<nat>, decimals: nat, m: nat)
    requires AreDigits(all, 10) && decimals < |all| && m < |all|
    ensures var t := Pointed(all[..|all| - decimals], all[|all| - decimals..]);
      && |t| == |all| + 1 && t[|t| - 1 - decimals] == '.'
      && t[|t| - 1 - Place(decimals, m)] == DigitChar(all[|all| - 1 - m])
  {
  }

  lemma FactsFromRight(all: seq<nat>, amount: nat, decimals: nat, m: nat)
    requires AreDigits(all, 10) && decimals < |all| && m < |all|
    requires all[|all| - 1 - m] == Rest(amount, m) % 10
    requires m + 1 < |all| <==> Rest(amount, m) / 10 > 0 || m + 1 < decimals + 1
    ensures StepFacts(Pointed(all[..|all| - decimals], all[|all| - decimals..]), amount, decimals, m)
  {
    PointedFromRight(all, decimals, m);
    RestStep(amount, m);
  }

  lemma RawFromRight(amount: nat, decimals: nat, m: nat)
    requires Place(decimals, m) < |RawText(amount, decimals)|
    ensures StepFacts(RawText(amount, decimals), amount, decimals, m)
  {
    var all := Padded(amount, decimals + 1);
    RawFrom(all, decimals);
    DigitFromRight(amount, decimals + 1, m);
    FactsFromRight(all, amount, decimals, m);
  }

  lemma RawFrom(all: seq<nat>, decimals: nat)
    requires AreDigits(all, 10) && decimals < |all|
    ensures |Pointed(all[..|all| - decimals], all[|all| - decimals..])| == |all| + 1
  {
  }

  /** The greatest index that the digit loop writes when it starts a turn at `i`, whatever the size of the buffer. */
  function LastWrite(dVal: nat, i: nat, decimals: nat, outLength: nat): nat
    requires i < outLength
    decreases outLength - i
  {
    var k := if i == decimals then i + 1 else i;
    if (dVal / 10 > 0 || k + 1 < decimals + 1) && k + 1 < outLength
      then LastWrite(dVal / 10, k + 1, decimals, outLength)
    else k
  }

  /** A loop that has yet to write the point stays in the buffer unless the point takes its last byte. */
  lemma {:induction false} LastWriteFrom(dVal: nat, i: nat, decimals: nat, outLength: nat)
    requires i < outLength
    ensures LastWrite(dVal, i, decimals, outLength) < outLength <==> i > decimals || outLength != decimals + 1
    decreases outLength - i
  {
    var k := if i == decimals then i + 1 else i;
    if (dVal / 10 > 0 || k + 1 < decimals + 1) && k + 1 < outLength {
      LastWriteFrom(dVal / 10, k + 1, decimals, outLength);
    }
  }

  /** For every amount the digit loop stays in its buffer exactly when the buffer does not have `decimals` + 1 bytes. */
  lemma DigitLoopInside(amount: nat, decimals: nat, outLength: nat)
    requires outLength >= 2
    ensures LastWrite(amount, 0, decimals, outLength) < outLength <==> outLength != decimals + 1
    ensures outLength == decimals + 1 ==> LastWrite(amount, 0, decimals, outLength) == outLength
  {
    LastWriteFrom(amount, 0, decimals, outLength);
    LastWriteBound(amount, 0, decimals, outLength);
  }

  lemma {:induction false} LastWriteBound(dVal: nat, i: nat, decimals: nat, outLength: nat)
    requires i < outLength
    ensures LastWrite(dVal, i, decimals, outLength) <= outLength
    decreases outLength - i
  {
    var k := if i == decimals then i + 1 else i;
    if (dVal / 10 > 0 || k + 1 < decimals + 1) && k + 1 < outLength {
      LastWriteBound(dVal / 10, k + 1, decimals, outLength);
    }
  }

  /** How far the loop is after `m` digits. */
  function Position(decimals: nat, m: nat): nat
  {
    if m <= decimals then m else m + 1
  }

  /** One turn of the digit loop: the point, when it is due, and a digit, unless it falls behind the buffer. */
  method EmitTurn(dVal: nat, i: nat, decimals: nat, out: array<char>, outLength: nat, ghost amount: nat, ghost m: nat,
      ghost t: string)
    returns (next: nat, beyond: bool)
    requires i < outLength <= out.Length
    requires StepFacts(t, amount, decimals, m) && i == Position(decimals, m) && dVal == Rest(amount, m)
    requires forall x :: 0 <= x < i ==> out[x] == t[|t| - 1 - x]
    modifies out
    ensures beyond <==> i == decimals && i + 1 == outLength
    ensures !beyond ==> next == Position(decimals, m + 1) && i < next <= outLength && next <= |t|
    ensures !beyond ==> forall x :: 0 <= x < next ==> out[x] == t[|t| - 1 - x]
    ensures Frame(out, old(out[..]), 0, outLength)
  {
    next, beyond := i, false;
    if next == decimals {
      out[next] := '.';
      next := next + 1;
    }
    if next >= outLength {
      return next, true;
    }
    out[next] := DigitChar(dVal % 10);
    next := next + 1;
  }

  lemma LastTurn(dVal: nat, i: nat, next: nat, decimals: nat, outLength: nat)
    requires i < outLength && next == (if i == decimals then i + 2 else i + 1)
    ensures LastWrite(dVal, i, decimals, outLength) ==
      if (dVal / 10 > 0 || next < decimals + 1) && next < outLength then LastWrite(dVal / 10, next, decimals, outLength)
      else next - 1
  {
  }

  /** The digit loop: the point goes in when `decimals` digits are out, and a digit follows it, be there room or not. */
  method EmitAmount(amount: nat, decimals: nat, out: array<char>, outLength: nat, ghost t: string)
    returns (i: nat, beyond: bool)
    requires 2 <= outLength <= out.Length
    requires |t| > decimals + 1 && forall m: nat :: Place(decimals, m) < |t| ==> StepFacts(t, amount, decimals, m)
    modifies out
    ensures Frame(out, old(out[..]), 0, outLength)
    ensures beyond <==> LastWrite(amount, 0, decimals, outLength) >= outLength
    ensures !beyond ==> i <= outLength && i <= |t| && i == LastWrite(amount, 0, decimals, outLength) + 1
    ensures !beyond && i < outLength ==> i == |t| && Backward(out, 0, t)
  {
    var dVal := amount;
    ghost var m: nat := 0;
    ghost var last := LastWrite(amount, 0, decimals, outLength);
    i, beyond := 0, false;
    var more := true;
    while more
      invariant 0 <= i <= outLength && i <= |t|
      invariant i == Position(decimals, m) && dVal == Rest(amount, m)
      invariant forall x :: 0 <= x < i ==> out[x] == t[|t| - 1 - x]
      invariant Frame(out, old(out[..]), 0, outLength) && !beyond
      invariant more ==> Place(decimals, m) < |t| && i < outLength
      invariant !more ==> i == outLength || i == |t|
      invariant if more then LastWrite(dVal, i, decimals, outLength) == last else i == last + 1
      decreases outLength - i
    {
      assert StepFacts(t, amount, decimals, m);
      var next;
      next, beyond := EmitTurn(dVal, i, decimals, out, outLength, amount, m, t);
      if beyond {
        return;
      }
      LastTurn(dVal, i, next, decimals, outLength);
      dVal := dVal / 10;
      i := next;
      m := m + 1;
      more := (dVal > 0 || i < decimals + 1) && i < outLength;
    }
  }

  /**
   * The two stripping steps: trailing zeros of the fraction, then a point left bare.  Without any
   * character the point is looked for in front of the buffer.
   */
  method Strip(out: array<char>, ghost whole: seq<nat>, ghost fraction: seq<nat>, n: nat) returns (i: int, beyond: bool)
    requires AreDigits(whole, 10) && AreDigits(fraction, 10) && whole != []
    requires n > 0 ==> Forward(out, 0, Pointed(whole, fraction)) && n == |whole| + 1 + |fraction|
    ensures beyond <==> n == 0
    ensures n > 0 ==>
      var trimmed := TrimZeros(fraction);
      var t := if trimmed == [] then Chars(whole) else Pointed(whole, trimmed);
      i == |t| && Forward(out, 0, t)
  {
    beyond := false;
    ghost var f := fraction;
    i := n - 1;
    while i > 0
      invariant AreDigits(f, 10) && f <= fraction && TrimZeros(f) == TrimZeros(fraction)
      invariant if n == 0 then i == -1 else i == |whole| + |f|
    {
      assert f == [] ==> out[i] == '.';
      assert f != [] ==> out[i] == DigitChar(f[|f| - 1]);
      if out[i] != '0' {
        break;
      }
      f := f[..|f| - 1];
      i := i - 1;
    }
    i := i + 1;
    if i == 0 {
      return i, true;
    }
    if out[i - 1] == '.' {
      i := i - 1;
    }
  }

  lemma RawLength(amount: nat, decimals: nat)
    ensures |RawText(amount, decimals)| == |Padded(amount, decimals + 1)| + 1
    ensures |AmountText(amount, decimals)| < |RawText(amount, decimals)| + 1
  {
  }

  /** The part before the asset is appended. */
  method PrintNumber(amount: u64, decimals: byte, out: array<char>, outLength: nat) returns (i: int, beyond: bool)
    requires outLength <= out.Length
    modifies out
    ensures Frame(out, old(out[..]), 0, outLength)
    ensures beyond <==> outLength == 1 || outLength == decimals + 1
    ensures !beyond ==> (i < 0 <==> |Padded(amount, decimals + 1)| + 1 >= outLength)
    ensures !beyond && i >= 0 ==>
      i == |AmountText(amount, decimals)| < outLength && Forward(out, 0, AmountText(amount, decimals))
  {
    ghost var t := RawText(amount, decimals);
    RawLength(amount, decimals);
    i, beyond := 0, false;
    if i < outLength - 1 {
      DigitLoopInside(amount, decimals, outLength);
      forall m: nat | Place(decimals, m) < |t| ensures StepFacts(t, amount, decimals, m) {
        RawFromRight(amount, decimals, m);
      }
      i, beyond := EmitAmount(amount, decimals, out, outLength, t);
      if beyond {
        return;
      }
    }
    if i >= outLength {
      return -1, false;
    }
    ReverseInPlace(out, 0, i, if i == 0 then "" else t);
    i, beyond := Strip(out, Whole(amount, decimals), Fraction(amount, decimals), i);
  }

  /** A blank, the name of the asset and the NUL that `strncpy` copies along with it. */
  method Qualify(name: string, out: array<char>, i: nat, ghost t: string)
    requires Forward(out, 0, t) && i == |t| && i + 1 + |name| + 1 <= out.Length
    modifies out
    ensures Frame(out, old(out[..]), i, i + 1 + |name| + 1)
    ensures Holds(out, 0, t + " " + name)
  {
    out[i] := ' ';
    forall k | 0 <= k < |name| { out[i + 1 + k] := name[k]; }
    out[i + 1 + |name|] := '\0';
  }

  /**
   * The source leaves its buffer, in front or behind, exactly when the buffer has one byte or
   * `decimals` + 1 bytes.  Otherwise the zero return code is given exactly when the unstripped
   * digits fit and, after stripping, the asset fits as well.
   */
  method PrintTokenAmount(amount: u64, asset: Option<cstring>, decimals: byte, out: array<char>, outLength: nat)
    returns (rc: int, beyond: bool)
    requires outLength <= out.Length
    modifies out
    ensures Frame(out, old(out[..]), 0, outLength)
    ensures beyond <==> outLength == 1 || outLength == decimals + 1
    ensures !beyond ==>
      (rc == 0 <==>
        && outLength <= INT_MAX
        && |Padded(amount, decimals + 1)| + 1 < outLength
        && (asset.Some? ==> |AssetText(amount, asset, decimals)| < outLength))
    ensures !beyond && rc == 0 ==> Holds(out, 0, AssetText(amount, asset, decimals))
  {
    rc, beyond := 1, false;
    if outLength > INT_MAX {
      return;
    }
    var i;
    i, beyond := PrintNumber(amount, decimals, out, outLength);
    if beyond || i < 0 {
      return;
    }
    if asset.Some? {
      if i + 1 + |asset.value| + 1 > outLength {
        return;
      }
      Qualify(asset.value, out, i, AmountText(amount, decimals));
    } else {
      out[i] := '\0';
    }
    rc := 0;
  }

  const SOL: cstring := "SOL"
  const SOL_DECIMALS: byte := 9

  function SolText(lamports: nat): string
  {
    AssetText(lamports, Some(SOL), SOL_DECIMALS)
  }

  /** The text of lamports is the canonical number of billionths of them, in SOL. */
  lemma SolMeans(lamports: nat)
    ensures SolText(lamports) == AmountText(lamports, 9) + " SOL"
    ensures var t := AmountText(lamports, 9);
      CanonicalAmount(t) && |FractionDigits(t)| <= 9 && Units(t, 9) == lamports
  {
    AmountRoundTrip(lamports, 9);
  }

  lemma WholeText(n: nat)
    ensures AmountText(n, 0) == DecimalText(n)
  {
  }

  /** A whole number of SOL is so many billions of lamports. */
  lemma WholeSol(n: nat)
    ensures SolText(n * 1_000_000_000) == DecimalText(n) + " SOL"
  {
    assert Pow(10, 9) == 1_000_000_000;
    DecimalsMore(n, 0, 9, n * 1_000_000_000, 9);
    WholeText(n);
  }

  method PrintAmount(amount: u64, out: array<char>, outLength: nat) returns (rc: int, beyond: bool)
    requires outLength <= out.Length
    modifies out
    ensures Frame(out, old(out[..]), 0, outLength)
    ensures beyond <==> outLength == 1 || outLength == 10
    ensures !beyond ==>
      (rc == 0 <==>
        && outLength <= INT_MAX && |Padded(amount, 10)| + 1 < outLength
        && |SolText(amount)| < outLength)
    ensures !beyond && rc == 0 ==> Holds(out, 0, SolText(amount))
  {
    rc, beyond := PrintTokenAmount(amount, Some(SOL), SOL_DECIMALS, out, outLength);
  }
}
