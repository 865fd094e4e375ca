/** encode_base58 of libsol/printer.c: base conversion in place. */
module Base58 {
  import opened Bytes
  import opened Radix
  import opened Text

  /** The size of the two scratch buffers. */
  const SCRATCH: nat := 64

  /** Beyond stands for a write behind the scratch buffer. */
  datatype Status = Ok | InvalidParameter | Overflow | Beyond

  // ---- The alphabet ----

  function Run(first: char, n: nat): (r: string)
    requires first as int + n <= 128
    ensures |r| == n && forall i :: 0 <= i < n ==> r[i] == (first as int + i) as char
  {
    seq(n, i requires 0 <= i < n => (first as int + i) as char)
  }

  /** Digits and letters in order, without 0, I, O and l. */
  const ALPHABET: string :=
    Run('1', 9) + Run('A', 8) + Run('J', 5) + Run('P', 11) + Run('a', 11) + Run('m', 14)

  function IndexOf(c: char): nat
  {
    var n := c as int;
    if '1' <= c <= '9' then n - '1' as int
    else if 'A' <= c <= 'H' then n - 'A' as int + 9
    else if 'J' <= c <= 'N' then n - 'J' as int + 17
    else if 'P' <= c <= 'Z' then n - 'P' as int + 22
    else if 'a' <= c <= 'k' then n - 'a' as int + 33
    else if 'm' <= c <= 'z' then n - 'm' as int + 44
    else 58
  }

  lemma AlphabetIndex(d: nat)
    requires d < 58
    ensures |ALPHABET| == 58 && IndexOf(ALPHABET[d]) == d
    ensures ALPHABET[d] == '1' <==> d == 0
    ensures ALPHABET[d] != '\0'
  {
  }

  // ---- The text of a byte string ----

  function Alpha(ds: seq<nat>): (t: string)
    requires AreDigits(ds, 58)
    ensures |t| == |ds|
    ensures forall i :: 0 <= i < |ds| ==> |ALPHABET| == 58 && t[i] == ALPHABET[ds[i]]
  {
    AlphabetIndex(0);
    seq(|ds|, i requires 0 <= i < |ds| => ALPHABET[ds[i]])
  }

  ghost function Indices(t: string): (ds: seq<nat>)
  {
    seq(|t|, i requires 0 <= i < |t| => IndexOf(t[i]))
  }

  lemma IndicesAlpha(ds: seq<nat>)
    requires AreDigits(ds, 58)
    ensures Indices(Alpha(ds)) == ds
  {
    forall i | 0 <= i < |ds| ensures Indices(Alpha(ds))[i] == ds[i] { AlphabetIndex(ds[i]); }
  }

  /** How many leading elements are zero. */
  function ZeroCount(s: seq<nat>): (n: nat)
    ensures n <= |s|
    ensures forall i :: 0 <= i < n ==> s[i] == 0
    ensures n < |s| ==> s[n] != 0
  {
    if s == [] || s[0] != 0 then 0 else 1 + ZeroCount(s[1..])
  }

  function CanonicalOf(n: nat): (ds: seq<nat>)
    ensures AreDigits(ds, 58)
  {
    DigitsCanonical(n, 58);
    Digits(n, 58)
  }

  /** One '1' for each leading zero byte, then the base-58 digits of the remaining number. */
  function Digits58(s: bytes): (ds: seq<nat>)
    ensures AreDigits(ds, 58)
  {
    Zeros(ZeroCount(s)) + CanonicalOf(Value(s, 256))
  }

  function Encoded(s: bytes): string
  {
    Alpha(Digits58(s))
  }

  /** The usual decoder: leading zeros are kept, the remaining digits are converted back. */
  ghost function Decoded(t: string): seq<nat>
  {
    var ds := Indices(t);
    Zeros(ZeroCount(ds)) + Digits(Value(ds, 58), 256)
  }

  // ---- The encoding can be undone ----

  lemma {:induction false} ZeroCountOf(n: nat, ds: seq<nat>)
    requires ds != [] ==> ds[0] != 0
    ensures ZeroCount(Zeros(n) + ds) == n
  {
    if n > 0 {
      ZeroCountOf(n - 1, ds);
      assert (Zeros(n) + ds)[1..] == Zeros(n - 1) + ds;
    }
  }

  lemma SplitZeros(s: bytes)
    ensures s == Zeros(ZeroCount(s)) + s[ZeroCount(s)..]
    ensures Value(s, 256) == Value(s[ZeroCount(s)..], 256)
  {
    var z := ZeroCount(s);
    var rest := s[z..];
    assert s == Zeros(z) + rest;
    LeadingZeros(z, rest, 256);
  }

  lemma RoundTripDigits(z: nat, rest: bytes)
    requires rest != [] ==> rest[0] != 0
    ensures var ds := Zeros(z) + CanonicalOf(Value(rest, 256));
      ZeroCount(ds) == z && Digits(Value(ds, 58), 256) == rest
  {
    var v := Value(rest, 256);
    var core := CanonicalOf(v);
    DigitsCanonical(v, 58);
    ZeroCountOf(z, core);
    LeadingZeros(z, core, 58);
    ValueDigits(v, 58);
    DigitsValue(rest, 256);
  }

  /** Decoding the text gives the byte string back. */
  lemma RoundTrip(s: bytes)
    ensures Decoded(Encoded(s)) == s
  {
    var z := ZeroCount(s);
    SplitZeros(s);
    IndicesAlpha(Digits58(s));
    RoundTripDigits(z, s[z..]);
  }

  /** Different byte strings have different texts. */
  lemma Injective(a: bytes, b: bytes)
    requires Encoded(a) == Encoded(b)
    ensures a == b
  {
    RoundTrip(a);
    RoundTrip(b);
  }

  // ---- How long the text is ----

  /** The digits after the zeros are at most two for each byte after the zeros. */
  lemma TwoPerByte(s: bytes)
    ensures |Encoded(s)| <= ZeroCount(s) + 2 * (|s| - ZeroCount(s))
  {
    SplitZeros(s);
    TwiceAsMany(s[ZeroCount(s)..]);
  }

  lemma TwiceAsMany(rest: bytes)
    ensures |Digits(Value(rest, 256), 58)| <= 2 * |rest|
  {
    ValueBound(rest, 256);
    SquareBound(|rest|);
    DigitsLength(Value(rest, 256), 58, 2 * |rest|);
  }

  lemma {:induction false} SquareBound(n: nat)
    ensures Pow(256, n) <= Pow(58, 2 * n)
  {
    if n > 0 {
      SquareBound(n - 1);
      assert Pow(58, 2 * n) == 58 * (58 * Pow(58, 2 * (n - 1)));
    }
  }

  lemma KeyBound()
    ensures Pow(256, 32) < Pow(58, 44)
  {
    var a, b := Pow(256, 8), Pow(58, 11);
    assert a < b;
    PowAdd(256, 8, 8);
    PowAdd(256, 16, 16);
    PowAdd(58, 11, 11);
    PowAdd(58, 22, 22);
    LessSquare(a, b);
    LessSquare(a * a, b * b);
  }

  lemma LessSquare(a: nat, b: nat)
    requires a < b
    ensures a * a < b * b
  {
    MulMono(a, b, a);
    assert a * b < b * b;
  }

  lemma {:induction false} ShortBound(n: nat)
    requires n <= 32
    ensures Pow(256, n) < Pow(58, 12 + n)
    decreases 32 - n
  {
    if n == 32 {
      KeyBound();
    } else {
      ShortBound(n + 1);
      assert Pow(58, 13 + n) == 58 * Pow(58, 12 + n);
      assert Pow(256, n + 1) == 256 * Pow(256, n);
    }
  }

  /** The text of a 32-byte key has at most 44 characters. */
  lemma KeyFits(key: bytes)
    requires |key| == 32
    ensures |Encoded(key)| <= 44
  {
    SplitZeros(key);
    FewDigits(key[ZeroCount(key)..]);
  }

  lemma FewDigits(rest: bytes)
    requires |rest| <= 32
    ensures |Digits(Value(rest, 256), 58)| <= 12 + |rest|
  {
    ValueBound(rest, 256);
    ShortBound(|rest|);
    DigitsLength(Value(rest, 256), 58, 12 + |rest|);
  }

  /** Eight digits take less than half of what six bytes hold. */
  lemma {:induction false} Halving(k: nat)
    ensures Pow(2, k) * Pow(58, 8 * k) <= Pow(256, 6 * k)
  {
    if k > 0 {
      Halving(k - 1);
      PowAdd(58, 8 * (k - 1), 8);
      PowAdd(256, 6 * (k - 1), 6);
      assert 2 * Pow(58, 8) <= Pow(256, 6);
      Products(2 * Pow(58, 8), Pow(256, 6), Pow(2, k - 1), Pow(58, 8 * (k - 1)), Pow(256, 6 * (k - 1)));
    }
  }

  lemma Products(a: nat, b: nat, p: nat, q: nat, r: nat)
    requires a <= b && p * q <= r
    ensures p * q * a <= r * b
  {
    MulMono(p * q, r, a);
    MulMono(a, b, r);
  }

  lemma SmallPowers()
    ensures Pow(2, 5) == 32 && Pow(58, 3) == 195112 && Pow(256, 1) == 256
  {
  }

  lemma Enough(a: nat, b: nat, p: nat, q: nat, r: nat)
    requires p == 32 && q == 195112 && r == 256 && p * a <= b
    ensures a * q <= 255 * (b * r)
  {
  }

  lemma FortyThreeDigits()
    ensures Pow(58, 43) <= 255 * Pow(256, 31)
  {
    Halving(5);
    PowAdd(58, 40, 3);
    PowAdd(256, 30, 1);
    SmallPowers();
    Enough(Pow(58, 40), Pow(256, 30), Pow(2, 5), Pow(58, 3), Pow(256, 1));
  }

  /** The bound is reached: this key takes 44 characters. */
  lemma LongestText()
    ensures |Encoded([255] + seq(31, _ => 0))| == 44
  {
    var zeros: bytes := seq(31, _ => 0);
    var key: bytes := [255] + zeros;
    ValueCons(255, zeros, 256);
    assert zeros == Zeros(31);
    ValueZeros(31, 256);
    FortyThreeDigits();
    DigitsLength(Value(key, 256), 58, 43);
    KeyFits(key);
  }

  // ---- The conversion in place ----

  /** One step of a long division: a remainder and a byte give a digit and the next remainder. */
  predicate Digit(r: nat, d: byte, q: byte, next: nat)
  {
    next < 58 && r * 256 + d == q * 58 + next
  }

  /** The remainders in `rs` lead from the bytes `was` to the quotient `now`. */
  ghost predicate Divides(was: seq<byte>, now: seq<byte>, rs: seq<nat>)
  {
    && |was| == |now| && |rs| == |was| + 1 && rs[0] == 0
    && forall i :: 0 <= i < |was| ==> Digit(rs[i], was[i], now[i], rs[i + 1])
  }

  lemma DivideStep(q: nat, r: nat, v: nat, d: byte, p: byte, next: nat)
    requires v == q * 58 + r && Digit(r, d, p, next)
    ensures v * 256 + d == (q * 256 + p) * 58 + next
  {
  }

  lemma {:induction false} LongDivision(was: seq<byte>, now: seq<byte>, rs: seq<nat>)
    requires Divides(was, now, rs)
    ensures rs[|was|] < 58 && Value(was, 256) == Value(now, 256) * 58 + rs[|was|]
  {
    var n := |was| - 1;
    if was != [] {
      LongDivision(was[..n], now[..n], rs[..n + 1]);
      DivideStep(Value(now[..n], 256), rs[n], Value(was[..n], 256), was[n], now[n], rs[n + 1]);
    }
  }

  lemma ByteOf(tmpDiv: nat, remainder: nat, d: byte)
    requires remainder < 58 && tmpDiv == remainder * 256 + d
    ensures tmpDiv < 0x1_0000 && tmpDiv / 58 < 256 && (remainder == 0 ==> tmpDiv / 58 == d / 58)
  {
  }

  /** One byte of the long division; `remainder * 256 + tmp[k]` fits 16 bits. */
  method DivideByte(tmp: array<byte>, k: nat, remainder: nat) returns (quotient: byte, r: nat)
    requires k < tmp.Length && remainder < 58
    modifies tmp
    ensures Digit(remainder, old(tmp[k]), quotient, r)
    ensures remainder == 0 ==> quotient == old(tmp[k]) / 58
    ensures tmp[k] == quotient
    ensures forall x :: 0 <= x < tmp.Length && x != k ==> tmp[x] == old(tmp[x])
  {
    var tmpDiv: u16 := remainder * 256 + tmp[k];
    ByteOf(tmpDiv, remainder, tmp[k]);
    quotient, r := tmpDiv / 58, tmpDiv % 58;
    tmp[k] := quotient;
  }

  /** The inner loop: long division of the window by 58, byte by byte. */
  method DivideWindow(tmp: array<byte>, start: nat, length: nat) returns (remainder: nat)
    requires start < length <= tmp.Length
    modifies tmp
    ensures remainder < 58
    ensures Value(old(tmp[start..length]), 256) == Value(tmp[start..length], 256) * 58 + remainder
    ensures tmp[start] == old(tmp[start]) / 58
    ensures tmp[..start] == old(tmp[..start])
  {
    ghost var was, rs: seq<nat> := tmp[..], [0];
    remainder := 0;
    var k := start;
    while k < length
      invariant start <= k <= length && |rs| == k - start + 1 && rs[0] == 0 && rs[k - start] == remainder < 58
      invariant forall x :: start <= x < k ==> Digit(rs[x - start], was[x], tmp[x], rs[x - start + 1])
      invariant k > start ==> tmp[start] == was[start] / 58
      invariant forall x :: 0 <= x < tmp.Length && !(start <= x < k) ==> tmp[x] == was[x]
    {
      var quotient;
      quotient, remainder := DivideByte(tmp, k, remainder);
      rs := rs + [remainder];
      k := k + 1;
    }
    forall i | 0 <= i < length - start ensures Digit(rs[i], was[start + i], tmp[start + i], rs[i + 1]) {
      assert Digit(rs[start + i - start], was[start + i], tmp[start + i], rs[start + i - start + 1]);
    }
    LongDivision(was[start..length], tmp[start..length], rs);
  }

  /** The digits in `ds` come after a number `win` that is still to be converted. */
  ghost predicate Pending(total: nat, win: nat, ds: seq<nat>)
  {
    total == win * Pow(58, |ds|) + Value(ds, 58)
  }

  lemma Carry(win: nat, r: nat, p: nat, v: nat)
    ensures (win * 58 + r) * p + v == win * (58 * p) + (r * p + v)
  {
    assert (win * 58 + r) * p == win * (58 * p) + r * p;
  }

  lemma EmitStep(total: nat, win: nat, r: nat, ds: seq<nat>)
    requires Pending(total, win * 58 + r, ds)
    ensures Pending(total, win, [r] + ds)
  {
    ValueCons(r, ds, 58);
    Carry(win, r, Pow(58, |ds|), Value(ds, 58));
  }

  lemma DropLeadingZero(w: seq<nat>, base: nat)
    requires w != [] && w[0] == 0
    ensures Value(w, base) == Value(w[1..], base)
  {
    ValueCons(0, w[1..], base);
    assert w == [0] + w[1..];
  }

  lemma ShrinkWindow(tmp: array<byte>, start: nat, length: nat)
    requires start < length <= tmp.Length && tmp[start] == 0
    ensures Value(tmp[start..length], 256) == Value(tmp[start + 1..length], 256)
  {
    DropLeadingZero(tmp[start..length], 256);
    assert tmp[start..length][1..] == tmp[start + 1..length];
  }

  /** From `j` to `end` the buffer holds `t`. */
  ghost predicate Shows(buffer: array<char>, j: nat, end: nat, t: string)
    reads buffer
  {
    && j + |t| == end && (t != "" ==> end <= buffer.Length)
    && forall x :: j <= x < end ==> buffer[x] == t[x - j]
  }

  lemma ShowsCons(buffer: array<char>, j: nat, end: nat, c: char, t: string)
    requires 0 < j <= buffer.Length && Shows(buffer, j, end, t) && buffer[j - 1] == c
    ensures Shows(buffer, j - 1, end, [c] + t)
  {
  }

  lemma AlphaCons(d: nat, ds: seq<nat>)
    requires d < 58 && AreDigits(ds, 58)
    ensures AreDigits([d] + ds, 58) && |ALPHABET| == 58
    ensures Alpha([d] + ds) == [ALPHABET[d]] + Alpha(ds)
  {
    AlphabetIndex(d);
  }

  /** One turn of the outer loop: divide the window, let it shrink, store the remainder's character. */
  method EmitOne(tmp: array<byte>, startAt: nat, length: nat, buffer: array<char>, j: nat,
      ghost total: nat, ghost ds: seq<nat>) returns (next: nat, ghost more: seq<nat>)
    requires startAt < length <= tmp.Length && 0 < j <= buffer.Length
    requires AreDigits(ds, 58) && Shows(buffer, j, 2 * length, Alpha(ds))
    requires Pending(total, Value(tmp[startAt..length], 256), ds)
    modifies tmp, buffer
    ensures if old(tmp[startAt]) < 58 then next == startAt + 1
      else next == startAt && tmp[startAt] == old(tmp[startAt]) / 58
    ensures |more| == |ds| + 1 && AreDigits(more, 58)
    ensures Shows(buffer, j - 1, 2 * length, Alpha(more))
    ensures Pending(total, Value(tmp[next..length], 256), more)
  {
    var remainder := DivideWindow(tmp, startAt, length);
    EmitStep(total, Value(tmp[startAt..length], 256), remainder, ds);
    next := startAt;
    if tmp[startAt] == 0 {
      ShrinkWindow(tmp, startAt, length);
      next := startAt + 1;
    }
    AlphaCons(remainder, ds);
    more := [remainder] + ds;
    buffer[j - 1] := ALPHABET[remainder];
    ShowsCons(buffer, j, 2 * length, ALPHABET[remainder], Alpha(ds));
  }

  /**
   * The outer loop.  The leading byte of the window falls to at most 4 and then to 0, so that a
   * window of n bytes gives at most 2 n digits and the scratch buffer is not left in front.  It is
   * left behind by the first digit, if there is one, of more than 32 bytes.
   */
  method EmitBase58(tmp: array<byte>, zeroCount: nat, length: nat, buffer: array<char>)
    returns (j: nat, beyond: bool, ghost ds: seq<nat>)
    requires zeroCount <= length <= SCRATCH && tmp.Length == SCRATCH && buffer.Length == SCRATCH
    modifies tmp, buffer
    ensures beyond <==> 2 * length > SCRATCH && zeroCount < length
    ensures !beyond ==> |ds| <= 2 * (length - zeroCount)
    ensures !beyond ==> AreDigits(ds, 58) && Shows(buffer, j, 2 * length, Alpha(ds))
    ensures !beyond ==> Value(ds, 58) == Value(old(tmp[zeroCount..length]), 256)
  {
    ghost var total := Value(tmp[zeroCount..length], 256);
    ghost var halved := false;
    j, beyond, ds := 2 * length, false, [];
    var startAt := zeroCount;
    while startAt < length
      invariant zeroCount <= startAt <= length
      invariant halved ==> startAt < length && tmp[startAt] <= 4
      invariant |ds| <= 2 * (startAt - zeroCount) + if halved then 1 else 0
      invariant j == 2 * length - |ds| && (ds != [] ==> 2 * length <= SCRATCH) && (ds == [] ==> startAt == zeroCount)
      invariant AreDigits(ds, 58) && Shows(buffer, j, 2 * length, Alpha(ds))
      invariant Pending(total, Value(tmp[startAt..length], 256), ds)
      decreases 2 * (length - startAt) - if halved then 1 else 0
    {
      if j - 1 >= buffer.Length {
        return j, true, ds;
      }
      ghost var was := startAt;
      startAt, ds := EmitOne(tmp, startAt, length, buffer, j, total, ds);
      halved := startAt == was;
      j := j - 1;
    }
    assert tmp[startAt..length] == [];
  }

  /** A character of zero in front is dropped together with its digit. */
  lemma ZeroSkipped(buffer: array<char>, j: nat, end: nat, ds: seq<nat>)
    requires AreDigits(ds, 58) && Shows(buffer, j, end, Alpha(ds))
    requires j < end && |ALPHABET| == 58 && buffer[j] == ALPHABET[0]
    ensures ds != [] && AreDigits(ds[1..], 58) && Value(ds[1..], 58) == Value(ds, 58)
    ensures Shows(buffer, j + 1, end, Alpha(ds[1..]))
  {
    AlphabetIndex(ds[0]);
    AlphabetIndex(0);
    DropLeadingZero(ds, 58);
  }

  /** Without one in front the digits are the canonical ones. */
  lemma ZerosGone(buffer: array<char>, j: nat, end: nat, ds: seq<nat>)
    requires AreDigits(ds, 58) && Shows(buffer, j, end, Alpha(ds))
    requires |ALPHABET| == 58 && (j < end ==> buffer[j] != ALPHABET[0])
    ensures CanonicalOf(Value(ds, 58)) == ds
  {
    if ds != [] {
      AlphabetIndex(ds[0]);
    }
    DigitsValue(ds, 58);
  }

  /** The loop that skips the zero digits. */
  method StripZeros(buffer: array<char>, first: nat, end: nat, ghost all: seq<nat>) returns (j: nat)
    requires AreDigits(all, 58) && Shows(buffer, first, end, Alpha(all))
    ensures first <= j
    ensures Shows(buffer, j, end, Alpha(CanonicalOf(Value(all, 58))))
  {
    j := first;
    ghost var ds := all;
    AlphabetIndex(0);
    while j < end && buffer[j] == ALPHABET[0]
      invariant first <= j
      invariant AreDigits(ds, 58) && Shows(buffer, j, end, Alpha(ds))
      invariant Value(ds, 58) == Value(all, 58)
    {
      ZeroSkipped(buffer, j, end, ds);
      ds := ds[1..];
      j := j + 1;
    }
    ZerosGone(buffer, j, end, ds);
  }

  lemma OneMoreZero(back: nat, core: seq<nat>)
    ensures [0] + (Zeros(back) + core) == Zeros(back + 1) + core
  {
    assert Zeros(back + 1) == [0] + Zeros(back);
  }

  /** One turn of the loop that puts ones in front. */
  method PadOne(buffer: array<char>, j: nat, end: nat, ghost ds: seq<nat>)
    requires j < buffer.Length && AreDigits(ds, 58) && Shows(buffer, j + 1, end, Alpha(ds))
    modifies buffer
    ensures Shows(buffer, j, end, Alpha([0] + ds))
  {
    buffer[j] := ALPHABET[0];
    AlphaCons(0, ds);
    ShowsCons(buffer, j + 1, end, ALPHABET[0], Alpha(ds));
  }

  /** The loop that puts back one '1' for each zero byte. */
  method PadOnes(buffer: array<char>, first: nat, end: nat, zeroCount: nat, ghost core: seq<nat>)
    returns (j: nat, beyond: bool)
    requires AreDigits(core, 58) && Shows(buffer, first, end, Alpha(core)) && zeroCount <= first
    modifies buffer
    ensures beyond <==> zeroCount > 0 && first > buffer.Length
    ensures !beyond ==> Shows(buffer, j, end, Alpha(Zeros(zeroCount) + core))
  {
    j, beyond := first, false;
    var left: nat := zeroCount;
    ghost var ds, back := core, 0;
    assert Zeros(0) + core == core;
    while left > 0
      invariant left <= j == first - back && left + back == zeroCount && (back > 0 ==> first <= buffer.Length)
      invariant ds == Zeros(back) + core && AreDigits(ds, 58)
      invariant Shows(buffer, j, end, Alpha(ds))
    {
      if j - 1 >= buffer.Length {
        return j, true;
      }
      left := left - 1;
      j := j - 1;
      PadOne(buffer, j, end, ds);
      OneMoreZero(back, core);
      back := back + 1;
      ds := [0] + ds;
    }
    assert back == zeroCount;
  }

  /** The copy into the scratch buffer and the scan for leading zero bytes. */
  method LoadInput(input: bytes, tmp: array<byte>) returns (zeroCount: nat)
    requires |input| <= tmp.Length
    modifies tmp
    ensures zeroCount == ZeroCount(input) && tmp[zeroCount..|input|] == input[zeroCount..]
  {
    forall i | 0 <= i < |input| { tmp[i] := input[i]; }
    zeroCount := 0;
    while zeroCount < |input| && tmp[zeroCount] == 0
      invariant zeroCount <= ZeroCount(input)
    {
      zeroCount := zeroCount + 1;
    }
  }

  /** Everything up to the length check: the text ends up at the far end of the scratch buffer. */
  method Convert(input: bytes, buffer: array<char>) returns (j: nat, beyond: bool)
    requires |input| <= SCRATCH == buffer.Length
    modifies buffer
    ensures beyond <==> |input| > 32
    ensures !beyond ==> Shows(buffer, j, 2 * |input|, Encoded(input))
  {
    var tmp := new byte[SCRATCH](_ => 0);
    var zeroCount := LoadInput(input, tmp);
    SplitZeros(input);
    ghost var ds;
    j, beyond, ds := EmitBase58(tmp, zeroCount, |input|, buffer);
    if beyond {
      return;
    }
    j := StripZeros(buffer, j, 2 * |input|, ds);
    j, beyond := PadOnes(buffer, j, 2 * |input|, zeroCount, CanonicalOf(Value(input, 256)));
  }

  /**
   * More than 64 bytes are refused, and more than 32 lead behind the scratch buffer.  Of the
   * others the zero return code is given exactly when the text and its NUL fit; a call that does
   * not succeed leaves the output as it was.
   */
  method EncodeBase58(input: bytes, out: array<char>, maxOut: nat) returns (status: Status)
    requires maxOut <= out.Length
    modifies out
    ensures status == InvalidParameter <==> |input| > SCRATCH
    ensures status == Beyond <==> 32 < |input| <= SCRATCH
    ensures |input| <= 32 ==> (status == Ok <==> |Encoded(input)| < maxOut)
    ensures status == Ok ==> Holds(out, 0, Encoded(input))
    ensures Frame(out, old(out[..]), 0, if status == Ok then |Encoded(input)| + 1 else 0)
  {
    var length := |input|;
    if length > SCRATCH {
      return InvalidParameter;
    }
    var buffer := new char[SCRATCH](_ => '\0');
    var j, beyond := Convert(input, buffer);
    if beyond {
      return Beyond;
    }
    var n := 2 * length - j;
    if maxOut < n + 1 {
      return Overflow;
    }
    forall i | 0 <= i < n { out[i] := buffer[j + i]; }
    out[n] := '\0';
    status := Ok;
  }

  /** A 45-byte buffer is enough for every 32-byte key. */
  method EncodeKey(key: bytes, out: array<char>, maxOut: nat) returns (status: Status)
    requires |key| == 32 && 45 <= maxOut <= out.Length
    modifies out
    ensures status == Ok && Holds(out, 0, Encoded(key))
    ensures Frame(out, old(out[..]), 0, 45)
  {
    KeyFits(key);
    status := EncodeBase58(key, out, maxOut);
  }
}
