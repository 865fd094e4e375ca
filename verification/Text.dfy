/** Text in C buffers: decimal digits, NUL-terminated strings, and reversal in place. */
module Text {
  import opened Radix

  function DigitChar(d: nat): char
    requires d < 10
  {
    ('0' as int + d) as char
  }

  ghost predicate IsDigit(c: char)
  {
    '0' <= c <= '9'
  }

  ghost predicate AllDigits(t: string)
  {
    forall i :: 0 <= i < |t| ==> IsDigit(t[i])
  }

  /** The text of a sequence of decimal digits. */
  function Chars(ds: seq<nat>): (t: string)
    requires AreDigits(ds, 10)
    ensures |t| == |ds|
    ensures forall i :: 0 <= i < |ds| ==> t[i] == DigitChar(ds[i])
  {
    seq(|ds|, i requires 0 <= i < |ds| => DigitChar(ds[i]))
  }

  /** The decimal digits of a text. */
  ghost function Parse(t: string): (ds: seq<nat>)
    requires AllDigits(t)
    ensures AreDigits(ds, 10)
  {
    seq(|t|, i requires 0 <= i < |t| => t[i] as int - '0' as int)
  }

  lemma ParseChars(ds: seq<nat>)
    requires AreDigits(ds, 10)
    ensures AllDigits(Chars(ds)) && Parse(Chars(ds)) == ds
  {
    assert forall i :: 0 <= i < |ds| ==> IsDigit(Chars(ds)[i]);
  }

  /** From `off` on the buffer holds `t`. */
  ghost predicate Forward(out: array<char>, off: nat, t: string)
    reads out
  {
    && off + |t| <= out.Length
    && forall x :: off <= x < off + |t| ==> out[x] == t[x - off]
  }

  /** From `off` on the buffer holds `t` backwards. */
  ghost predicate Backward(out: array<char>, off: nat, t: string)
    reads out
  {
    && off + |t| <= out.Length
    && forall x :: off <= x < off + |t| ==> out[x] == t[off + |t| - 1 - x]
  }

  /** The buffer holds `t` and a terminating NUL from `off` on. */
  ghost predicate Holds(out: array<char>, off: nat, t: string)
    reads out
  {
    && Forward(out, off, t)
    && off + |t| < out.Length && out[off + |t|] == '\0'
  }

  lemma HoldsCons(out: array<char>, off: nat, c: char, t: string)
    requires Holds(out, off + 1, t) && out[off] == c
    ensures Holds(out, off, [c] + t)
  {
  }

  /** Everything outside of `lo..hi` is as it was when the buffer held `was`. */
  ghost predicate Frame(out: array<char>, was: seq<char>, lo: int, hi: int)
    reads out
  {
    && |was| == out.Length
    && forall x :: 0 <= x < out.Length && !(lo <= x < hi) ==> out[x] == was[x]
  }

  /** The swap loops at libsol/printer.c:36-40 and libsol/printer.c:204-208. */
  method ReverseInPlace(out: array<char>, off: nat, n: nat, ghost t: string)
    requires |t| == n && Backward(out, off, t)
    modifies out
    ensures Forward(out, off, t)
    ensures Frame(out, old(out[..]), off, off + n)
  {
    var j, k := off, off + n - 1;
    while j < k
      invariant off <= j <= k + 1 && j + k == 2 * off + n - 1
      invariant forall x :: off <= x < j || k < x < off + n ==> out[x] == t[x - off]
      invariant forall x :: j <= x <= k ==> out[x] == t[j + k - off - x]
      invariant Frame(out, old(out[..]), off, off + n)
    {
      var tmp := out[j];
      out[j] := out[k];
      out[k] := tmp;
      j, k := j + 1, k - 1;
    }
  }
}
