/** The string printers of libsol/printer.c: copies and cuts. */
module Strings {
  import opened Text

  /** A C string ends at its first NUL. */
  function Terminated(s: string): (t: string)
    ensures t <= s && '\0' !in t
    ensures |t| < |s| ==> s[|t|] == '\0'
  {
    if s == [] || s[0] == '\0' then [] else [s[0]] + Terminated(s[1..])
  }

  /** What a buffer of `n` characters shows of a text that does not fit. */
  function Cut(s: string, n: nat): string
    requires 1 <= n <= |s|
  {
    if n == 1 then "" else s[..n - 2] + "~"
  }

  /** What is printed of a text into a buffer of `n` characters. */
  function Shown(s: string, n: nat): (t: string)
    requires n >= 1
    ensures |t| < n
  {
    if |s| < n then s else Cut(s, n)
  }

  /** A text is shown whole, or with a mark at the end that tells that it was cut. */
  lemma ShownTells(s: string, n: nat)
    requires n >= 2
    ensures Shown(s, n) == s <==> |s| < n
    ensures |s| >= n ==> |Shown(s, n)| == n - 1 && Shown(s, n)[n - 2] == '~'
  {
  }

  /** strncpy: copies up to `n` characters and fills the rest with NULs. */
  method CopyString(input: string, out: array<char>, n: nat)
    requires '\0' !in input && n <= out.Length
    modifies out
    ensures forall i :: 0 <= i < n ==> out[i] == if i < |input| then input[i] else '\0'
    ensures Frame(out, old(out[..]), 0, n)
  {
    var i := 0;
    while i < n
      invariant 0 <= i <= n
      invariant forall j :: 0 <= j < i ==> out[j] == if j < |input| then input[j] else '\0'
      invariant Frame(out, old(out[..]), 0, n)
    {
      out[i] := if i < |input| then input[i] else '\0';
      i := i + 1;
    }
  }

  method PrintString(input: string, out: array<char>, outLength: nat) returns (rc: int)
    requires '\0' !in input && 1 <= outLength <= out.Length
    modifies out
    ensures rc == 0 <==> |input| < outLength
    ensures Holds(out, 0, Shown(input, outLength))
    ensures Frame(out, old(out[..]), 0, outLength)
  {
    CopyString(input, out, outLength);
    var last := outLength - 1;
    assert last < |input| ==> out[last] == input[last] && input[last] in input;
    rc := if out[last] != '\0' then 1 else 0;
    if rc != 0 {
      out[last] := '\0';
      if last != 0 {
        out[last - 1] := '~';
      }
    }
  }

  lemma TerminatedPrefix(s: string, k: nat)
    requires k <= |s|
    ensures k <= |Terminated(s)| <==> '\0' !in s[..k]
  {
    if k <= |Terminated(s)| {
      assert s[..k] == Terminated(s)[..k];
    } else {
      assert s[..k][|Terminated(s)|] == '\0';
    }
  }

  lemma TerminatedIs(s: string, k: nat)
    requires k < |s| && s[k] == '\0' && '\0' !in s[..k]
    ensures Terminated(s) == s[..k]
  {
    TerminatedPrefix(s, k);
    assert s[..k + 1][k] == '\0';
    TerminatedPrefix(s, k + 1);
  }

  /** A text that carries its length may hold NULs, and is shown up to the first. */
  method PrintSizedString(input: string, out: array<char>, outLength: nat) returns (rc: int)
    requires 1 <= outLength <= out.Length
    modifies out
    ensures rc == 0 <==> |input| < outLength
    ensures Holds(out, 0, Terminated(Shown(input, outLength)))
    ensures Frame(out, old(out[..]), 0, outLength)
  {
    var len := if outLength < |input| then outLength else |input|;
    ghost var t := Terminated(input[..len]);
    CopyString(Terminated(input[..len]), out, len);
    if |input| < outLength {
      out[|input|] := '\0';
      assert input[..len] == input;
      return 0;
    }
    var last := outLength - 1;
    out[last] := '\0';
    if last != 0 {
      out[last - 1] := '~';
      CutHolds(out, input, outLength, t);
    }
    rc := 1;
  }

  lemma CutAtNul(input: string, n: nat, t: string)
    requires 2 <= n <= |input| && t == Terminated(input[..n]) && |t| < n - 2
    ensures Terminated(Cut(input, n)) == t
  {
    var s := Cut(input, n);
    assert s[..|t|] == t && s[|t|] == input[..n][|t|] == '\0';
    TerminatedIs(s, |t|);
  }

  lemma CutAtEnd(input: string, n: nat, t: string)
    requires 2 <= n <= |input| && t == Terminated(input[..n]) && |t| >= n - 2
    ensures Terminated(Cut(input, n)) == t[..n - 2] + "~"
  {
    var s := Cut(input, n);
    assert t[..n - 2] == input[..n - 2];
    assert s[..n - 1] == s;
    assert forall i :: 0 <= i < n - 2 ==> t[i] in t;
    TerminatedPrefix(s, n - 1);
  }

  /** Where the copy stopped at a NUL, so does what is shown. */
  lemma CutHolds(out: array<char>, input: string, n: nat, t: string)
    requires 2 <= n <= |input| && n <= out.Length && t == Terminated(input[..n])
    requires forall i :: 0 <= i < n - 2 ==> out[i] == if i < |t| then t[i] else '\0'
    requires out[n - 2] == '~' && out[n - 1] == '\0'
    ensures Holds(out, 0, Terminated(Cut(input, n)))
  {
    if |t| < n - 2 {
      CutAtNul(input, n, t);
    } else {
      CutAtEnd(input, n, t);
    }
  }

  /** The ends of a text that is too long. */
  function Abridged(s: string, left: nat, right: nat): string
    requires left + right <= |s|
  {
    s[..left] + ".." + s[|s| - right..]
  }

  method PrintSummary(input: string, out: array<char>, outLength: nat, left: nat, right: nat) returns (rc: int)
    requires '\0' !in input && outLength <= out.Length
    modifies out
    ensures rc == 0 <==> left + right + 2 < outLength
    ensures rc == 0 ==> Holds(out, 0, if |input| < outLength then input else Abridged(input, left, right))
    ensures Frame(out, old(out[..]), 0, outLength)
  {
    if outLength <= left + right + 2 {
      return 1;
    }
    if |input| + 1 > outLength {
      forall i | 0 <= i < left { out[i] := input[i]; }
      out[left] := '.';
      out[left + 1] := '.';
      forall i | 0 <= i < right { out[left + 2 + i] := input[|input| - right + i]; }
      out[left + right + 2] := '\0';
    } else {
      var cut := PrintString(input, out, outLength);
    }
    rc := 0;
  }
}
