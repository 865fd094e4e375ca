/** The text recognisers of handle_sign_offchain_message.c. */
module Utf8 {

  type octet = bv8

  /** A Unicode code point, held in the 24 bits that are enough for it. */
  type scalar = bv24

  /** The code points that the recogniser lets through: every scalar value but two. */
  predicate Allowed(v: scalar)
  {
    v <= 0x10ffff && !(0xd800 <= v <= 0xdfff) && v != 0xfffe && v != 0xffff
  }

  /** The lead octet: a length marker over the high bits of the code point. */
  function Lead(marker: octet, v: scalar): octet
    requires v <= 0x1f
  {
    marker | (v as octet)
  }

  /** A continuation octet: six bits of the code point under the marker 10. */
  function Tail(v: scalar): octet
  {
    0x80 | ((v & 0x3f) as octet)
  }

  /** The octet sequence of one code point (section 3 of RFC 3629). */
  function Encode(v: scalar): seq<octet>
    requires v <= 0x10ffff
  {
    if v <= 0x7f then [v as octet]
    else if v <= 0x7ff then [Lead(0xc0, v >> 6), Tail(v)]
    else if v <= 0xffff then [Lead(0xe0, v >> 12), Tail(v >> 6), Tail(v)]
    else [Lead(0xf0, v >> 18), Tail(v >> 12), Tail(v >> 6), Tail(v)]
  }

  ghost predicate AllAllowed(vs: seq<scalar>)
  {
    forall k :: 0 <= k < |vs| ==> Allowed(vs[k])
  }

  ghost function EncodeAll(vs: seq<scalar>): seq<octet>
    requires AllAllowed(vs)
  {
    if vs == [] then [] else Encode(vs[0]) + EncodeAll(vs[1..])
  }

  /** The language that the recogniser is to decide. */
  ghost predicate IsUtf8(s: seq<octet>)
  {
    exists vs: seq<scalar> :: AllAllowed(vs) && EncodeAll(vs) == s
  }

  ghost predicate IsAscii(s: seq<octet>)
  {
    forall k :: 0 <= k < |s| ==> 0x20 <= s[k] <= 0x7e
  }

  // ---- The mask tests on one code point ----

  predicate IsTail(b: octet)
  {
    b & 0xc0 == 0x80
  }

  predicate Good2(a: octet, b: octet)
  {
    a & 0xe0 == 0xc0 && IsTail(b) && a & 0xfe != 0xc0
  }

  predicate Good3(a: octet, b: octet, c: octet)
  {
    && a & 0xf0 == 0xe0 && IsTail(b) && IsTail(c)
    && !(a == 0xe0 && b & 0xe0 == 0x80)
    && !(a == 0xed && b & 0xe0 == 0xa0)
    && !(a == 0xef && b == 0xbf && c & 0xfe == 0xbe)
  }

  predicate Good4(a: octet, b: octet, c: octet, d: octet)
  {
    && a & 0xf8 == 0xf0 && IsTail(b) && IsTail(c) && IsTail(d)
    && !(a == 0xf0 && b & 0xf0 == 0x80)
    && !(a == 0xf4 && b > 0x8f) && !(a > 0xf4)
  }

  /** How many octets the first code point of `s` takes, or 0 when there is none. */
  function Front(s: seq<octet>): (n: nat)
    ensures n <= |s|
  {
    if |s| == 0 then 0
    else if s[0] < 0x80 then 1
    else if |s| > 1 && Good2(s[0], s[1]) then 2
    else if |s| > 2 && Good3(s[0], s[1], s[2]) then 3
    else if |s| > 3 && Good4(s[0], s[1], s[2], s[3]) then 4
    else 0
  }

  // ---- The mask tests accept encodings only ----

  function Bits(b: octet, mask: octet): scalar
  {
    (b & mask) as scalar
  }

  function Join2(a: octet, b: octet): scalar
  {
    (Bits(a, 0x1f) << 6) | Bits(b, 0x3f)
  }

  function Join3(a: octet, b: octet, c: octet): scalar
  {
    (Bits(a, 0x0f) << 12) | (Bits(b, 0x3f) << 6) | Bits(c, 0x3f)
  }

  function Join4(a: octet, b: octet, c: octet, d: octet): scalar
  {
    (Bits(a, 0x07) << 18) | (Bits(b, 0x3f) << 12) | (Bits(c, 0x3f) << 6) | Bits(d, 0x3f)
  }

  lemma Sound2(a: octet, b: octet)
    requires Good2(a, b)
    ensures Allowed(Join2(a, b)) && Encode(Join2(a, b)) == [a, b]
  {
  }

  lemma Assemble3(v: scalar, a: octet, b: octet, c: octet)
    requires 0x7ff < v <= 0xffff
    requires Lead(0xe0, v >> 12) == a && Tail(v >> 6) == b && Tail(v) == c
    ensures Encode(v) == [a, b, c]
  {
  }

  lemma Decode3(a: octet, b: octet, c: octet) returns (v: scalar)
    requires Good3(a, b, c)
    ensures 0x7ff < v <= 0xffff && Allowed(v)
    ensures Lead(0xe0, v >> 12) == a && Tail(v >> 6) == b && Tail(v) == c
  {
    v := Join3(a, b, c);
  }

  lemma Assemble4(v: scalar, a: octet, b: octet, c: octet, d: octet)
    requires 0xffff < v <= 0x10ffff
    requires v >> 18 <= 0x1f && Lead(0xf0, v >> 18) == a
    requires Tail(v >> 12) == b && Tail(v >> 6) == c && Tail(v) == d
    ensures Allowed(v) && Encode(v) == [a, b, c, d]
  {
  }

  lemma Decode4(a: octet, b: octet, c: octet, d: octet) returns (v: scalar)
    requires Good4(a, b, c, d)
    ensures 0xffff < v <= 0x10ffff && v >> 18 <= 0x1f
    ensures Lead(0xf0, v >> 18) == a && Tail(v >> 12) == b && Tail(v >> 6) == c && Tail(v) == d
  {
    v := Join4(a, b, c, d);
  }

  /** Whatever the mask tests accept at the front of `s` is the encoding of an allowed code point. */
  lemma FrontSound(s: seq<octet>) returns (v: scalar)
    requires Front(s) > 0
    ensures Allowed(v) && Encode(v) == s[..Front(s)]
  {
    if Front(s) == 1 {
      v := s[0] as scalar;
    } else if Front(s) == 2 {
      Sound2(s[0], s[1]);
      v := Join2(s[0], s[1]);
    } else if Front(s) == 3 {
      v := Decode3(s[0], s[1], s[2]);
      Assemble3(v, s[0], s[1], s[2]);
    } else {
      v := Decode4(s[0], s[1], s[2], s[3]);
      Assemble4(v, s[0], s[1], s[2], s[3]);
    }
  }

  // ---- The mask tests accept every encoding ----

  lemma Complete2(v: scalar)
    requires 0x7f < v <= 0x7ff
    ensures Encode(v)[0] >= 0x80 && Good2(Encode(v)[0], Encode(v)[1])
  {
  }

  lemma Complete3(v: scalar)
    requires 0x7ff < v <= 0xffff && Allowed(v)
    ensures Encode(v)[0] >= 0x80 && Encode(v)[0] & 0xe0 != 0xc0
    ensures Good3(Encode(v)[0], Encode(v)[1], Encode(v)[2])
  {
  }

  lemma Complete4(v: scalar)
    requires 0xffff < v && Allowed(v)
    ensures Encode(v)[0] >= 0x80 && Encode(v)[0] & 0xe0 != 0xc0 && Encode(v)[0] & 0xf0 != 0xe0
    ensures Good4(Encode(v)[0], Encode(v)[1], Encode(v)[2], Encode(v)[3])
  {
  }

  /** Every encoding is accepted at the front of whatever follows it, at its full length. */
  lemma FrontComplete(v: scalar, rest: seq<octet>)
    requires Allowed(v)
    ensures Front(Encode(v) + rest) == |Encode(v)|
  {
    var s := Encode(v) + rest;
    if 0x7f < v <= 0x7ff {
      Complete2(v);
      assert s[0] == Encode(v)[0] && s[1] == Encode(v)[1];
    } else if 0x7ff < v <= 0xffff {
      Complete3(v);
      assert s[0] == Encode(v)[0] && s[1] == Encode(v)[1] && s[2] == Encode(v)[2];
    } else if 0xffff < v {
      Complete4(v);
      assert s[0] == Encode(v)[0] && s[1] == Encode(v)[1];
      assert s[2] == Encode(v)[2] && s[3] == Encode(v)[3];
    }
  }

  // ---- The language, one code point at a time ----

  lemma Prepend(v: scalar, rest: seq<octet>)
    requires Allowed(v) && IsUtf8(rest)
    ensures IsUtf8(Encode(v) + rest)
  {
    var vs: seq<scalar> :| AllAllowed(vs) && EncodeAll(vs) == rest;
    var all := [v] + vs;
    assert all[1..] == vs;
    assert EncodeAll(all) == Encode(v) + rest;
  }

  /** A non-empty sequence is UTF-8 exactly when its front is accepted and the remainder is UTF-8. */
  lemma Unfold(s: seq<octet>)
    requires s != []
    ensures IsUtf8(s) <==> Front(s) > 0 && IsUtf8(s[Front(s)..])
  {
    if Front(s) > 0 && IsUtf8(s[Front(s)..]) {
      var v := FrontSound(s);
      Prepend(v, s[Front(s)..]);
      assert s == Encode(v) + s[Front(s)..];
    }
    if IsUtf8(s) {
      var vs: seq<scalar> :| AllAllowed(vs) && EncodeAll(vs) == s;
      var rest := EncodeAll(vs[1..]);
      FrontComplete(vs[0], rest);
      assert s == Encode(vs[0]) + rest;
      assert s[Front(s)..] == rest;
      assert AllAllowed(vs[1..]);
    }
  }

  lemma EmptyIsUtf8()
    ensures IsUtf8([])
  {
    var none: seq<scalar> := [];
    assert AllAllowed(none) && EncodeAll(none) == [];
  }

  /** Printable ASCII is UTF-8, so the second scan may be skipped for it. */
  lemma {:induction false} AsciiIsUtf8(s: seq<octet>)
    requires IsAscii(s)
    ensures IsUtf8(s)
  {
    if s == [] {
      EmptyIsUtf8();
    } else {
      AsciiIsUtf8(s[1..]);
      Unfold(s);
    }
  }

  // ---- The recognisers ----

  method IsDataUtf8(data: array?<octet>, length: nat) returns (ok: bool)
    requires data != null ==> length <= data.Length
    ensures ok <==> data != null && IsUtf8(data[..length])
  {
    if data == null {
      return false;
    }
    ghost var s := data[..length];
    var i := 0;
    while i < length
      invariant 0 <= i <= length
      invariant IsUtf8(s) <==> IsUtf8(s[i..])
    {
      ghost var t := s[i..];
      Unfold(t);
      ghost var n := Front(t);
      assert n > 0 ==> t[n..] == s[i + n..];
      if data[i] < 0x80 {
        i := i + 1;
      } else if data[i] & 0xe0 == 0xc0 {
        if i + 1 >= length || data[i + 1] & 0xc0 != 0x80 || data[i] & 0xfe == 0xc0 {
          assert Front(t) == 0;
          return false;
        } else {
          i := i + 2;
        }
      } else if data[i] & 0xf0 == 0xe0 {
        if || i + 2 >= length || data[i + 1] & 0xc0 != 0x80 || data[i + 2] & 0xc0 != 0x80
           || (data[i] == 0xe0 && data[i + 1] & 0xe0 == 0x80)
           || (data[i] == 0xed && data[i + 1] & 0xe0 == 0xa0)
           || (data[i] == 0xef && data[i + 1] == 0xbf && data[i + 2] & 0xfe == 0xbe)
        {
          assert Front(t) == 0;
          return false;
        } else {
          i := i + 3;
        }
      } else if data[i] & 0xf8 == 0xf0 {
        if || i + 3 >= length || data[i + 1] & 0xc0 != 0x80 || data[i + 2] & 0xc0 != 0x80
           || data[i + 3] & 0xc0 != 0x80
           || (data[i] == 0xf0 && data[i + 1] & 0xf0 == 0x80)
           || (data[i] == 0xf4 && data[i + 1] > 0x8f) || data[i] > 0xf4
        {
          assert Front(t) == 0;
          return false;
        } else {
          i := i + 4;
        }
      } else {
        assert Front(t) == 0;
        return false;
      }
    }
    EmptyIsUtf8();
    assert s[i..] == [];
    ok := true;
  }

  method IsDataAscii(data: array?<octet>, length: nat) returns (ok: bool)
    requires data != null ==> length <= data.Length
    ensures ok <==> data != null && IsAscii(data[..length])
  {
    if data == null {
      return false;
    }
    for i := 0 to length
      invariant forall k :: 0 <= k < i ==> 0x20 <= data[k] <= 0x7e
    {
      if data[i] < 0x20 || data[i] > 0x7e {
        assert data[..length][i] == data[i];
        return false;
      }
    }
    ok := true;
  }

  /** The combination at lines 111-115 of the source: the UTF-8 scan only runs on non-ASCII text. */
  method Classify(data: array?<octet>, length: nat) returns (ascii: bool, utf8: bool)
    requires data != null ==> length <= data.Length
    ensures ascii <==> data != null && IsAscii(data[..length])
    ensures utf8 <==> data != null && IsUtf8(data[..length])
  {
    ascii := IsDataAscii(data, length);
    if ascii {
      AsciiIsUtf8(data[..length]);
      utf8 := true;
    } else {
      utf8 := IsDataUtf8(data, length);
    }
  }
}
