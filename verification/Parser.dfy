/** The cursor of libsol/parser.c: a pointer and a length that every call of a parser moves on. */
module Parser {
  import opened Bytes
  import opened Wire

  /** Little-endian numbers. */
  function Le(s: bytes): nat
  {
    if s == [] then 0 else s[0] + 256 * Le(s[1..])
  }

  lemma {:induction false} LeConcat(a: bytes, b: bytes)
    requires |a| == 1 || |a| == 2 || |a| == 4
    ensures Le(a + b) == Le(a) + (if |a| == 1 then 256 else if |a| == 2 then 0x1_0000 else 0x1_0000_0000) * Le(b)
  {
    if |a| == 1 {
      assert (a + b)[1..] == b && a[1..] == [];
    } else if |a| == 2 {
      LeConcat(a[1..], b);
      assert (a + b)[1..] == a[1..] + b;
    } else {
      LeConcat(a[2..], b);
      LeConcat(a[..2], a[2..] + b);
      LeConcat(a[..2], a[2..]);
      assert a + b == a[..2] + (a[2..] + b) && a == a[..2] + a[2..];
    }
  }

  lemma {:induction false} LeBound(s: bytes)
    requires |s| <= 8
    ensures |s| == 1 ==> Le(s) < 0x100
    ensures |s| == 2 ==> Le(s) < TWO_16
    ensures |s| == 4 ==> Le(s) < TWO_32
    ensures |s| == 8 ==> Le(s) < TWO_64
  {
    if |s| == 1 {
      assert s[1..] == [];
    } else if |s| in {2, 4, 8} {
      var h := |s| / 2;
      LeBound(s[..h]);
      LeBound(s[h..]);
      LeConcat(s[..h], s[h..]);
      assert s == s[..h] + s[h..];
    }
  }

  /** The number in the first `n` bytes. */
  function ReadNumber(s: bytes, n: nat): Option<(nat, bytes)>
  {
    if |s| < n then None else Some((Le(s[..n]), s[n..]))
  }

  /** A number is its lower half and its upper half. */
  lemma Halves(s: bytes, h: nat)
    requires h in {1, 2, 4} && 2 * h <= |s|
    ensures Le(s[..2 * h]) ==
      Le(s[..h]) + (if h == 1 then 0x100 else if h == 2 then 0x1_0000 else 0x1_0000_0000) * Le(s[h..][..h])
    ensures s[h..][h..] == s[2 * h..]
  {
    LeConcat(s[..h], s[h..][..h]);
    assert s[..2 * h] == s[..h] + s[h..][..h];
  }

  lemma One(s: bytes)
    requires s != []
    ensures Le(s[..1]) == s[0]
  {
    assert s[..1][1..] == [];
  }

  /** A call reads `expected`; a failing call may have moved on, but never back. */
  ghost predicate Reads<T>(expected: Option<(T, bytes)>, got: Option<T>, was: bytes, now: bytes)
  {
    match expected
    case Some((value, rest)) => got == Some(value) && now == rest
    case None => got == None && |now| <= |was|
  }

  class Parser {
    var buffer: bytes

    constructor (message: bytes)
      ensures buffer == message
    {
      buffer := message;
    }

    method Advance(num: nat)
      requires num <= |buffer|
      modifies this
      ensures buffer == old(buffer)[num..]
    {
      buffer := buffer[num..];
    }

    method ParseU8() returns (value: Option<byte>)
      modifies this
      ensures Reads(ReadByte(old(buffer)), value, old(buffer), buffer)
    {
      if |buffer| < 1 {
        return None;
      }
      value := Some(buffer[0]);
      Advance(1);
    }

    method ParseU16() returns (value: Option<nat>)
      modifies this
      ensures Reads(ReadNumber(old(buffer), 2), value, old(buffer), buffer)
    {
      ghost var s := buffer;
      var lower := ParseU8();
      if lower.None? { return None; }
      var upper := ParseU8();
      if upper.None? { return None; }
      Halves(s, 1);
      One(s);
      One(s[1..]);
      value := Some(lower.value as nat + 0x100 * upper.value as nat);
    }

    method ParseU32() returns (value: Option<nat>)
      modifies this
      ensures Reads(ReadNumber(old(buffer), 4), value, old(buffer), buffer)
    {
      ghost var s := buffer;
      var lower := ParseU16();
      if lower.None? { return None; }
      var upper := ParseU16();
      if upper.None? { return None; }
      Halves(s, 2);
      value := Some(lower.value + 0x1_0000 * upper.value);
    }

    method ParseU64() returns (value: Option<nat>)
      modifies this
      ensures Reads(ReadNumber(old(buffer), 8), value, old(buffer), buffer)
    {
      if |buffer| < 8 {
        return None;
      }
      ghost var s := buffer;
      var lower := ParseU32();
      if lower.None? { return None; }
      var upper := ParseU32();
      if upper.None? { return None; }
      Halves(s, 4);
      value := Some(lower.value + 0x1_0000_0000 * upper.value);
    }

    method ParseLength() returns (value: Option<nat>)
      modifies this
      ensures Reads(ReadLength(old(buffer)), value, old(buffer), buffer)
    {
      var u8 := ParseU8();
      if u8.None? { return None; }
      var length: nat := u8.value % 128;
      if u8.value >= 128 {
        u8 := ParseU8();
        if u8.None? { return None; }
        length := 128 * (u8.value % 128) as nat + length;
        if u8.value >= 128 {
          u8 := ParseU8();
          if u8.None? { return None; }
          length := 16384 * (u8.value % 128) as nat + length;
        }
      }
      value := Some(length);
    }

    /** parse_pubkey, parse_hash and the copies of `num` bytes in the other functions. */
    method ParseBytes(num: nat) returns (value: Option<bytes>)
      modifies this
      ensures Reads(Take(old(buffer), num), value, old(buffer), buffer)
    {
      if |buffer| < num {
        return None;
      }
      value := Some(buffer[..num]);
      Advance(num);
    }

    method ParseData() returns (value: Option<bytes>)
      modifies this
      ensures Reads(ReadData(old(buffer)), value, old(buffer), buffer)
    {
      var length := ParseLength();
      if length.None? { return None; }
      value := ParseBytes(length.value);
    }

    method ParseInstruction() returns (value: Option<Instruction>)
      modifies this
      ensures Reads(ReadInstruction(old(buffer)), value, old(buffer), buffer)
    {
      var programIdIndex := ParseU8();
      if programIdIndex.None? { return None; }
      var accounts := ParseData();
      if accounts.None? { return None; }
      var data := ParseData();
      if data.None? { return None; }
      value := Some(Instruction(programIdIndex.value, accounts.value, data.value));
    }

    method ParseVersion() returns (value: Option<(bool, byte)>)
      modifies this
      ensures Reads(ReadVersion(old(buffer)), value, old(buffer), buffer)
    {
      if |buffer| < 1 {
        return None;
      }
      var version := buffer[0];
      if version >= 128 {
        value := Some((true, version % 128));
        Advance(1);
      } else {
        value := Some((false, 0));
      }
    }

    method ParsePubkeysHeader() returns (value: Option<(byte, byte, byte, nat)>)
      modifies this
      ensures Reads(ReadCounts(old(buffer)), value, old(buffer), buffer)
    {
      ghost var s := buffer;
      var required := ParseU8();
      if required.None? { return None; }
      var signed := ParseU8();
      if signed.None? { return None; }
      var unsigned := ParseU8();
      if unsigned.None? { return None; }
      assert s[1..][1..][1..] == s[3..];
      var n := ParseLength();
      if n.None? { return None; }
      value := Some((required.value, signed.value, unsigned.value, n.value));
    }

    method ParseMessageHeader() returns (value: Option<MessageHeader>)
      modifies this
      ensures Reads(ReadHeader(old(buffer)), value, old(buffer), buffer)
    {
      var version := ParseVersion();
      if version.None? { return None; }
      var counts := ParsePubkeysHeader();
      if counts.None? { return None; }
      var keys := ParseBytes(KEY_SIZE * counts.value.3);
      if keys.None? { return None; }
      var blockhash := ParseBytes(KEY_SIZE);
      if blockhash.None? { return None; }
      var instructionsLength := ParseLength();
      if instructionsLength.None? { return None; }
      value := Some(MessageHeader(version.value.0, version.value.1, counts.value.0, counts.value.1,
        counts.value.2, counts.value.3, keys.value, blockhash.value, instructionsLength.value));
    }
  }
}
