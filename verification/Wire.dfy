/** The wire format of a message, written and read. */
module Wire {
  import opened Bytes

  const KEY_SIZE: nat := 32

  // Lengths take up to three bytes of seven bits.
  const LENGTH_LIMIT: nat := 0x20_0000

  datatype Instruction = Instruction(programIdIndex: byte, accounts: bytes, data: bytes)

  /** The keys are one run of bytes, as in the message. */
  datatype MessageHeader = MessageHeader(versioned: bool, version: byte, numRequiredSignatures: byte,
    numReadonlySigned: byte, numReadonlyUnsigned: byte, pubkeysLength: nat, pubkeys: bytes,
    blockhash: bytes, instructionsLength: nat)
  {
    /** As many keys as announced, and a blockhash. */
    predicate Whole() { |pubkeys| == KEY_SIZE * pubkeysLength && |blockhash| == KEY_SIZE }

    function Key(i: nat): key32
      requires |pubkeys| == KEY_SIZE * pubkeysLength && i < pubkeysLength
    {
      pubkeys[KEY_SIZE * i..KEY_SIZE * (i + 1)]
    }
  }

  // ---- Writing ----

  function Length(n: nat): bytes
    requires n < LENGTH_LIMIT
  {
    if n < 128 then [n]
    else if n < 16384 then [128 + n % 128, n / 128]
    else [128 + n % 128, 128 + n / 128 % 128, n / 16384]
  }

  predicate WritableInstruction(ix: Instruction)
  {
    |ix.accounts| < LENGTH_LIMIT && |ix.data| < LENGTH_LIMIT
  }

  function WriteInstruction(ix: Instruction): bytes
    requires WritableInstruction(ix)
  {
    [ix.programIdIndex] + (Length(|ix.accounts|) + (ix.accounts + (Length(|ix.data|) + ix.data)))
  }

  /** A legacy header has no version byte, so its first byte must not look like one. */
  predicate WritableHeader(h: MessageHeader)
  {
    && (if h.versioned then h.version < 128 else h.version == 0 && h.numRequiredSignatures < 128)
    && h.pubkeysLength < LENGTH_LIMIT && |h.pubkeys| == KEY_SIZE * h.pubkeysLength
    && |h.blockhash| == KEY_SIZE && h.instructionsLength < LENGTH_LIMIT
  }

  function WriteBareHeader(h: MessageHeader): bytes
    requires WritableHeader(h)
  {
    [h.numRequiredSignatures, h.numReadonlySigned, h.numReadonlyUnsigned]
      + (Length(h.pubkeysLength) + (h.pubkeys + (h.blockhash + Length(h.instructionsLength))))
  }

  function WriteHeader(h: MessageHeader): bytes
    requires WritableHeader(h)
  {
    if h.versioned then [128 + h.version] + WriteBareHeader(h) else WriteBareHeader(h)
  }

  function WriteInstructions(ixs: seq<Instruction>): bytes
    requires forall i :: 0 <= i < |ixs| ==> WritableInstruction(ixs[i])
  {
    if ixs == [] then [] else WriteInstruction(ixs[0]) + WriteInstructions(ixs[1..])
  }

  // ---- Reading: the value at the front and what follows it ----

  function ReadByte(s: bytes): Option<(byte, bytes)>
  {
    if s == [] then None else Some((s[0], s[1..]))
  }

  function Take(s: bytes, n: nat): Option<(bytes, bytes)>
  {
    if |s| < n then None else Some((s[..n], s[n..]))
  }

  /** Seven more bits below the ones already there. */
  function Join(high: nat, low: nat): nat
  {
    128 * high + low
  }

  function ReadLength(s: bytes): Option<(nat, bytes)>
  {
    if |s| < 1 then None
    else if s[0] < 128 then Some((s[0], s[1..]))
    else if |s| < 2 then None
    else if s[1] < 128 then Some((Join(s[1], s[0] % 128), s[2..]))
    else if |s| < 3 then None
    else Some((Join(Join(s[2] % 128, s[1] % 128), s[0] % 128), s[3..]))
  }

  function ReadData(s: bytes): Option<(bytes, bytes)>
  {
    match ReadLength(s)
    case None => None
    case Some((n, rest)) => Take(rest, n)
  }

  function ReadInstruction(s: bytes): Option<(Instruction, bytes)>
  {
    match ReadByte(s)
    case None => None
    case Some((index, s1)) =>
      match ReadData(s1)
      case None => None
      case Some((accounts, s2)) =>
        match ReadData(s2)
        case None => None
        case Some((data, s3)) => Some((Instruction(index, accounts, data), s3))
  }

  /** `n` values one after the other. */
  function ReadMany<T>(read: bytes -> Option<(T, bytes)>, s: bytes, n: nat): (values: Option<(seq<T>, bytes)>)
    ensures values.Some? ==> |values.value.0| == n
    decreases n
  {
    if n == 0 then Some(([], s))
    else
      match read(s)
      case None => None
      case Some((x, rest)) =>
        match ReadMany(read, rest, n - 1)
        case None => None
        case Some((xs, end)) => Some(([x] + xs, end))
  }

  function ReadInstructions(s: bytes, n: nat): Option<(seq<Instruction>, bytes)>
  {
    ReadMany(ReadInstruction, s, n)
  }

  function ReadVersion(s: bytes): Option<((bool, byte), bytes)>
  {
    if s == [] then None
    else if s[0] >= 128 then Some(((true, s[0] % 128), s[1..]))
    else Some(((false, 0), s))
  }

  /** Three counts and the number of keys. */
  function ReadCounts(s: bytes): Option<((byte, byte, byte, nat), bytes)>
  {
    if |s| < 3 then None
    else
      match ReadLength(s[3..])
      case None => None
      case Some((n, rest)) => Some(((s[0], s[1], s[2], n), rest))
  }

  /** The header behind its version byte. */
  function ReadBareHeader(versioned: bool, version: byte, s1: bytes): Option<(MessageHeader, bytes)>
  {
    match ReadCounts(s1)
    case None => None
    case Some(((r, p, q, n), s2)) =>
      match Take(s2, KEY_SIZE * n)
      case None => None
      case Some((keys, s3)) =>
        match Take(s3, KEY_SIZE)
        case None => None
        case Some((hash, s4)) =>
          match ReadLength(s4)
          case None => None
          case Some((k, end)) => Some((MessageHeader(versioned, version, r, p, q, n, keys, hash, k), end))
  }

  function ReadHeader(s: bytes): Option<(MessageHeader, bytes)>
  {
    match ReadVersion(s)
    case None => None
    case Some(((versioned, version), s1)) => ReadBareHeader(versioned, version, s1)
  }

  // ---- Reading undoes writing ----

  lemma Front(a: bytes, rest: bytes)
    ensures (a + rest)[|a|..] == rest && forall i :: 0 <= i < |a| ==> (a + rest)[i] == a[i]
  {
  }

  lemma ReadOne(a: byte, rest: bytes)
    requires a < 128
    ensures ReadLength([a] + rest) == Some((a, rest))
  {
    Front([a], rest);
  }

  lemma ReadTwo(a: byte, b: byte, rest: bytes)
    requires a >= 128 && b < 128
    ensures ReadLength([a, b] + rest) == Some((Join(b, a % 128), rest))
  {
    Front([a, b], rest);
  }

  lemma ReadThree(a: byte, b: byte, d: byte, rest: bytes)
    requires a >= 128 && b >= 128
    ensures ReadLength([a, b, d] + rest) == Some((Join(Join(d % 128, b % 128), a % 128), rest))
  {
    Front([a, b, d], rest);
  }

  lemma Groups(n: nat)
    ensures n / 128 / 128 == n / 16384
    ensures n == 128 * (n / 128) + n % 128 && n / 128 == 128 * (n / 16384) + n / 128 % 128
  {
  }

  lemma LengthRoundTrip(n: nat, rest: bytes)
    requires n < LENGTH_LIMIT
    ensures ReadLength(Length(n) + rest) == Some((n, rest))
  {
    Groups(n);
    if n < 128 {
      ReadOne(n, rest);
    } else if n < 16384 {
      ReadTwo(128 + n % 128, n / 128, rest);
    } else {
      ReadThree(128 + n % 128, 128 + n / 128 % 128, n / 16384, rest);
    }
  }

  lemma DataRoundTrip(data: bytes, rest: bytes)
    requires |data| < LENGTH_LIMIT
    ensures ReadData(Length(|data|) + (data + rest)) == Some((data, rest))
  {
    LengthRoundTrip(|data|, data + rest);
    assert (data + rest)[..|data|] == data && (data + rest)[|data|..] == rest;
  }

  lemma IndexFirst(index: byte, s: bytes)
    ensures ReadByte([index] + s) == Some((index, s))
  {
    Front([index], s);
  }

  lemma InstructionBytes(ix: Instruction, rest: bytes)
    requires WritableInstruction(ix)
    ensures WriteInstruction(ix) + rest ==
      [ix.programIdIndex] + (Length(|ix.accounts|) + (ix.accounts + (Length(|ix.data|) + (ix.data + rest))))
  {
  }

  lemma InstructionRoundTrip(ix: Instruction, rest: bytes)
    requires WritableInstruction(ix)
    ensures ReadInstruction(WriteInstruction(ix) + rest) == Some((ix, rest))
  {
    var s3 := Length(|ix.data|) + (ix.data + rest);
    var s2 := Length(|ix.accounts|) + (ix.accounts + s3);
    InstructionBytes(ix, rest);
    IndexFirst(ix.programIdIndex, s2);
    DataRoundTrip(ix.accounts, s3);
    DataRoundTrip(ix.data, rest);
  }

  lemma ReadCons<T>(read: bytes -> Option<(T, bytes)>, s: bytes, x: T, rest: bytes, xs: seq<T>, end: bytes)
    requires read(s) == Some((x, rest)) && ReadMany(read, rest, |xs|) == Some((xs, end))
    ensures ReadMany(read, s, |[x] + xs|) == Some(([x] + xs, end))
  {
  }

  lemma WriteCons(ix: Instruction, ixs: seq<Instruction>, rest: bytes)
    requires WritableInstruction(ix) && forall i :: 0 <= i < |ixs| ==> WritableInstruction(ixs[i])
    ensures WriteInstructions([ix] + ixs) + rest == WriteInstruction(ix) + (WriteInstructions(ixs) + rest)
  {
    assert ([ix] + ixs)[1..] == ixs;
  }

  /** Reading the instructions that were written gives them back and stops right behind them. */
  lemma {:induction false} InstructionsRoundTrip(ixs: seq<Instruction>, rest: bytes)
    requires forall i :: 0 <= i < |ixs| ==> WritableInstruction(ixs[i])
    ensures ReadInstructions(WriteInstructions(ixs) + rest, |ixs|) == Some((ixs, rest))
  {
    if ixs == [] {
      assert [] + rest == rest;
    } else {
      var ix, more := ixs[0], ixs[1..];
      assert ixs == [ix] + more;
      var tail := WriteInstructions(more) + rest;
      InstructionsRoundTrip(more, rest);
      InstructionRoundTrip(ix, tail);
      WriteCons(ix, more, rest);
      ReadCons(ReadInstruction, WriteInstruction(ix) + tail, ix, tail, more, rest);
    }
  }

  lemma TakeRoundTrip(a: bytes, rest: bytes)
    ensures Take(a + rest, |a|) == Some((a, rest))
  {
  }

  lemma CountsRoundTrip(r: byte, p: byte, q: byte, n: nat, rest: bytes)
    requires n < LENGTH_LIMIT
    ensures ReadCounts([r, p, q] + (Length(n) + rest)) == Some(((r, p, q, n), rest))
  {
    LengthRoundTrip(n, rest);
    assert ([r, p, q] + (Length(n) + rest))[3..] == Length(n) + rest;
  }

  lemma Reassociate(a: bytes, b: bytes, c: bytes, d: bytes, e: bytes, rest: bytes)
    ensures a + (b + (c + (d + e))) + rest == a + (b + (c + (d + (e + rest))))
  {
  }

  lemma BareHeaderRoundTrip(h: MessageHeader, rest: bytes)
    requires WritableHeader(h)
    ensures ReadBareHeader(h.versioned, h.version, WriteBareHeader(h) + rest) == Some((h, rest))
  {
    var r, p, q := h.numRequiredSignatures, h.numReadonlySigned, h.numReadonlyUnsigned;
    var s4 := Length(h.instructionsLength) + rest;
    Reassociate([r, p, q], Length(h.pubkeysLength), h.pubkeys, h.blockhash, Length(h.instructionsLength), rest);
    CountsRoundTrip(r, p, q, h.pubkeysLength, h.pubkeys + (h.blockhash + s4));
    TakeRoundTrip(h.pubkeys, h.blockhash + s4);
    TakeRoundTrip(h.blockhash, s4);
    LengthRoundTrip(h.instructionsLength, rest);
  }

  lemma VersionRoundTrip(h: MessageHeader, rest: bytes)
    requires WritableHeader(h)
    ensures ReadVersion(WriteHeader(h) + rest) == Some(((h.versioned, h.version), WriteBareHeader(h) + rest))
  {
    if h.versioned {
      assert ([128 + h.version] + WriteBareHeader(h) + rest)[1..] == WriteBareHeader(h) + rest;
    }
  }

  /** Reading the header that was written gives it back and stops right behind it. */
  lemma HeaderRoundTrip(h: MessageHeader, rest: bytes)
    requires WritableHeader(h)
    ensures ReadHeader(WriteHeader(h) + rest) == Some((h, rest))
  {
    VersionRoundTrip(h, rest);
    BareHeaderRoundTrip(h, rest);
  }

  // ---- What the reader accepts ----

  /** Seven bits a byte, lowest first; a set top bit means that another byte follows, up to three. */
  ghost predicate IsLength(enc: bytes, n: nat)
  {
    || (|enc| == 1 && enc[0] < 128 && n == enc[0])
    || (|enc| == 2 && enc[0] >= 128 && enc[1] < 128 && n == Join(enc[1], enc[0] % 128))
    || (|enc| == 3 && enc[0] >= 128 && enc[1] >= 128 && n == Join(Join(enc[2] % 128, enc[1] % 128), enc[0] % 128))
  }

  ghost predicate IsInstruction(enc: bytes, ix: Instruction)
  {
    exists a, d :: IsLength(a, |ix.accounts|) && IsLength(d, |ix.data|)
      && enc == [ix.programIdIndex] + (a + (ix.accounts + (d + ix.data)))
  }

  /** The bytes fall into pieces that stand for the values, in order. */
  ghost predicate AreMany<T>(form: (bytes, T) -> bool, enc: bytes, xs: seq<T>)
    decreases |xs|
  {
    if xs == [] then enc == []
    else exists k :: 0 <= k <= |enc| && form(enc[..k], xs[0]) && AreMany(form, enc[k..], xs[1..])
  }

  ghost predicate AreInstructions(enc: bytes, ixs: seq<Instruction>)
  {
    AreMany(IsInstruction, enc, ixs)
  }

  lemma LengthSound(s: bytes) returns (enc: bytes)
    requires ReadLength(s).Some?
    ensures var (n, rest) := ReadLength(s).value; IsLength(enc, n) && s == enc + rest
  {
    enc := s[..|s| - |ReadLength(s).value.1|];
  }

  lemma DataSound(s: bytes) returns (enc: bytes)
    requires ReadData(s).Some?
    ensures var (data, rest) := ReadData(s).value; IsLength(enc, |data|) && s == enc + (data + rest)
  {
    enc := LengthSound(s);
    var rest := ReadLength(s).value.1;
    assert rest == ReadData(s).value.0 + ReadData(s).value.1;
  }

  lemma InstructionParts(s: bytes, ix: Instruction, rest: bytes) returns (s2: bytes)
    requires ReadInstruction(s) == Some((ix, rest))
    ensures s != [] && s[0] == ix.programIdIndex
    ensures ReadData(s[1..]) == Some((ix.accounts, s2)) && ReadData(s2) == Some((ix.data, rest))
  {
    s2 := ReadData(s[1..]).value.1;
  }

  lemma InstructionSound(s: bytes, ix: Instruction, rest: bytes) returns (enc: bytes)
    requires ReadInstruction(s) == Some((ix, rest))
    ensures IsInstruction(enc, ix) && s == enc + rest
  {
    var s2 := InstructionParts(s, ix, rest);
    var a := DataSound(s[1..]);
    var d := DataSound(s2);
    enc := [ix.programIdIndex] + (a + (ix.accounts + (d + ix.data)));
    Reassociate([ix.programIdIndex], a, ix.accounts, d, ix.data, rest);
    assert s == [s[0]] + s[1..];
  }

  lemma AreCons<T>(form: (bytes, T) -> bool, first: bytes, x: T, more: bytes, xs: seq<T>)
    requires form(first, x) && AreMany(form, more, xs)
    ensures AreMany(form, first + more, [x] + xs)
  {
    var enc := first + more;
    assert enc[..|first|] == first && enc[|first|..] == more && ([x] + xs)[1..] == xs;
  }

  lemma Glue(s: bytes, first: bytes, s1: bytes, later: bytes, rest: bytes)
    requires s == first + s1 && s1 == later + rest
    ensures s == first + later + rest
  {
  }

  ghost predicate ReaderSound<T>(read: bytes -> Option<(T, bytes)>, form: (bytes, T) -> bool)
  {
    forall s :: read(s).Some? ==> exists e :: form(e, read(s).value.0) && s == e + read(s).value.1
  }

  lemma {:induction false} ManySound<T>(read: bytes -> Option<(T, bytes)>, form: (bytes, T) -> bool, s: bytes, n: nat)
    returns (enc: bytes)
    requires ReaderSound(read, form) && ReadMany(read, s, n).Some?
    ensures var (xs, rest) := ReadMany(read, s, n).value; |xs| == n && AreMany(form, enc, xs) && s == enc + rest
    decreases n
  {
    if n == 0 {
      enc := [];
    } else {
      var (x, s1) := read(s).value;
      var first :| form(first, x) && s == first + s1;
      var later := ManySound(read, form, s1, n - 1);
      AreCons(form, first, x, later, ReadMany(read, s1, n - 1).value.0);
      Glue(s, first, s1, later, ReadMany(read, s1, n - 1).value.1);
      enc := first + later;
    }
  }

  /** Whatever is read as `n` instructions is the encoding of `n` instructions. */
  lemma InstructionsSound(s: bytes, n: nat) returns (enc: bytes)
    requires ReadInstructions(s, n).Some?
    ensures var (ixs, rest) := ReadInstructions(s, n).value;
      |ixs| == n && AreInstructions(enc, ixs) && s == enc + rest
  {
    forall t | ReadInstruction(t).Some?
      ensures exists e :: IsInstruction(e, ReadInstruction(t).value.0) && t == e + ReadInstruction(t).value.1
    {
      var e := InstructionSound(t, ReadInstruction(t).value.0, ReadInstruction(t).value.1);
    }
    enc := ManySound(ReadInstruction, IsInstruction, s, n);
  }
}
