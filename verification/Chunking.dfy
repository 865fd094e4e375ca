/** solanaSend of examples/example-sign.js, against the device. */
module Chunking {
  import opened Bytes
  import opened Apdu

  const LEDGER_CLA: byte := 0xe0
  const MAX_PAYLOAD: nat := 255
  const P2_EXTEND: byte := 1
  const P2_MORE: byte := 2

  /** What the transport puts on the wire for one send call. */
  function Wire(instruction: byte, p1: byte, p2: byte, data: bytes): bytes
    requires |data| <= MAX_PAYLOAD
  {
    [LEDGER_CLA, instruction, p1, p2, |data|] + data
  }

  /** The chunks of a payload; all but the last are full and announce more. */
  function Chunks(instruction: byte, p1: byte, p2: byte, payload: bytes): seq<bytes>
    requires p2 == 0 || p2 == P2_EXTEND
    decreases |payload|
  {
    if |payload| <= MAX_PAYLOAD then [Wire(instruction, p1, p2, payload)]
    else [Wire(instruction, p1, p2 + P2_MORE, payload[..MAX_PAYLOAD])]
         + Chunks(instruction, p1, P2_EXTEND, payload[MAX_PAYLOAD..])
  }

  /** A payload takes a chunk for every 255 bytes begun, and one if it is empty. */
  lemma {:induction false} ChunkCount(instruction: byte, p1: byte, p2: byte, payload: bytes)
    requires p2 == 0 || p2 == P2_EXTEND
    ensures |Chunks(instruction, p1, p2, payload)| == if payload == [] then 1 else (|payload| + 254) / 255
    decreases |payload|
  {
    if |payload| > MAX_PAYLOAD {
      ChunkCount(instruction, p1, P2_EXTEND, payload[MAX_PAYLOAD..]);
    }
  }

  /** The splitting loop; `sent` collects what goes to the transport, in order. */
  method SolanaSend(instruction: byte, p1: byte, payload: bytes) returns (sent: seq<bytes>)
    ensures sent == Chunks(instruction, p1, 0, payload)
  {
    var p2: byte := 0;
    var payloadOffset := 0;
    sent := [];
    if |payload| > MAX_PAYLOAD {
      while |payload| - payloadOffset > MAX_PAYLOAD
        invariant 0 <= payloadOffset <= |payload| && (p2 == 0 || p2 == P2_EXTEND)
        invariant sent + Chunks(instruction, p1, p2, payload[payloadOffset..]) == Chunks(instruction, p1, 0, payload)
      {
        var rest := payload[payloadOffset..];
        assert rest[..MAX_PAYLOAD] == payload[payloadOffset..payloadOffset + MAX_PAYLOAD];
        assert rest[MAX_PAYLOAD..] == payload[payloadOffset + MAX_PAYLOAD..];
        var buf := payload[payloadOffset..payloadOffset + MAX_PAYLOAD];
        payloadOffset := payloadOffset + MAX_PAYLOAD;
        sent := sent + [Wire(instruction, p1, p2 + P2_MORE, buf)];
        p2 := P2_EXTEND;
      }
    }
    sent := sent + [Wire(instruction, p1, p2, payload[payloadOffset..])];
  }

  /** The device works through the chunks until one is refused, which stops the sender. */
  ghost function Deliver(c: Command, chunks: seq<bytes>, cap: nat): (Reply, Command)
    decreases chunks
  {
    if chunks == [] then (Success, c)
    else
      var (reply, d) := Step(c, chunks[0], cap);
      if reply != Success then (reply, d) else Deliver(d, chunks[1..], cap)
  }

  // ---- The payload of a sign instruction ----

  function WordBytes(w: u32): bytes
  {
    [w / 256 / 256 / 256, w / 256 / 256 % 256, w / 256 % 256, w % 256]
  }

  function PathBytes(path: seq<u32>): (b: bytes)
    ensures |b| == 4 * |path|
  {
    if path == [] then [] else PathBytes(path[..|path| - 1]) + WordBytes(path[|path| - 1])
  }

  /** One path, its length, its words, and the message. */
  function Payload(path: seq<u32>, message: bytes): bytes
    requires |path| <= MAX_BIP32_PATH_LENGTH
  {
    [1, |path|] + PathBytes(path) + message
  }

  lemma Halves(n: nat)
    ensures BigEndian(n / 256, n % 256) == n
  {
  }

  lemma WordRoundTrip(w: u32)
    ensures Word(WordBytes(w)) == w
  {
    Halves(w / 256 / 256);
    Halves(w / 256);
    Halves(w);
  }

  lemma Middle(a: bytes, b: bytes, c: bytes)
    ensures (a + b + c)[|a|..|a| + |b|] == b && a + b + c == a + (b + c)
  {
  }

  lemma {:induction false} PathRoundTrip(path: seq<u32>, rest: bytes)
    ensures Words(PathBytes(path) + rest, |path|) == path
  {
    if path != [] {
      var n := |path| - 1;
      var front, last := path[..n], path[n];
      PathRoundTrip(front, WordBytes(last) + rest);
      Middle(PathBytes(front), WordBytes(last), rest);
      WordRoundTrip(last);
      assert path == front + [last];
    }
  }

  // ---- One chunk on the device ----

  lemma WireHeader(instruction: byte, p1: byte, p2: byte, data: bytes)
    requires IsModernSign(instruction) && |data| <= MAX_PAYLOAD && data != []
    ensures ParseHeader(Wire(instruction, p1, p2, data)) == Good(Header(instruction, p1, p2, Some(data), false))
  {
    assert Wire(instruction, p1, p2, data)[5..] == data;
  }

  lemma FrontRoundTrip(h: Header, path: seq<u32>, rest: bytes)
    requires IsModernSign(h.instruction) && !h.deprecatedHost && 1 <= |path| <= MAX_BIP32_PATH_LENGTH
    requires h.data == Some(Payload(path, rest))
    ensures ReadFront(h) == Good((path, rest))
  {
    var data := Payload(path, rest)[1..];
    PathRoundTrip(path, rest);
    assert data[1..] == PathBytes(path) + rest;
    assert data[1 + 4 * |path|..] == rest;
  }

  lemma StepWireFirst(c: Command, instruction: byte, p1: byte, p2: byte, path: seq<u32>, rest: bytes, cap: nat)
    requires IsModernSign(instruction) && 1 <= |path| <= MAX_BIP32_PATH_LENGTH
    requires |Payload(path, rest)| <= MAX_PAYLOAD && p2 in {0, P2_MORE}
    ensures Step(c, Wire(instruction, p1, p2, Payload(path, rest)), cap) ==
      if |rest| > cap then (InvalidMessageSize, CLEARED)
      else (Success, Command(if p2 == 0 then Complete else InProgress, instruction, 1, path, p1 == 0, false, rest))
  {
    WireHeader(instruction, p1, p2, Payload(path, rest));
    FrontRoundTrip(Header(instruction, p1, p2, Some(Payload(path, rest)), false), path, rest);
    assert [] + rest == rest;
  }

  lemma StepWireExtend(c: Command, p1: byte, p2: byte, data: bytes, cap: nat)
    requires IsModernSign(c.instruction) && c.state == InProgress && c.nonConfirm == (p1 == 0)
    requires !c.deprecatedHost && c.numPaths == 1
    requires data != [] && |data| <= MAX_PAYLOAD && p2 in {P2_EXTEND, P2_EXTEND + P2_MORE}
    ensures Step(c, Wire(c.instruction, p1, p2, data), cap) ==
      if |c.message| + |data| > cap then (InvalidMessageSize, CLEARED)
      else (Success, c.(message := c.message + data, state := if p2 == P2_EXTEND then Complete else InProgress))
  {
    WireHeader(c.instruction, p1, p2, data);
  }

  // ---- All chunks ----

  lemma {:induction false} DeliverRest(c: Command, p1: byte, data: bytes, cap: nat)
    requires IsModernSign(c.instruction) && c.state == InProgress && c.nonConfirm == (p1 == 0)
    requires !c.deprecatedHost && c.numPaths == 1 && data != []
    ensures Deliver(c, Chunks(c.instruction, p1, P2_EXTEND, data), cap) ==
      if |c.message| + |data| > cap then (InvalidMessageSize, CLEARED)
      else (Success, c.(message := c.message + data, state := Complete))
    decreases |data|
  {
    if |data| <= MAX_PAYLOAD {
      StepWireExtend(c, p1, P2_EXTEND, data, cap);
    } else {
      var now, later := data[..MAX_PAYLOAD], data[MAX_PAYLOAD..];
      StepWireExtend(c, p1, P2_EXTEND + P2_MORE, now, cap);
      var chunks := Chunks(c.instruction, p1, P2_EXTEND, data);
      assert chunks[1..] == Chunks(c.instruction, p1, P2_EXTEND, later);
      if |c.message| + |now| <= cap {
        DeliverRest(c.(message := c.message + now), p1, later, cap);
        assert c.message + now + later == c.message + data;
      }
    }
  }

  lemma PayloadSplit(path: seq<u32>, message: bytes, k: nat)
    requires |path| <= MAX_BIP32_PATH_LENGTH && k == MAX_PAYLOAD - 2 - 4 * |path| <= |message|
    ensures Payload(path, message)[..MAX_PAYLOAD] == Payload(path, message[..k])
    ensures Payload(path, message)[MAX_PAYLOAD..] == message[k..]
  {
  }

  /** The first chunk of several. */
  lemma DeliverFirst(c: Command, instruction: byte, p1: byte, path: seq<u32>, now: bytes, later: seq<bytes>, cap: nat)
    requires IsModernSign(instruction) && 1 <= |path| <= MAX_BIP32_PATH_LENGTH
    requires |Payload(path, now)| <= MAX_PAYLOAD
    ensures Deliver(c, [Wire(instruction, p1, P2_MORE, Payload(path, now))] + later, cap) ==
      if |now| > cap then (InvalidMessageSize, CLEARED)
      else Deliver(Command(InProgress, instruction, 1, path, p1 == 0, false, now), later, cap)
  {
    StepWireFirst(c, instruction, p1, P2_MORE, path, now, cap);
    var first := Wire(instruction, p1, P2_MORE, Payload(path, now));
    assert ([first] + later)[1..] == later;
  }

  lemma ChunksLong(instruction: byte, p1: byte, payload: bytes, now: bytes, later: bytes)
    requires |payload| > MAX_PAYLOAD && payload[..MAX_PAYLOAD] == now && payload[MAX_PAYLOAD..] == later
    ensures Chunks(instruction, p1, 0, payload)
      == [Wire(instruction, p1, P2_MORE, now)] + Chunks(instruction, p1, P2_EXTEND, later)
  {
  }

  /** A payload that takes more than one chunk. */
  lemma SendLong(c: Command, instruction: byte, p1: byte, path: seq<u32>, message: bytes, cap: nat)
    requires IsModernSign(instruction) && 1 <= |path| <= MAX_BIP32_PATH_LENGTH
    requires |Payload(path, message)| > MAX_PAYLOAD
    ensures Deliver(c, Chunks(instruction, p1, 0, Payload(path, message)), cap) ==
      if |message| > cap then (InvalidMessageSize, CLEARED)
      else (Success, Command(Complete, instruction, 1, path, p1 == 0, false, message))
  {
    var k := MAX_PAYLOAD - 2 - 4 * |path|;
    var now, later := message[..k], message[k..];
    PayloadSplit(path, message, k);
    ChunksLong(instruction, p1, Payload(path, message), Payload(path, now), later);
    DeliverFirst(c, instruction, p1, path, now, Chunks(instruction, p1, P2_EXTEND, later), cap);
    if |now| <= cap {
      DeliverRest(Command(InProgress, instruction, 1, path, p1 == 0, false, now), p1, later, cap);
      assert now + later == message;
    }
  }

  /**
   * Whatever the device was doing, sending a path and a message makes it end complete with exactly
   * that path and message; a message that is too long ends in a size error and a cleared command.
   */
  lemma SendRoundTrip(c: Command, instruction: byte, p1: byte, path: seq<u32>, message: bytes, cap: nat)
    requires (instruction == 6 || instruction == 7) && 1 <= |path| <= 5
    ensures Deliver(c, Chunks(instruction, p1, 0, Payload(path, message)), cap) ==
      if |message| > cap then (InvalidMessageSize, CLEARED)
      else (Success, Command(Complete, instruction, 1, path, p1 == 0, false, message))
  {
    if |Payload(path, message)| <= MAX_PAYLOAD {
      StepWireFirst(c, instruction, p1, 0, path, message, cap);
    } else {
      SendLong(c, instruction, p1, path, message, cap);
    }
  }

  // ---- The other instructions ----

  /** One path without a count of paths in front, and what follows it. */
  function PathData(path: seq<u32>, rest: bytes): bytes
    requires |path| <= MAX_BIP32_PATH_LENGTH
  {
    [|path|] + PathBytes(path) + rest
  }

  lemma PathFront(h: Header, path: seq<u32>, rest: bytes)
    requires !CountsPaths(h) && 1 <= |path| <= MAX_BIP32_PATH_LENGTH && h.data == Some(PathData(path, rest))
    ensures ReadFront(h) == Good((path, rest))
  {
    var data := PathData(path, rest);
    PathRoundTrip(path, rest);
    assert data[1..] == PathBytes(path) + rest;
    assert data[1 + 4 * |path|..] == rest;
  }

  lemma PubkeyHeader(p1: byte, p2: byte, data: bytes)
    requires |data| <= MAX_PAYLOAD && data != []
    ensures ParseHeader(Wire(5, p1, p2, data)) == Good(Header(5, p1, p2, Some(data), false))
  {
    assert Wire(5, p1, p2, data)[5..] == data;
  }

  /** A request for a public key is complete with its path; whatever follows the path is kept as a message. */
  lemma PubkeyRoundTrip(c: Command, p1: byte, p2: byte, path: seq<u32>, rest: bytes, cap: nat)
    requires 1 <= |path| <= 5 && |PathData(path, rest)| <= 255 && p2 in {0, 2}
    ensures Step(c, Wire(5, p1, p2, PathData(path, rest)), cap) ==
      if |rest| > cap then (InvalidMessageSize, CLEARED)
      else (Success, Command(if p2 == 0 then Complete else InProgress, 5, 1, path, p1 == 0, false, rest))
  {
    PubkeyHeader(p1, p2, PathData(path, rest));
    PathFront(Header(5, p1, p2, Some(PathData(path, rest)), false), path, rest);
    assert [] + rest == rest;
  }

  /** A request for the settings is complete at once, whatever was in progress. */
  lemma ConfigRequest(c: Command, p1: byte, p2: byte, cap: nat)
    ensures Step(c, [0xe0, 4, p1, p2, 0], cap) == (Success, Command(Complete, 4, 0, [], p1 == 0, false, []))
  {
  }

  // ---- The deprecated instructions ----

  /** Deprecated hosts give the size of the data in two bytes. */
  function OldWire(instruction: byte, p1: byte, p2: byte, data: bytes): bytes
    requires |data| <= 0xffff - 6
  {
    [0xe0, instruction, p1, p2, |data| / 256, |data| % 256] + data
  }

  lemma OldHeader(instruction: byte, p1: byte, p2: byte, data: bytes)
    requires 1 <= instruction <= 3 && |data| <= 0xffff - 6 && data != []
    ensures ParseHeader(OldWire(instruction, p1, p2, data)) == Good(Header(instruction, p1, p2, Some(data), true))
  {
    Halves(|data|);
    assert OldWire(instruction, p1, p2, data)[6..] == data;
  }

  lemma OldConfigRequest(c: Command, p1: byte, p2: byte, data: bytes, cap: nat)
    requires data != [] && |data| <= 0xffff - 6
    ensures Step(c, OldWire(1, p1, p2, data), cap) == (Success, Command(Complete, 1, 0, [], p1 == 0, true, []))
  {
    OldHeader(1, p1, p2, data);
  }

  lemma OldPubkeyRoundTrip(c: Command, p1: byte, p2: byte, path: seq<u32>, rest: bytes, cap: nat)
    requires 1 <= |path| <= 5 && |PathData(path, rest)| <= 0xffff - 6 && p2 in {0, 2}
    ensures Step(c, OldWire(2, p1, p2, PathData(path, rest)), cap) ==
      if |rest| > cap then (InvalidMessageSize, CLEARED)
      else (Success, Command(if p2 == 0 then Complete else InProgress, 2, 1, path, p1 == 0, true, rest))
  {
    OldHeader(2, p1, p2, PathData(path, rest));
    PathFront(Header(2, p1, p2, Some(PathData(path, rest)), true), path, rest);
    assert [] + rest == rest;
  }

  /** A deprecated host gives the size of the message once more, in front of the message. */
  lemma OldSignRoundTrip(c: Command, p1: byte, p2: byte, path: seq<u32>, message: bytes, cap: nat)
    requires 1 <= |path| <= 5 && |message| <= 0xff00 && p2 in {0, 2}
    ensures
      Step(c, OldWire(3, p1, p2, PathData(path, [|message| / 256, |message| % 256] + message)), cap) ==
      if |message| > cap then (InvalidMessageSize, CLEARED)
      else (Success, Command(if p2 == 0 then Complete else InProgress, 3, 1, path, p1 == 0, true, message))
  {
    var sized := [|message| / 256, |message| % 256] + message;
    SizedMessage(Header(3, p1, p2, Some(PathData(path, sized)), true), message);
    OldHeader(3, p1, p2, PathData(path, sized));
    PathFront(Header(3, p1, p2, Some(PathData(path, sized)), true), path, sized);
    assert [] + message == message;
  }

  lemma SizedMessage(h: Header, message: bytes)
    requires h.instruction == 3 && |message| <= 0xffff
    ensures StripLength(h, Some([|message| / 256, |message| % 256] + message)) == Good(Some(message))
  {
    Halves(|message|);
    assert ([|message| / 256, |message| % 256] + message)[2..] == message;
  }
}
