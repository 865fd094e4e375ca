/** Chunk reassembly: src/apdu.c and the dispatch of src/main.c. */
module Apdu {
  import opened Bytes

  const CLA: byte := 0xe0
  const P1_NON_CONFIRM: byte := 0x00
  const MAX_BIP32_PATH_LENGTH: nat := 5

  const INS_DEPRECATED_GET_APP_CONFIGURATION: byte := 1
  const INS_DEPRECATED_GET_PUBKEY: byte := 2
  const INS_DEPRECATED_SIGN_MESSAGE: byte := 3
  const INS_GET_APP_CONFIGURATION: byte := 4
  const INS_GET_PUBKEY: byte := 5
  const INS_SIGN_MESSAGE: byte := 6
  const INS_SIGN_OFFCHAIN_MESSAGE: byte := 7

  datatype Reply =
    | Success
    | InvalidParameter
    | InvalidMessage
    | InvalidMessageHeader
    | InvalidMessageSize
    | UnimplementedInstruction

  datatype State = Uninitialized | InProgress | Complete

  /** The value of an ApduCommand: the buffers cut to the parts in use. */
  datatype Command = Command(state: State, instruction: byte, numPaths: byte, path: seq<u32>,
    nonConfirm: bool, deprecatedHost: bool, message: bytes)

  const CLEARED := Command(Uninitialized, 0, 0, [], false, false, [])

  /** The header of one APDU; no data at all is told apart from a data pointer with nothing left behind it. */
  datatype Header = Header(instruction: byte, p1: byte, p2: byte, data: Option<bytes>, deprecatedHost: bool)
  {
    predicate Extend() { p2 % 2 == 1 }

    predicate More() { p2 / 2 % 2 == 1 }

    predicate NonConfirm() { p1 == P1_NON_CONFIRM }
  }

  datatype Parsed<+T> = Good(value: T) | Bad(reply: Reply)

  predicate IsDeprecated(instruction: byte) { 1 <= instruction <= 3 }

  predicate IsModern(instruction: byte) { 4 <= instruction <= 7 }

  predicate IsGetConfig(instruction: byte)
  {
    instruction == INS_DEPRECATED_GET_APP_CONFIGURATION || instruction == INS_GET_APP_CONFIGURATION
  }

  predicate IsGetPubkey(instruction: byte)
  {
    instruction == INS_DEPRECATED_GET_PUBKEY || instruction == INS_GET_PUBKEY
  }

  predicate IsSign(instruction: byte) { instruction == INS_DEPRECATED_SIGN_MESSAGE || IsModernSign(instruction) }

  /** The instructions that the invariants below are about. */
  predicate IsModernSign(instruction: byte) {
    instruction == INS_SIGN_MESSAGE || instruction == INS_SIGN_OFFCHAIN_MESSAGE
  }

  // ---- One APDU as a value ----

  function DataAt(apdu: bytes, offset: nat): Option<bytes>
    requires offset <= |apdu|
  {
    if offset == |apdu| then None else Some(apdu[offset..])
  }

  function BigEndian(high: nat, low: nat): nat
  {
    256 * high + low
  }

  function ParseHeader(apdu: bytes): Parsed<Header>
  {
    if |apdu| <= 1 then Bad(InvalidMessageSize)
    else if apdu[0] != CLA then Bad(InvalidMessageHeader)
    else if IsDeprecated(apdu[1]) then
      if |apdu| < 6 || |apdu| > 0xffff || |apdu| != BigEndian(apdu[4], apdu[5]) + 6 then Bad(InvalidMessageSize)
      else Good(Header(apdu[1], apdu[2], apdu[3], DataAt(apdu, 6), true))
    else if IsModern(apdu[1]) then
      if |apdu| < 5 || |apdu| > 255 + 5 || |apdu| != apdu[4] as int + 5 then Bad(InvalidMessageSize)
      else Good(Header(apdu[1], apdu[2], apdu[3], DataAt(apdu, 5), false))
    else Bad(UnimplementedInstruction)
  }

  /** Four bytes, most significant first. */
  function Word(b: bytes): u32
    requires |b| == 4
  {
    BigEndian(BigEndian(BigEndian(b[0], b[1]), b[2]), b[3])
  }

  function Words(data: bytes, n: nat): (ws: seq<u32>)
    requires 4 * n <= |data|
    ensures |ws| == n
  {
    if n == 0 then [] else Words(data, n - 1) + [Word(data[4 * (n - 1)..4 * n])]
  }

  function ReadPath(data: Option<bytes>): Parsed<seq<u32>>
  {
    if data.None? then Bad(InvalidParameter)
    else if |data.value| == 0 then Bad(InvalidMessageSize)
    else
      var len := data.value[0];
      if len < 1 || len > MAX_BIP32_PATH_LENGTH then Bad(InvalidMessage)
      else if 1 + 4 * len > |data.value| then Bad(InvalidMessageSize)
      else Good(Words(data.value[1..], len))
  }

  /** A path has one to five words. */
  lemma PathLengths(data: bytes)
    requires data != []
    ensures ReadPath(Some(data)).Good? <==> 1 <= data[0] <= 5 && 1 + 4 * data[0] <= |data|
  {
  }

  /** Whether an extending chunk belongs to the command in progress. */
  predicate Continues(c: Command, h: Header)
  {
    && c.state == InProgress && c.instruction == h.instruction && c.nonConfirm == h.NonConfirm()
    && c.deprecatedHost == h.deprecatedHost && c.numPaths == 1
  }

  /** Whether a first chunk counts its paths before giving the path. */
  predicate CountsPaths(h: Header)
  {
    !h.deprecatedHost && h.instruction != INS_GET_PUBKEY
  }

  /** The path at the front of a first chunk, and what follows it. */
  function ReadFront(h: Header): Parsed<(seq<u32>, bytes)>
  {
    if CountsPaths(h) && (h.data.None? || h.data.value == []) then Bad(InvalidMessageSize)
    else if CountsPaths(h) && h.data.value[0] != 1 then Bad(InvalidMessage)
    else
      var data := if CountsPaths(h) then Some(h.data.value[1..]) else h.data;
      match ReadPath(data)
      case Bad(reply) => Bad(reply)
      case Good(path) => Good((path, data.value[1 + 4 * |path|..]))
  }

  /** The data of a deprecated sign instruction says its own length. */
  function StripLength(h: Header, data: Option<bytes>): Parsed<Option<bytes>>
  {
    if h.instruction != INS_DEPRECATED_SIGN_MESSAGE then Good(data)
    else if data.None? || |data.value| < 2 then Bad(InvalidMessageSize)
    else if |data.value| - 2 != BigEndian(data.value[0], data.value[1]) then Bad(InvalidMessageSize)
    else Good(Some(data.value[2..]))
  }

  /** The data goes to the end of the message, and the last chunk completes the command. */
  function Append(c: Command, h: Header, data: Option<bytes>, cap: nat): Parsed<Command>
  {
    var d := c.(instruction := h.instruction, nonConfirm := h.NonConfirm(), deprecatedHost := h.deprecatedHost,
                state := if h.More() then InProgress else Complete);
    if data.Some? then
      if |c.message| + |data.value| > cap then Bad(InvalidMessageSize)
      else Good(d.(message := c.message + data.value))
    else if IsGetPubkey(h.instruction) then Good(d)
    else Bad(InvalidMessageSize)
  }

  function Accept(c: Command, h: Header, cap: nat): Parsed<Command>
  {
    if IsGetConfig(h.instruction) then
      Good(CLEARED.(state := Complete, instruction := h.instruction, nonConfirm := h.NonConfirm(),
                    deprecatedHost := h.deprecatedHost))
    else if h.Extend() then
      if IsSign(h.instruction) && !Continues(c, h) then Bad(InvalidMessage)
      else
        match StripLength(h, h.data)
        case Bad(reply) => Bad(reply)
        case Good(data) => Append(if IsSign(h.instruction) then c else CLEARED, h, data, cap)
    else
      match ReadFront(h)
      case Bad(reply) => Bad(reply)
      case Good((path, rest)) =>
        match StripLength(h, Some(rest))
        case Bad(reply) => Bad(reply)
        case Good(data) => Append(CLEARED.(numPaths := 1, path := path), h, data, cap)
  }

  /** What one APDU makes of the command: any error leaves it cleared. */
  function Step(c: Command, apdu: bytes, cap: nat): (Reply, Command)
  {
    match ParseHeader(apdu)
    case Bad(reply) => (reply, CLEARED)
    case Good(h) =>
      match Accept(c, h, cap)
      case Bad(reply) => (reply, CLEARED)
      case Good(d) => (Success, d)
  }

  // ---- Every run of APDUs ----

  /** The command after a run of APDUs, starting from the cleared one. */
  ghost function After(run: seq<bytes>, cap: nat): Command
  {
    if run == [] then CLEARED else Step(After(run[..|run| - 1], cap), run[|run| - 1], cap).1
  }

  ghost predicate IsChunk(apdu: bytes, instruction: byte, nonConfirm: bool, extend: bool)
  {
    match ParseHeader(apdu)
    case Bad(_) => false
    case Good(h) => h.instruction == instruction && h.NonConfirm() == nonConfirm && h.Extend() == extend
                    && h.data.Some?
  }

  ghost function DataOf(apdu: bytes): bytes
  {
    match ParseHeader(apdu)
    case Good(Header(_, _, _, Some(data), _)) => data
    case _ => []
  }

  ghost predicate HasMore(apdu: bytes)
  {
    ParseHeader(apdu).Good? && ParseHeader(apdu).value.More()
  }

  /** The data of the chunks one after the other. */
  ghost function Gathered(chunks: seq<bytes>): bytes
  {
    if chunks == [] then [] else Gathered(chunks[..|chunks| - 1]) + DataOf(chunks[|chunks| - 1])
  }

  ghost predicate FrontOf(first: bytes, path: seq<u32>, rest: bytes)
  {
    match ParseHeader(first)
    case Bad(_) => false
    case Good(h) => ReadFront(h) == Good((path, rest))
  }

  /** The message is the rest of the first chunk and the data of those behind it. */
  ghost predicate Adds(first: bytes, more: seq<bytes>, path: seq<u32>, message: bytes)
  {
    exists rest :: FrontOf(first, path, rest) && message == rest + Gathered(more)
  }

  /** A first chunk at `k` and extending ones behind it, all but the last announcing more. */
  ghost predicate Chained(run: seq<bytes>, k: nat, instruction: byte, nonConfirm: bool)
    requires k < |run|
  {
    && IsChunk(run[k], instruction, nonConfirm, false)
    && (forall j :: k < j < |run| ==> IsChunk(run[j], instruction, nonConfirm, true))
    && (forall j :: k <= j < |run| - 1 ==> HasMore(run[j]))
  }

  /**
   * The command is what the chunks from `k` on add up to: a first chunk that gave the path, then
   * extending chunks of the same instruction and confirm flag, all but the last announcing more.
   */
  ghost predicate Explains(run: seq<bytes>, k: nat, c: Command, cap: nat)
  {
    && k < |run|
    && Chained(run, k, c.instruction, c.nonConfirm)
    && (c.state == if HasMore(run[|run| - 1]) then InProgress else Complete)
    && !c.deprecatedHost && c.numPaths == 1 && 1 <= |c.path| <= MAX_BIP32_PATH_LENGTH
    && |c.message| <= cap
    && Adds(run[k], run[k + 1..], c.path, c.message)
  }

  ghost predicate LiveSign(c: Command)
  {
    IsModernSign(c.instruction) && c.state != Uninitialized
  }

  /** A first chunk brings everything with it. */
  lemma StepFirst(c: Command, apdu: bytes, cap: nat)
    requires var d := Step(c, apdu, cap).1; LiveSign(d)
    requires ParseHeader(apdu).Good? && !ParseHeader(apdu).value.Extend()
    ensures var d := Step(c, apdu, cap).1;
      && IsChunk(apdu, d.instruction, d.nonConfirm, false) && FrontOf(apdu, d.path, d.message)
      && d.state == (if HasMore(apdu) then InProgress else Complete)
      && !d.deprecatedHost && d.numPaths == 1 && 1 <= |d.path| <= MAX_BIP32_PATH_LENGTH && |d.message| <= cap
  {
    var front := ReadFront(ParseHeader(apdu).value).value;
    assert Step(c, apdu, cap).1.message == front.1;
  }

  /** An extending chunk adds its data to a command in progress and changes nothing else but the state. */
  lemma StepExtend(c: Command, apdu: bytes, cap: nat)
    requires var d := Step(c, apdu, cap).1; LiveSign(d)
    requires ParseHeader(apdu).Good? && ParseHeader(apdu).value.Extend()
    ensures var d := Step(c, apdu, cap).1;
      && c.state == InProgress && IsChunk(apdu, c.instruction, c.nonConfirm, true) && |d.message| <= cap
      && d == c.(message := c.message + DataOf(apdu), state := if HasMore(apdu) then InProgress else Complete)
  {
  }

  lemma ExplainsFirst(run: seq<bytes>, d: Command, cap: nat)
    requires run != []
    requires var last := run[|run| - 1];
      && IsChunk(last, d.instruction, d.nonConfirm, false) && FrontOf(last, d.path, d.message)
      && d.state == (if HasMore(last) then InProgress else Complete)
    requires !d.deprecatedHost && d.numPaths == 1 && 1 <= |d.path| <= MAX_BIP32_PATH_LENGTH && |d.message| <= cap
    ensures Explains(run, |run| - 1, d, cap)
  {
    assert run[|run|..] == [];
    assert d.message == d.message + Gathered([]);
  }

  lemma GatheredSnoc(chunks: seq<bytes>, last: bytes)
    ensures Gathered(chunks + [last]) == Gathered(chunks) + DataOf(last)
  {
    assert (chunks + [last])[..|chunks|] == chunks;
  }

  lemma Behind(before: seq<bytes>, k: nat, last: bytes)
    requires k < |before|
    ensures (before + [last])[k + 1..] == before[k + 1..] + [last]
    ensures forall j :: 0 <= j < |before| ==> (before + [last])[j] == before[j]
  {
  }

  lemma Regrouped(a: bytes, b: bytes, c: bytes)
    ensures a + b + c == a + (b + c)
  {
  }

  lemma AddsSnoc(first: bytes, more: seq<bytes>, path: seq<u32>, message: bytes, last: bytes)
    requires Adds(first, more, path, message)
    ensures Adds(first, more + [last], path, message + DataOf(last))
  {
    var rest :| FrontOf(first, path, rest) && message == rest + Gathered(more);
    GatheredSnoc(more, last);
    Regrouped(rest, Gathered(more), DataOf(last));
  }

  lemma ChainExtend(before: seq<bytes>, k: nat, instruction: byte, nonConfirm: bool, last: bytes)
    requires k < |before| && Chained(before, k, instruction, nonConfirm) && HasMore(before[|before| - 1])
    requires IsChunk(last, instruction, nonConfirm, true)
    ensures Chained(before + [last], k, instruction, nonConfirm)
  {
  }

  lemma ExplainsExtend(before: seq<bytes>, k: nat, c: Command, last: bytes, d: Command, cap: nat)
    requires Explains(before, k, c, cap) && c.state == InProgress
    requires IsChunk(last, c.instruction, c.nonConfirm, true) && |d.message| <= cap
    requires d == c.(message := c.message + DataOf(last), state := if HasMore(last) then InProgress else Complete)
    ensures Explains(before + [last], k, d, cap)
  {
    ChainExtend(before, k, c.instruction, c.nonConfirm, last);
    Behind(before, k, last);
    AddsSnoc(before[k], before[k + 1..], c.path, c.message, last);
  }

  lemma LastAdded(run: seq<bytes>)
    requires run != []
    ensures run == run[..|run| - 1] + [run[|run| - 1]]
  {
  }

  /** In every run, a modern sign command that is in progress or complete is explained by its chunks. */
  lemma {:induction false} RunExplained(run: seq<bytes>, cap: nat) returns (k: nat)
    requires LiveSign(After(run, cap))
    ensures Explains(run, k, After(run, cap), cap)
  {
    var before, last := run[..|run| - 1], run[|run| - 1];
    var c := After(before, cap);
    LastAdded(run);
    if ParseHeader(last).value.Extend() {
      StepExtend(c, last, cap);
      k := RunExplained(before, cap);
      ExplainsExtend(before, k, c, last, After(run, cap), cap);
    } else {
      StepFirst(c, last, cap);
      ExplainsFirst(run, After(run, cap), cap);
      k := |run| - 1;
    }
  }
}
