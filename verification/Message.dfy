/** process_message_body of libsol/message.c. */
module Message {
  import opened Bytes
  import opened Wire
  import P = Parser
  import opened Infos
  import opened Instructions
  import opened Summary
  import opened Transaction

  const MAX_INSTRUCTIONS: nat := 4

  predicate AllValid(ixs: seq<Instruction>, h: MessageHeader)
  {
    forall i :: 0 <= i < |ixs| ==> ValidIndices(ixs[i], h)
  }

  /** A versioned message ends with the number of its address tables, which must be zero. */
  predicate IsTail(h: MessageHeader, rest: bytes)
  {
    if h.versioned then ReadLength(rest) == Some((0, [])) else rest == []
  }

  /** The instructions of a body. */
  function ReadBody(h: MessageHeader, body: bytes): (ixs: Option<seq<Instruction>>)
    ensures ixs.Some? ==> AllValid(ixs.value, h) && |ixs.value| == h.instructionsLength <= MAX_INSTRUCTIONS
  {
    if h.instructionsLength == 0 || h.instructionsLength > MAX_INSTRUCTIONS then None
    else
      match ReadInstructions(body, h.instructionsLength)
      case None => None
      case Some((ixs, rest)) => if AllValid(ixs, h) && IsTail(h, rest) then Some(ixs) else None
  }

  function InfosOf(env: Environment, h: MessageHeader, ixs: seq<Instruction>): (infos: seq<Info>)
    requires h.Whole() && AllValid(ixs, h)
    ensures |infos| == |ixs| && forall i :: 0 <= i < |ixs| ==> infos[i] == InfoOf(env, h, ixs[i])
  {
    if ixs == [] then []
    else InfosOf(env, h, ixs[..|ixs| - 1]) + [InfoOf(env, h, ixs[|ixs| - 1])]
  }

  predicate Ignored(info: Info)
  {
    info.Memo? || info.AssertOwner?
  }

  /** The instructions that are displayed. */
  function Displayed(infos: seq<Info>): (shown: seq<Info>)
    ensures |shown| <= |infos|
  {
    if infos == [] then []
    else Displayed(infos[..|infos| - 1]) + if Ignored(infos[|infos| - 1]) then [] else [infos[|infos| - 1]]
  }

  /** Everything but memos and owner assertions is displayed, in order. */
  lemma DisplayedIs(infos: seq<Info>, x: Info)
    ensures Displayed([]) == []
    ensures Displayed(infos + [x]) == Displayed(infos) + if x == Memo || x == AssertOwner then [] else [x]
  {
    assert (infos + [x])[..|infos|] == infos;
  }

  /** What is handed to print_transaction; None for a body that is refused before that. */
  function BodyInfos(env: Environment, h: MessageHeader, body: bytes): (infos: Option<seq<Info>>)
    requires h.Whole()
    ensures infos.Some? ==> |infos.value| <= MAX_INSTRUCTIONS
  {
    var ixs := ReadBody(h, body);
    if ixs.None? then None
    else
      var infos := InfosOf(env, h, ixs.value);
      if Unknown in infos then None else Some(Displayed(infos))
  }

  // ---- The reader takes exactly the well-formed bodies ----

  lemma LengthComplete(enc: bytes, n: nat, rest: bytes)
    requires IsLength(enc, n)
    ensures ReadLength(enc + rest) == Some((n, rest))
  {
    assert (enc + rest)[|enc|..] == rest;
  }

  lemma DataComplete(enc: bytes, data: bytes, rest: bytes)
    requires IsLength(enc, |data|)
    ensures ReadData(enc + (data + rest)) == Some((data, rest))
  {
    LengthComplete(enc, |data|, data + rest);
    TakeRoundTrip(data, rest);
  }

  lemma InstructionComplete(enc: bytes, ix: Instruction, rest: bytes)
    requires IsInstruction(enc, ix)
    ensures ReadInstruction(enc + rest) == Some((ix, rest))
  {
    var a, d :| IsLength(a, |ix.accounts|) && IsLength(d, |ix.data|)
      && enc == [ix.programIdIndex] + (a + (ix.accounts + (d + ix.data)));
    var s3 := d + (ix.data + rest);
    var s2 := a + (ix.accounts + s3);
    DataComplete(d, ix.data, rest);
    DataComplete(a, ix.accounts, s3);
    Reassociate([ix.programIdIndex], a, ix.accounts, d, ix.data, rest);
    assert ([ix.programIdIndex] + s2)[1..] == s2;
  }

  ghost predicate ReaderComplete<T(!new)>(read: bytes -> Option<(T, bytes)>, form: (bytes, T) -> bool)
  {
    forall enc, x, rest :: form(enc, x) ==> read(enc + rest) == Some((x, rest))
  }

  lemma {:induction false} ManyComplete<T(!new)>(read: bytes -> Option<(T, bytes)>, form: (bytes, T) -> bool,
      enc: bytes, xs: seq<T>, rest: bytes)
    requires ReaderComplete(read, form) && AreMany(form, enc, xs)
    ensures ReadMany(read, enc + rest, |xs|) == Some((xs, rest))
    decreases |xs|
  {
    if xs == [] {
      assert [] + rest == rest;
    } else {
      var k :| 0 <= k <= |enc| && form(enc[..k], xs[0]) && AreMany(form, enc[k..], xs[1..]);
      ManyComplete(read, form, enc[k..], xs[1..], rest);
      OneComplete(read, enc[..k], enc[k..], xs[0], xs[1..], rest);
      assert enc == enc[..k] + enc[k..] && xs == [xs[0]] + xs[1..];
    }
  }

  lemma OneComplete<T(!new)>(read: bytes -> Option<(T, bytes)>, e: bytes, more: bytes, x: T, xs: seq<T>, rest: bytes)
    requires read(e + (more + rest)) == Some((x, more + rest))
    requires ReadMany(read, more + rest, |xs|) == Some((xs, rest))
    ensures ReadMany(read, e + more + rest, |[x] + xs|) == Some(([x] + xs, rest))
  {
    assert e + more + rest == e + (more + rest);
    ReadCons(read, e + (more + rest), x, more + rest, xs, rest);
  }

  lemma InstructionsComplete(enc: bytes, ixs: seq<Instruction>, rest: bytes)
    requires AreInstructions(enc, ixs)
    ensures ReadInstructions(enc + rest, |ixs|) == Some((ixs, rest))
  {
    forall e, x, r | IsInstruction(e, x) ensures ReadInstruction(e + r) == Some((x, r)) {
      InstructionComplete(e, x, r);
    }
    ManyComplete(ReadInstruction, IsInstruction, enc, ixs, rest);
  }

  /** Instruction encodings, and for a versioned message an encoding of zero, and nothing else. */
  ghost predicate IsBody(h: MessageHeader, body: bytes, ixs: seq<Instruction>)
  {
    && 1 <= |ixs| == h.instructionsLength <= 4 && AllValid(ixs, h)
    && exists enc, tail :: body == enc + tail && AreInstructions(enc, ixs)
         && if h.versioned then IsLength(tail, 0) else tail == []
  }

  lemma TailSound(h: MessageHeader, tail: bytes)
    ensures IsTail(h, tail) <==> if h.versioned then IsLength(tail, 0) else tail == []
  {
    if h.versioned {
      if IsTail(h, tail) {
        var enc := LengthSound(tail);
        assert tail == enc;
      }
      assert tail + [] == tail;
      if IsLength(tail, 0) {
        LengthComplete(tail, 0, []);
      }
    }
  }

  /** A body is read as these instructions exactly when it is made of them. */
  lemma ReadBodyIff(h: MessageHeader, body: bytes, ixs: seq<Instruction>)
    ensures ReadBody(h, body) == Some(ixs) <==> IsBody(h, body, ixs)
  {
    if ReadBody(h, body) == Some(ixs) {
      var enc := InstructionsSound(body, h.instructionsLength);
      var rest := ReadInstructions(body, h.instructionsLength).value.1;
      TailSound(h, rest);
    }
    if IsBody(h, body, ixs) {
      var enc, tail :| body == enc + tail && AreInstructions(enc, ixs)
        && if h.versioned then IsLength(tail, 0) else tail == [];
      InstructionsComplete(enc, ixs, tail);
      TailSound(h, tail);
    }
  }

  /** A body reaches the printers exactly when it is made of instructions that are all known. */
  lemma BodyInfosIff(env: Environment, h: MessageHeader, body: bytes, shown: seq<Info>)
    requires h.Whole()
    ensures BodyInfos(env, h, body) == Some(shown) <==>
      exists ixs :: IsBody(h, body, ixs) && Unknown !in InfosOf(env, h, ixs) && shown == Displayed(InfosOf(env, h, ixs))
  {
    forall ixs ensures ReadBody(h, body) == Some(ixs) <==> IsBody(h, body, ixs) {
      ReadBodyIff(h, body, ixs);
    }
  }

  // ---- The fee of a message ----

  lemma {:induction false} DisplayedFrom(infos: seq<Info>, i: nat) returns (j: nat)
    requires i < |Displayed(infos)|
    ensures j < |infos| && infos[j] == Displayed(infos)[i]
  {
    if i < |Displayed(infos[..|infos| - 1])| {
      j := DisplayedFrom(infos[..|infos| - 1], i);
    } else {
      j := |infos| - 1;
    }
  }

  lemma BudgetInfo(env: Environment, h: MessageHeader, ix: Instruction)
    requires h.Whole() && ValidIndices(ix, h) && InfoOf(env, h, ix).Budget?
    ensures InfoOf(env, h, ix).signatures == h.numRequiredSignatures
  {
  }

  lemma ShownSigned(env: Environment, h: MessageHeader, ixs: seq<Instruction>, shown: seq<Info>, i: nat)
    requires h.Whole() && AllValid(ixs, h) && shown == Displayed(InfosOf(env, h, ixs)) && i < |shown|
      && shown[i].Budget?
    ensures shown[i].signatures == h.numRequiredSignatures
  {
    var j := DisplayedFrom(InfosOf(env, h, ixs), i);
    BudgetInfo(env, h, ixs[j]);
  }

  /** All requests carry the number of signatures that the header requires. */
  lemma BudgetSigned(env: Environment, h: MessageHeader, body: bytes, infos: seq<Info>)
    requires h.Whole() && BodyInfos(env, h, body) == Some(infos)
    ensures forall i :: 0 <= i < |infos| && infos[i].Budget? ==> infos[i].signatures == h.numRequiredSignatures
  {
    forall i | 0 <= i < |infos| && infos[i].Budget? ensures infos[i].signatures == h.numRequiredSignatures {
      ShownSigned(env, h, ReadBody(h, body).value, infos, i);
    }
  }

  lemma PartSigned(infos: seq<Info>, nonce: seq<Info>, budget: seq<Info>, core: seq<Info>, n: byte)
    requires infos == nonce + (budget + core) && forall k :: 0 <= k < |budget| ==> budget[k].Budget?
    requires forall i :: 0 <= i < |infos| && infos[i].Budget? ==> infos[i].signatures == n
    ensures SignedBy(budget, n)
  {
    forall k | 0 <= k < |budget| ensures budget[k].signatures == n {
      assert infos[|nonce| + k] == budget[k];
    }
  }

  /**
   * The fee line of a message: the maximal run of requests behind a leading nonce advance counts, with its
   * last limit and its last price, the signatures of the header, and all instructions behind the nonce.
   */
  lemma FeeOfMessage(env: Environment, h: MessageHeader, body: bytes, nonce: seq<Info>, budget: seq<Info>,
      core: seq<Info>, i: Option<nat>, j: Option<nat>)
    requires h.Whole() && BodyInfos(env, h, body) == Some(nonce + (budget + core)) && Parted(nonce, budget, core)
    requires LastAt(budget, i, SetsLimit) && LastAt(budget, j, SetsPrice)
    ensures FeeLines(nonce + (budget + core)) == FeeAt(budget, h.numRequiredSignatures, i, j, |budget + core|)
  {
    BudgetSigned(env, h, body, nonce + (budget + core));
    PartSigned(nonce + (budget + core), nonce, budget, core, h.numRequiredSignatures);
    PartsAre(nonce, budget, core);
    FeeIs(budget, h.numRequiredSignatures, i, j, |budget + core|);
  }

  // ---- A whole message ----

  function WriteMessage(h: MessageHeader, ixs: seq<Instruction>): bytes
    requires WritableHeader(h) && forall i :: 0 <= i < |ixs| ==> WritableInstruction(ixs[i])
  {
    WriteHeader(h) + (WriteInstructions(ixs) + if h.versioned then [0] else [])
  }

  lemma BodyRoundTrip(h: MessageHeader, ixs: seq<Instruction>, tail: bytes)
    requires forall i :: 0 <= i < |ixs| ==> WritableInstruction(ixs[i])
    requires 1 <= |ixs| == h.instructionsLength <= MAX_INSTRUCTIONS && AllValid(ixs, h) && IsTail(h, tail)
    ensures ReadBody(h, WriteInstructions(ixs) + tail) == Some(ixs)
  {
    InstructionsRoundTrip(ixs, tail);
  }

  /** A message that was written is read as the same header and the same instructions. */
  lemma MessageRoundTrip(h: MessageHeader, ixs: seq<Instruction>)
    requires WritableHeader(h) && forall i :: 0 <= i < |ixs| ==> WritableInstruction(ixs[i])
    requires 1 <= |ixs| == h.instructionsLength <= MAX_INSTRUCTIONS && AllValid(ixs, h)
    ensures exists body :: ReadHeader(WriteMessage(h, ixs)) == Some((h, body)) && ReadBody(h, body) == Some(ixs)
  {
    var tail: bytes := if h.versioned then [0] else [];
    HeaderRoundTrip(h, WriteInstructions(ixs) + tail);
    TailSound(h, tail);
    BodyRoundTrip(h, ixs, tail);
  }

  // ---- The method ----

  /** Some values are read, and how the input goes on. */
  ghost predicate Goes<T(!new)>(read: bytes -> Option<(T, bytes)>, body: bytes, total: nat, xs: seq<T>, rest: bytes)
  {
    && |xs| <= total
    && ReadMany(read, body, total) ==
      match ReadMany(read, rest, total - |xs|)
      case None => None
      case Some((more, end)) => Some((xs + more, end))
  }

  lemma GoesOn<T(!new)>(read: bytes -> Option<(T, bytes)>, body: bytes, total: nat, xs: seq<T>, rest: bytes, x: T,
      next: bytes)
    requires Goes(read, body, total, xs, rest) && |xs| < total && read(rest) == Some((x, next))
    ensures Goes(read, body, total, xs + [x], next)
  {
    var more := ReadMany(read, next, total - |xs| - 1);
    if more.Some? {
      assert xs + ([x] + more.value.0) == xs + [x] + more.value.0;
    }
  }

  lemma GoesNowhere<T(!new)>(read: bytes -> Option<(T, bytes)>, body: bytes, total: nat)
    ensures Goes(read, body, total, [], body)
  {
    var all := ReadMany(read, body, total);
    if all.Some? {
      assert [] + all.value.0 == all.value.0;
    }
  }

  lemma GoesWrong<T(!new)>(read: bytes -> Option<(T, bytes)>, body: bytes, total: nat, xs: seq<T>, rest: bytes)
    requires Goes(read, body, total, xs, rest) && |xs| < total && read(rest).None?
    ensures ReadMany(read, body, total).None?
  {
  }

  lemma GoesToEnd<T(!new)>(read: bytes -> Option<(T, bytes)>, body: bytes, total: nat, xs: seq<T>, rest: bytes)
    requires Goes(read, body, total, xs, rest) && |xs| == total
    ensures ReadMany(read, body, total) == Some((xs, rest))
  {
    assert xs + [] == xs;
  }

  lemma InvalidStays(body: bytes, h: MessageHeader, ixs: seq<Instruction>, rest: bytes)
    requires Goes(ReadInstruction, body, h.instructionsLength, ixs, rest) && !AllValid(ixs, h)
    ensures ReadBody(h, body).None?
  {
    var more := ReadMany(ReadInstruction, rest, h.instructionsLength - |ixs|);
    if more.Some? {
      InvalidMore(ixs, more.value.0, h);
    }
  }

  lemma InvalidMore(ixs: seq<Instruction>, more: seq<Instruction>, h: MessageHeader)
    requires !AllValid(ixs, h)
    ensures !AllValid(ixs + more, h)
  {
    var i :| 0 <= i < |ixs| && !ValidIndices(ixs[i], h);
    assert (ixs + more)[i] == ixs[i];
  }

  lemma Snoc(env: Environment, h: MessageHeader, ixs: seq<Instruction>, ix: Instruction)
    requires h.Whole() && AllValid(ixs, h) && ValidIndices(ix, h)
    ensures AllValid(ixs + [ix], h)
    ensures InfosOf(env, h, ixs + [ix]) == InfosOf(env, h, ixs) + [InfoOf(env, h, ix)]
    ensures Displayed(InfosOf(env, h, ixs + [ix])) ==
      Displayed(InfosOf(env, h, ixs)) + if Ignored(InfoOf(env, h, ix)) then [] else [InfoOf(env, h, ix)]
  {
    assert (ixs + [ix])[..|ixs|] == ixs;
    var infos := InfosOf(env, h, ixs);
    assert (infos + [InfoOf(env, h, ix)])[..|infos|] == infos;
  }

  /** Reads and validates the next instruction. */
  method ReadNext(h: MessageHeader, parser: P.Parser, ghost body: bytes, ghost ixs: seq<Instruction>)
    returns (ix: Option<Instruction>)
    requires Goes(ReadInstruction, body, h.instructionsLength, ixs, parser.buffer) && |ixs| < h.instructionsLength
    modifies parser
    ensures ix.Some? ==> ValidIndices(ix.value, h)
    ensures ix.Some? ==> Goes(ReadInstruction, body, h.instructionsLength, ixs + [ix.value], parser.buffer)
    ensures ix.None? ==> ReadBody(h, body).None?
  {
    ghost var rest := parser.buffer;
    ix := parser.ParseInstruction();
    if ix.None? {
      GoesWrong(ReadInstruction, body, h.instructionsLength, ixs, rest);
      return;
    }
    GoesOn(ReadInstruction, body, h.instructionsLength, ixs, rest, ix.value, parser.buffer);
    var valid := Validate(ix.value, h);
    if !valid {
      Extended(ixs, ix.value, h);
      InvalidStays(body, h, ixs + [ix.value], parser.buffer);
      ix := None;
    }
  }

  lemma Extended(ixs: seq<Instruction>, ix: Instruction, h: MessageHeader)
    requires !ValidIndices(ix, h)
    ensures !AllValid(ixs + [ix], h)
  {
    assert (ixs + [ix])[|ixs|] == ix;
  }

  /** Reads all instructions; the infos are those of all of them, `shown` those displayed. */
  method ReadInfos(env: Environment, h: MessageHeader, parser: P.Parser)
    returns (ok: bool, infos: seq<Info>, shown: seq<Info>, ghost ixs: seq<Instruction>)
    requires h.Whole()
    modifies parser
    ensures ok ==> AllValid(ixs, h) && infos == InfosOf(env, h, ixs) && shown == Displayed(infos)
    ensures ok ==> ReadMany(ReadInstruction, old(parser.buffer), h.instructionsLength) == Some((ixs, parser.buffer))
    ensures !ok ==> ReadBody(h, old(parser.buffer)).None?
  {
    ghost var body := parser.buffer;
    infos, shown, ixs := [], [], [];
    GoesNowhere(ReadInstruction, body, h.instructionsLength);
    while |infos| < h.instructionsLength
      invariant |infos| == |ixs| <= h.instructionsLength
      invariant Goes(ReadInstruction, body, h.instructionsLength, ixs, parser.buffer)
      invariant AllValid(ixs, h) && infos == InfosOf(env, h, ixs) && shown == Displayed(infos)
    {
      var ix := ReadNext(h, parser, body, ixs);
      if ix.None? {
        return false, [], [], [];
      }
      Snoc(env, h, ixs, ix.value);
      var info := InfoOf(env, h, ix.value);
      infos := infos + [info];
      if !Ignored(info) {
        shown := shown + [info];
      }
      ixs := ixs + [ix.value];
    }
    GoesToEnd(ReadInstruction, body, h.instructionsLength, ixs, parser.buffer);
    ok := true;
  }

  /** Whether the body ends where it should. */
  method ReadTail(h: MessageHeader, parser: P.Parser) returns (ok: bool)
    modifies parser
    ensures ok == IsTail(h, old(parser.buffer))
  {
    if h.versioned {
      var tables := parser.ParseLength();
      if tables.None? || tables.value > 0 {
        return false;
      }
    }
    ok := |parser.buffer| == 0;
  }

  /** Whether every instruction is known. */
  method AllKnown(infos: seq<Info>) returns (all: bool)
    ensures all == (Unknown !in infos)
  {
    var i := 0;
    while i < |infos|
      invariant 0 <= i <= |infos|
      invariant Unknown !in infos[..i]
    {
      if infos[i] == Unknown {
        return false;
      }
      i := i + 1;
    }
    all := true;
  }

  /** Everything but the printing. */
  method ReadMessageBody(env: Environment, h: MessageHeader, body: bytes) returns (shown: Option<seq<Info>>)
    requires h.Whole()
    ensures shown == BodyInfos(env, h, body)
  {
    if h.instructionsLength == 0 || h.instructionsLength > MAX_INSTRUCTIONS {
      return None;
    }
    var parser := new P.Parser(body);
    var ok, infos, displayed, ixs := ReadInfos(env, h, parser);
    if !ok {
      return None;
    }
    ok := ReadTail(h, parser);
    if !ok {
      return None;
    }
    assert ReadBody(h, body) == Some(ixs);
    ok := AllKnown(infos);
    shown := if ok then Some(displayed) else None;
  }

  /** Recognises a message body and fills a summary that was just reset. */
  method ProcessMessageBody(summary: TransactionSummary, env: Environment, c: Printers.Config, body: bytes)
    returns (outcome: Outcome)
    requires summary.Valid() && summary.Slots() == EMPTY && c.header.Whole()
    modifies summary, summary.general
    ensures var infos := BodyInfos(env, c.header, body);
      if infos.None? then outcome == Refused && summary.Slots() == EMPTY
      else Summarised(summary.Slots(), c, infos.value, outcome)
  {
    var shown := ReadMessageBody(env, c.header, body);
    if shown.None? {
      return Refused;
    }
    outcome := PrintTransaction(summary, c, shown.value);
  }
}
