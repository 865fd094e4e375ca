/** From a complete message to a filled summary. */
module Handler {
  import opened Bytes
  import opened Wire
  import opened Infos
  import opened Instructions
  import opened Summary
  import opened Printers
  import opened Recogniser
  import opened Transaction
  import opened Message

  /** Faulting stands for a write through a null pointer, Beyond for a key read behind the buffer of the message. */
  datatype Reply = Ready | InvalidMessage | InvalidHeader | NotSupported | Faulting | Beyond

  // ---- Keys by number ----

  /** The bytes from the first key to the end of the message's buffer; `spare` is what follows the blockhash. */
  function KeyMemory(h: MessageHeader, spare: bytes): bytes
  {
    h.pubkeys + (h.blockhash + spare)
  }

  /** The source takes any number of keys, whether the message has as many or not. */
  function KeySlot(memory: bytes, i: nat): Option<key32>
  {
    if KEY_SIZE * (i + 1) <= |memory| then Some(memory[KEY_SIZE * i..KEY_SIZE * (i + 1)]) else None
  }

  lemma KeySlotIsKey(h: MessageHeader, spare: bytes, i: nat)
    requires h.Whole() && i < h.pubkeysLength
    ensures KeySlot(KeyMemory(h, spare), i) == Some(h.Key(i))
  {
    var memory := KeyMemory(h, spare);
    assert KEY_SIZE * (i + 1) <= KEY_SIZE * h.pubkeysLength;
    assert memory[..|h.pubkeys|] == h.pubkeys;
    assert memory[KEY_SIZE * i..KEY_SIZE * (i + 1)] == h.pubkeys[KEY_SIZE * i..KEY_SIZE * (i + 1)];
  }

  /** Behind the last key lies the blockhash. */
  lemma BlockhashSlot(h: MessageHeader, spare: bytes)
    requires h.Whole()
    ensures KeySlot(KeyMemory(h, spare), h.pubkeysLength) == Some(h.blockhash)
  {
    var memory, n := KeyMemory(h, spare), |h.pubkeys|;
    assert memory[n..n + KEY_SIZE] == h.blockhash;
  }

  /** Whoever is found as the signer is a key of the message, exactly when it has as many keys as signatures. */
  lemma SignerIsKeyIff(h: MessageHeader)
    requires h.Whole()
    ensures h.numRequiredSignatures <= h.pubkeysLength <==>
      forall spare: bytes, signer: key32, i: nat ::
        i < h.numRequiredSignatures && KeySlot(KeyMemory(h, spare), i) == Some(signer) ==> i < h.pubkeysLength
  {
    BlockhashSlot(h, []);
  }

  /** A header without keys that requires one signature: the owner of the blockhash is found. */
  lemma BlockhashSigns(hash: key32, spare: bytes)
    ensures var h := MessageHeader(false, 0, 1, 0, 0, 0, [], hash, 1);
      h.Whole() && KeySlot(KeyMemory(h, spare), 0) == Some(hash)
  {
    BlockhashSlot(MessageHeader(false, 0, 1, 0, 0, 0, [], hash, 1), spare);
  }

  function FeePayer(h: MessageHeader): key32
    requires h.Whole()
  {
    KeySlot(KeyMemory(h, []), 0).value
  }

  /** The first key pays; without any keys it is the blockhash, which lies where they would. */
  lemma FeePayerIs(h: MessageHeader)
    requires h.Whole()
    ensures FeePayer(h) == if h.pubkeysLength > 0 then h.Key(0) else h.blockhash
  {
    if h.pubkeysLength > 0 {
      KeySlotIsKey(h, [], 0);
    } else {
      assert KeyMemory(h, [])[0..KEY_SIZE] == h.blockhash;
    }
  }

  /** scan_header_for_signer: the first of the required keys that is the signer's. */
  method ScanForSigner(h: MessageHeader, spare: bytes, signer: key32) returns (found: Option<nat>, beyond: bool)
    ensures found.Some? ==>
      && found.value < h.numRequiredSignatures && KeySlot(KeyMemory(h, spare), found.value) == Some(signer)
      && forall i :: 0 <= i < found.value ==> KeySlot(KeyMemory(h, spare), i) != Some(signer)
    ensures found.None? ==>
      forall i :: 0 <= i < h.numRequiredSignatures ==> KeySlot(KeyMemory(h, spare), i) != Some(signer)
    ensures beyond <==> found.None? && KEY_SIZE * h.numRequiredSignatures > |KeyMemory(h, spare)|
  {
    var memory := KeyMemory(h, spare);
    var i: nat := 0;
    while i < h.numRequiredSignatures
      invariant 0 <= i <= h.numRequiredSignatures && KEY_SIZE * i <= |memory|
      invariant forall j :: 0 <= j < i ==> KeySlot(memory, j) != Some(signer)
    {
      var key := KeySlot(memory, i);
      if key.None? {
        return None, true;
      }
      if key.value == signer {
        return Some(i), false;
      }
      i := i + 1;
    }
    return None, false;
  }

  // ---- What is prepared ----

  predicate Recognised(infos: Option<seq<Info>>)
  {
    infos.Some? && ShapeOf(Core(infos.value)).Some?
  }

  /** The slots after signing blindly: what was there before the message hash, and the hash. */
  ghost predicate Blind(s: Slots, c: Config, infos: Option<seq<Info>>, hash: key32)
    requires infos.Some? ==> |infos.value| < TWO_32
  {
    && s[PRIMARY] == Text("Unrecognized", "format")
    && (if infos.Some? then ShowsNonce(s, c, infos.value) else s[NONCE_ACCOUNT] == Unset && s[NONCE_AUTHORITY] == Unset)
    && Lists(s, (if infos.Some? then FeeLines(infos.value) else []) + [Hash("Message Hash", hash)])
  }

  /** The message was recognised or is signed blindly. */
  ghost predicate Filled(s: Slots, c: Config, infos: Option<seq<Info>>, hash: key32)
    requires infos.Some? ==> |infos.value| < TWO_32
  {
    if Recognised(infos) then Summarised(s, c, infos.value, Printed) else Blind(s, c, infos, hash)
  }

  /** The summary is ready, with the fee payer if need be. */
  ghost predicate Prepared(s: Slots, c: Config, infos: Option<seq<Info>>, hash: key32)
    requires c.header.Whole()
    requires infos.Some? ==> |infos.value| < TWO_32
  {
    && s[FEE_PAYER] == (if c.Shows(FeePayer(c.header)) then Key("Fee payer", FeePayer(c.header)) else Unset)
    && Filled(s[FEE_PAYER := Unset], c, infos, hash)
  }

  /** The two items that are shown for an unrecognised message. */
  function BlindItems(s: Slots, hash: key32): Option<Slots>
  {
    Add(s[PRIMARY := Text("Unrecognized", "format")], Hash("Message Hash", hash))
  }

  lemma BlindAt(s: Slots, had: seq<Line>, hash: key32)
    requires Lists(s, had) && |had| < NUM_GENERAL_ITEMS
    ensures var t := BlindItems(s, hash);
      && t.Some? && t.value[PRIMARY] == Text("Unrecognized", "format")
      && Lists(t.value, had + [Hash("Message Hash", hash)])
      && forall k :: NONCE_ACCOUNT <= k < MAX_SUMMARY_ITEMS ==> t.value[k] == s[k]
  {
    var t := s[PRIMARY := Text("Unrecognized", "format")];
    ListsFrame(s, t, had);
    AddLists(t, had, Hash("Message Hash", hash));
  }

  /** After a refusal blind signing finds both its slots. */
  lemma BlindSlots(s: Slots, c: Config, infos: Option<seq<Info>>, hash: key32)
    requires infos.Some? ==> |infos.value| < TWO_32
    requires if infos.None? then s == EMPTY else Summarised(s, c, infos.value, Refused)
    ensures s[PRIMARY] == Unset && s[FEE_PAYER] == Unset
    ensures var t := BlindItems(s, hash);
      t.Some? && Blind(t.value, c, infos, hash) && t.value[FEE_PAYER] == Unset
  {
    if infos.None? {
      BlindAt(s, [], hash);
    } else {
      BlindAt(s, FeeLines(infos.value), hash);
    }
  }

  /** What is shown for an unrecognised message. */
  method PrepareBlind(summary: TransactionSummary, hash: key32) returns (ok: bool)
    requires summary.Valid()
    modifies summary`primary, summary.general
    ensures ok == (old(summary.primary) == Unset && BlindItems(old(summary.Slots()), hash).Some?)
    ensures ok ==> summary.Slots() == BlindItems(old(summary.Slots()), hash).value
  {
    ok := summary.SetPrimary(Text("Unrecognized", "format"));
    if ok {
      ok := summary.AddGeneral(Hash("Message Hash", hash));
    }
  }

  lemma FullestIsRecognised(c: Config, infos: Option<seq<Info>>)
    requires infos.Some? && |infos.value| < TWO_32 && Overfull(c, infos.value)
    ensures Recognised(infos)
  {
  }

  lemma RefusedIsSafe(c: Config, infos: Option<seq<Info>>)
    requires infos.Some? ==> |infos.value| < TWO_32 && ShapeOf(Core(infos.value)).None?
    ensures infos.Some? ==> !Overfull(c, infos.value)
  {
    if infos.Some? {
      RefusedIsNotOverfull(c, infos.value);
    }
  }

  /** What becomes of a message that the signer is asked to confirm. */
  ghost predicate Replies(reply: Reply, s: Slots, c: Config, infos: Option<seq<Info>>, blindSigning: bool, hash: key32)
    requires c.header.Whole() && (infos.Some? ==> |infos.value| < TWO_32)
  {
    && reply in {Ready, NotSupported, Faulting}
    && (reply == Faulting <==> infos.Some? && Overfull(c, infos.value))
    && (reply == NotSupported <==> !Recognised(infos) && !blindSigning)
    && (reply == Ready ==> Prepared(s, c, infos, hash))
  }

  /** Fills the summary for a message body, all but the fee payer. */
  method Fill(summary: TransactionSummary, env: Environment, c: Config, blindSigning: bool, hash: key32, body: bytes)
    returns (reply: Reply)
    requires summary.Valid() && c.header.Whole()
    modifies summary, summary.general
    ensures var infos := BodyInfos(env, c.header, body);
      && reply in {Ready, NotSupported, Faulting}
      && (reply == Faulting <==> infos.Some? && Overfull(c, infos.value))
      && (reply == NotSupported <==> !Recognised(infos) && !blindSigning)
      && (reply == Ready ==> Filled(summary.Slots(), c, infos, hash) && summary.feePayer == Unset)
  {
    ghost var infos := BodyInfos(env, c.header, body);
    summary.Reset();
    var outcome := ProcessMessageBody(summary, env, c, body);
    if outcome == Faulted {
      FullestIsRecognised(c, infos);
      return Faulting;
    }
    if outcome == Refused {
      RefusedIsSafe(c, infos);
      if !blindSigning {
        return NotSupported;
      }
      BlindSlots(summary.Slots(), c, infos, hash);
      var ok := PrepareBlind(summary, hash);
    }
    reply := Ready;
  }

  lemma SlotCleared(s: Slots, item: Item)
    requires s[FEE_PAYER] == Unset
    ensures s[FEE_PAYER := item][FEE_PAYER := Unset] == s && s[FEE_PAYER := Unset] == s
  {
  }

  method Prepare(summary: TransactionSummary, env: Environment, c: Config, blindSigning: bool, hash: key32, body: bytes)
    returns (reply: Reply)
    requires summary.Valid() && c.header.Whole()
    modifies summary, summary.general
    ensures Replies(reply, summary.Slots(), c, BodyInfos(env, c.header, body), blindSigning, hash)
  {
    reply := Fill(summary, env, c, blindSigning, hash, body);
    if reply != Ready {
      return;
    }
    ghost var s := summary.Slots();
    var feePayer := FeePayer(c.header);
    if c.Shows(feePayer) {
      var ok := summary.SetFeePayer(feePayer);
    }
    SlotCleared(s, Key("Fee payer", feePayer));
  }

  lemma HeaderWhole(s: bytes)
    requires ReadHeader(s).Some?
    ensures ReadHeader(s).value.0.Whole()
  {
  }

  /** A required key, whether the message has it or not, is the signer's. */
  ghost predicate SignerRequired(h: MessageHeader, spare: bytes, signer: key32)
  {
    exists i :: 0 <= i < h.numRequiredSignatures && KeySlot(KeyMemory(h, spare), i) == Some(signer)
  }

  /** The required keys reach behind the buffer of the message. */
  predicate ReadsBeyond(h: MessageHeader, spare: bytes)
  {
    32 * h.numRequiredSignatures > |h.pubkeys| + 32 + |spare|
  }

  /** The settings, the key that signs, the hash of the message, and the buffer behind its blockhash. */
  datatype Setting = Setting(expert: bool, blindSigning: bool, signer: key32, symbol: key32 -> cstring, hash: key32,
    spare: bytes)
  {
    function Options(h: MessageHeader): Config { Config(expert, signer, symbol, h) }
  }

  /** The header and the body of a message that the signer has to sign. */
  method Admit(setting: Setting, message: bytes, nonConfirm: bool)
    returns (reply: Reply, header: Option<MessageHeader>, body: bytes)
    ensures reply in {Ready, InvalidMessage, InvalidHeader, NotSupported, Beyond}
    ensures reply == InvalidMessage <==> ReadHeader(message).None?
    ensures reply != InvalidMessage ==>
      var (h, b) := ReadHeader(message).value;
      && header == Some(h) && body == b && h.Whole()
      && (reply in {InvalidHeader, Beyond} <==> !SignerRequired(h, setting.spare, setting.signer))
      && (reply == Beyond <==>
          !SignerRequired(h, setting.spare, setting.signer) && ReadsBeyond(h, setting.spare))
      && (reply == NotSupported <==> SignerRequired(h, setting.spare, setting.signer) && nonConfirm)
  {
    var parser := new P.Parser(message);
    header := parser.ParseMessageHeader();
    body := parser.buffer;
    if header.None? {
      reply := InvalidMessage;
    } else {
      HeaderWhole(message);
      var found, beyond := ScanForSigner(header.value, setting.spare, setting.signer);
      reply := if found.None? then (if beyond then Beyond else InvalidHeader)
               else if nonConfirm then NotSupported else Ready;
    }
  }

  method ParseMessage(summary: TransactionSummary, env: Environment, setting: Setting, message: bytes, nonConfirm: bool)
    returns (reply: Reply)
    requires summary.Valid()
    modifies summary, summary.general
    ensures reply == InvalidMessage <==> ReadHeader(message).None?
    ensures ReadHeader(message).Some? ==>
      var (h, body) := ReadHeader(message).value;
      && h.Whole()
      && (reply in {InvalidHeader, Beyond} <==> !SignerRequired(h, setting.spare, setting.signer))
      && (reply == Beyond <==>
          !SignerRequired(h, setting.spare, setting.signer) && ReadsBeyond(h, setting.spare))
      && (SignerRequired(h, setting.spare, setting.signer) ==>
          if nonConfirm then reply == NotSupported
          else Replies(reply, summary.Slots(), setting.Options(h), BodyInfos(env, h, body), setting.blindSigning,
                 setting.hash))
  {
    var header, body;
    reply, header, body := Admit(setting, message, nonConfirm);
    if reply == Ready {
      reply := Prepare(summary, env, setting.Options(header.value), setting.blindSigning, setting.hash, body);
    }
  }

  /** After a message that was not turned down, finalize cannot fail. */
  lemma PreparedIsFinal(s: Slots, c: Config, infos: Option<seq<Info>>, hash: key32)
    requires c.header.Whole() && (infos.Some? ==> |infos.value| < TWO_32)
    requires Prepared(s, c, infos, hash)
    ensures s[PRIMARY] != Unset
  {
    assert s[PRIMARY] == s[FEE_PAYER := Unset][PRIMARY];
  }
}
