/** Which messages the exchange check lets through. */
module SwapSafety {
  import opened Bytes
  import opened Base58
  import opened Wire
  import opened Infos
  import opened Instructions
  import opened Encoding
  import opened Summary
  import opened Printers
  import opened Recogniser
  import opened Transaction
  import opened Message
  import opened Handler
  import opened Swap

  // ---- What an approved message is ----

  /** A single transfer. */
  predicate IsTransfer(shape: Shape)
  {
    shape.Alone? && shape.info.System? && shape.info.system.Transfer?
  }

  /** Only a transfer shows an amount under this title. */
  lemma PrimaryIsTransfer(c: Config, shape: Shape, lamports: u64)
    requires shape.Valid() && Render(c, shape).primary == Amount("Transfer", lamports)
    ensures IsTransfer(shape)
  {
    if !shape.Alone? {
      NotTransferTogether(c, shape);
    } else {
      NotTransferAlone(c, shape.info);
    }
  }

  lemma NotTransferTogether(c: Config, shape: Shape)
    requires shape.Valid() && !shape.Alone?
    ensures Render(c, shape).primary.Amount? ==> Render(c, shape).primary.title != "Transfer"
  {
    assert "Split stake"[0] == 'S';
  }

  lemma NotTransferAlone(c: Config, info: Info)
    requires Alone(info).Valid()
    ensures RenderAlone(c, info).primary.Amount? && RenderAlone(c, info).primary.title == "Transfer" ==>
      info.System? && info.system.Transfer?
  {
  }

  lemma AloneIsNoRecipient(c: Config, info: Info)
    requires Alone(info).Valid() && RenderAlone(c, info).primary.Key?
    ensures RenderAlone(c, info).primary.title != "Recipient"
  {
  }

  /** No sequence shows a key under the title of the recipient first. */
  lemma PrimaryIsNoRecipient(c: Config, shape: Shape)
    requires shape.Valid() && Render(c, shape).primary.Key?
    ensures Render(c, shape).primary.title != "Recipient"
  {
    if shape.Alone? {
      AloneIsNoRecipient(c, shape.info);
    }
  }

  /** Advances a nonce first, perhaps. */
  ghost predicate IsNonce(nonce: seq<Info>)
  {
    |nonce| <= 1 && forall i :: 0 <= i < |nonce| ==> Matches(nonce[i], AnAdvanceNonce)
  }

  /** Compute budget instructions that set neither limit nor price of the units. */
  ghost predicate IsFreeBudget(budget: seq<Info>)
  {
    forall i :: 0 <= i < |budget| ==>
      budget[i].Budget? && !budget[i].request.UnitLimit? && !budget[i].request.UnitPrice?
  }

  /** Nothing but a transfer of the validated amount from the signer to the validated recipient is displayed. */
  ghost predicate IsTransferOf(c: Config, infos: seq<Info>, from: key32, to: key32, v: Validated)
  {
    infos == [System(Transfer(from, to, v.amount))] && !c.Shows(from) && Encoded(to) == v.recipient
  }

  ghost predicate IsMadeOf(c: Config, infos: seq<Info>, nonce: seq<Info>, budget: seq<Info>, from: key32, to: key32,
      v: Validated)
  {
    && infos == nonce + budget + [System(Transfer(from, to, v.amount))] && IsNonce(nonce) && IsFreeBudget(budget)
    && !c.Shows(from) && Encoded(to) == v.recipient
  }

  /** A transfer of the validated amount to the validated recipient from a signer who also pays the fees. */
  ghost predicate IsSwap(c: Config, infos: seq<Info>, v: Validated)
    requires c.header.Whole()
  {
    !c.Shows(FeePayer(c.header)) && exists nonce, budget, from: key32, to: key32 ::
      IsMadeOf(c, infos, nonce, budget, from, to, v)
  }

  /** A transfer of the amount to this key, otherwise the same. */
  ghost predicate IsSwapTo(c: Config, infos: seq<Info>, amount: u64, to: key32)
    requires c.header.Whole()
  {
    && !c.Shows(FeePayer(c.header))
    && exists nonce, budget, from: key32 :: IsMadeOf(c, infos, nonce, budget, from, to, Validated(amount, Encoded(to)))
  }

  /** A swap goes to the one key whose text is the recipient, if there is such a key. */
  lemma SwapGoesTo(c: Config, infos: seq<Info>, v: Validated)
    requires c.header.Whole()
    ensures IsSwap(c, infos, v) <==> exists to: key32 :: Encoded(to) == v.recipient && IsSwapTo(c, infos, v.amount, to)
    ensures forall to: key32, to': key32 :: Encoded(to) == v.recipient == Encoded(to') ==> to == to'
  {
    if IsSwap(c, infos, v) {
      var nonce, budget, from: key32, to: key32 :| IsMadeOf(c, infos, nonce, budget, from, to, v);
      assert v == Validated(v.amount, Encoded(to));
      assert IsSwapTo(c, infos, v.amount, to);
    }
    if exists to: key32 :: Encoded(to) == v.recipient && IsSwapTo(c, infos, v.amount, to) {
      var to: key32 :| Encoded(to) == v.recipient && IsSwapTo(c, infos, v.amount, to);
      var nonce, budget, from: key32 :| IsMadeOf(c, infos, nonce, budget, from, to, Validated(v.amount, Encoded(to)));
      assert v == Validated(v.amount, Encoded(to));
    }
    forall to: key32, to': key32 | Encoded(to) == v.recipient == Encoded(to') ensures to == to' {
      Injective(to, to');
    }
  }

  lemma {:induction false} LeadingOf(budget: seq<Info>, last: Info)
    requires (forall i :: 0 <= i < |budget| ==> budget[i].Budget?) && !last.Budget?
    ensures Leading(budget + [last]) == |budget|
  {
    LeadingIs(budget + [last], |budget|);
  }

  lemma PrefixIsBudget(infos: seq<Info>)
    ensures forall i :: 0 <= i < Prefix(infos) ==> infos[i].Budget?
  {
  }

  /** The parts of a transaction put together again. */
  lemma Parts(infos: seq<Info>) returns (nonce: seq<Info>, budget: seq<Info>)
    ensures infos == nonce + budget + Core(infos) && IsNonce(nonce)
    ensures forall i :: 0 <= i < |budget| ==> budget[i].Budget?
    ensures var rest := AfterNonce(infos); budget == rest[..Prefix(rest)]
  {
    var rest := AfterNonce(infos);
    nonce := if HasNonce(infos) then infos[..1] else [];
    budget := rest[..Prefix(rest)];
    PrefixIsBudget(rest);
    Cut(rest, Prefix(rest));
    if HasNonce(infos) {
      Cut(infos, 1);
    }
    Joined(nonce, budget, Core(infos));
  }

  lemma Cut(infos: seq<Info>, k: nat)
    requires k <= |infos|
    ensures infos == infos[..k] + infos[k..]
  {
  }

  lemma Joined(a: seq<Info>, b: seq<Info>, d: seq<Info>)
    ensures a + b + d == a + (b + d) && [] + a == a
  {
  }

  /** The parts of a sequence that ends with its only instruction of another kind. */
  lemma PartsAre(infos: seq<Info>, nonce: seq<Info>, budget: seq<Info>, last: Info)
    requires infos == nonce + budget + [last] && IsNonce(nonce)
    requires (forall i :: 0 <= i < |budget| ==> budget[i].Budget?) && !last.Budget?
    requires !Matches(last, AnAdvanceNonce)
    ensures Core(infos) == [last] && var rest := AfterNonce(infos); rest[..Prefix(rest)] == budget
  {
    var rest := budget + [last];
    if nonce == [] {
      assert infos == rest;
    } else {
      assert infos[0] == nonce[0] && infos[1..] == rest;
    }
    assert !HasNonce(rest);
    assert AfterNonce(infos) == rest;
    LeadingOf(budget, last);
    assert Prefix(rest) == |budget|;
  }

  lemma MadeOfCore(c: Config, infos: seq<Info>, nonce: seq<Info>, budget: seq<Info>, from: key32, to: key32,
      v: Validated)
    requires |infos| < TWO_32 && IsMadeOf(c, infos, nonce, budget, from, to, v)
    ensures FeeLines(infos) == [] && IsTransferOf(c, Core(infos), from, to, v)
  {
    PartsAre(infos, nonce, budget, System(Transfer(from, to, v.amount)));
    FeeShown(budget, |AfterNonce(infos)|);
  }

  lemma CoreMadeOf(c: Config, infos: seq<Info>, from: key32, to: key32, v: Validated)
    returns (nonce: seq<Info>, budget: seq<Info>)
    requires |infos| < TWO_32 && FeeLines(infos) == [] && IsTransferOf(c, Core(infos), from, to, v)
    ensures IsMadeOf(c, infos, nonce, budget, from, to, v)
  {
    nonce, budget := Parts(infos);
    FeeShown(budget, |AfterNonce(infos)|);
  }

  // ---- The slots of a swap ----

  lemma {:induction false} UsedNone(s: Slots, mid: nat, hi: nat)
    requires mid <= hi <= MAX_SUMMARY_ITEMS && forall k :: mid <= k < hi ==> s[k] == Unset
    ensures Used(s, 0, hi) == Used(s, 0, mid)
    decreases hi
  {
    if mid < hi {
      UsedNone(s, mid, hi - 1);
    }
  }

  /** Exactly the primary slot and the first general slot are used. */
  lemma TwoSteps(s: Slots)
    requires s[PRIMARY] != Unset && s[1] != Unset
    ensures |Steps(s)| == 2 <==> forall k :: 2 <= k < MAX_SUMMARY_ITEMS ==> s[k] == Unset
    ensures |Steps(s)| >= 2 && Steps(s)[0] == PRIMARY && Steps(s)[1] == 1
  {
    assert Used(s, 0, 0) == [] && Used(s, 0, 1) == [PRIMARY] && Used(s, 0, 2) == [PRIMARY, 1];
    UsedPrefix(s, 0, 2, MAX_SUMMARY_ITEMS);
    if forall k :: 2 <= k < MAX_SUMMARY_ITEMS ==> s[k] == Unset {
      UsedNone(s, 2, MAX_SUMMARY_ITEMS);
    }
    StepsAreUsedSlots(s);
    if |Steps(s)| == 2 {
      assert Steps(s) == [PRIMARY, 1];
    }
  }

  /** In a recognised message the check finds the transfer, and nothing else on display. */
  ghost predicate ShowsTransfer(c: Config, infos: seq<Info>, v: Validated)
    requires c.header.Whole() && |infos| < TWO_32
  {
    && !c.Shows(FeePayer(c.header)) && FeeLines(infos) == []
    && exists from, to :: IsTransferOf(c, Core(infos), from, to, v)
  }

  lemma ShowsTransferIff(c: Config, infos: seq<Info>, v: Validated)
    requires c.header.Whole() && |infos| < TWO_32
    ensures IsSwap(c, infos, v) <==> ShowsTransfer(c, infos, v)
  {
    if IsSwap(c, infos, v) {
      var nonce, budget, from, to :| IsMadeOf(c, infos, nonce, budget, from, to, v);
      MadeOfCore(c, infos, nonce, budget, from, to, v);
    }
    if ShowsTransfer(c, infos, v) {
      var from, to :| IsTransferOf(c, Core(infos), from, to, v);
      var nonce, budget := CoreMadeOf(c, infos, from, to, v);
    }
  }

  /** The lines of a summary are in its first general slots. */
  lemma FirstLine(s: Slots, lines: seq<Line>)
    requires Lists(s, lines)
    ensures |lines| >= 1 ==> s[1] == lines[0]
    ensures (forall k :: 2 <= k <= NUM_GENERAL_ITEMS ==> s[k] == Unset) <==> |lines| <= 1
  {
    assert |lines| >= 2 ==> s[2] == lines[1];
  }

  /** What a transfer shows. */
  lemma TransferShows(c: Config, s: Slots, fee: seq<Line>, from: key32, to: key32, lamports: u64)
    requires Lists(s, fee + PrintSystem(c, Transfer(from, to, lamports)).Lines())
    ensures (forall k :: 2 <= k <= NUM_GENERAL_ITEMS ==> s[k] == Unset) <==> fee == [] && !c.Shows(from)
    ensures fee == [] && !c.Shows(from) ==> s[1] == Key("Recipient", to)
    ensures s[1] != Unset
  {
    var lines := PrintSystem(c, Transfer(from, to, lamports)).Lines();
    assert |lines| == if c.Shows(from) then 2 else 1;
    assert !c.Shows(from) ==> lines == [Key("Recipient", to)];
    assert fee == [] ==> fee + lines == lines;
    FirstLine(s, fee + lines);
  }

  /** The other slots stay empty unless the options say so. */
  lemma OtherSlots(c: Config, infos: seq<Info>, s: Slots, from: key32)
    requires c.header.Whole() && ShowsNonce(s, c, infos)
    requires s[FEE_PAYER] == if c.Shows(FeePayer(c.header)) then Key("Fee payer", FeePayer(c.header)) else Unset
    requires !c.Shows(from)
    ensures (forall k :: NONCE_ACCOUNT <= k < MAX_SUMMARY_ITEMS ==> s[k] == Unset) <==> !c.Shows(FeePayer(c.header))
  {
  }

  /** A message that is just a transfer, with its slots. */
  lemma TransferMatches(s: Slots, c: Config, infos: seq<Info>, v: Validated, from: key32, to: key32,
      lamports: u64)
    requires c.header.Whole() && |infos| < TWO_32
    requires s[PRIMARY] == Amount("Transfer", lamports) && ShowsNonce(s, c, infos)
    requires Lists(s, FeeLines(infos) + PrintSystem(c, Transfer(from, to, lamports)).Lines())
    requires s[FEE_PAYER] == if c.Shows(FeePayer(c.header)) then Key("Fee payer", FeePayer(c.header)) else Unset
    ensures SwapMatches(s, Some(v)) <==>
      && !c.Shows(FeePayer(c.header)) && FeeLines(infos) == []
      && lamports == v.amount && !c.Shows(from) && Encoded(to) == v.recipient
  {
    TransferShows(c, s, FeeLines(infos), from, to, lamports);
    TwoSteps(s);
    if !c.Shows(from) {
      OtherSlots(c, infos, s, from);
    }
  }

  lemma FirstStep(s: Slots)
    requires s[PRIMARY] != Unset
    ensures |Steps(s)| >= 1 && Steps(s)[0] == PRIMARY
  {
    UsedFromPrimary(s, MAX_SUMMARY_ITEMS);
  }

  /** The first item on display must be one of the two. */
  lemma PrimaryDecides(s: Slots, v: Option<Validated>)
    requires s[PRIMARY] != Unset
    ensures SwapMatches(s, v) ==> IsAmountOf(s[PRIMARY], v.value) || IsRecipientOf(s[PRIMARY], v.value)
  {
    FirstStep(s);
  }

  lemma TransferShape(infos: seq<Info>)
    ensures ShapeOf(infos).Some? && ShapeOf(infos).value.Alone? && ShapeOf(infos).value.info.System? <==>
      |infos| == 1 && infos[0].System?
    ensures |infos| == 1 && infos[0].System? ==> ShapeOf(infos) == Some(Alone(infos[0]))
  {
  }

  /** A recognised message that is not a single transfer does not match. */
  lemma OthersFail(s: Slots, c: Config, shape: Shape, v: Option<Validated>)
    requires shape.Valid() && s[PRIMARY] == Render(c, shape).primary
    requires !IsTransfer(shape)
    ensures !SwapMatches(s, v)
  {
    PrimaryDecides(s, v);
    if s[PRIMARY].Key? {
      PrimaryIsNoRecipient(c, shape);
    } else if s[PRIMARY].Amount? && s[PRIMARY].title == "Transfer" {
      PrimaryIsTransfer(c, shape, s[PRIMARY].lamports);
    }
  }

  lemma RecognisedSwap(s: Slots, c: Config, infos: seq<Info>, hash: key32, v: Validated)
    requires c.header.Whole() && |infos| < TWO_32 && Recognised(Some(infos)) && Prepared(s, c, Some(infos), hash)
    ensures SwapMatches(s, Some(v)) <==> ShowsTransfer(c, infos, v)
  {
    var t := s[FEE_PAYER := Unset];
    var shape := ShapeOf(Core(infos)).value;
    assert s[PRIMARY] == t[PRIMARY];
    TransferShape(Core(infos));
    if IsTransfer(shape) {
      var transfer := shape.info.system;
      ListsFrame(t, s, FeeLines(infos) + Render(c, shape).Lines());
      assert Core(infos) == [System(transfer)];
      TransferMatches(s, c, infos, v, transfer.from, transfer.to, transfer.lamports);
      TransferOfOne(c, infos, v, transfer);
    } else {
      OthersFail(s, c, shape, Some(v));
    }
  }

  lemma TransferOfOne(c: Config, infos: seq<Info>, v: Validated, transfer: SystemInfo)
    requires Core(infos) == [System(transfer)] && transfer.Transfer?
    ensures (exists from, to :: IsTransferOf(c, Core(infos), from, to, v)) <==>
      transfer.lamports == v.amount && !c.Shows(transfer.from) && Encoded(transfer.to) == v.recipient
  {
    if transfer.lamports == v.amount && !c.Shows(transfer.from) && Encoded(transfer.to) == v.recipient {
      assert IsTransferOf(c, Core(infos), transfer.from, transfer.to, v);
    }
    if exists from, to :: IsTransferOf(c, Core(infos), from, to, v) {
      var from, to :| IsTransferOf(c, Core(infos), from, to, v);
      assert Core(infos)[0] == System(Transfer(from, to, v.amount));
    }
  }

  /**
   * Whatever message a summary was prepared for, the exchange check approves it exactly when it is
   * a transfer of the validated amount to the validated recipient.
   */
  lemma SwapIff(s: Slots, c: Config, infos: Option<seq<Info>>, hash: key32, v: Option<Validated>)
    requires c.header.Whole() && (infos.Some? ==> |infos.value| < TWO_32)
    requires Prepared(s, c, infos, hash)
    ensures SwapMatches(s, v) <==> v.Some? && infos.Some? && IsSwap(c, infos.value, v.value)
  {
    if v.Some? && infos.Some? {
      ShowsTransferIff(c, infos.value, v.value);
      TransferShape(Core(infos.value));
    }
    assert s[PRIMARY] == s[FEE_PAYER := Unset][PRIMARY];
    if !Recognised(infos) {
      PrimaryDecides(s, v);
    } else if v.Some? {
      RecognisedSwap(s, c, infos.value, hash, v.value);
    }
  }

  // ---- What the check displays ----

  /** Whoever shows a token amount shows at least two more lines. */
  ghost predicate Light(script: Script)
  {
    |script.Lines()| <= 1 ==> !script.primary.TokenItem? && (script.Lines() != [] ==> !script.Lines()[0].TokenItem?)
  }

  lemma SystemLight(c: Config, s: SystemInfo)
    ensures Light(PrintSystem(c, s))
  {
  }

  lemma StakeLight(c: Config, s: StakeInfo)
    ensures Light(PrintStake(c, s))
  {
  }

  lemma VoteLight(c: Config, v: VoteInfo)
    ensures Light(PrintVote(c, v))
  {
  }

  lemma TokenLight(c: Config, t: TokenInfo)
    ensures Light(PrintToken(c, t))
  {
    if t.TransferChecked? || t.ApproveChecked? || t.MintToChecked? || t.BurnChecked? {
      assert |PrintMovement(c, t).Lines()| >= 2;
    }
  }

  lemma TokensLight(c: Config, shape: Shape)
    requires shape.Valid()
    requires shape.MintAccount? || shape.TokenAccount? || shape.MultisigAccount? || shape.TokenTransfer?
    ensures Light(Render(c, shape))
  {
  }

  lemma TogetherLight(c: Config, shape: Shape)
    requires shape.Valid() && !shape.Alone?
    ensures Light(Render(c, shape))
  {
    if shape.MintAccount? || shape.TokenAccount? || shape.MultisigAccount? || shape.TokenTransfer? {
      TokensLight(c, shape);
    }
  }

  lemma RenderLight(c: Config, shape: Shape)
    requires shape.Valid()
    ensures Light(Render(c, shape))
  {
    if shape.Alone? {
      match shape.info
      case System(s) => SystemLight(c, s);
      case Stake(s) => StakeLight(c, s);
      case Vote(v) => VoteLight(c, v);
      case Token(t) => TokenLight(c, t);
      case AssociatedToken(_, _, _, _) =>
    } else {
      TogetherLight(c, shape);
    }
  }

  /** With two steps there is at most one line. */
  lemma TwoStepsOneLine(s: Slots, lines: seq<Line>)
    requires Lists(s, lines) && s[PRIMARY] != Unset && |Steps(s)| == 2
    ensures |lines| <= 1
  {
    if |lines| >= 1 {
      TwoSteps(s);
      FirstLine(s, lines);
    }
  }

  lemma ShowableWith(s: Slots, t: Slots, fee: seq<Line>, script: Script)
    requires t == s[FEE_PAYER := Unset] && Lists(t, fee + script.Lines()) && |Steps(s)| == 2
    requires s[PRIMARY] == script.primary && Light(script)
    requires forall line :: line in fee ==> !line.TokenItem?
    requires !s[NONCE_ACCOUNT].TokenItem? && !s[NONCE_AUTHORITY].TokenItem? && !s[FEE_PAYER].TokenItem?
    ensures Showable(s)
  {
    var lines := fee + script.Lines();
    ListsFrame(t, s, lines);
    TwoStepsOneLine(s, lines);
    forall k | 1 <= k <= NUM_GENERAL_ITEMS ensures !s[k].TokenItem? {
      if k == 1 && lines != [] {
        assert s[1] == lines[0];
      }
    }
  }

  lemma FeeIsNoToken(infos: seq<Info>)
    requires |infos| < TWO_32
    ensures forall line :: line in FeeLines(infos) ==> !line.TokenItem?
  {
  }

  lemma NonceIsNoToken(s: Slots, c: Config, infos: seq<Info>)
    requires ShowsNonce(s, c, infos)
    ensures !s[NONCE_ACCOUNT].TokenItem? && !s[NONCE_AUTHORITY].TokenItem?
  {
  }

  lemma OthersKept(s: Slots, t: Slots)
    requires t == s[FEE_PAYER := Unset]
    ensures forall k :: 0 <= k < FEE_PAYER ==> s[k] == t[k]
  {
  }

  lemma PrintedIsShowable(s: Slots, t: Slots, c: Config, infos: seq<Info>)
    requires |infos| < TWO_32 && Summarised(t, c, infos, Printed) && t == s[FEE_PAYER := Unset]
    requires !s[FEE_PAYER].TokenItem? && |Steps(s)| == 2
    ensures Showable(s)
  {
    var shape := ShapeOf(Core(infos)).value;
    RenderLight(c, shape);
    FeeIsNoToken(infos);
    NonceIsNoToken(t, c, infos);
    OthersKept(s, t);
    ShowableWith(s, t, FeeLines(infos), Render(c, shape));
  }

  lemma BlindIsShowable(s: Slots, t: Slots, c: Config, infos: Option<seq<Info>>, hash: key32)
    requires infos.Some? ==> |infos.value| < TWO_32
    requires Blind(t, c, infos, hash) && t == s[FEE_PAYER := Unset] && !s[FEE_PAYER].TokenItem? && |Steps(s)| == 2
    ensures Showable(s)
  {
    var fee: seq<Line> := [];
    if infos.Some? {
      fee := FeeLines(infos.value);
      FeeIsNoToken(infos.value);
      NonceIsNoToken(t, c, infos.value);
    }
    assert s[PRIMARY] == t[PRIMARY] && s[NONCE_ACCOUNT] == t[NONCE_ACCOUNT] && s[NONCE_AUTHORITY] == t[NONCE_AUTHORITY];
    JustLines(Text("Unrecognized", "format"), [Hash("Message Hash", hash)]);
    ShowableWith(s, t, fee, Just(Text("Unrecognized", "format"), [Hash("Message Hash", hash)]));
  }

  /** When the check displays anything, it can. */
  lemma PreparedIsShowable(s: Slots, c: Config, infos: Option<seq<Info>>, hash: key32)
    requires c.header.Whole() && (infos.Some? ==> |infos.value| < TWO_32)
    requires Prepared(s, c, infos, hash)
    ensures Showable(s)
  {
    if |Steps(s)| == 2 {
      if Recognised(infos) {
        PrintedIsShowable(s, s[FEE_PAYER := Unset], c, infos.value);
      } else {
        BlindIsShowable(s, s[FEE_PAYER := Unset], c, infos, hash);
      }
    }
  }

  // ---- Back to the bytes ----

  lemma {:induction false} LastDisplayed(infos: seq<Info>, front: seq<Info>, last: Info) returns (i: nat)
    requires Displayed(infos) == front + [last]
    ensures i < |infos| && infos[i] == last && Displayed(infos[..i]) == front
    ensures forall j :: i < j < |infos| ==> Ignored(infos[j])
    decreases |infos|
  {
    var n := |infos| - 1;
    if Ignored(infos[n]) {
      i := LastDisplayed(infos[..n], front, last);
      assert infos[..n][..i] == infos[..i];
    } else {
      i := n;
      assert Displayed(infos)[|front|] == last && Displayed(infos)[..|front|] == front;
    }
  }

  lemma {:induction false} DisplayedMembers(infos: seq<Info>)
    ensures forall j :: 0 <= j < |infos| ==> Ignored(infos[j]) || infos[j] in Displayed(infos)
  {
    if infos != [] {
      DisplayedMembers(infos[..|infos| - 1]);
    }
  }

  /** An instruction that an approved message may have beside the transfer. */
  predicate Harmless(info: Info)
  {
    || Ignored(info) || Matches(info, AnAdvanceNonce)
    || (info.Budget? && !info.request.UnitLimit? && !info.request.UnitPrice?)
  }

  lemma OneTransfer(infos: seq<Info>, nonce: seq<Info>, budget: seq<Info>, transfer: Info) returns (i: nat)
    requires Displayed(infos) == nonce + budget + [transfer] && IsNonce(nonce) && IsFreeBudget(budget)
    ensures i < |infos| && infos[i] == transfer
    ensures forall j :: 0 <= j < |infos| && j != i ==> Harmless(infos[j])
  {
    i := LastDisplayed(infos, nonce + budget, transfer);
    DisplayedMembers(infos[..i]);
    forall j | 0 <= j < i ensures Harmless(infos[j]) {
      assert infos[..i][j] == infos[j];
    }
  }

  lemma TransferInfo(env: Environment, h: MessageHeader, ix: Instruction, from: key32, to: key32, lamports: u64)
    requires h.Whole() && ValidIndices(ix, h) && InfoOf(env, h, ix) == System(Transfer(from, to, lamports))
    ensures ProgramOf(env, h.Key(ix.programIdIndex)) == SystemProgram
      && SystemData(Transfer(from, to, lamports)) <= ix.data
    ensures |Accounts(h, ix)| >= 2 && Accounts(h, ix)[0] == from && Accounts(h, ix)[1] == to
  {
    SystemIff(Accounts(h, ix), ix.data, Transfer(from, to, lamports));
  }

  /** The bytes of an approved message: one system transfer from the signer, and harmless instructions. */
  lemma ApprovedBytes(s: Slots, env: Environment, c: Config, body: bytes, hash: key32, v: Validated)
    returns (ixs: seq<Instruction>, i: nat)
    requires c.header.Whole()
    requires Prepared(s, c, BodyInfos(env, c.header, body), hash) && SwapMatches(s, Some(v))
    ensures IsBody(c.header, body, ixs) && i < |ixs|
    ensures ProgramOf(env, c.header.Key(ixs[i].programIdIndex)) == SystemProgram
    ensures var keys := Accounts(c.header, ixs[i]);
      && |keys| >= 2 && keys[0] == c.signer && Encoded(keys[1]) == v.recipient
      && SystemData(Transfer(keys[0], keys[1], v.amount)) <= ixs[i].data
    ensures forall j :: 0 <= j < |ixs| && j != i ==> Harmless(InfoOf(env, c.header, ixs[j]))
  {
    SwapIff(s, c, BodyInfos(env, c.header, body), hash, Some(v));
    var shown := BodyInfos(env, c.header, body).value;
    BodyInfosIff(env, c.header, body, shown);
    ixs :| && IsBody(c.header, body, ixs) && Unknown !in InfosOf(env, c.header, ixs)
           && shown == Displayed(InfosOf(env, c.header, ixs));
    var nonce, budget, from, to :| IsMadeOf(c, shown, nonce, budget, from, to, v);
    i := OneTransfer(InfosOf(env, c.header, ixs), nonce, budget, System(Transfer(from, to, v.amount)));
    TransferInfo(env, c.header, ixs[i], from, to, v.amount);
  }
}
