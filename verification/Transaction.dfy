/** print_transaction: nonce advance, compute budget, sequence. */
module Transaction {
  import opened Bytes
  import opened Wire
  import opened Infos
  import opened Summary
  import opened Printers
  import opened Recogniser
  import opened Fee

  // ---- The parts of a transaction ----

  /** A nonce advance in front of something else. */
  predicate HasNonce(infos: seq<Info>)
  {
    |infos| > 1 && Matches(infos[0], AnAdvanceNonce)
  }

  function AfterNonce(infos: seq<Info>): seq<Info>
  {
    if HasNonce(infos) then infos[1..] else infos
  }

  /** The number of compute budget instructions in front. */
  function Leading(infos: seq<Info>): (k: nat)
    ensures k <= |infos|
    ensures forall j :: 0 <= j < k ==> infos[j].Budget?
    ensures k < |infos| ==> !infos[k].Budget?
  {
    if infos == [] || !infos[0].Budget? then 0 else 1 + Leading(infos[1..])
  }

  lemma {:induction false} LeadingIs(infos: seq<Info>, k: nat)
    requires k <= |infos| && forall j :: 0 <= j < k ==> infos[j].Budget?
    requires k < |infos| ==> !infos[k].Budget?
    ensures Leading(infos) == k
  {
    if k > 0 {
      LeadingIs(infos[1..], k - 1);
    }
  }

  /** A single instruction is not looked at. */
  function Prefix(infos: seq<Info>): (k: nat)
    ensures k <= |infos|
  {
    if |infos| > 1 then Leading(infos) else 0
  }

  /** What is left to be recognised. */
  function Core(infos: seq<Info>): seq<Info>
  {
    var rest := AfterNonce(infos);
    rest[Prefix(rest)..]
  }

  // ---- The fee ----

  function LastLimit(budget: seq<Info>): Option<u32>
  {
    if budget == [] then None
    else
      var i := budget[|budget| - 1];
      if i.Budget? && i.request.UnitLimit? then Some(i.request.units) else LastLimit(budget[..|budget| - 1])
  }

  function LastPrice(budget: seq<Info>): Option<u64>
  {
    if budget == [] then None
    else
      var i := budget[|budget| - 1];
      if i.Budget? && i.request.UnitPrice? then Some(i.request.price) else LastPrice(budget[..|budget| - 1])
  }

  function LastSignatures(budget: seq<Info>): byte
  {
    if budget == [] || !budget[|budget| - 1].Budget? then 0 else budget[|budget| - 1].signatures
  }

  /** The fee line of a run of compute budget instructions, out of so many instructions. */
  function FeeOf(budget: seq<Info>, instructions: u32): seq<Line>
  {
    var limit, price := LastLimit(budget), LastPrice(budget);
    if limit.None? && price.None? then []
    else [Amount("Max fees", MaxFee(LastSignatures(budget), limit, price, instructions))]
  }

  function FeeLines(infos: seq<Info>): seq<Line>
    requires |infos| < TWO_32
  {
    var rest := AfterNonce(infos);
    FeeOf(rest[..Prefix(rest)], |rest|)
  }

  lemma {:induction false} NoLimit(budget: seq<Info>)
    ensures LastLimit(budget).None? <==> forall j ::
      0 <= j < |budget| && budget[j].Budget? ==> !budget[j].request.UnitLimit?
  {
    if budget != [] {
      NoLimit(budget[..|budget| - 1]);
    }
  }

  lemma {:induction false} NoPrice(budget: seq<Info>)
    ensures LastPrice(budget).None? <==> forall j ::
      0 <= j < |budget| && budget[j].Budget? ==> !budget[j].request.UnitPrice?
  {
    if budget != [] {
      NoPrice(budget[..|budget| - 1]);
    }
  }

  /** A fee is shown exactly when a unit limit or a unit price was requested. */
  lemma FeeShown(budget: seq<Info>, instructions: u32)
    ensures FeeOf(budget, instructions) == [] <==>
      forall j ::
        0 <= j < |budget| && budget[j].Budget? ==> !budget[j].request.UnitLimit? && !budget[j].request.UnitPrice?
  {
    NoLimit(budget);
    NoPrice(budget);
  }

  predicate SetsLimit(r: Request) { r.UnitLimit? }

  predicate SetsPrice(r: Request) { r.UnitPrice? }

  /** Only compute budget instructions, all of them with the same number of signatures. */
  predicate SignedBy(budget: seq<Info>, n: byte)
  {
    forall j :: 0 <= j < |budget| ==> budget[j].Budget? && budget[j].signatures == n
  }

  /** Where the last request of a kind is, if there is any. */
  ghost predicate LastAt(budget: seq<Info>, at: Option<nat>, sets: Request -> bool)
  {
    && (at.Some? ==> at.value < |budget| && budget[at.value].Budget? && sets(budget[at.value].request))
    && forall j :: (if at.Some? then at.value + 1 else 0) <= j < |budget| && budget[j].Budget? ==>
      !sets(budget[j].request)
  }

  lemma {:induction false} LimitAt(budget: seq<Info>, at: Option<nat>)
    requires LastAt(budget, at, SetsLimit)
    ensures LastLimit(budget) == if at.Some? then Some(budget[at.value].request.units) else None
  {
    if budget != [] && at != Some(|budget| - 1) {
      LimitAt(budget[..|budget| - 1], at);
    }
  }

  lemma {:induction false} PriceAt(budget: seq<Info>, at: Option<nat>)
    requires LastAt(budget, at, SetsPrice)
    ensures LastPrice(budget) == if at.Some? then Some(budget[at.value].request.price) else None
  {
    if budget != [] && at != Some(|budget| - 1) {
      PriceAt(budget[..|budget| - 1], at);
    }
  }

  /** The fee that the last requested limit and the last requested price make, if either was requested. */
  ghost function FeeAt(budget: seq<Info>, n: byte, i: Option<nat>, j: Option<nat>, instructions: u32): seq<Line>
    requires LastAt(budget, i, SetsLimit) && LastAt(budget, j, SetsPrice)
  {
    if i.None? && j.None? then []
    else
      var limit := if i.Some? then Some(budget[i.value].request.units) else None;
      var price := if j.Some? then Some(budget[j.value].request.price) else None;
      [Amount("Max fees", MaxFee(n, limit, price, instructions))]
  }

  /** A run of requests, each with `n` signatures, shows the fee of its last limit and its last price. */
  lemma FeeIs(budget: seq<Info>, n: byte, i: Option<nat>, j: Option<nat>, instructions: u32)
    requires SignedBy(budget, n) && LastAt(budget, i, SetsLimit) && LastAt(budget, j, SetsPrice)
    ensures FeeOf(budget, instructions) == FeeAt(budget, n, i, j, instructions)
  {
    LimitAt(budget, i);
    PriceAt(budget, j);
  }

  /** A nonce advance in front, if any, then requests, then what is to be recognised. */
  predicate Parted(nonce: seq<Info>, budget: seq<Info>, core: seq<Info>)
  {
    var rest := budget + core;
    && |nonce| <= 1 && (nonce != [] ==> rest != [] && Matches(nonce[0], AnAdvanceNonce))
    && (nonce == [] && |rest| > 1 ==> !Matches(rest[0], AnAdvanceNonce))
    && (forall j :: 0 <= j < |budget| ==> budget[j].Budget?)
    && (if |rest| > 1 then core != [] ==> !core[0].Budget? else budget == [])
  }

  /** Every transaction has these parts. */
  lemma PartsExist(infos: seq<Info>) returns (nonce: seq<Info>, budget: seq<Info>, core: seq<Info>)
    ensures Parted(nonce, budget, core) && infos == nonce + (budget + core)
  {
    var rest := AfterNonce(infos);
    nonce, budget, core := infos[..|infos| - |rest|], rest[..Prefix(rest)], rest[Prefix(rest)..];
    PrefixParts(rest, budget, core);
    assert infos == nonce + rest;
  }

  lemma PrefixParts(rest: seq<Info>, budget: seq<Info>, core: seq<Info>)
    requires budget == rest[..Prefix(rest)] && core == rest[Prefix(rest)..]
    ensures rest == budget + core && forall j :: 0 <= j < |budget| ==> budget[j].Budget?
    ensures if |rest| > 1 then core != [] ==> !core[0].Budget? else budget == []
  {
  }

  /** The parts of a transaction: its fee line is that of the requests, its core is what is behind them. */
  lemma PartsAre(nonce: seq<Info>, budget: seq<Info>, core: seq<Info>)
    requires Parted(nonce, budget, core) && |nonce + (budget + core)| < TWO_32
    ensures FeeLines(nonce + (budget + core)) == FeeOf(budget, |budget + core|)
    ensures Core(nonce + (budget + core)) == core
    ensures HasNonce(nonce + (budget + core)) <==> nonce != []
  {
    var infos, rest := nonce + (budget + core), budget + core;
    assert nonce != [] ==> infos[0] == nonce[0] && infos[1..] == rest;
    assert nonce == [] ==> infos == rest;
    if |rest| > 1 {
      LeadingIs(rest, |budget|);
    }
    assert rest[..|budget|] == budget && rest[|budget|..] == core;
  }

  /**
   * preprocess_compute_budget_instructions: the loop looks at the front of what is left, once for
   * each instruction there was, and never past the end.
   */
  method Preprocess(infos: seq<Info>) returns (at: nat, fee: Option<Line>)
    requires |infos| < TWO_32
    ensures at == Prefix(infos)
    ensures fee == if FeeOf(infos[..at], |infos|) == [] then None else Some(FeeOf(infos[..at], |infos|)[0])
  {
    at, fee := 0, None;
    if |infos| > 1 {
      var limit: Option<u32> := None;
      var price: Option<u64> := None;
      var signatures: byte := 0;
      var i: nat := 0;
      while i < |infos|
        invariant 0 <= at <= i <= |infos|
        invariant forall j :: 0 <= j < at ==> infos[j].Budget?
        invariant at < i ==> !infos[at].Budget?
        invariant limit == LastLimit(infos[..at]) && price == LastPrice(infos[..at])
        invariant signatures == LastSignatures(infos[..at])
      {
        var info := infos[at];
        if info.Budget? {
          assert infos[..at + 1][..at] == infos[..at];
          signatures := info.signatures;
          if info.request.UnitLimit? {
            limit := Some(info.request.units);
          }
          if info.request.UnitPrice? {
            price := Some(info.request.price);
          }
          at := at + 1;
        }
        i := i + 1;
      }
      LeadingIs(infos, at);
      if limit.Some? || price.Some? {
        fee := Some(Amount("Max fees", MaxFee(signatures, limit, price, |infos|)));
      }
    } else {
      assert infos[..0] == [];
    }
  }

  // ---- The result ----

  /** Faulted stands for a write through the null pointer of a slot that was not to be had. */
  datatype Outcome = Printed | Refused | Faulted

  /** The one way to run out of slots: a fee line in front of the sequence that fills them all. */
  predicate Overfull(c: Config, infos: seq<Info>)
    requires |infos| < TWO_32
  {
    FeeLines(infos) != [] && Fullest(c, Core(infos))
  }

  /** The nonce slots, filled in expert mode. */
  ghost predicate ShowsNonce(s: Slots, c: Config, infos: seq<Info>)
  {
    if HasNonce(infos) && c.expert then
      && s[NONCE_ACCOUNT] == Key("Nonce account", infos[0].system.account)
      && s[NONCE_AUTHORITY] == Key("Nonce authority", infos[0].system.authority)
    else s[NONCE_ACCOUNT] == Unset && s[NONCE_AUTHORITY] == Unset
  }

  /** What an empty summary holds after a transaction. */
  ghost predicate Summarised(s: Slots, c: Config, infos: seq<Info>, outcome: Outcome)
    requires |infos| < TWO_32
  {
    var shape := ShapeOf(Core(infos));
    && (outcome == Refused <==> shape.None?)
    && (outcome == Faulted <==> Overfull(c, infos))
    && (outcome != Faulted ==> ShowsNonce(s, c, infos) && s[FEE_PAYER] == Unset)
    && (outcome == Refused ==> s[PRIMARY] == Unset && Lists(s, FeeLines(infos)))
    && (outcome == Printed ==>
        var script := Render(c, shape.value);
        s[PRIMARY] == script.primary && Lists(s, FeeLines(infos) + script.Lines()))
  }

  /** After the nonce and the fee line the script plays to its end unless the slots run out. */
  lemma ScriptPlays(s: Slots, c: Config, infos: seq<Info>)
    requires |infos| < TWO_32 && ShapeOf(Core(infos)).Some?
    requires Lists(s, FeeLines(infos)) && s[PRIMARY] == Unset
    ensures var script := Render(c, ShapeOf(Core(infos)).value);
      && (Play(s, script).None? <==> Overfull(c, infos))
      && (Play(s, script).Some? ==>
          var t := Play(s, script).value;
          && t[PRIMARY] == script.primary && Lists(t, FeeLines(infos) + script.Lines())
          && forall k :: NONCE_ACCOUNT <= k < MAX_SUMMARY_ITEMS ==> t[k] == s[k])
  {
    LineBudget(c, Core(infos));
    PlayLists(s, FeeLines(infos), Render(c, ShapeOf(Core(infos)).value));
  }

  /** print_system_nonced_transaction_sentinel */
  method PrintNonce(summary: TransactionSummary, c: Config, nonce: SystemInfo) returns (ok: bool)
    requires summary.Valid() && nonce.AdvanceNonce? && summary.Slots() == EMPTY
    modifies summary
    ensures ok
    ensures summary.Slots() ==
      if c.expert then EMPTY[NONCE_ACCOUNT := Key("Nonce account", nonce.account)]
                            [NONCE_AUTHORITY := Key("Nonce authority", nonce.authority)]
      else EMPTY
  {
    ok := true;
    if c.expert {
      ok := summary.SetNonce(Key("Nonce account", nonce.account), Key("Nonce authority", nonce.authority));
    }
  }

  /** The summary when only the nonce and the fee line are there. */
  ghost predicate Headed(s: Slots, c: Config, infos: seq<Info>)
    requires |infos| < TWO_32
  {
    ShowsNonce(s, c, infos) && s[FEE_PAYER] == Unset && s[PRIMARY] == Unset && Lists(s, FeeLines(infos))
  }

  lemma FeeHeads(s: Slots, c: Config, infos: seq<Info>, fee: Option<Line>)
    requires |infos| < TWO_32 && ShowsNonce(s, c, infos)
    requires s[FEE_PAYER] == Unset && s[PRIMARY] == Unset && Lists(s, [])
    requires FeeLines(infos) == if fee.None? then [] else [fee.value]
    ensures fee.None? ==> Headed(s, c, infos)
    ensures fee.Some? ==> Add(s, fee.value).Some? && Headed(Add(s, fee.value).value, c, infos)
  {
    if fee.Some? {
      AddLists(s, [], fee.value);
      assert [] + [fee.value] == FeeLines(infos);
    }
  }

  /** Displays the nonce, if there is one, and tells where the rest begins. */
  method PrintNonceFirst(summary: TransactionSummary, c: Config, infos: seq<Info>) returns (skip: nat)
    requires summary.Valid() && summary.Slots() == EMPTY
    modifies summary
    ensures skip <= |infos| && infos[skip..] == AfterNonce(infos)
    ensures ShowsNonce(summary.Slots(), c, infos)
    ensures summary.Slots()[FEE_PAYER] == Unset && summary.Slots()[PRIMARY] == Unset && Lists(summary.Slots(), [])
  {
    skip := 0;
    if |infos| > 1 && Matches(infos[0], AnAdvanceNonce) {
      var ok := PrintNonce(summary, c, infos[0].system);
      skip := 1;
    }
  }

  /** The fee line, if there is one. */
  method PrintFee(summary: TransactionSummary, ghost c: Config, ghost infos: seq<Info>, fee: Option<Line>)
    requires summary.Valid() && |infos| < TWO_32 && ShowsNonce(summary.Slots(), c, infos)
    requires summary.Slots()[FEE_PAYER] == Unset && summary.Slots()[PRIMARY] == Unset && Lists(summary.Slots(), [])
    requires FeeLines(infos) == if fee.None? then [] else [fee.value]
    modifies summary.general
    ensures Headed(summary.Slots(), c, infos)
  {
    FeeHeads(summary.Slots(), c, infos, fee);
    if fee.Some? {
      var ok := summary.AddGeneral(fee.value);
    }
  }

  /** The compute budget instructions in front of the rest, and the line about the fees. */
  method PrintHead(summary: TransactionSummary, c: Config, infos: seq<Info>) returns (at: nat)
    requires summary.Valid() && summary.Slots() == EMPTY && |infos| < TWO_32
    modifies summary, summary.general
    ensures at <= |infos| && infos[at..] == Core(infos)
    ensures Headed(summary.Slots(), c, infos)
  {
    var skip := PrintNonceFirst(summary, c, infos);
    var n, fee := Preprocess(infos[skip..]);
    PrintFee(summary, c, infos, fee);
    at := skip + n;
    assert infos[at..] == infos[skip..][n..];
  }

  /** print_transaction, on a summary that was just reset. */
  method PrintTransaction(summary: TransactionSummary, c: Config, infos: seq<Info>) returns (outcome: Outcome)
    requires summary.Valid() && summary.Slots() == EMPTY && |infos| < TWO_32
    modifies summary, summary.general
    ensures Summarised(summary.Slots(), c, infos, outcome)
  {
    var at := PrintHead(summary, c, infos);
    var shape := Dispatch(infos[at..]);
    if shape.None? {
      RefusedIsNotOverfull(c, infos);
      return Refused;
    }
    ghost var s := summary.Slots();
    var script := Render(c, shape.value);
    PlayIsSummary(s, c, infos, script);
    var ok := summary.Print(script);
    outcome := if ok then Printed else Faulted;
  }

  lemma RefusedIsNotOverfull(c: Config, infos: seq<Info>)
    requires |infos| < TWO_32 && ShapeOf(Core(infos)).None?
    ensures !Overfull(c, infos)
  {
  }

  lemma PlayIsSummary(s: Slots, c: Config, infos: seq<Info>, script: Script)
    requires |infos| < TWO_32 && Headed(s, c, infos)
    requires ShapeOf(Core(infos)).Some? && script == Render(c, ShapeOf(Core(infos)).value)
    ensures Play(s, script).Some? ==> Summarised(Play(s, script).value, c, infos, Printed)
    ensures Play(s, script).None? ==> forall t: Slots :: Summarised(t, c, infos, Faulted)
  {
    ScriptPlays(s, c, infos);
  }

  // ---- What follows for every transaction ----

  /** A refused transaction leaves the primary slot and a general slot to the message hash. */
  lemma RefusedLeavesRoom(s: Slots, c: Config, infos: seq<Info>)
    requires |infos| < TWO_32 && Summarised(s, c, infos, Refused)
    ensures s[PRIMARY] == Unset && FreeFrom(s, 1) == 1 + |FeeLines(infos)| <= 2
  {
    AddLists(s, FeeLines(infos), Text("", ""));
    FreeIs(s, 1 + |FeeLines(infos)|, 1);
  }

  /** Four instructions are enough to run out of slots. */
  lemma OverfullExists()
    ensures exists c: Config, infos: seq<Info> :: |infos| == 4 && Overfull(c, infos)
  {
    var k: key32 := seq(32, _ => 0);
    var m: key32 := k[0 := 1];
    assert k[0] != m[0];
    var h := MessageHeader(false, 0, 0, 0, 0, 0, [], [], 4);
    var c := Config(true, k, _ => "", h);
    var a := System(CreateWithSeed(k, k, k, "", 0));
    var s := Stake(Initialize(k, k, m, Lockup(1, 1, k)));
    var d := Stake(Delegate(k, k, k));
    var b := Budget(1, UnitPrice(0));
    var infos := [b, a, s, d];
    LeadingIs(infos, 1);
    assert infos[..1] == [b] && infos[1..] == [a, s, d];
    assert Overfull(c, infos);
  }
}
