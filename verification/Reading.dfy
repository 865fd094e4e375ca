/** What the slots tell about a single instruction: it can be read back, up to what is not put there. */
module Reading {
  import opened Bytes
  import opened Infos
  import opened Summary
  import opened Printers

  // ---- Reading lines ----

  /** Whoever reads knows the mode, the key that signs, and the names of the tokens. */
  datatype Viewer = Viewer(expert: bool, signer: key32, symbol: key32 -> cstring)
  {
    /** Only the key that signs goes without saying, and not in expert mode. */
    predicate IsNamed(key: key32)
    {
      expert || key != signer
    }
  }

  function WhoOf(c: Config): Viewer
  {
    Viewer(c.expert, c.signer, c.symbol)
  }

  predicate Titled(lines: seq<Line>, i: nat, title: cstring)
  {
    i < |lines| && lines[i].title == title
  }

  /** A key under this title, at this place. */
  predicate KeyLine(lines: seq<Line>, i: nat, title: cstring)
  {
    i < |lines| && lines[i].Key? && lines[i].title == title
  }

  predicate NumberLine(lines: seq<Line>, i: nat, title: cstring)
  {
    i < |lines| && lines[i].Unsigned? && lines[i].title == title
  }

  predicate TimeLine(lines: seq<Line>, i: nat, title: cstring)
  {
    i < |lines| && lines[i].Timestamp? && lines[i].title == title
  }

  predicate AmountLine(lines: seq<Line>, i: nat, title: cstring)
  {
    i < |lines| && lines[i].Amount? && lines[i].title == title
  }

  predicate SeedAt(lines: seq<Line>, i: nat)
  {
    KeyLine(lines, i, "Base") && i + 1 < |lines| && lines[i + 1].Sized? && lines[i + 1].title == "Seed"
  }

  /** Nothing but the line of whoever authorizes is left, or nothing at all if that is the signer. */
  function Authority(who: Viewer, lines: seq<Line>, i: nat): Option<key32>
  {
    if |lines| == i && !who.expert then Some(who.signer)
    else if |lines| == i + 1 && KeyLine(lines, i, "Authorized by") && who.IsNamed(lines[i].key) then Some(lines[i].key)
    else None
  }

  // ---- System instructions ----

  /** Without expert mode the seed stays hidden, and the program of an allocation always. */
  function VisibleSystem(c: Config, s: SystemInfo): SystemInfo
  {
    match s
    case CreateWithSeed(from, to, _, _, lamports) => if c.expert then s else CreateAccount(from, to, lamports)
    case AllocateWithSeed(account, _, _, space, _) =>
      if c.expert then s.(program := account) else Allocate(account, space)
    case _ => s
  }

  function ReadCreation(who: Viewer, to: key32, lines: seq<Line>): Option<SystemInfo>
  {
    if !AmountLine(lines, 0, "Deposit") then None
    else
      var i := if KeyLine(lines, 1, "From") then 2 else 1;
      var from := if i == 2 then lines[1].key else who.signer;
      if !(if i == 2 then who.IsNamed(from) else !who.expert) then None
      else if |lines| == i then Some(CreateAccount(from, to, lines[0].lamports))
      else if |lines| == i + 2 && SeedAt(lines, i) && who.expert
      then Some(CreateWithSeed(from, to, lines[i].key, lines[i + 1].text, lines[0].lamports))
      else None
  }

  function ReadAllocation(who: Viewer, account: key32, lines: seq<Line>): Option<SystemInfo>
  {
    if !NumberLine(lines, 0, "Data size") then None
    else if |lines| == 1 then Some(Allocate(account, lines[0].u64))
    else if |lines| == 3 && SeedAt(lines, 1) && who.expert
    then Some(AllocateWithSeed(account, lines[1].key, lines[2].text, lines[0].u64, account))
    else None
  }

  function ReadNonce(who: Viewer, title: cstring, account: key32, lines: seq<Line>): Option<SystemInfo>
  {
    if title == "Advance nonce" then
      var authority := Authority(who, lines, 0);
      if authority.None? then None else Some(AdvanceNonce(account, authority.value))
    else if title == "Init nonce acct" && |lines| == 1 && KeyLine(lines, 0, "New authority")
    then Some(InitializeNonce(account, lines[0].key))
    else if title == "Set nonce auth" && KeyLine(lines, 0, "New authority") then
      var authority := Authority(who, lines, 1);
      if authority.None? then None else Some(AuthorizeNonce(account, authority.value, lines[0].key))
    else if title == "Assign acct" && |lines| == 1 && KeyLine(lines, 0, "To program")
    then Some(Assign(account, lines[0].key))
    else None
  }

  function ReadTransfer(who: Viewer, lamports: u64, lines: seq<Line>): Option<SystemInfo>
  {
    if |lines| == 1 && !who.expert && KeyLine(lines, 0, "Recipient")
    then Some(Transfer(who.signer, lines[0].key, lamports))
    else if |lines| == 2 && KeyLine(lines, 0, "Sender") && who.IsNamed(lines[0].key) && KeyLine(lines, 1, "Recipient")
    then Some(Transfer(lines[0].key, lines[1].key, lamports))
    else None
  }

  /** The system instruction that the slots stand for. */
  function ReadSystem(who: Viewer, p: Line, lines: seq<Line>): Option<SystemInfo>
  {
    if p.Amount? then
      if p.title == "Transfer" then ReadTransfer(who, p.lamports, lines)
      else if p.title == "Nonce withdraw" && KeyLine(lines, 0, "From") && KeyLine(lines, 1, "To") then
        var authority := Authority(who, lines, 2);
        if authority.None? then None
        else Some(WithdrawNonce(lines[0].key, authority.value, lines[1].key, p.lamports))
      else None
    else if !p.Key? then None
    else if p.title == "Create account" then ReadCreation(who, p.key, lines)
    else if p.title == "Allocate acct" then ReadAllocation(who, p.key, lines)
    else ReadNonce(who, p.title, p.key, lines)
  }

  lemma CreationReadBack(c: Config, s: SystemInfo)
    requires s.CreateAccount? || s.CreateWithSeed?
    ensures ReadCreation(WhoOf(c), s.to, CreationLines(c, s)) == Some(VisibleSystem(c, s))
  {
  }

  lemma AllocationReadBack(c: Config, s: SystemInfo)
    requires s.Allocate? || s.AllocateWithSeed?
    ensures ReadSystem(WhoOf(c), PrintSystem(c, s).primary, PrintSystem(c, s).Lines()) == Some(VisibleSystem(c, s))
  {
  }

  lemma AmountReadBack(c: Config, s: SystemInfo)
    requires s.Transfer? || s.WithdrawNonce?
    ensures ReadSystem(WhoOf(c), PrintSystem(c, s).primary, PrintSystem(c, s).Lines()) == Some(s)
  {
  }

  lemma SystemReadBack(c: Config, s: SystemInfo)
    ensures ReadSystem(WhoOf(c), PrintSystem(c, s).primary, PrintSystem(c, s).Lines()) == Some(VisibleSystem(c, s))
  {
    if s.CreateAccount? || s.CreateWithSeed? {
      CreationReadBack(c, s);
      assert PrintSystem(c, s).Lines() == CreationLines(c, s);
    } else if s.Allocate? || s.AllocateWithSeed? {
      AllocationReadBack(c, s);
    } else if s.Transfer? || s.WithdrawNonce? {
      AmountReadBack(c, s);
    }
  }

  lemma SystemVisible(c: Config, s: SystemInfo)
    ensures PrintSystem(c, VisibleSystem(c, s)) == PrintSystem(c, s)
  {
  }

  /** Two system instructions fill the slots alike exactly when they differ in nothing that is visible. */
  lemma SystemTells(c: Config, s: SystemInfo, s': SystemInfo)
    ensures PrintSystem(c, s) == PrintSystem(c, s') <==> VisibleSystem(c, s) == VisibleSystem(c, s')
  {
    SystemReadBack(c, s);
    SystemReadBack(c, s');
    SystemVisible(c, s);
    SystemVisible(c, s');
  }

  // ---- Stake instructions ----

  function VisibleLockup(s: StakeInfo): StakeInfo
    requires s.Initialize?
  {
    if s.lockup.time <= 0 && s.lockup.epoch == 0
      then InitializeChecked(s.account, s.stakeAuthority, s.withdrawAuthority)
    else s.(lockup := s.lockup.(time := if s.lockup.time > 0 then s.lockup.time else 0))
  }

  /** A custodian who need not be shown, a lockup without limits, and where an authority lies are not visible. */
  function VisibleStake(c: Config, s: StakeInfo): StakeInfo
  {
    match s
    case Initialize(_, _, _, _) => VisibleLockup(s)
    case Authorize(account, authority, newAuthority, custodian, role) =>
      Authorize(account, authority, InData(c.KeyAt(newAuthority)),
        if custodian.Some? && c.Shows(custodian.value) then custodian else None, role)
    case _ => s
  }

  function ReadLockup(who: Viewer, account: key32, stake: key32, withdraw: key32, lines: seq<Line>): Option<StakeInfo>
  {
    if lines == if who.expert then [Text("Lockup", "None")] else []
    then Some(InitializeChecked(account, stake, withdraw))
    else
      var i := if TimeLine(lines, 0, "Lockup time") then 1 else 0;
      var time := if i == 1 then lines[0].seconds else 0;
      var j := if NumberLine(lines, i, "Lockup epoch") then i + 1 else i;
      var epoch := if j == i + 1 then lines[i].u64 else 0;
      if j > 0 && |lines| == j + 1 && KeyLine(lines, j, "Lockup authority")
      then Some(Initialize(account, stake, withdraw, Lockup(time, epoch, lines[j].key)))
      else None
  }

  function ReadInitialize(who: Viewer, account: key32, lines: seq<Line>): Option<StakeInfo>
  {
    if KeyLine(lines, 0, "New authority") then ReadLockup(who, account, lines[0].key, lines[0].key, lines[1..])
    else if KeyLine(lines, 0, "New stake auth") && KeyLine(lines, 1, "New withdraw auth")
    then ReadLockup(who, account, lines[0].key, lines[1].key, lines[2..])
    else None
  }

  /** The new authority on the first line is that of the role that the title names. */
  function ReadRole(lines: seq<Line>, first: cstring): Option<Role>
  {
    if KeyLine(lines, 0, first) then Some(First)
    else if KeyLine(lines, 0, "New withdraw auth") then Some(Withdrawer)
    else None
  }

  function ReadAuthorize(who: Viewer, account: key32, lines: seq<Line>): Option<StakeInfo>
  {
    var role := ReadRole(lines, "New stake auth");
    if role.None? then None
    else
      var i := if KeyLine(lines, 1, "Authorized by") then 2 else 1;
      var authority := if i == 2 then lines[1].key else who.signer;
      if !(if i == 2 then who.IsNamed(authority) else !who.expert) then None
      else if |lines| == i then Some(Authorize(account, authority, InData(lines[0].key), None, role.value))
      else if |lines| == i + 1 && KeyLine(lines, i, "Custodian") && who.IsNamed(lines[i].key)
      then Some(Authorize(account, authority, InData(lines[0].key), Some(lines[i].key), role.value))
      else None
  }

  function ReadSetLockup(who: Viewer, account: key32, lines: seq<Line>): Option<StakeInfo>
  {
    var time := if TimeLine(lines, 0, "Time") then Some(lines[0].seconds) else None;
    var i := if time.Some? then 1 else 0;
    var epoch := if NumberLine(lines, i, "Epoch") then Some(lines[i].u64) else None;
    var j := if epoch.Some? then i + 1 else i;
    var custodian := if KeyLine(lines, j, "New authority") then Some(lines[j].key) else None;
    var authority := Authority(who, lines, if custodian.Some? then j + 1 else j);
    if authority.None? then None else Some(SetLockup(account, authority.value, time, epoch, custodian))
  }

  function ReadStakeKey(who: Viewer, title: cstring, key: key32, lines: seq<Line>): Option<StakeInfo>
  {
    if title == "Deactivate stake" then
      var authority := Authority(who, lines, 0);
      if authority.None? then None else Some(Deactivate(key, authority.value))
    else if title == "Delegate from" && lines != [] && KeyLine(lines, |lines| - 1, "Vote account") then
      var authority := Authority(who, lines[..|lines| - 1], 0);
      if authority.None? then None else Some(Delegate(key, lines[|lines| - 1].key, authority.value))
    else if title == "Merge" && KeyLine(lines, 0, "Into") then
      var authority := Authority(who, lines, 1);
      if authority.None? then None else Some(Merge(lines[0].key, key, authority.value))
    else None
  }

  /** The stake instruction that the slots stand for. */
  function ReadStake(who: Viewer, p: Line, lines: seq<Line>): Option<StakeInfo>
  {
    if p.Amount? then
      var authority := Authority(who, lines, 2);
      if !KeyLine(lines, 0, "From") || !KeyLine(lines, 1, "To") || authority.None? then None
      else if p.title == "Split stake" then Some(Split(lines[0].key, authority.value, lines[1].key, p.lamports))
      else if p.title == "Stake withdraw"
      then Some(Withdraw(lines[0].key, authority.value, lines[1].key, p.lamports))
      else None
    else if !p.Key? then None
    else if p.title == "Init stake acct" then ReadInitialize(who, p.key, lines)
    else if p.title == "Set stake auth" then ReadAuthorize(who, p.key, lines)
    else if p.title == "Set lockup" then ReadSetLockup(who, p.key, lines)
    else ReadStakeKey(who, p.title, p.key, lines)
  }

  lemma LockupReadBack(c: Config, account: key32, stake: key32, withdraw: key32, lockup: Lockup)
    ensures ReadLockup(WhoOf(c), account, stake, withdraw, LockupLines(c, lockup)) ==
      Some(VisibleLockup(Initialize(account, stake, withdraw, lockup)))
  {
  }

  lemma InitializeReadBack(c: Config, s: StakeInfo)
    requires s.Initialize? || s.InitializeChecked?
    ensures ReadInitialize(WhoOf(c), s.account, InitializeLines(c, s)) == Some(VisibleStake(c, s))
  {
    var lines, lockup := InitializeLines(c, s), LockupLines(c, LockupOf(s));
    LockupReadBack(c, s.account, s.stakeAuthority, s.withdrawAuthority, LockupOf(s));
    if s.stakeAuthority == s.withdrawAuthority {
      assert lines[1..] == lockup;
    } else {
      assert lines[2..] == lockup;
    }
  }

  lemma TimeReadBack(c: Config, s: StakeInfo)
    requires s.SetLockup? && s.time.Some?
    ensures ReadSetLockup(WhoOf(c), s.account, PrintStakeChange(c, s).Lines()) == Some(s)
  {
  }

  lemma NoTimeReadBack(c: Config, s: StakeInfo)
    requires s.SetLockup? && s.time.None?
    ensures ReadSetLockup(WhoOf(c), s.account, PrintStakeChange(c, s).Lines()) == Some(s)
  {
  }

  lemma SetLockupReadBack(c: Config, s: StakeInfo)
    requires s.SetLockup?
    ensures ReadSetLockup(WhoOf(c), s.account, PrintStake(c, s).Lines()) == Some(s)
  {
    if s.time.Some? {
      TimeReadBack(c, s);
    } else {
      NoTimeReadBack(c, s);
    }
  }

  lemma AuthorizeReadBack(c: Config, s: StakeInfo)
    requires s.Authorize?
    ensures ReadAuthorize(WhoOf(c), s.account, PrintStake(c, s).Lines()) == Some(VisibleStake(c, s))
  {
  }

  lemma StakeAmountReadBack(c: Config, s: StakeInfo)
    requires s.Split? || s.Withdraw?
    ensures ReadStake(WhoOf(c), PrintStake(c, s).primary, PrintStake(c, s).Lines()) == Some(s)
  {
  }

  lemma DelegateReadBack(c: Config, account: key32, vote: key32, authority: key32)
    ensures ReadStakeKey(WhoOf(c), "Delegate from", account, DelegateLines(c, vote, authority)) ==
      Some(Delegate(account, vote, authority))
  {
    var lines := DelegateLines(c, vote, authority);
    assert lines[|lines| - 1] == Key("Vote account", vote);
    assert lines[..|lines| - 1] == AuthorizedBy(c, authority);
  }

  lemma StakeKeyIsRead(c: Config, title: cstring, key: key32, lines: seq<Line>)
    requires title == "Deactivate stake" || title == "Delegate from" || title == "Merge"
    ensures ReadStake(WhoOf(c), Key(title, key), lines) == ReadStakeKey(WhoOf(c), title, key, lines)
  {
  }

  lemma StakeKeyReadBack(c: Config, s: StakeInfo)
    requires s.Deactivate? || s.Delegate? || s.Merge?
    ensures ReadStake(WhoOf(c), PrintStake(c, s).primary, PrintStake(c, s).Lines()) == Some(s)
  {
    var p := PrintStake(c, s).primary;
    JustLines(p, PrintStake(c, s).after);
    StakeKeyIsRead(c, p.title, p.key, PrintStake(c, s).after);
    if s.Delegate? {
      DelegateReadBack(c, s.account, s.vote, s.authority);
    }
  }

  lemma StakeReadBack(c: Config, s: StakeInfo)
    ensures ReadStake(WhoOf(c), PrintStake(c, s).primary, PrintStake(c, s).Lines()) == Some(VisibleStake(c, s))
  {
    if s.Initialize? || s.InitializeChecked? {
      InitializeReadBack(c, s);
      assert PrintStake(c, s).Lines() == InitializeLines(c, s);
    } else if s.SetLockup? {
      SetLockupReadBack(c, s);
    } else if s.Authorize? {
      AuthorizeReadBack(c, s);
    } else if s.Split? || s.Withdraw? {
      StakeAmountReadBack(c, s);
    } else {
      StakeKeyReadBack(c, s);
    }
  }

  lemma StakeVisible(c: Config, s: StakeInfo)
    ensures PrintStake(c, VisibleStake(c, s)) == PrintStake(c, s)
  {
  }

  /** Two stake instructions fill the slots alike exactly when they differ in nothing that is visible. */
  lemma StakeTells(c: Config, s: StakeInfo, s': StakeInfo)
    ensures PrintStake(c, s) == PrintStake(c, s') <==> VisibleStake(c, s) == VisibleStake(c, s')
  {
    StakeReadBack(c, s);
    StakeReadBack(c, s');
    StakeVisible(c, s);
    StakeVisible(c, s');
  }

  /** An authority from the header is shown as the key that the header has under its index. */
  lemma HeaderAuthorityShown(c: Config, s: StakeInfo, i: byte)
    requires s.Authorize? && s.newAuthority == InHeader(i) && c.header.Whole() && i < c.header.pubkeysLength
    ensures VisibleStake(c, s).newAuthority == InData(c.header.Key(i))
    ensures Key(if s.role.First? then "New stake auth" else "New withdraw auth", c.header.Key(i)) in
      PrintStake(c, s).Lines()
  {
    var lines := PrintStake(c, s).Lines();
    assert lines[0] in lines;
  }

  // ---- Vote instructions ----

  function VisibleVote(c: Config, v: VoteInfo): VoteInfo
  {
    if v.VoteAuthorize? then v.(newAuthority := InData(c.KeyAt(v.newAuthority))) else v
  }

  function ReadVoteKey(who: Viewer, title: cstring, key: key32, lines: seq<Line>): Option<VoteInfo>
  {
    var authority, role := Authority(who, lines, 1), ReadRole(lines, "New vote auth");
    if authority.None? then None
    else if title == "Update commission" && NumberLine(lines, 0, "Commission") && lines[0].u64 < 256
    then Some(UpdateCommission(key, authority.value, lines[0].u64))
    else if title == "Set vote auth" && role.Some?
    then Some(VoteAuthorize(key, authority.value, InData(lines[0].key), role.value))
    else if title == "Update validator" && KeyLine(lines, 0, "New validator ID")
    then Some(UpdateValidator(key, authority.value, lines[0].key))
    else None
  }

  function ReadVoteInitialize(account: key32, lines: seq<Line>): Option<VoteInfo>
  {
    if |lines| == 4 && KeyLine(lines, 0, "Validator ID") && KeyLine(lines, 1, "New vote auth")
       && KeyLine(lines, 2, "New withdraw auth") && NumberLine(lines, 3, "Commission")
    then Some(VoteInitialize(account, lines[0].key, lines[1].key, lines[2].key, lines[3].u64))
    else None
  }

  /** The vote instruction that the slots stand for. */
  function ReadVote(who: Viewer, p: Line, lines: seq<Line>): Option<VoteInfo>
  {
    if p.Amount? then
      var authority := Authority(who, lines, 2);
      if p.title == "Vote withdraw" && KeyLine(lines, 0, "From") && KeyLine(lines, 1, "To") && authority.Some?
      then Some(VoteWithdraw(lines[0].key, authority.value, lines[1].key, p.lamports)) else None
    else if !p.Key? then None
    else if p.title == "Init vote acct" then ReadVoteInitialize(p.key, lines)
    else ReadVoteKey(who, p.title, p.key, lines)
  }

  lemma VoteReadBack(c: Config, v: VoteInfo)
    ensures ReadVote(WhoOf(c), PrintVote(c, v).primary, PrintVote(c, v).Lines()) == Some(VisibleVote(c, v))
  {
  }

  /** Two vote instructions fill the slots alike exactly when they differ in nothing that is visible. */
  lemma VoteTells(c: Config, v: VoteInfo, v': VoteInfo)
    ensures PrintVote(c, v) == PrintVote(c, v') <==> VisibleVote(c, v) == VisibleVote(c, v')
  {
    VoteReadBack(c, v);
    VoteReadBack(c, v');
    assert PrintVote(c, VisibleVote(c, v)) == PrintVote(c, v);
    assert PrintVote(c, VisibleVote(c, v')) == PrintVote(c, v');
  }

  /** An authority from the header is shown as the key that the header has under its index. */
  lemma HeaderVoterShown(c: Config, v: VoteInfo, i: byte)
    requires v.VoteAuthorize? && v.newAuthority == InHeader(i) && c.header.Whole() && i < c.header.pubkeysLength
    ensures VisibleVote(c, v).newAuthority == InData(c.header.Key(i))
    ensures Key(if v.role.First? then "New vote auth" else "New withdraw auth", c.header.Key(i)) in
      PrintVote(c, v).Lines()
  {
    var lines := PrintVote(c, v).Lines();
    assert lines[0] in lines;
  }

  // ---- Token instructions ----

  /** Without expert mode the mint of a frozen account stays hidden; counts that are not shown are all alike. */
  function VisibleToken(c: Config, t: TokenInfo): TokenInfo
  {
    match t
    case InitializeAccount(_, account, mint, owner) => InitializeAccount(false, account, mint, owner)
    case InitializeMultisig(account, m, n) =>
      if m <= n <= MAX_SIGNERS then t else InitializeMultisig(account, 1, 0)
    case FreezeAccount(account, mint, sign) => if c.expert then t else FreezeAccount(account, account, sign)
    case ThawAccount(account, mint, sign) => if c.expert then t else ThawAccount(account, account, sign)
    case _ => t
  }

  /** Who signs: an owner and a number of signers, an owner, or nobody but the signer of the message. */
  function ReadSign(who: Viewer, lines: seq<Line>, i: nat): Option<Sign>
  {
    if |lines| == i then (if who.expert then None else Some(Single(who.signer)))
    else if !KeyLine(lines, i, "Owner") then None
    else if |lines| == i + 1 then (if who.IsNamed(lines[i].key) then Some(Single(lines[i].key)) else None)
    else if |lines| == i + 2 && NumberLine(lines, i + 1, "Signers") && lines[i + 1].u64 < 256
    then Some(Multi(lines[i].key, lines[i + 1].u64))
    else None
  }

  function ReadDigit(x: char): byte
  {
    if '0' <= x <= '9' then x as int - '0' as int else 0
  }

  /** A count of at most two digits that ends at `end`. */
  function ReadCount(text: string, start: nat, end: nat): byte
    requires start < end <= |text|
  {
    if start + 1 == end then ReadDigit(text[start]) else 10 + ReadDigit(text[start + 1])
  }

  function ReadCounts(text: string): (byte, byte)
    requires |text| >= 6
  {
    var k := if text[1] == ' ' then 1 else 2;
    if k + 4 < |text| then (ReadCount(text, 0, k), ReadCount(text, k + 4, |text|)) else (0, 0)
  }

  lemma CountsReadBack(m: byte, n: byte)
    requires m <= n <= MAX_SIGNERS
    ensures var text := Count(m) + " of " + Count(n); |text| >= 6 && ReadCounts(text) == (m, n)
  {
  }

  function ReadMultisig(account: key32, lines: seq<Line>): Option<TokenInfo>
  {
    if lines == [] then Some(InitializeMultisig(account, 1, 0))
    else if |lines| > 1 || !Titled(lines, 0, "Required signers") || !lines[0].Text? || |lines[0].content| < 6 then None
    else var counts := ReadCounts(lines[0].content); Some(InitializeMultisig(account, counts.0, counts.1))
  }

  function ReadMint(mint: key32, decimalsTitle: cstring, lines: seq<Line>): Option<TokenInfo>
  {
    if !KeyLine(lines, 0, "Mint authority") || !NumberLine(lines, 1, decimalsTitle) || lines[1].u64 >= 256 then None
    else if |lines| == 2 then Some(InitializeMint(mint, lines[0].key, None, lines[1].u64))
    else if |lines| == 3 && KeyLine(lines, 2, "Freeze authority")
    then Some(InitializeMint(mint, lines[0].key, Some(lines[2].key), lines[1].u64))
    else None
  }

  function ReadSetAuthority(who: Viewer, clear: bool, account: key32, lines: seq<Line>): Option<TokenInfo>
  {
    var sign := ReadSign(who, lines, if clear then 1 else 2);
    if !Titled(lines, 0, "Type") || !lines[0].Text? || sign.None? then None
    else if clear then Some(SetAuthority(account, None, lines[0].content, sign.value))
    else if KeyLine(lines, 1, "Authority")
    then Some(SetAuthority(account, Some(lines[1].key), lines[0].content, sign.value))
    else None
  }

  function ReadFreeze(who: Viewer, freeze: bool, account: key32, lines: seq<Line>): Option<TokenInfo>
  {
    var told := KeyLine(lines, 0, "Token address");
    var mint := if told then lines[0].key else account;
    var sign := ReadSign(who, lines, if told then 1 else 0);
    if sign.None? || told != who.expert then None
    else Some(if freeze then FreezeAccount(account, mint, sign.value) else ThawAccount(account, mint, sign.value))
  }

  function ReadMovement(who: Viewer, p: Line, lines: seq<Line>): Option<TokenInfo>
    requires p.TokenItem?
  {
    if !KeyLine(lines, 0, "Token address") || p.symbol != who.symbol(lines[0].key) then None
    else
      var tokens := Tokens(lines[0].key, p.value, p.decimals);
      var sign := ReadSign(who, lines, if p.title == "Transfer tokens" then 3 else 2);
      if sign.None? then None
      else if p.title == "Mint tokens" && KeyLine(lines, 1, "To (token account)")
      then Some(MintToChecked(lines[1].key, tokens, sign.value))
      else if p.title == "Burn tokens" && KeyLine(lines, 1, "From (token account)")
      then Some(BurnChecked(lines[1].key, tokens, sign.value))
      else if p.title == "Transfer tokens" && KeyLine(lines, 1, "From (token account)")
              && KeyLine(lines, 2, "To (token account)")
      then Some(TransferChecked(lines[1].key, lines[2].key, tokens, sign.value))
      else None
  }

  function ReadApproval(who: Viewer, delegate: key32, lines: seq<Line>): Option<TokenInfo>
  {
    var sign := ReadSign(who, lines, 3);
    if !Titled(lines, 0, "Allowance") || !lines[0].TokenItem? || !KeyLine(lines, 1, "Token address")
       || lines[0].symbol != who.symbol(lines[1].key) || !KeyLine(lines, 2, "From (token account)") || sign.None?
         then None
    else
      Some(ApproveChecked(lines[2].key, delegate, Tokens(lines[1].key, lines[0].value, lines[0].decimals), sign.value))
  }

  /** The instructions that set up an account. */
  function ReadSetup(title: cstring, key: key32, lines: seq<Line>): Option<TokenInfo>
  {
    if title == "Init mint" then ReadMint(key, "Decimals", lines)
    else if title == "Init multisig" then ReadMultisig(key, lines)
    else if title == "Init acct" && |lines| == 2 && KeyLine(lines, 0, "Owner") && KeyLine(lines, 1, "Token address")
    then Some(InitializeAccount(false, key, lines[1].key, lines[0].key))
    else if title == "Sync native account" && lines == [] then Some(SyncNative(key))
    else None
  }

  function ReadAccount(who: Viewer, title: cstring, key: key32, lines: seq<Line>): Option<TokenInfo>
  {
    if title == "Revoke delegate" then
      var sign := ReadSign(who, lines, 0);
      if sign.None? then None else Some(Revoke(key, sign.value))
    else if title == "Close token account" && KeyLine(lines, 0, "Withdraw to") then
      var sign := ReadSign(who, lines, 1);
      if sign.None? then None else Some(CloseAccount(key, lines[0].key, sign.value))
    else if title == "Freeze token account" then ReadFreeze(who, true, key, lines)
    else if title == "Thaw token account" then ReadFreeze(who, false, key, lines)
    else ReadSetup(title, key, lines)
  }

  /** The token instruction that the slots stand for. */
  function ReadToken(who: Viewer, p: Line, lines: seq<Line>): Option<TokenInfo>
  {
    if p.TokenItem? then ReadMovement(who, p, lines)
    else if !p.Key? then None
    else if p.title == "Approve delegate" then ReadApproval(who, p.key, lines)
    else if p.title == "Set authority" then ReadSetAuthority(who, false, p.key, lines)
    else if p.title == "Clear authority" then ReadSetAuthority(who, true, p.key, lines)
    else ReadAccount(who, p.title, p.key, lines)
  }

  lemma SignReadBack(c: Config, front: seq<Line>, sign: Sign)
    ensures ReadSign(WhoOf(c), front + SignLines(c, sign), |front|) == Some(sign)
  {
    var lines := front + SignLines(c, sign);
    if sign.Multi? {
      assert lines[|front|] == Key("Owner", sign.account) && lines[|front| + 1] == Unsigned("Signers", sign.signers);
    } else if c.Shows(sign.signer) {
      assert lines[|front|] == Key("Owner", sign.signer);
    }
  }

  /** The lines in front of the signer are still there. */
  lemma Fronts(c: Config, front: seq<Line>, sign: Sign)
    ensures forall i :: 0 <= i < |front| ==> (front + SignLines(c, sign))[i] == front[i]
  {
  }

  lemma TransferRead(c: Config, p: Line, lines: seq<Line>, mint: key32, source: key32, destination: key32)
    requires p.TokenItem? && p.title == "Transfer tokens" && p.symbol == c.symbol(mint) && |lines| >= 3
    requires lines[0] == Key("Token address", mint) && lines[1] == Key("From (token account)", source)
    requires lines[2] == Key("To (token account)", destination) && ReadSign(WhoOf(c), lines, 3).Some?
    ensures ReadMovement(WhoOf(c), p, lines) ==
      Some(TransferChecked(source, destination, Tokens(mint, p.value, p.decimals), ReadSign(WhoOf(c), lines, 3).value))
  {
  }

  lemma TransferReadBack(c: Config, p: Line, t: TokenInfo)
    requires t.TransferChecked? && p == TokenLine(c, "Transfer tokens", t.tokens)
    ensures ReadMovement(WhoOf(c), p, TransferLines(c, t)) == Some(t)
  {
    var front: seq<Line> := [Key("Token address", t.tokens.mint), Key("From (token account)", t.source),
      Key("To (token account)", t.destination)];
    SignReadBack(c, front, t.sign);
    Fronts(c, front, t.sign);
    TransferRead(c, p, front + SignLines(c, t.sign), t.tokens.mint, t.source, t.destination);
  }

  lemma MintOrBurnReadBack(c: Config, p: Line, t: TokenInfo, title: cstring)
    requires t.MintToChecked? || t.BurnChecked?
    requires p == TokenLine(c, if t.MintToChecked? then "Mint tokens" else "Burn tokens", t.tokens)
    requires title == if t.MintToChecked? then "To (token account)" else "From (token account)"
    ensures ReadMovement(WhoOf(c), p, MintAndAccount(c, t.tokens.mint, title, t.account, t.sign)) == Some(t)
  {
    var front: seq<Line> := [Key("Token address", t.tokens.mint), Key(title, t.account)];
    SignReadBack(c, front, t.sign);
    Fronts(c, front, t.sign);
    MintOrBurnRead(c, p, front + SignLines(c, t.sign), t);
  }

  lemma MintOrBurnRead(c: Config, p: Line, lines: seq<Line>, t: TokenInfo)
    requires t.MintToChecked? || t.BurnChecked?
    requires p == TokenLine(c, if t.MintToChecked? then "Mint tokens" else "Burn tokens", t.tokens)
    requires |lines| >= 2 && lines[0] == Key("Token address", t.tokens.mint)
    requires lines[1] == Key(if t.MintToChecked? then "To (token account)" else "From (token account)", t.account)
    requires ReadSign(WhoOf(c), lines, 2) == Some(t.sign)
    ensures ReadMovement(WhoOf(c), p, lines) == Some(t)
  {
  }

  lemma MovementReadBack(c: Config, t: TokenInfo)
    requires t.TransferChecked? || t.MintToChecked? || t.BurnChecked?
    ensures ReadMovement(WhoOf(c), PrintMovement(c, t).primary, PrintMovement(c, t).after) == Some(t)
  {
    match t
    case TransferChecked(_, _, tokens, _) => TransferReadBack(c, TokenLine(c, "Transfer tokens", tokens), t);
    case MintToChecked(_, tokens, _) =>
      MintOrBurnReadBack(c, TokenLine(c, "Mint tokens", tokens), t, "To (token account)");
    case BurnChecked(_, tokens, _) =>
      MintOrBurnReadBack(c, TokenLine(c, "Burn tokens", tokens), t, "From (token account)");
  }

  lemma ApprovalRead(c: Config, lines: seq<Line>, t: TokenInfo)
    requires t.ApproveChecked? && |lines| >= 3 && lines[0] == TokenLine(c, "Allowance", t.tokens)
    requires lines[1] == Key("Token address", t.tokens.mint) && lines[2] == Key("From (token account)", t.account)
    requires ReadSign(WhoOf(c), lines, 3) == Some(t.sign)
    ensures ReadApproval(WhoOf(c), t.delegate, lines) == Some(t)
  {
  }

  lemma ApprovalReadBack(c: Config, t: TokenInfo)
    requires t.ApproveChecked?
    ensures ReadApproval(WhoOf(c), t.delegate, PrintMovement(c, t).after) == Some(t)
  {
    var first, mint, account := TokenLine(c, "Allowance", t.tokens), Key("Token address", t.tokens.mint),
      Key("From (token account)", t.account);
    var front: seq<Line> := [first, mint, account];
    SignReadBack(c, front, t.sign);
    Fronts(c, front, t.sign);
    ApprovalRead(c, front + SignLines(c, t.sign), t);
    ThreeLines(first, mint, account, SignLines(c, t.sign));
  }

  lemma ThreeLines(x: Line, y: Line, z: Line, more: seq<Line>)
    ensures [x, y, z] + more == [x] + ([y, z] + more)
  {
  }

  lemma SetAuthorityReadBack(c: Config, t: TokenInfo)
    requires t.SetAuthority?
    ensures ReadSetAuthority(WhoOf(c), t.newAuthority.None?, t.account,
      SetAuthorityLines(c, t.newAuthority, t.authorityType, t.sign)) == Some(t)
  {
    var lines := SetAuthorityLines(c, t.newAuthority, t.authorityType, t.sign);
    var front := [Text("Type", t.authorityType)] + KeyIfAny("Authority", t.newAuthority);
    SignReadBack(c, front, t.sign);
    assert lines[0] == front[0];
    if t.newAuthority.Some? {
      assert lines[1] == front[1] == Key("Authority", t.newAuthority.value);
    }
  }

  lemma RevokeReadBack(c: Config, t: TokenInfo)
    requires t.Revoke?
    ensures ReadToken(WhoOf(c), PrintToken(c, t).primary, PrintToken(c, t).Lines()) == Some(t)
  {
    SignReadBack(c, [], t.sign);
    assert PrintToken(c, t).Lines() == [] + SignLines(c, t.sign);
  }

  lemma CloseReadBack(c: Config, t: TokenInfo)
    requires t.CloseAccount?
    ensures ReadAccount(WhoOf(c), "Close token account", t.account,
      [Key("Withdraw to", t.destination)] + SignLines(c, t.sign))
      == Some(t)
  {
    var front: seq<Line> := [Key("Withdraw to", t.destination)];
    SignReadBack(c, front, t.sign);
    Fronts(c, front, t.sign);
  }

  lemma FreezeReadBack(c: Config, freeze: bool, account: key32, mint: key32, sign: Sign)
    ensures ReadFreeze(WhoOf(c), freeze, account, FreezeLines(c, mint, sign)) ==
      Some(VisibleToken(c, if freeze then FreezeAccount(account, mint, sign) else ThawAccount(account, mint, sign)))
  {
    SignReadBack(c, If(c.expert, Key("Token address", mint)), sign);
  }

  lemma FreezeIsRead(c: Config, freeze: bool, account: key32, lines: seq<Line>)
    ensures ReadToken(WhoOf(c),
      Key(if freeze then "Freeze token account" else "Thaw token account", account), lines) ==
      ReadFreeze(WhoOf(c), freeze, account, lines)
  {
  }

  lemma AccountReadBack(c: Config, t: TokenInfo)
    requires t.FreezeAccount? || t.ThawAccount?
    ensures ReadToken(WhoOf(c), PrintToken(c, t).primary, PrintToken(c, t).Lines()) ==
      Some(VisibleToken(c, t))
  {
    JustLines(PrintToken(c, t).primary, PrintToken(c, t).after);
    FreezeReadBack(c, t.FreezeAccount?, t.account, t.mint, t.sign);
    FreezeIsRead(c, t.FreezeAccount?, t.account, FreezeLines(c, t.mint, t.sign));
  }

  lemma MultisigReadBack(c: Config, account: key32, m: byte, n: byte)
    ensures ReadMultisig(account, RequiredSigners(m, n)) == Some(VisibleToken(c, InitializeMultisig(account, m, n)))
  {
    if m <= n <= MAX_SIGNERS {
      CountsReadBack(m, n);
    }
  }

  lemma MintReadBack(t: TokenInfo, title: cstring)
    requires t.InitializeMint?
    ensures ReadMint(t.mint, title, MintLines(t, title)) == Some(t)
  {
  }

  lemma SetupIsRead(c: Config, title: cstring, key: key32, lines: seq<Line>)
    requires title == "Init mint" || title == "Init acct" || title == "Init multisig" || title == "Sync native account"
    ensures ReadToken(WhoOf(c), Key(title, key), lines) == ReadSetup(title, key, lines)
  {
  }

  lemma InitMintReadBack(c: Config, t: TokenInfo)
    requires t.InitializeMint?
    ensures ReadToken(WhoOf(c), PrintToken(c, t).primary, PrintToken(c, t).Lines()) == Some(t)
  {
    JustLines(Key("Init mint", t.mint), MintLines(t, "Decimals"));
    SetupIsRead(c, "Init mint", t.mint, MintLines(t, "Decimals"));
    MintReadBack(t, "Decimals");
  }

  lemma InitMultisigReadBack(c: Config, t: TokenInfo)
    requires t.InitializeMultisig?
    ensures ReadToken(WhoOf(c), PrintToken(c, t).primary, PrintToken(c, t).Lines()) ==
      Some(VisibleToken(c, t))
  {
    JustLines(Key("Init multisig", t.account), RequiredSigners(t.m, t.n));
    SetupIsRead(c, "Init multisig", t.account, RequiredSigners(t.m, t.n));
    MultisigReadBack(c, t.account, t.m, t.n);
  }

  lemma InitAccountReadBack(c: Config, t: TokenInfo)
    requires t.InitializeAccount? || t.SyncNative?
    ensures ReadToken(WhoOf(c), PrintToken(c, t).primary, PrintToken(c, t).Lines()) ==
      Some(VisibleToken(c, t))
  {
    var p, lines := PrintToken(c, t).primary, PrintToken(c, t).after;
    JustLines(p, lines);
    SetupIsRead(c, p.title, p.key, lines);
    if t.InitializeAccount? {
      OwnerReadBack(t.account, t.mint, t.owner);
    }
  }

  lemma OwnerReadBack(account: key32, mint: key32, owner: key32)
    ensures ReadSetup("Init acct", account, [Key("Owner", owner), Key("Token address", mint)]) ==
      Some(InitializeAccount(false, account, mint, owner))
  {
  }

  lemma MovedReadBack(c: Config, t: TokenInfo)
    requires t.TransferChecked? || t.MintToChecked? || t.BurnChecked? || t.ApproveChecked?
    ensures ReadToken(WhoOf(c), PrintMovement(c, t).primary, PrintMovement(c, t).Lines()) == Some(t)
  {
    assert PrintMovement(c, t).Lines() == PrintMovement(c, t).after;
    if t.ApproveChecked? {
      ApprovalReadBack(c, t);
    } else {
      MovementReadBack(c, t);
    }
  }

  lemma SetAuthorityIsRead(c: Config, clear: bool, account: key32, lines: seq<Line>)
    ensures ReadToken(WhoOf(c), Key(if clear then "Clear authority" else "Set authority", account), lines) ==
      ReadSetAuthority(WhoOf(c), clear, account, lines)
  {
  }

  lemma NewAuthorityReadBack(c: Config, t: TokenInfo)
    requires t.SetAuthority?
    ensures ReadToken(WhoOf(c), PrintToken(c, t).primary, PrintToken(c, t).Lines()) == Some(t)
  {
    var p, lines := PrintToken(c, t).primary, PrintToken(c, t).after;
    JustLines(p, lines);
    SetAuthorityIsRead(c, t.newAuthority.None?, t.account, lines);
    SetAuthorityReadBack(c, t);
  }

  lemma AccountIsRead(c: Config, account: key32, lines: seq<Line>)
    ensures ReadToken(WhoOf(c), Key("Close token account", account), lines) ==
      ReadAccount(WhoOf(c), "Close token account", account, lines)
  {
  }

  lemma ClosedReadBack(c: Config, t: TokenInfo)
    requires t.CloseAccount?
    ensures ReadToken(WhoOf(c), PrintToken(c, t).primary, PrintToken(c, t).Lines()) == Some(t)
  {
    JustLines(PrintToken(c, t).primary, PrintToken(c, t).after);
    AccountIsRead(c, t.account, PrintToken(c, t).after);
    CloseReadBack(c, t);
  }

  lemma TokenReadBack(c: Config, t: TokenInfo)
    ensures ReadToken(WhoOf(c), PrintToken(c, t).primary, PrintToken(c, t).Lines()) ==
      Some(VisibleToken(c, t))
  {
    match t
    case InitializeMint(_, _, _, _) => InitMintReadBack(c, t);
    case InitializeAccount(_, _, _, _) => InitAccountReadBack(c, t);
    case InitializeMultisig(_, _, _) => InitMultisigReadBack(c, t);
    case SyncNative(_) => InitAccountReadBack(c, t);
    case Revoke(_, _) => RevokeReadBack(c, t);
    case SetAuthority(_, _, _, _) => NewAuthorityReadBack(c, t);
    case CloseAccount(_, _, _) => ClosedReadBack(c, t);
    case FreezeAccount(_, _, _) => AccountReadBack(c, t);
    case ThawAccount(_, _, _) => AccountReadBack(c, t);
    case _ => MovedReadBack(c, t);
  }

  lemma TokenVisible(c: Config, t: TokenInfo)
    ensures PrintToken(c, VisibleToken(c, t)) == PrintToken(c, t)
  {
  }

  /** Two token instructions fill the slots alike exactly when they differ in nothing that is visible. */
  lemma TokenTells(c: Config, t: TokenInfo, t': TokenInfo)
    ensures PrintToken(c, t) == PrintToken(c, t') <==> VisibleToken(c, t) == VisibleToken(c, t')
  {
    TokenReadBack(c, t);
    TokenReadBack(c, t');
    TokenVisible(c, t);
    TokenVisible(c, t');
  }
}
