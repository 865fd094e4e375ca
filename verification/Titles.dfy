/** What the title of a line tells: the kind of item under it, and the part of the summary that it belongs to. */
module Titles {
  import opened Bytes
  import opened Infos
  import opened Summary
  import opened Printers
  import opened Recogniser

  // ---- The kind under a title ----

  function KindOfShort(title: string): Kind
    requires |title| <= 8
  {
    if |title| == 4 then
      if title == "Seed" then KindSized else if title == "Type" then KindText
      else if title == "Time" then KindTimestamp else KindKey
    else if |title| == 5 then if title == "Epoch" then KindUnsigned else KindKey
    else if |title| == 6 then if title == "Lockup" then KindText else KindKey
    else if |title| == 7 then
      if title == "Deposit" || title == "Prefund" then KindAmount
      else if title == "Signers" then KindUnsigned else KindKey
    else if |title| == 8 then
      if title == "Transfer" || title == "Max fees" then KindAmount
      else if title == "Decimals" then KindUnsigned else KindKey
    else KindKey
  }

  function KindOfMedium(title: string): Kind
    requires 8 < |title| <= 11
  {
    if |title| == 9 then
      if title == "Data size" then KindUnsigned else if title == "Allowance" then KindToken else KindKey
    else if |title| == 10 then if title == "Commission" then KindUnsigned else KindKey
    else if title == "Split stake" || title == "Funded with" then KindAmount
    else if title == "Lockup time" then KindTimestamp
    else if title == "Mint tokens" || title == "Burn tokens" then KindToken
    else KindKey
  }

  function KindOfLong(title: string): Kind
    requires 11 < |title|
  {
    if |title| == 12 then
      if title == "Lockup epoch" then KindUnsigned else if title == "Message Hash" then KindHash
      else if title == "Unrecognized" then KindText else KindKey
    else if |title| == 13 then
      if title == "Vote withdraw" then KindAmount else if title == "Mint decimals" then KindUnsigned else KindKey
    else if |title| == 14 then
      if title == "Nonce withdraw" || title == "Stake withdraw" then KindAmount else KindKey
    else if |title| == 15 then if title == "Transfer tokens" then KindToken else KindKey
    else if |title| == 16 then if title == "Required signers" then KindText else KindKey
    else KindKey
  }

  /** What kind of item the printers put under a title. */
  function KindUnder(title: string): Kind
  {
    if |title| <= 8 then KindOfShort(title) else if |title| <= 11 then KindOfMedium(title) else KindOfLong(title)
  }

  // ---- The part of the summary ----

  /** Beside the lines of the instructions, or the message hash, stand a fee line, the nonce and the fee payer. */
  datatype Part = FeePart | BodyPart | NoncePart | PayerPart

  /** The part in order of display. */
  function Rank(part: Part): nat
  {
    match part
    case FeePart => 0
    case BodyPart => 1
    case NoncePart => 2
    case PayerPart => 3
  }

  function PartOf(title: string): Part
  {
    if |title| == 8 then if title == "Max fees" then FeePart else BodyPart
    else if |title| == 9 then if title == "Fee payer" then PayerPart else BodyPart
    else if |title| == 13 then if title == "Nonce account" then NoncePart else BodyPart
    else if |title| == 15 then if title == "Nonce authority" then NoncePart else BodyPart
    else BodyPart
  }

  /** The title tells the kind, and it is not cut. */
  predicate Named(line: Line)
  {
    KindOf(line) == KindUnder(line.title) && |line.title| < TITLE_SIZE
  }

  predicate NamedBody(line: Line)
  {
    Named(line) && PartOf(line.title) == BodyPart
  }

  predicate AllNamed(lines: seq<Line>)
  {
    forall i :: 0 <= i < |lines| ==> NamedBody(lines[i])
  }

  predicate NamedScript(script: Script)
  {
    NamedBody(script.primary) && AllNamed(script.before) && AllNamed(script.after)
  }

  lemma NamedTwo(a: seq<Line>, b: seq<Line>)
    requires AllNamed(a) && AllNamed(b)
    ensures AllNamed(a + b)
  {
  }

  lemma NamedThree(a: seq<Line>, b: seq<Line>, d: seq<Line>)
    requires AllNamed(a) && AllNamed(b) && AllNamed(d)
    ensures AllNamed(a + b + d) && AllNamed(a + (b + d))
  {
    NamedTwo(b, d);
    NamedTwo(a, b);
    NamedTwo(a, b + d);
    NamedTwo(a + b, d);
  }

  lemma KeyNamed(line: Line)
    requires line.Key? && |line.title| < TITLE_SIZE && PartOf(line.title) == BodyPart
      && KindUnder(line.title) == KindKey
    ensures AllNamed([line])
  {
  }

  // ---- System instructions ----

  lemma AuthorizedNamed(c: Config, authority: key32)
    ensures AllNamed(AuthorizedBy(c, authority))
  {
  }

  lemma SeedNamed(c: Config, base: key32, seed: string)
    ensures AllNamed(SeedLines(c, base, seed))
  {
  }

  lemma DepositNamed(c: Config, from: key32, lamports: u64)
    ensures AllNamed(CreateAccountLines(c, from, lamports))
  {
  }

  lemma CreationNamed(c: Config, a: SystemInfo)
    requires a.CreateAccount? || a.CreateWithSeed?
    ensures AllNamed(CreationLines(c, a))
  {
    DepositNamed(c, a.from, a.lamports);
    if a.CreateWithSeed? {
      SeedNamed(c, a.base, a.seed);
      NamedTwo(CreateAccountLines(c, a.from, a.lamports), SeedLines(c, a.base, a.seed));
    }
  }

  lemma NonceChangeNamed(c: Config, s: SystemInfo)
    requires s.AdvanceNonce? || s.AuthorizeNonce?
    ensures NamedScript(PrintNonce(c, s))
  {
    AuthorizedNamed(c, s.authority);
  }

  lemma NonceNamed(c: Config, s: SystemInfo)
    requires s.WithdrawNonce? || s.InitializeNonce?
    ensures NamedScript(PrintNonce(c, s))
  {
    AuthorizedNamed(c, s.authority);
  }

  lemma TransferNamed(c: Config, s: SystemInfo)
    requires s.Transfer?
    ensures NamedScript(PrintSystem(c, s))
  {
  }

  lemma AssignNamed(c: Config, s: SystemInfo)
    requires s.Assign?
    ensures NamedScript(PrintSystem(c, s))
  {
  }

  lemma AllocationNamed(c: Config, s: SystemInfo)
    requires s.Allocate? || s.AllocateWithSeed?
    ensures NamedScript(PrintSystem(c, s))
  {
    if s.AllocateWithSeed? {
      SeedNamed(c, s.base, s.seed);
    }
  }

  lemma SystemNamed(c: Config, s: SystemInfo)
    ensures NamedScript(PrintSystem(c, s))
  {
    match s
    case AdvanceNonce(_, _) => NonceChangeNamed(c, s);
    case AuthorizeNonce(_, _, _) => NonceChangeNamed(c, s);
    case WithdrawNonce(_, _, _, _) => NonceNamed(c, s);
    case InitializeNonce(_, _) => NonceNamed(c, s);
    case Transfer(_, _, _) => TransferNamed(c, s);
    case Assign(_, _) => AssignNamed(c, s);
    case Allocate(_, _) => AllocationNamed(c, s);
    case AllocateWithSeed(_, _, _, _, _) => AllocationNamed(c, s);
    case _ => CreationNamed(c, s);
  }

  // ---- Stake instructions ----

  lemma AuthoritiesNamed(one: bool, both: cstring, title: cstring, first: key32, withdrawer: key32)
    requires both == "New authority" || both == "New authorities"
    requires title == "New stake auth" || title == "New vote auth"
    ensures AllNamed(AuthorityLines(one, both, title, first, withdrawer))
  {
  }

  lemma LimitLinesNamed(lockup: Lockup)
    ensures AllNamed(If(lockup.time > 0, Timestamp("Lockup time", lockup.time)))
    ensures AllNamed(If(lockup.epoch > 0, Unsigned("Lockup epoch", lockup.epoch)))
  {
  }

  lemma LockupAuthorityNamed(custodian: key32)
    ensures AllNamed([Key("Lockup authority", custodian)])
  {
  }

  lemma LockupLimitsNamed(c: Config, lockup: Lockup)
    requires lockup.time > 0 || lockup.epoch > 0
    ensures AllNamed(LockupLines(c, lockup))
  {
    LimitLinesNamed(lockup);
    LockupAuthorityNamed(lockup.custodian);
    NamedThree(If(lockup.time > 0, Timestamp("Lockup time", lockup.time)),
      If(lockup.epoch > 0, Unsigned("Lockup epoch", lockup.epoch)), [Key("Lockup authority", lockup.custodian)]);
  }

  lemma LockupNamed(c: Config, lockup: Lockup)
    ensures AllNamed(LockupLines(c, lockup))
  {
    if lockup.time > 0 || lockup.epoch > 0 {
      LockupLimitsNamed(c, lockup);
    }
  }

  lemma InitializeNamed(c: Config, s: StakeInfo)
    requires s.Initialize? || s.InitializeChecked?
    ensures AllNamed(InitializeLines(c, s))
  {
    AuthoritiesNamed(s.withdrawAuthority == s.stakeAuthority, "New authority", "New stake auth",
      s.stakeAuthority, s.withdrawAuthority);
    LockupNamed(c, LockupOf(s));
  }

  lemma InitializedNamed(c: Config, s: StakeInfo)
    requires s.Initialize? || s.InitializeChecked?
    ensures NamedScript(PrintStake(c, s))
  {
    InitializeNamed(c, s);
  }

  lemma AuthorizeNamed(c: Config, s: StakeInfo)
    requires s.Authorize?
    ensures NamedScript(PrintStake(c, s))
  {
    AuthorizedNamed(c, s.authority);
    CustodianNamed(c, s.custodian);
    KeyNamed(Key(RoleTitle(s.role, "New stake auth"), c.KeyAt(s.newAuthority)));
    NamedThree([Key(RoleTitle(s.role, "New stake auth"), c.KeyAt(s.newAuthority))], AuthorizedBy(c, s.authority),
      CustodianLine(c, s.custodian));
  }

  lemma CustodianNamed(c: Config, custodian: Option<key32>)
    ensures AllNamed(CustodianLine(c, custodian))
  {
  }

  lemma LimitsNamed(s: StakeInfo)
    requires s.SetLockup?
    ensures AllNamed(LockupArguments(s.time, s.epoch)) && AllNamed(KeyIfAny("New authority", s.custodian))
  {
  }

  lemma SetLockupNamed(c: Config, s: StakeInfo)
    requires s.SetLockup?
    ensures NamedScript(PrintStake(c, s))
  {
    LimitsNamed(s);
    AuthorizedNamed(c, s.authority);
    NamedThree(LockupArguments(s.time, s.epoch), KeyIfAny("New authority", s.custodian), AuthorizedBy(c, s.authority));
  }

  lemma DelegateNamed(c: Config, vote: key32, authority: key32)
    ensures AllNamed(DelegateLines(c, vote, authority))
  {
    AuthorizedNamed(c, authority);
  }

  lemma DelegatedNamed(c: Config, s: StakeInfo)
    requires s.Delegate? || s.Deactivate?
    ensures NamedScript(PrintStake(c, s))
  {
    AuthorizedNamed(c, s.authority);
    if s.Delegate? {
      DelegateNamed(c, s.vote, s.authority);
    }
  }

  lemma FromToNamed(from: key32, to: key32)
    ensures AllNamed([Key("From", from), Key("To", to)])
  {
  }

  lemma SplitNamed(c: Config, before: seq<Line>, s: StakeInfo, between: seq<Line>)
    requires s.Split? && AllNamed(before) && AllNamed(between)
    ensures NamedScript(SplitScript(c, before, s, between))
  {
    FromToNamed(s.account, s.splitAccount);
    AuthorizedNamed(c, s.authority);
    NamedThree([Key("From", s.account), Key("To", s.splitAccount)], between, AuthorizedBy(c, s.authority));
  }

  lemma WithdrawNamed(c: Config, s: StakeInfo)
    requires s.Withdraw?
    ensures NamedScript(PrintStake(c, s))
  {
    FromToNamed(s.account, s.to);
    AuthorizedNamed(c, s.authority);
  }

  lemma MergeNamed(c: Config, s: StakeInfo)
    requires s.Merge?
    ensures NamedScript(PrintStake(c, s))
  {
    AuthorizedNamed(c, s.authority);
  }

  lemma StakeNamed(c: Config, s: StakeInfo)
    ensures NamedScript(PrintStake(c, s))
  {
    match s
    case Initialize(_, _, _, _) => InitializedNamed(c, s);
    case InitializeChecked(_, _, _) => InitializedNamed(c, s);
    case Authorize(_, _, _, _, _) => AuthorizeNamed(c, s);
    case SetLockup(_, _, _, _, _) => SetLockupNamed(c, s);
    case Delegate(_, _, _) => DelegatedNamed(c, s);
    case Deactivate(_, _) => DelegatedNamed(c, s);
    case Split(_, _, _, _) => SplitNamed(c, [], s, []);
    case Withdraw(_, _, _, _) => WithdrawNamed(c, s);
    case Merge(_, _, _) => MergeNamed(c, s);
  }

  // ---- Vote instructions ----

  lemma VoteInitializeNamed(v: VoteInfo)
    requires v.VoteInitialize?
    ensures AllNamed(VoteInitializeLines(v))
  {
    AuthoritiesNamed(false, "New authorities", "New vote auth", v.voteAuthority, v.withdrawAuthority);
  }

  lemma VoteSetupNamed(c: Config, v: VoteInfo)
    requires v.VoteInitialize?
    ensures NamedScript(PrintVote(c, v))
  {
    VoteInitializeNamed(v);
  }

  lemma VoteAuthorizeNamed(c: Config, v: VoteInfo)
    requires v.VoteAuthorize?
    ensures NamedScript(PrintVote(c, v))
  {
    AuthorizedNamed(c, v.authority);
  }

  lemma VoteWithdrawNamed(c: Config, v: VoteInfo)
    requires v.VoteWithdraw?
    ensures NamedScript(PrintVote(c, v))
  {
    FromToNamed(v.account, v.to);
    AuthorizedNamed(c, v.authority);
  }

  lemma VoteUpdateNamed(c: Config, v: VoteInfo)
    requires v.UpdateValidator? || v.UpdateCommission?
    ensures NamedScript(PrintVote(c, v))
  {
    AuthorizedNamed(c, v.authority);
  }

  lemma VoteNamed(c: Config, v: VoteInfo)
    ensures NamedScript(PrintVote(c, v))
  {
    match v
    case VoteInitialize(_, _, _, _, _) => VoteSetupNamed(c, v);
    case VoteAuthorize(_, _, _, _) => VoteAuthorizeNamed(c, v);
    case VoteWithdraw(_, _, _, _) => VoteWithdrawNamed(c, v);
    case _ => VoteUpdateNamed(c, v);
  }

  // ---- Token instructions ----

  lemma SignNamed(c: Config, sign: Sign)
    ensures AllNamed(SignLines(c, sign))
  {
  }

  lemma AccountLinesNamed(c: Config, mint: key32, title: cstring, account: key32, sign: Sign)
    requires title == "From (token account)" || title == "To (token account)"
    ensures AllNamed(MintAndAccount(c, mint, title, account, sign))
  {
    SignNamed(c, sign);
  }

  lemma TransferLinesNamed(c: Config, t: TokenInfo)
    requires t.TransferChecked?
    ensures AllNamed(TransferLines(c, t))
  {
    SignNamed(c, t.sign);
  }

  lemma TransferCheckedNamed(c: Config, t: TokenInfo)
    requires t.TransferChecked?
    ensures NamedScript(PrintToken(c, t))
  {
    TransferLinesNamed(c, t);
  }

  lemma ApproveNamed(c: Config, t: TokenInfo)
    requires t.ApproveChecked?
    ensures NamedScript(PrintToken(c, t))
  {
    AccountLinesNamed(c, t.tokens.mint, "From (token account)", t.account, t.sign);
  }

  lemma MintToNamed(c: Config, t: TokenInfo)
    requires t.MintToChecked?
    ensures NamedScript(PrintToken(c, t))
  {
    AccountLinesNamed(c, t.tokens.mint, "To (token account)", t.account, t.sign);
  }

  lemma BurnNamed(c: Config, t: TokenInfo)
    requires t.BurnChecked?
    ensures NamedScript(PrintToken(c, t))
  {
    AccountLinesNamed(c, t.tokens.mint, "From (token account)", t.account, t.sign);
  }

  lemma MintLinesNamed(t: TokenInfo, title: cstring)
    requires t.InitializeMint? && (title == "Decimals" || title == "Mint decimals")
    ensures AllNamed(MintLines(t, title))
  {
  }

  lemma SignersNamed(m: byte, n: byte)
    ensures AllNamed(RequiredSigners(m, n))
  {
  }

  lemma MintSetupNamed(c: Config, t: TokenInfo)
    requires t.InitializeMint? || t.InitializeMultisig?
    ensures NamedScript(PrintToken(c, t))
  {
    if t.InitializeMint? {
      MintLinesNamed(t, "Decimals");
    } else {
      SignersNamed(t.m, t.n);
    }
  }

  lemma AccountSetupNamed(c: Config, t: TokenInfo)
    requires t.InitializeAccount?
    ensures NamedScript(PrintToken(c, t))
  {
    KeyNamed(Key("Owner", t.owner));
    KeyNamed(Key("Token address", t.mint));
  }

  lemma SyncNamed(c: Config, t: TokenInfo)
    requires t.SyncNative?
    ensures NamedScript(PrintToken(c, t))
  {
  }

  lemma FreezeNamed(c: Config, t: TokenInfo)
    requires t.FreezeAccount? || t.ThawAccount?
    ensures NamedScript(PrintToken(c, t))
  {
    SignNamed(c, t.sign);
  }

  lemma RevokeNamed(c: Config, t: TokenInfo)
    requires t.Revoke?
    ensures NamedScript(PrintToken(c, t))
  {
    SignNamed(c, t.sign);
  }

  lemma CloseNamed(c: Config, t: TokenInfo)
    requires t.CloseAccount?
    ensures NamedScript(PrintToken(c, t))
  {
    SignNamed(c, t.sign);
  }

  lemma TypeNamed(authorityType: cstring, authority: Option<key32>)
    ensures AllNamed([Text("Type", authorityType)]) && AllNamed(KeyIfAny("Authority", authority))
  {
  }

  lemma SetAuthorityLinesNamed(c: Config, t: TokenInfo)
    requires t.SetAuthority?
    ensures AllNamed(SetAuthorityLines(c, t.newAuthority, t.authorityType, t.sign))
  {
    TypeNamed(t.authorityType, t.newAuthority);
    SignNamed(c, t.sign);
    NamedThree([Text("Type", t.authorityType)], KeyIfAny("Authority", t.newAuthority), SignLines(c, t.sign));
  }

  lemma SetAuthorityNamed(c: Config, t: TokenInfo)
    requires t.SetAuthority?
    ensures NamedScript(PrintToken(c, t))
  {
    SetAuthorityLinesNamed(c, t);
  }

  lemma TokenNamed(c: Config, t: TokenInfo)
    ensures NamedScript(PrintToken(c, t))
  {
    match t
    case TransferChecked(_, _, _, _) => TransferCheckedNamed(c, t);
    case ApproveChecked(_, _, _, _) => ApproveNamed(c, t);
    case MintToChecked(_, _, _) => MintToNamed(c, t);
    case BurnChecked(_, _, _) => BurnNamed(c, t);
    case InitializeMint(_, _, _, _) => MintSetupNamed(c, t);
    case InitializeMultisig(_, _, _) => MintSetupNamed(c, t);
    case InitializeAccount(_, _, _, _) => AccountSetupNamed(c, t);
    case SyncNative(_) => SyncNamed(c, t);
    case FreezeAccount(_, _, _) => FreezeNamed(c, t);
    case ThawAccount(_, _, _) => FreezeNamed(c, t);
    case Revoke(_, _) => RevokeNamed(c, t);
    case CloseAccount(_, _, _) => CloseNamed(c, t);
    case SetAuthority(_, _, _, _) => SetAuthorityNamed(c, t);
  }

  lemma AssociatedNamed(i: Info)
    requires i.AssociatedToken?
    ensures NamedScript(PrintAssociatedToken(i))
  {
  }

  // ---- Sequences ----

  lemma FundingNamed(c: Config, a: SystemInfo)
    requires a.CreateAccount?
    ensures AllNamed(FundingLines(c, a))
  {
  }

  lemma StakeAccountNamed(c: Config, shape: Shape)
    requires shape.Valid() && shape.StakeAccount?
    ensures NamedScript(Render(c, shape))
  {
    CreationNamed(c, shape.creation);
    InitializeNamed(c, shape.stake);
    NamedTwo(CreationLines(c, shape.creation), InitializeLines(c, shape.stake));
  }

  lemma NonceAccountNamed(c: Config, a: SystemInfo, n: SystemInfo)
    requires (a.CreateAccount? || a.CreateWithSeed?) && n.InitializeNonce?
    ensures NamedScript(CreateNonce(c, a, n))
  {
    CreationNamed(c, a);
    KeyNamed(Key("New authority", n.authority));
    NamedTwo(CreationLines(c, a), [Key("New authority", n.authority)]);
  }

  lemma VoteAccountNamed(c: Config, shape: Shape)
    requires shape.Valid() && shape.VoteAccount?
    ensures NamedScript(Render(c, shape))
  {
    CreationNamed(c, shape.creation);
    VoteInitializeNamed(shape.vote);
    NamedTwo(CreationLines(c, shape.creation), VoteInitializeLines(shape.vote));
  }

  lemma DelegationNamed(c: Config, shape: Shape)
    requires shape.Valid() && shape.Delegation?
    ensures NamedScript(Render(c, shape))
  {
    CreationNamed(c, shape.creation);
    InitializeNamed(c, shape.stake);
    DelegateNamed(c, shape.delegate.vote, shape.delegate.authority);
    NamedThree(CreationLines(c, shape.creation), InitializeLines(c, shape.stake),
      DelegateLines(c, shape.delegate.vote, shape.delegate.authority));
  }

  lemma MintAccountNamed(c: Config, a: SystemInfo, t: TokenInfo)
    requires a.CreateAccount? && t.InitializeMint?
    ensures NamedScript(CreateMint(c, a, t))
  {
    FundingNamed(c, a);
    MintLinesNamed(t, "Mint decimals");
    NamedTwo(MintLines(t, "Mint decimals"), FundingLines(c, a));
  }

  lemma MultisigAccountNamed(c: Config, a: SystemInfo, t: TokenInfo)
    requires a.CreateAccount? && t.InitializeMultisig?
    ensures NamedScript(CreateMultisig(c, a, t))
  {
    FundingNamed(c, a);
    SignersNamed(t.m, t.n);
    NamedTwo(RequiredSigners(t.m, t.n), FundingLines(c, a));
  }

  lemma ForNamed(owner: key32, mint: key32)
    ensures AllNamed([Key("For", owner), Key("Token address", mint)])
  {
  }

  lemma TokenAccountNamed(c: Config, shape: Shape)
    requires shape.Valid() && shape.TokenAccount?
    ensures NamedScript(Render(c, shape))
  {
    FundingNamed(c, shape.creation);
    ForNamed(shape.token.owner, shape.token.mint);
    NamedTwo([Key("For", shape.token.owner), Key("Token address", shape.token.mint)], FundingLines(c, shape.creation));
  }

  lemma TransferLineNamed(c: Config, tokens: Tokens)
    ensures AllNamed([TokenLine(c, "Transfer tokens", tokens)])
  {
  }

  lemma TokenTransferNamed(c: Config, shape: Shape)
    requires shape.Valid() && shape.TokenTransfer?
    ensures NamedScript(Render(c, shape))
  {
    AssociatedNamed(shape.info);
    TransferLineNamed(c, shape.token.tokens);
    TransferLinesNamed(c, shape.token);
    NamedThree(PrintAssociatedToken(shape.info).after, [TokenLine(c, "Transfer tokens", shape.token.tokens)],
      TransferLines(c, shape.token));
  }

  lemma StakePairNamed(c: Config, x: StakeInfo, y: StakeInfo)
    requires x.Authorize? && y.Authorize?
    ensures NamedScript(AuthorizeBothStake(c, x, y))
  {
    var one := x.newAuthority.Same(y.newAuthority);
    AuthoritiesNamed(one, "New authorities", "New stake auth", c.KeyAt(x.newAuthority), c.KeyAt(y.newAuthority));
    CustodianKeyNamed(y.custodian);
    AuthorizedNamed(c, y.authority);
    NamedThree(
      AuthorityLines(one, "New authorities", "New stake auth", c.KeyAt(x.newAuthority), c.KeyAt(y.newAuthority)),
      KeyIfAny("Custodian", y.custodian), AuthorizedBy(c, y.authority));
  }

  lemma CustodianKeyNamed(custodian: Option<key32>)
    ensures AllNamed(KeyIfAny("Custodian", custodian))
  {
  }

  lemma VotePairNamed(c: Config, x: VoteInfo, y: VoteInfo)
    requires x.VoteAuthorize? && y.VoteAuthorize?
    ensures NamedScript(AuthorizeBothVote(c, x, y))
  {
    var one := x.newAuthority.Same(y.newAuthority);
    AuthoritiesNamed(one, "New authorities", "New vote auth", c.KeyAt(x.newAuthority), c.KeyAt(y.newAuthority));
    AuthorizedNamed(c, y.authority);
  }

  lemma PrefundNamed(c: Config, t: SystemInfo)
    requires t.Transfer?
    ensures AllNamed(PrefundLines(c, t))
  {
  }

  lemma SplitsNamed(c: Config, shape: Shape)
    requires shape.Valid() && (shape.SeededSplit? || shape.PrefundedSplit? || shape.PrefundedSeededSplit?)
    ensures NamedScript(Render(c, shape))
  {
    match shape
    case SeededSplit(base, seed, s) =>
      SeedNamed(c, base, seed);
      SplitNamed(c, [], s, SeedLines(c, base, seed));
    case PrefundedSplit(t, s) =>
      PrefundNamed(c, t);
      SplitNamed(c, PrefundLines(c, t), s, []);
    case PrefundedSeededSplit(t, base, seed, s) =>
      PrefundNamed(c, t);
      SeedNamed(c, base, seed);
      SplitNamed(c, PrefundLines(c, t), s, SeedLines(c, base, seed));
  }

  lemma AloneNamed(c: Config, i: Info)
    requires Alone(i).Valid()
    ensures NamedScript(RenderAlone(c, i))
  {
    match i
    case System(s) => SystemNamed(c, s);
    case Stake(s) => StakeNamed(c, s);
    case Vote(v) => VoteNamed(c, v);
    case Token(t) => TokenNamed(c, t);
    case AssociatedToken(_, _, _, _) => AssociatedNamed(i);
  }

  /** Whatever is recognised is printed under titles that tell the kinds of the items. */
  lemma ShapeNamed(c: Config, shape: Shape)
    requires shape.Valid()
    ensures NamedScript(Render(c, shape)) && AllNamed(Render(c, shape).Lines())
  {
    NamedShape(c, shape);
    NamedTwo(Render(c, shape).before, Render(c, shape).after);
  }

  lemma NamedShape(c: Config, shape: Shape)
    requires shape.Valid()
    ensures NamedScript(Render(c, shape))
  {
    match shape
    case Alone(i) => AloneNamed(c, i);
    case StakeAccount(_, _) => StakeAccountNamed(c, shape);
    case NonceAccount(a, n) => NonceAccountNamed(c, a, n);
    case VoteAccount(_, _) => VoteAccountNamed(c, shape);
    case Delegation(_, _, _) => DelegationNamed(c, shape);
    case MintAccount(a, t) => MintAccountNamed(c, a, t);
    case MultisigAccount(a, t) => MultisigAccountNamed(c, a, t);
    case TokenAccount(_, _) => TokenAccountNamed(c, shape);
    case TokenTransfer(_, _) => TokenTransferNamed(c, shape);
    case StakeAuthorities(x, y) => StakePairNamed(c, x, y);
    case VoteAuthorities(x, y) => VotePairNamed(c, x, y);
    case SeededSplit(_, _, _) => SplitsNamed(c, shape);
    case PrefundedSplit(_, _) => SplitsNamed(c, shape);
    case PrefundedSeededSplit(_, _, _, _) => SplitsNamed(c, shape);
  }
}
