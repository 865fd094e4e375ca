/** What each kind of transaction puts into the summary: the printers of libsol, line by line. */
module Printers {
  import opened Bytes
  import opened Infos
  import opened Wire
  import opened Summary

  /** The printing options, the token table behind the symbols, and the header of the message. */
  datatype Config = Config(expert: bool, signer: key32, symbol: key32 -> cstring, header: MessageHeader)
  {
    /** The key at a place. */
    function KeyAt(place: Place): key32
    {
      match place
      case InHeader(i) => if header.Whole() && i < header.pubkeysLength then header.Key(i) else signer
      case InData(key) => key
    }

    /** print_config_show_authority */
    predicate Shows(key: key32) { expert || key != signer }
  }

  /** The same settings, whatever the message. */
  ghost predicate SameOptions(c: Config, d: Config)
  {
    c.expert == d.expert && c.signer == d.signer && c.symbol == d.symbol
  }

  /** One line, if a condition holds. */
  function If(condition: bool, line: Line): (lines: seq<Line>)
    ensures |lines| == if condition then 1 else 0
  {
    if condition then [line] else []
  }

  function Just(primary: Line, lines: seq<Line>): Script
  {
    Script([], primary, lines)
  }

  lemma JustLines(primary: Line, lines: seq<Line>)
    ensures Just(primary, lines).Lines() == lines
  {
  }

  // ---- System instructions ----

  function CreateAccountLines(c: Config, from: key32, lamports: u64): seq<Line>
  {
    [Amount("Deposit", lamports)] + If(c.Shows(from), Key("From", from))
  }

  function SeedLines(c: Config, base: key32, seed: string): seq<Line>
  {
    If(c.expert, Key("Base", base)) + If(c.expert, Sized("Seed", seed))
  }

  function CreateWithSeedLines(c: Config, s: SystemInfo): seq<Line>
    requires s.CreateWithSeed?
  {
    CreateAccountLines(c, s.from, s.lamports) + SeedLines(c, s.base, s.seed)
  }

  function AuthorizedBy(c: Config, authority: key32): seq<Line>
  {
    If(c.Shows(authority), Key("Authorized by", authority))
  }

  function PrintNonce(c: Config, s: SystemInfo): Script
    requires s.AdvanceNonce? || s.WithdrawNonce? || s.InitializeNonce? || s.AuthorizeNonce?
  {
    match s
    case AdvanceNonce(account, authority) => Just(Key("Advance nonce", account), AuthorizedBy(c, authority))
    case WithdrawNonce(account, authority, to, lamports) =>
      Just(Amount("Nonce withdraw", lamports), [Key("From", account), Key("To", to)] + AuthorizedBy(c, authority))
    case InitializeNonce(account, authority) =>
      Just(Key("Init nonce acct", account), [Key("New authority", authority)])
    case AuthorizeNonce(account, authority, newAuthority) =>
      Just(Key("Set nonce auth", account), [Key("New authority", newAuthority)] + AuthorizedBy(c, authority))
  }

  function PrintSystem(c: Config, s: SystemInfo): Script
  {
    match s
    case CreateAccount(from, to, lamports) => Just(Key("Create account", to), CreateAccountLines(c, from, lamports))
    case Assign(account, program) => Just(Key("Assign acct", account), [Key("To program", program)])
    case Transfer(from, to, lamports) =>
      Just(Amount("Transfer", lamports), If(c.Shows(from), Key("Sender", from)) + [Key("Recipient", to)])
    case CreateWithSeed(_, to, _, _, _) => Just(Key("Create account", to), CreateWithSeedLines(c, s))
    case Allocate(account, space) => Just(Key("Allocate acct", account), [Unsigned("Data size", space)])
    case AllocateWithSeed(account, base, seed, space, _) =>
      Just(Key("Allocate acct", account), [Unsigned("Data size", space)] + SeedLines(c, base, seed))
    case _ => PrintNonce(c, s)
  }

  // ---- Stake instructions ----

  function DelegateLines(c: Config, vote: key32, authority: key32): seq<Line>
  {
    AuthorizedBy(c, authority) + [Key("Vote account", vote)]
  }

  function TwoAuthorities(title: cstring, first: key32, withdrawer: key32): seq<Line>
  {
    [Key(title, first), Key("New withdraw auth", withdrawer)]
  }

  /** The new authorities on one line under the title for both, or on two. */
  function AuthorityLines(one: bool, both: cstring, title: cstring, first: key32, withdrawer: key32): seq<Line>
  {
    if one then [Key(both, first)] else TwoAuthorities(title, first, withdrawer)
  }

  function LockupLines(c: Config, lockup: Lockup): seq<Line>
  {
    if lockup.time > 0 || lockup.epoch > 0 then
      If(lockup.time > 0, Timestamp("Lockup time", lockup.time))
        + If(lockup.epoch > 0, Unsigned("Lockup epoch", lockup.epoch)) + [Key("Lockup authority", lockup.custodian)]
    else If(c.expert, Text("Lockup", "None"))
  }

  /** The lockup of a checked initialization stays as it was cleared; its custodian is not looked at. */
  function LockupOf(s: StakeInfo): Lockup
    requires s.Initialize? || s.InitializeChecked?
  {
    if s.Initialize? then s.lockup else Lockup(0, 0, s.account)
  }

  function InitializeLines(c: Config, s: StakeInfo): seq<Line>
    requires s.Initialize? || s.InitializeChecked?
  {
    AuthorityLines(s.withdrawAuthority == s.stakeAuthority, "New authority", "New stake auth",
      s.stakeAuthority, s.withdrawAuthority)
      + LockupLines(c, LockupOf(s))
  }

  function RoleTitle(role: Role, first: cstring): cstring
  {
    if role.First? then first else "New withdraw auth"
  }

  function KeyIfAny(title: cstring, key: Option<key32>): (lines: seq<Line>)
    ensures |lines| == if key.Some? then 1 else 0
  {
    if key.None? then [] else [Key(title, key.value)]
  }

  function LockupArguments(time: Option<i64>, epoch: Option<u64>): (lines: seq<Line>)
    ensures |lines| <= 2
  {
    (if time.None? then [] else [Timestamp("Time", time.value)])
      + (if epoch.None? then [] else [Unsigned("Epoch", epoch.value)])
  }

  function CustodianLine(c: Config, custodian: Option<key32>): seq<Line>
  {
    if custodian.None? then [] else If(c.Shows(custodian.value), Key("Custodian", custodian.value))
  }

  function SplitScript(c: Config, before: seq<Line>, s: StakeInfo, between: seq<Line>): Script
    requires s.Split?
  {
    Script(before, Amount("Split stake", s.lamports),
      [Key("From", s.account), Key("To", s.splitAccount)] + between + AuthorizedBy(c, s.authority))
  }

  /** The instructions that change who or what governs a stake account. */
  function PrintStakeChange(c: Config, s: StakeInfo): Script
    requires s.Authorize? || s.SetLockup? || s.Merge?
  {
    match s
    case Authorize(account, authority, newAuthority, custodian, role) =>
      Just(Key("Set stake auth", account), [Key(RoleTitle(role, "New stake auth"), c.KeyAt(newAuthority))]
        + AuthorizedBy(c, authority) + CustodianLine(c, custodian))
    case SetLockup(account, authority, time, epoch, custodian) =>
      Just(Key("Set lockup", account), LockupArguments(time, epoch) + KeyIfAny("New authority", custodian)
        + AuthorizedBy(c, authority))
    case Merge(destination, source, authority) =>
      Just(Key("Merge", source), [Key("Into", destination)] + AuthorizedBy(c, authority))
  }

  function PrintStake(c: Config, s: StakeInfo): Script
  {
    match s
    case Initialize(account, _, _, _) => Just(Key("Init stake acct", account), InitializeLines(c, s))
    case InitializeChecked(account, _, _) => Just(Key("Init stake acct", account), InitializeLines(c, s))
    case Delegate(account, vote, authority) =>
      Just(Key("Delegate from", account), DelegateLines(c, vote, authority))
    case Split(_, _, _, _) => SplitScript(c, [], s, [])
    case Withdraw(account, authority, to, lamports) =>
      Just(Amount("Stake withdraw", lamports), [Key("From", account), Key("To", to)] + AuthorizedBy(c, authority))
    case Deactivate(account, authority) => Just(Key("Deactivate stake", account), AuthorizedBy(c, authority))
    case _ => PrintStakeChange(c, s)
  }

  // ---- Vote instructions ----

  function VoteInitializeLines(v: VoteInfo): seq<Line>
    requires v.VoteInitialize?
  {
    [Key("Validator ID", v.validator)] + TwoAuthorities("New vote auth", v.voteAuthority, v.withdrawAuthority)
      + [Unsigned("Commission", v.commission)]
  }

  function PrintVote(c: Config, v: VoteInfo): Script
  {
    match v
    case VoteInitialize(account, _, _, _, _) => Just(Key("Init vote acct", account), VoteInitializeLines(v))
    case VoteAuthorize(account, authority, newAuthority, role) =>
      Just(Key("Set vote auth", account), [Key(RoleTitle(role, "New vote auth"), c.KeyAt(newAuthority))]
        + AuthorizedBy(c, authority))
    case VoteWithdraw(account, authority, to, lamports) =>
      Just(Amount("Vote withdraw", lamports), [Key("From", account), Key("To", to)] + AuthorizedBy(c, authority))
    case UpdateValidator(account, authority, validator) =>
      Just(Key("Update validator", account), [Key("New validator ID", validator)] + AuthorizedBy(c, authority))
    case UpdateCommission(account, authority, percent) =>
      Just(Key("Update commission", account), [Unsigned("Commission", percent)] + AuthorizedBy(c, authority))
  }

  // ---- Token instructions ----

  /** A single signer who need not be shown leaves the slot that was taken unused. */
  function SignLines(c: Config, sign: Sign): seq<Line>
  {
    match sign
    case Single(signer) => If(c.Shows(signer), Key("Owner", signer))
    case Multi(account, signers) => [Key("Owner", account), Unsigned("Signers", signers)]
  }

  const MAX_SIGNERS: nat := 11

  function Count(n: byte): cstring
    requires n <= MAX_SIGNERS
  {
    (if n > 9 then "1" else "") + [('0' as int + n % 10) as char]
  }

  /** Counts that do not fit leave the slot that was taken unused. */
  function RequiredSigners(m: byte, n: byte): seq<Line>
  {
    if m <= n <= MAX_SIGNERS then [Text("Required signers", Count(m) + " of " + Count(n))] else []
  }

  function TokenLine(c: Config, title: cstring, tokens: Tokens): Line
  {
    TokenItem(title, tokens.amount, c.symbol(tokens.mint), tokens.decimals)
  }

  function TransferLines(c: Config, t: TokenInfo): seq<Line>
    requires t.TransferChecked?
  {
    [Key("Token address", t.tokens.mint), Key("From (token account)", t.source),
     Key("To (token account)", t.destination)] + SignLines(c, t.sign)
  }

  function MintLines(t: TokenInfo, decimalsTitle: cstring): seq<Line>
    requires t.InitializeMint?
  {
    [Key("Mint authority", t.mintAuthority), Unsigned(decimalsTitle, t.decimals)]
      + KeyIfAny("Freeze authority", t.freezeAuthority)
  }

  function FreezeLines(c: Config, mint: key32, sign: Sign): seq<Line>
  {
    If(c.expert, Key("Token address", mint)) + SignLines(c, sign)
  }

  function SetAuthorityLines(c: Config, newAuthority: Option<key32>, authorityType: cstring, sign: Sign): seq<Line>
  {
    [Text("Type", authorityType)] + KeyIfAny("Authority", newAuthority) + SignLines(c, sign)
  }

  /** Approval, minting and burning name the mint and the token account. */
  function MintAndAccount(c: Config, mint: key32, title: cstring, account: key32, sign: Sign): seq<Line>
  {
    [Key("Token address", mint), Key(title, account)] + SignLines(c, sign)
  }

  /** The instructions that move tokens. */
  function PrintMovement(c: Config, t: TokenInfo): Script
    requires t.TransferChecked? || t.ApproveChecked? || t.MintToChecked? || t.BurnChecked?
  {
    match t
    case TransferChecked(_, _, tokens, _) => Just(TokenLine(c, "Transfer tokens", tokens), TransferLines(c, t))
    case ApproveChecked(account, delegate, tokens, sign) =>
      Just(Key("Approve delegate", delegate),
        [TokenLine(c, "Allowance", tokens)] + MintAndAccount(c, tokens.mint, "From (token account)", account, sign))
    case MintToChecked(account, tokens, sign) =>
      Just(TokenLine(c, "Mint tokens", tokens), MintAndAccount(c, tokens.mint, "To (token account)", account, sign))
    case BurnChecked(account, tokens, sign) =>
      Just(TokenLine(c, "Burn tokens", tokens), MintAndAccount(c, tokens.mint, "From (token account)", account, sign))
  }

  /** The instructions that set up an account. */
  function PrintSetup(c: Config, t: TokenInfo): Script
    requires t.InitializeMint? || t.InitializeAccount? || t.InitializeMultisig? || t.SyncNative?
  {
    match t
    case InitializeMint(mint, _, _, _) => Just(Key("Init mint", mint), MintLines(t, "Decimals"))
    case InitializeAccount(_, account, mint, owner) =>
      Just(Key("Init acct", account), [Key("Owner", owner), Key("Token address", mint)])
    case InitializeMultisig(account, m, n) => Just(Key("Init multisig", account), RequiredSigners(m, n))
    case SyncNative(account) => Just(Key("Sync native account", account), [])
  }

  function PrintToken(c: Config, t: TokenInfo): Script
  {
    match t
    case Revoke(account, sign) => Just(Key("Revoke delegate", account), SignLines(c, sign))
    case SetAuthority(account, newAuthority, authorityType, sign) =>
      Just(Key(if newAuthority.None? then "Clear authority" else "Set authority", account),
        SetAuthorityLines(c, newAuthority, authorityType, sign))
    case CloseAccount(account, destination, sign) =>
      Just(Key("Close token account", account), [Key("Withdraw to", destination)] + SignLines(c, sign))
    case FreezeAccount(account, mint, sign) => Just(Key("Freeze token account", account), FreezeLines(c, mint, sign))
    case ThawAccount(account, mint, sign) => Just(Key("Thaw token account", account), FreezeLines(c, mint, sign))
    case InitializeMint(_, _, _, _) => PrintSetup(c, t)
    case InitializeAccount(_, _, _, _) => PrintSetup(c, t)
    case InitializeMultisig(_, _, _) => PrintSetup(c, t)
    case SyncNative(_) => PrintSetup(c, t)
    case _ => PrintMovement(c, t)
  }

  function PrintAssociatedToken(i: Info): Script
    requires i.AssociatedToken?
  {
    Just(Key("Create token account", i.address),
      [Key("For", i.owner), Key("Token address", i.mint), Key("Funded by", i.funder)])
  }

  // ---- Several instructions printed together ----

  function FundingLines(c: Config, a: SystemInfo): seq<Line>
    requires a.CreateAccount?
  {
    If(c.Shows(a.from), Key("Funded by", a.from)) + [Amount("Funded with", a.lamports)]
  }

  /** The lines of either kind of account creation. */
  function CreationLines(c: Config, a: SystemInfo): seq<Line>
    requires a.CreateAccount? || a.CreateWithSeed?
  {
    if a.CreateAccount? then CreateAccountLines(c, a.from, a.lamports) else CreateWithSeedLines(c, a)
  }

  function CreateStake(c: Config, a: SystemInfo, s: StakeInfo): Script
    requires (a.CreateAccount? || a.CreateWithSeed?) && (s.Initialize? || s.InitializeChecked?)
  {
    Just(Key("Create stake acct", a.to), CreationLines(c, a) + InitializeLines(c, s))
  }

  function CreateAndDelegate(c: Config, a: SystemInfo, s: StakeInfo, d: StakeInfo): Script
    requires (a.CreateAccount? || a.CreateWithSeed?) && (s.Initialize? || s.InitializeChecked?) && d.Delegate?
  {
    Just(Key("Delegate from", a.to), CreationLines(c, a) + InitializeLines(c, s) +
      DelegateLines(c, d.vote, d.authority))
  }

  function CreateNonce(c: Config, a: SystemInfo, n: SystemInfo): Script
    requires (a.CreateAccount? || a.CreateWithSeed?) && n.InitializeNonce?
  {
    Just(Key("Create nonce acct", a.to), CreationLines(c, a) + [Key("New authority", n.authority)])
  }

  function CreateVote(c: Config, a: SystemInfo, v: VoteInfo): Script
    requires (a.CreateAccount? || a.CreateWithSeed?) && v.VoteInitialize?
  {
    Just(Key("Create vote acct", a.to), CreationLines(c, a) + VoteInitializeLines(v))
  }

  /** The places of the new authorities are compared, not the keys. */
  function AuthorizeBothStake(c: Config, a: StakeInfo, b: StakeInfo): Script
    requires a.Authorize? && b.Authorize?
  {
    Just(Key("Set stake auth", a.account),
      AuthorityLines(a.newAuthority.Same(b.newAuthority), "New authorities", "New stake auth",
        c.KeyAt(a.newAuthority), c.KeyAt(b.newAuthority))
      + KeyIfAny("Custodian", b.custodian) + AuthorizedBy(c, b.authority))
  }

  function AuthorizeBothVote(c: Config, a: VoteInfo, b: VoteInfo): Script
    requires a.VoteAuthorize? && b.VoteAuthorize?
  {
    Just(Key("Set vote auth", a.account),
      AuthorityLines(a.newAuthority.Same(b.newAuthority), "New authorities", "New vote auth",
        c.KeyAt(a.newAuthority), c.KeyAt(b.newAuthority))
      + AuthorizedBy(c, b.authority))
  }

  function PrefundLines(c: Config, t: SystemInfo): seq<Line>
    requires t.Transfer?
  {
    If(c.expert, Amount("Prefund", t.lamports)) + If(c.expert, Key("Prefunder", t.from))
  }

  function CreateMint(c: Config, a: SystemInfo, t: TokenInfo): Script
    requires a.CreateAccount? && t.InitializeMint?
  {
    Just(Key("Create token mint", t.mint), MintLines(t, "Mint decimals") + FundingLines(c, a))
  }

  function CreateToken(c: Config, a: SystemInfo, t: TokenInfo): Script
    requires a.CreateAccount? && t.InitializeAccount?
  {
    Just(Key("Create token account", t.account),
      [Key("For", t.owner), Key("Token address", t.mint)] + FundingLines(c, a))
  }

  function CreateMultisig(c: Config, a: SystemInfo, t: TokenInfo): Script
    requires a.CreateAccount? && t.InitializeMultisig?
  {
    Just(Key("Create multisig", t.account), RequiredSigners(t.m, t.n) + FundingLines(c, a))
  }

  function CreateAndTransfer(c: Config, i: Info, t: TokenInfo): Script
    requires i.AssociatedToken? && t.TransferChecked?
  {
    Just(Key("Create token account", i.address),
      PrintAssociatedToken(i).after + [TokenLine(c, "Transfer tokens", t.tokens)] + TransferLines(c, t))
  }
}
