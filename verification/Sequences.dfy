/** What the slots tell about a recognised sequence of instructions, and so about the money that it moves. */
module Sequences {
  import opened Bytes
  import opened Infos
  import opened Summary
  import opened Printers
  import opened Reading
  import opened Recogniser

  // ---- What is visible of a sequence ----

  /** A sequence without what the options hide; the pairs of authorizations are listed by their lines. */
  datatype Visible =
    | One(info: Info)
    | StakePair(account: key32, staker: key32, withdrawer: Option<key32>, custodian: Option<key32>, authority: key32)
    | VotePair(account: key32, voter: key32, withdrawer: Option<key32>, authority: key32)
    | Together(shape: Shape)

  function VisibleInfo(c: Config, info: Info): Info
  {
    match info
    case System(s) => System(VisibleSystem(c, s))
    case Stake(s) => Stake(VisibleStake(c, s))
    case Vote(v) => Vote(VisibleVote(c, v))
    case Token(t) => Token(VisibleToken(c, t))
    case _ => info
  }

  /** The account that a stake instruction names is shown only once, as the account that is created. */
  function VisibleOn(s: StakeInfo, account: key32): StakeInfo
    requires s.Initialize? || s.InitializeChecked?
  {
    match s
    case Initialize(_, stake, withdraw, lockup) => VisibleLockup(Initialize(account, stake, withdraw, lockup))
    case InitializeChecked(_, stake, withdraw) => InitializeChecked(account, stake, withdraw)
  }

  /** Of a sequence the slots hide accounts named twice, and of most splits all but the split. */
  function VisibleShape(c: Config, shape: Shape): Visible
    requires shape.Valid()
  {
    match shape
    case Alone(i) => One(VisibleInfo(c, i))
    case StakeAccount(a, s) => Together(StakeAccount(VisibleSystem(c, a), VisibleOn(s, a.to)))
    case NonceAccount(a, n) => Together(NonceAccount(VisibleSystem(c, a), InitializeNonce(a.to, n.authority)))
    case VoteAccount(a, v) =>
      Together(VoteAccount(VisibleSystem(c, a),
        VoteInitialize(a.to, v.validator, v.voteAuthority, v.withdrawAuthority, v.commission)))
    case MintAccount(a, t) => Together(MintAccount(CreateAccount(a.from, t.mint, a.lamports), t))
    case TokenAccount(a, t) => Together(TokenAccount(CreateAccount(a.from, t.account, a.lamports), VisibleToken(c, t)))
    case MultisigAccount(a, t) =>
      Together(MultisigAccount(CreateAccount(a.from, t.account, a.lamports), VisibleToken(c, t)))
    case StakeAuthorities(x, y) =>
      StakePair(x.account, c.KeyAt(x.newAuthority),
        if x.newAuthority.Same(y.newAuthority) then None else Some(c.KeyAt(y.newAuthority)), y.custodian, y.authority)
    case VoteAuthorities(x, y) =>
      VotePair(x.account, c.KeyAt(x.newAuthority),
        if x.newAuthority.Same(y.newAuthority) then None else Some(c.KeyAt(y.newAuthority)), y.authority)
    case SeededSplit(_, _, s) => if c.expert then Together(shape) else One(Stake(s))
    case TokenTransfer(_, _) => Together(shape)
    case Delegation(a, s, d) =>
      Together(Delegation(VisibleSystem(c, a), VisibleOn(s, a.to), Delegate(a.to, d.vote, d.authority)))
    case PrefundedSplit(t, s) =>
      if c.expert then Together(PrefundedSplit(Transfer(t.from, t.from, t.lamports), s)) else One(Stake(s))
    case PrefundedSeededSplit(t, base, seed, s) =>
      if c.expert then Together(PrefundedSeededSplit(Transfer(t.from, t.from, t.lamports), base, seed, s))
        else One(Stake(s))
  }

  function VisibleSequence(c: Config, infos: seq<Info>): Visible
    requires ShapeOf(infos).Some?
  {
    VisibleShape(c, ShapeOf(infos).value)
  }

  // ---- The slots of what is visible ----

  predicate Drawable(v: Visible)
  {
    match v
    case One(i) => Alone(i).Valid()
    case StakePair(_, _, _, _, _) => true
    case VotePair(_, _, _, _) => true
    case Together(shape) =>
      if shape.Delegation? then
        shape.Created() && (shape.stake.Initialize? || shape.stake.InitializeChecked?) && shape.delegate.Delegate?
      else shape.Valid() && !shape.Alone? && !shape.StakeAuthorities? && !shape.VoteAuthorities?
  }

  /** The lines of two new authorities, or of one. */
  function PairLines(title: cstring, a: key32, b: Option<key32>): seq<Line>
  {
    AuthorityLines(b.None?, "New authorities", title, a, if b.None? then a else b.value)
  }

  function Draw(c: Config, v: Visible): Script
    requires Drawable(v)
  {
    match v
    case One(i) => RenderAlone(c, i)
    case StakePair(account, a, b, custodian, authority) =>
      Just(Key("Set stake auth", account),
        PairLines("New stake auth", a, b) + KeyIfAny("Custodian", custodian) + AuthorizedBy(c, authority))
    case VotePair(account, a, b, authority) =>
      Just(Key("Set vote auth", account), PairLines("New vote auth", a, b) + AuthorizedBy(c, authority))
    case Together(shape) =>
      if shape.Delegation? then CreateAndDelegate(c, shape.creation, shape.stake, shape.delegate) else Render(c, shape)
  }

  lemma AloneDrawn(c: Config, i: Info)
    requires Alone(i).Valid()
    ensures RenderAlone(c, VisibleInfo(c, i)) == RenderAlone(c, i)
  {
    match i
    case System(s) => SystemVisible(c, s);
    case Stake(s) => StakeVisible(c, s);
    case Vote(_) =>
    case Token(t) => TokenVisible(c, t);
    case AssociatedToken(_, _, _, _) =>
  }

  lemma CreationDrawn(c: Config, a: SystemInfo)
    requires a.CreateAccount? || a.CreateWithSeed?
    ensures CreationLines(c, VisibleSystem(c, a)) == CreationLines(c, a) && VisibleSystem(c, a).to == a.to
    ensures VisibleSystem(c, a).CreateAccount? || VisibleSystem(c, a).CreateWithSeed?
  {
  }

  lemma InitializeDrawn(c: Config, s: StakeInfo, account: key32)
    requires s.Initialize? || s.InitializeChecked?
    ensures VisibleOn(s, account).Initialize? || VisibleOn(s, account).InitializeChecked?
    ensures InitializeLines(c, VisibleOn(s, account)) == InitializeLines(c, s)
  {
  }

  lemma CreatedDrawn(c: Config, shape: Shape)
    requires shape.Valid() && (shape.StakeAccount? || shape.NonceAccount? || shape.VoteAccount? || shape.Delegation?)
    ensures Drawable(VisibleShape(c, shape)) && Draw(c, VisibleShape(c, shape)) == Render(c, shape)
  {
    CreationDrawn(c, shape.creation);
    if shape.StakeAccount? || shape.Delegation? {
      InitializeDrawn(c, shape.stake, shape.creation.to);
    }
  }

  lemma TokensDrawn(c: Config, shape: Shape)
    requires shape.Valid()
    requires shape.MintAccount? || shape.TokenAccount? || shape.MultisigAccount? || shape.TokenTransfer?
    ensures Drawable(VisibleShape(c, shape)) && Draw(c, VisibleShape(c, shape)) == Render(c, shape)
  {
  }

  lemma PairsDrawn(c: Config, shape: Shape)
    requires shape.Valid() && (shape.StakeAuthorities? || shape.VoteAuthorities?)
    ensures Drawable(VisibleShape(c, shape)) && Draw(c, VisibleShape(c, shape)) == Render(c, shape)
  {
  }

  lemma SplitsDrawn(c: Config, shape: Shape)
    requires shape.Valid() && (shape.SeededSplit? || shape.PrefundedSplit? || shape.PrefundedSeededSplit?)
    ensures Drawable(VisibleShape(c, shape)) && Alike(Draw(c, VisibleShape(c, shape)), Render(c, shape))
  {
    if !c.expert {
      var s := shape.stake;
      assert [Key("From", s.account), Key("To", s.splitAccount)] + [] ==
        [Key("From", s.account), Key("To", s.splitAccount)];
    }
  }

  /** What is visible of a shape fills the slots as the shape does. */
  lemma ShapeDrawn(c: Config, shape: Shape)
    requires shape.Valid()
    ensures Drawable(VisibleShape(c, shape)) && Alike(Draw(c, VisibleShape(c, shape)), Render(c, shape))
  {
    match shape
    case Alone(i) => AloneDrawn(c, i);
    case StakeAccount(_, _) => CreatedDrawn(c, shape);
    case NonceAccount(_, _) => CreatedDrawn(c, shape);
    case VoteAccount(_, _) => CreatedDrawn(c, shape);
    case Delegation(_, _, _) => CreatedDrawn(c, shape);
    case StakeAuthorities(_, _) => PairsDrawn(c, shape);
    case VoteAuthorities(_, _) => PairsDrawn(c, shape);
    case SeededSplit(_, _, _) => SplitsDrawn(c, shape);
    case PrefundedSplit(_, _) => SplitsDrawn(c, shape);
    case PrefundedSeededSplit(_, _, _, _) => SplitsDrawn(c, shape);
    case _ => TokensDrawn(c, shape);
  }

  // ---- Reading a sequence back ----

  /** How many lines tell about the creation of an account. */
  function CreationLength(lines: seq<Line>): (n: nat)
  {
    var k := if Titled(lines, 1, "From") then 2 else 1;
    if Titled(lines, k, "Base") then k + 2 else k
  }

  /** The creation that the first lines tell about, and the lines behind them. */
  function SplitCreation(who: Viewer, to: key32, lines: seq<Line>): Option<(SystemInfo, seq<Line>)>
  {
    var n := CreationLength(lines);
    if n > |lines| then None
    else
      var creation := ReadCreation(who, to, lines[..n]);
      if creation.None? then None else Some((creation.value, lines[n..]))
  }

  function ReadNewNonce(to: key32, creation: SystemInfo, rest: seq<Line>): Option<Visible>
  {
    if |rest| != 1 || !KeyLine(rest, 0, "New authority") then None
    else Some(Together(NonceAccount(creation, InitializeNonce(to, rest[0].key))))
  }

  function ReadNewVote(to: key32, creation: SystemInfo, rest: seq<Line>): Option<Visible>
  {
    var vote := ReadVoteInitialize(to, rest);
    if vote.None? then None else Some(Together(VoteAccount(creation, vote.value)))
  }

  function ReadNewStake(who: Viewer, to: key32, creation: SystemInfo, rest: seq<Line>): Option<Visible>
  {
    var stake := ReadInitialize(who, to, rest);
    if stake.None? then None else Some(Together(StakeAccount(creation, stake.value)))
  }

  /** The last lines tell who delegates, unless it is the signer, and to whom. */
  function DelegateLength(lines: seq<Line>): nat
  {
    if |lines| >= 2 && KeyLine(lines, |lines| - 2, "Authorized by") then 2 else 1
  }

  function ReadDelegation(who: Viewer, to: key32, creation: SystemInfo, rest: seq<Line>): Option<Visible>
  {
    var d := DelegateLength(rest);
    if |rest| < d || !KeyLine(rest, |rest| - 1, "Vote account") then None
    else
      var stake := ReadInitialize(who, to, rest[..|rest| - d]);
      var authority := if d == 2 then rest[|rest| - 2].key else who.signer;
      if stake.None? || !(if d == 2 then who.IsNamed(authority) else !who.expert) then None
      else
        Some(Together(Delegation(creation, stake.value, Delegate(to, rest[|rest| - 1].key, authority))))
  }

  /** The accounts that are created together with what is done with them. */
  function ReadCreated(who: Viewer, title: cstring, to: key32, lines: seq<Line>): Option<Visible>
  {
    var parts := SplitCreation(who, to, lines);
    if parts.None? then None
    else if title == "Create stake acct" then ReadNewStake(who, to, parts.value.0, parts.value.1)
    else if title == "Create nonce acct" then ReadNewNonce(to, parts.value.0, parts.value.1)
    else if title == "Create vote acct" then ReadNewVote(to, parts.value.0, parts.value.1)
    else if title == "Delegate from" then ReadDelegation(who, to, parts.value.0, parts.value.1)
    else None
  }

  lemma CreationReads(c: Config, a: SystemInfo, rest: seq<Line>)
    requires a.CreateAccount? || a.CreateWithSeed?
    requires rest != [] ==> rest[0].title != "From" && rest[0].title != "Base"
    ensures SplitCreation(WhoOf(c), a.to, CreationLines(c, a) + rest) == Some((VisibleSystem(c, a), rest))
  {
    var front := CreationLines(c, a);
    CreationReadBack(c, a);
    CreationLengthIs(c, a, rest);
    assert (front + rest)[..|front|] == front && (front + rest)[|front|..] == rest;
  }

  lemma CreationLengthIs(c: Config, a: SystemInfo, rest: seq<Line>)
    requires a.CreateAccount? || a.CreateWithSeed?
    requires rest != [] ==> rest[0].title != "From" && rest[0].title != "Base"
    ensures CreationLength(CreationLines(c, a) + rest) == |CreationLines(c, a)|
  {
  }

  lemma InitializeReads(c: Config, s: StakeInfo, account: key32)
    requires s.Initialize? || s.InitializeChecked?
    ensures ReadInitialize(WhoOf(c), account, InitializeLines(c, s)) == Some(VisibleOn(s, account))
    ensures InitializeLines(c, s) != [] && InitializeLines(c, s)[0].title != "From"
      && InitializeLines(c, s)[0].title != "Base"
  {
    if s.Initialize? {
      var moved := Initialize(account, s.stakeAuthority, s.withdrawAuthority, s.lockup);
      InitializeReadBack(c, moved);
      assert InitializeLines(c, moved) == InitializeLines(c, s);
    } else {
      var moved := InitializeChecked(account, s.stakeAuthority, s.withdrawAuthority);
      InitializeReadBack(c, moved);
      assert InitializeLines(c, moved) == InitializeLines(c, s);
    }
  }

  lemma StakeAccountReads(c: Config, a: SystemInfo, s: StakeInfo)
    requires StakeAccount(a, s).Valid()
    ensures ReadCreated(WhoOf(c), "Create stake acct", a.to, CreationLines(c, a) + InitializeLines(c, s)) ==
      Some(VisibleShape(c, StakeAccount(a, s)))
  {
    InitializeReads(c, s, a.to);
    CreationReads(c, a, InitializeLines(c, s));
  }

  lemma NonceAccountReads(c: Config, a: SystemInfo, n: SystemInfo)
    requires NonceAccount(a, n).Valid()
    ensures ReadCreated(WhoOf(c), "Create nonce acct", a.to,
      CreationLines(c, a) + [Key("New authority", n.authority)]) ==
      Some(VisibleShape(c, NonceAccount(a, n)))
  {
    CreationReads(c, a, [Key("New authority", n.authority)]);
  }

  lemma VoteAccountReads(c: Config, a: SystemInfo, v: VoteInfo)
    requires VoteAccount(a, v).Valid()
    ensures ReadCreated(WhoOf(c), "Create vote acct", a.to, CreationLines(c, a) + VoteInitializeLines(v)) ==
      Some(VisibleShape(c, VoteAccount(a, v)))
  {
    CreationReads(c, a, VoteInitializeLines(v));
  }

  lemma LastNotAuthorized(c: Config, s: StakeInfo)
    requires s.Initialize? || s.InitializeChecked?
    ensures var lines := InitializeLines(c, s); lines != [] && lines[|lines| - 1].title != "Authorized by"
  {
  }

  lemma DelegateReads(c: Config, front: seq<Line>, d: StakeInfo)
    requires d.Delegate? && (front != [] ==> front[|front| - 1].title != "Authorized by")
    ensures var rest := front + DelegateLines(c, d.vote, d.authority);
      && |rest| - DelegateLength(rest) == |front| && rest[|rest| - 1] == Key("Vote account", d.vote)
      && (if DelegateLength(rest) == 2 then rest[|front|] == Key("Authorized by", d.authority) && c.Shows(d.authority)
          else d.authority == c.signer && !c.expert)
      && rest[..|front|] == front
  {
  }

  lemma DelegationIsRead(c: Config, to: key32, lines: seq<Line>, creation: SystemInfo, rest: seq<Line>)
    requires SplitCreation(WhoOf(c), to, lines) == Some((creation, rest))
    ensures ReadCreated(WhoOf(c), "Delegate from", to, lines) == ReadDelegation(WhoOf(c), to, creation, rest)
  {
  }

  lemma DelegationBehind(c: Config, a: SystemInfo, creation: SystemInfo, s: StakeInfo, d: StakeInfo)
    requires Delegation(a, s, d).Valid()
    ensures ReadDelegation(WhoOf(c), a.to, creation, InitializeLines(c, s) + DelegateLines(c, d.vote, d.authority)) ==
      Some(Together(Delegation(creation, VisibleOn(s, a.to), Delegate(a.to, d.vote, d.authority))))
  {
    InitializeReads(c, s, a.to);
    LastNotAuthorized(c, s);
    DelegateReads(c, InitializeLines(c, s), d);
  }

  lemma DelegationReads(c: Config, a: SystemInfo, s: StakeInfo, d: StakeInfo)
    requires Delegation(a, s, d).Valid()
    ensures ReadCreated(WhoOf(c), "Delegate from", a.to,
      CreationLines(c, a) + (InitializeLines(c, s) + DelegateLines(c, d.vote, d.authority))) ==
      Some(VisibleShape(c, Delegation(a, s, d)))
  {
    var rest := InitializeLines(c, s) + DelegateLines(c, d.vote, d.authority);
    InitializeReads(c, s, a.to);
    CreationReads(c, a, rest);
    DelegationIsRead(c, a.to, CreationLines(c, a) + rest, VisibleSystem(c, a), rest);
    DelegationBehind(c, a, VisibleSystem(c, a), s, d);
  }

  // ---- Tokens ----

  /** The last lines tell who pays for an account, unless it is the signer, and how much. */
  function FundingLength(lines: seq<Line>): nat
  {
    if |lines| >= 2 && KeyLine(lines, |lines| - 2, "Funded by") then 2 else 1
  }

  /** The creation that the last lines tell about, and the lines in front of them. */
  function SplitFunding(who: Viewer, to: key32, lines: seq<Line>): Option<(SystemInfo, seq<Line>)>
  {
    var n := FundingLength(lines);
    if |lines| < n || !AmountLine(lines, |lines| - 1, "Funded with") then None
    else
      var from := if n == 2 then lines[|lines| - 2].key else who.signer;
      if !(if n == 2 then who.IsNamed(from) else !who.expert) then None
      else Some((CreateAccount(from, to, lines[|lines| - 1].lamports), lines[..|lines| - n]))
  }

  lemma FundingReads(c: Config, front: seq<Line>, a: SystemInfo, to: key32)
    requires a.CreateAccount? && (front != [] ==> front[|front| - 1].title != "Funded by")
    ensures SplitFunding(WhoOf(c), to, front + FundingLines(c, a)) ==
      Some((CreateAccount(a.from, to, a.lamports), front))
  {
    var lines := front + FundingLines(c, a);
    assert lines[|lines| - 1] == Amount("Funded with", a.lamports);
    assert lines[..|front|] == front;
  }

  function ReadNewMint(who: Viewer, mint: key32, lines: seq<Line>): Option<Visible>
  {
    var parts := SplitFunding(who, mint, lines);
    if parts.None? then None
    else
      var token := ReadMint(mint, "Mint decimals", parts.value.1);
      if token.None? then None else Some(Together(MintAccount(parts.value.0, token.value)))
  }

  function ReadNewMultisig(who: Viewer, account: key32, lines: seq<Line>): Option<Visible>
  {
    var parts := SplitFunding(who, account, lines);
    if parts.None? then None
    else
      var token := ReadMultisig(account, parts.value.1);
      if token.None? then None else Some(Together(MultisigAccount(parts.value.0, token.value)))
  }

  /** A token account, on its own, with a transfer or with its funding. */
  function ReadTokenAccount(who: Viewer, account: key32, lines: seq<Line>): Option<Visible>
  {
    if !KeyLine(lines, 0, "For") || !KeyLine(lines, 1, "Token address") then None
    else if |lines| > 4 && KeyLine(lines, 2, "Funded by") && lines[3].TokenItem? then
      var transfer := ReadMovement(who, lines[3], lines[4..]);
      if transfer.None? then None
      else Some(Together(TokenTransfer(
        AssociatedToken(lines[2].key, account, lines[0].key, lines[1].key), transfer.value)))
    else if |lines| == 3 && KeyLine(lines, 2, "Funded by")
      then Some(One(AssociatedToken(lines[2].key, account, lines[0].key, lines[1].key)))
    else
      var parts := SplitFunding(who, account, lines);
      if parts.None? || |parts.value.1| != 2 then None
      else Some(Together(TokenAccount(parts.value.0, InitializeAccount(false, account, lines[1].key, lines[0].key))))
  }

  lemma MintAccountReads(c: Config, a: SystemInfo, t: TokenInfo)
    requires MintAccount(a, t).Valid()
    ensures ReadNewMint(WhoOf(c), t.mint, MintLines(t, "Mint decimals") + FundingLines(c, a)) ==
      Some(VisibleShape(c, MintAccount(a, t)))
  {
    FundingReads(c, MintLines(t, "Mint decimals"), a, t.mint);
    MintReadBack(t, "Mint decimals");
  }

  lemma MultisigAccountReads(c: Config, a: SystemInfo, t: TokenInfo)
    requires MultisigAccount(a, t).Valid()
    ensures ReadNewMultisig(WhoOf(c), t.account, RequiredSigners(t.m, t.n) + FundingLines(c, a)) ==
      Some(VisibleShape(c, MultisigAccount(a, t)))
  {
    FundingReads(c, RequiredSigners(t.m, t.n), a, t.account);
    MultisigReadBack(c, t.account, t.m, t.n);
  }

  lemma TokenAccountReads(c: Config, a: SystemInfo, t: TokenInfo)
    requires TokenAccount(a, t).Valid()
    ensures ReadTokenAccount(WhoOf(c), t.account,
      [Key("For", t.owner), Key("Token address", t.mint)] + FundingLines(c, a)) ==
      Some(VisibleShape(c, TokenAccount(a, t)))
  {
    var front: seq<Line> := [Key("For", t.owner), Key("Token address", t.mint)];
    FundingReads(c, front, a, t.account);
    var lines := front + FundingLines(c, a);
    assert lines[0] == front[0] && lines[1] == front[1];
  }

  lemma AssociatedReads(c: Config, i: Info)
    requires i.AssociatedToken?
    ensures ReadTokenAccount(WhoOf(c), i.address, PrintAssociatedToken(i).after) == Some(One(i))
  {
  }

  lemma TransferBehind(c: Config, front: seq<Line>, i: Info, t: TokenInfo)
    requires TokenTransfer(i, t).Valid() && |front| == 4
    requires front[..3] == PrintAssociatedToken(i).after && front[3] == TokenLine(c, "Transfer tokens", t.tokens)
    ensures var lines := front + TransferLines(c, t);
      && |lines| > 4 && lines[3] == front[3] && lines[4..] == TransferLines(c, t)
      && lines[0] == Key("For", i.owner) && lines[1] == Key("Token address", i.mint)
      && lines[2] == Key("Funded by", i.funder)
  {
    var lines := front + TransferLines(c, t);
    assert forall k :: 0 <= k < 3 ==> lines[k] == front[..3][k];
  }

  lemma TokenTransferReads(c: Config, i: Info, t: TokenInfo)
    requires TokenTransfer(i, t).Valid()
    ensures ReadTokenAccount(WhoOf(c), i.address,
      PrintAssociatedToken(i).after + [TokenLine(c, "Transfer tokens", t.tokens)] + TransferLines(c, t)) ==
      Some(Together(TokenTransfer(i, t)))
  {
    var p := TokenLine(c, "Transfer tokens", t.tokens);
    TransferReadBack(c, p, t);
    TransferBehind(c, PrintAssociatedToken(i).after + [p], i, t);
  }

  // ---- Splits and authorizations ----

  function ReadPlainSplit(who: Viewer, lamports: u64, lines: seq<Line>, k: nat): Option<StakeInfo>
    requires k + 2 <= |lines|
  {
    var authority := Authority(who, lines, if SeedAt(lines, k + 2) then k + 4 else k + 2);
    if !KeyLine(lines, k, "From") || !KeyLine(lines, k + 1, "To") || authority.None? then None
    else Some(Split(lines[k].key, authority.value, lines[k + 1].key, lamports))
  }

  function ReadSplit(who: Viewer, lamports: u64, lines: seq<Line>): Option<Visible>
  {
    var prefunded := AmountLine(lines, 0, "Prefund");
    var k := if prefunded then 2 else 0;
    if |lines| < k + 2 then None
    else
      var split := ReadPlainSplit(who, lamports, lines, k);
      var seeded := SeedAt(lines, k + 2);
      if split.None? || ((seeded || prefunded) && !who.expert) then None
      else if !prefunded then
        Some(if seeded then Together(SeededSplit(lines[k + 2].key, lines[k + 3].text, split.value))
             else One(Stake(split.value)))
      else if !KeyLine(lines, 1, "Prefunder") then None
      else
        var prefund := Transfer(lines[1].key, lines[1].key, lines[0].lamports);
        Some(Together(if seeded then PrefundedSeededSplit(prefund, lines[k + 2].key, lines[k + 3].text, split.value)
                      else PrefundedSplit(prefund, split.value)))
  }

  lemma SplitReads(c: Config, s: StakeInfo)
    requires s.Split?
    ensures ReadSplit(WhoOf(c), s.lamports, SplitScript(c, [], s, []).Lines()) == Some(One(Stake(s)))
  {
  }

  /** Outside expert mode all of them show only the split. */
  lemma HiddenSplitReads(c: Config, shape: Shape)
    requires shape.Valid() && (shape.SeededSplit? || shape.PrefundedSplit? || shape.PrefundedSeededSplit?) && !c.expert
    ensures ReadSplit(WhoOf(c), shape.stake.lamports, Render(c, shape).Lines()) == Some(One(Stake(shape.stake)))
  {
    SplitsDrawn(c, shape);
    SplitReads(c, shape.stake);
  }

  lemma SeededSplitReads(c: Config, base: key32, seed: string, s: StakeInfo)
    requires s.Split? && c.expert
    ensures ReadSplit(WhoOf(c), s.lamports, SplitScript(c, [], s, SeedLines(c, base, seed)).Lines()) ==
      Some(Together(SeededSplit(base, seed, s)))
  {
  }

  lemma PrefundedSplitReads(c: Config, t: SystemInfo, s: StakeInfo)
    requires t.Transfer? && s.Split? && c.expert
    ensures ReadSplit(WhoOf(c), s.lamports, SplitScript(c, PrefundLines(c, t), s, []).Lines()) ==
      Some(VisibleShape(c, PrefundedSplit(t, s)))
  {
  }

  lemma PrefundedSeededSplitReads(c: Config, t: SystemInfo, base: key32, seed: string, s: StakeInfo)
    requires t.Transfer? && s.Split? && c.expert
    ensures ReadSplit(WhoOf(c), s.lamports, SplitScript(c, PrefundLines(c, t), s, SeedLines(c, base, seed)).Lines()) ==
      Some(VisibleShape(c, PrefundedSeededSplit(t, base, seed, s)))
  {
  }

  /** One authorization, or two of them. */
  function ReadStakeAuthority(who: Viewer, account: key32, lines: seq<Line>): Option<Visible>
  {
    var one := KeyLine(lines, 0, "New authorities");
    var two := KeyLine(lines, 0, "New stake auth") && KeyLine(lines, 1, "New withdraw auth");
    if one || two then
      var n := if one then 1 else 2;
      var custodian := if KeyLine(lines, n, "Custodian") then Some(lines[n].key) else None;
      var authority := Authority(who, lines, if custodian.Some? then n + 1 else n);
      if authority.None? then None
      else Some(StakePair(account, lines[0].key, if one then None else Some(lines[1].key), custodian, authority.value))
    else
      var stake := ReadAuthorize(who, account, lines);
      if stake.None? then None else Some(One(Stake(stake.value)))
  }

  function ReadVoteAuthority(who: Viewer, account: key32, lines: seq<Line>): Option<Visible>
  {
    var one := KeyLine(lines, 0, "New authorities");
    var two := KeyLine(lines, 0, "New vote auth") && KeyLine(lines, 1, "New withdraw auth");
    if one || two then
      var authority := Authority(who, lines, if one then 1 else 2);
      if authority.None? then None
      else Some(VotePair(account, lines[0].key, if one then None else Some(lines[1].key), authority.value))
    else
      var vote := ReadVoteKey(who, "Set vote auth", account, lines);
      if vote.None? then None else Some(One(Vote(vote.value)))
  }

  lemma StakePairReads(c: Config, account: key32, a: key32, b: Option<key32>, custodian: Option<key32>,
      authority: key32)
    ensures ReadStakeAuthority(WhoOf(c), account,
      PairLines("New stake auth", a, b) + KeyIfAny("Custodian", custodian) + AuthorizedBy(c, authority)) ==
      Some(StakePair(account, a, b, custodian, authority))
  {
  }

  lemma VotePairReads(c: Config, account: key32, a: key32, b: Option<key32>, authority: key32)
    ensures ReadVoteAuthority(WhoOf(c), account, PairLines("New vote auth", a, b) + AuthorizedBy(c, authority)) ==
      Some(VotePair(account, a, b, authority))
  {
  }

  lemma StakeAuthorityReads(c: Config, s: StakeInfo)
    requires s.Authorize?
    ensures ReadStakeAuthority(WhoOf(c), s.account, PrintStake(c, s).Lines()) == Some(One(Stake(VisibleStake(c, s))))
  {
    AuthorizeReadBack(c, s);
    var lines := PrintStake(c, s).Lines();
    assert lines[0] == Key(RoleTitle(s.role, "New stake auth"), c.KeyAt(s.newAuthority));
    assert |lines| >= 2 ==> lines[1].title == "Authorized by" || lines[1].title == "Custodian";
  }

  lemma VoteAuthorityReads(c: Config, v: VoteInfo)
    requires v.VoteAuthorize?
    ensures ReadVoteAuthority(WhoOf(c), v.account, PrintVote(c, v).Lines()) == Some(One(Vote(VisibleVote(c, v))))
  {
    var lines := PrintVote(c, v).Lines();
    assert lines[0] == Key(RoleTitle(v.role, "New vote auth"), c.KeyAt(v.newAuthority));
    assert |lines| >= 2 ==> lines[1].title == "Authorized by";
  }

  // ---- The title decides ----

  function OneSystem(s: Option<SystemInfo>): Option<Visible>
  {
    if s.None? then None else Some(One(System(s.value)))
  }

  function OneStake(s: Option<StakeInfo>): Option<Visible>
  {
    if s.None? then None else Some(One(Stake(s.value)))
  }

  function OneVote(v: Option<VoteInfo>): Option<Visible>
  {
    if v.None? then None else Some(One(Vote(v.value)))
  }

  function OneToken(t: Option<TokenInfo>): Option<Visible>
  {
    if t.None? then None else Some(One(Token(t.value)))
  }

  predicate IsSystemTitle(title: cstring)
  {
    || title == "Create account" || title == "Assign acct" || title == "Advance nonce" || title == "Init nonce acct"
    || title == "Set nonce auth" || title == "Allocate acct"
  }

  predicate IsStakeTitle(title: cstring)
  {
    title == "Init stake acct" || title == "Deactivate stake" || title == "Set lockup" || title == "Merge"
  }

  predicate IsVoteTitle(title: cstring)
  {
    title == "Init vote acct" || title == "Update validator" || title == "Update commission"
  }

  predicate IsCreatedTitle(title: cstring)
  {
    title == "Create stake acct" || title == "Create nonce acct" || title == "Create vote acct"
  }

  /** The titles that single instructions share with sequences, and those of created tokens. */
  predicate IsMixedTitle(title: cstring)
  {
    || title == "Delegate from" || title == "Set stake auth" || title == "Set vote auth"
    || title == "Create token account"
    || title == "Create token mint" || title == "Create multisig"
  }

  function ReadMixed(who: Viewer, p: Line, lines: seq<Line>): Option<Visible>
    requires p.Key?
  {
    if p.title == "Delegate from" then
      if Titled(lines, 0, "Deposit") then ReadCreated(who, p.title, p.key, lines)
      else OneStake(ReadStakeKey(who, p.title, p.key, lines))
    else if p.title == "Set stake auth" then ReadStakeAuthority(who, p.key, lines)
    else if p.title == "Set vote auth" then ReadVoteAuthority(who, p.key, lines)
    else if p.title == "Create token account" then ReadTokenAccount(who, p.key, lines)
    else if p.title == "Create token mint" then ReadNewMint(who, p.key, lines)
    else ReadNewMultisig(who, p.key, lines)
  }

  function ReadAmount(who: Viewer, p: Line, lines: seq<Line>): Option<Visible>
    requires p.Amount?
  {
    if p.title == "Split stake" then ReadSplit(who, p.lamports, lines)
    else if p.title == "Stake withdraw" then OneStake(ReadStake(who, p, lines))
    else if p.title == "Vote withdraw" then OneVote(ReadVote(who, p, lines))
    else OneSystem(ReadSystem(who, p, lines))
  }

  function ReadSlots(who: Viewer, p: Line, lines: seq<Line>): Option<Visible>
  {
    if p.TokenItem? then OneToken(ReadToken(who, p, lines))
    else if p.Amount? then ReadAmount(who, p, lines)
    else if !p.Key? then None
    else if IsMixedTitle(p.title) then ReadMixed(who, p, lines)
    else if IsCreatedTitle(p.title) then ReadCreated(who, p.title, p.key, lines)
    else if IsSystemTitle(p.title) then OneSystem(ReadSystem(who, p, lines))
    else if IsStakeTitle(p.title) then OneStake(ReadStake(who, p, lines))
    else if IsVoteTitle(p.title) then OneVote(ReadVote(who, p, lines))
    else OneToken(ReadToken(who, p, lines))
  }

  /** What the slots show, read back. */
  function Read(who: Viewer, script: Script): Option<Visible>
  {
    ReadSlots(who, script.primary, script.Lines())
  }

  lemma SystemTitles(c: Config, s: SystemInfo)
    ensures var p := PrintSystem(c, s).primary;
      if s.Transfer? || s.WithdrawNonce? then p.Amount? && (p.title == "Transfer" || p.title == "Nonce withdraw")
      else p.Key? && IsSystemTitle(p.title)
  {
  }

  lemma SystemTitleOnly(title: cstring)
    requires IsSystemTitle(title)
    ensures !IsMixedTitle(title) && !IsCreatedTitle(title)
  {
  }

  lemma SystemAmountIsRead(c: Config, p: Line, lines: seq<Line>)
    requires p.Amount? && (p.title == "Transfer" || p.title == "Nonce withdraw")
    ensures ReadSlots(WhoOf(c), p, lines) == OneSystem(ReadSystem(WhoOf(c), p, lines))
  {
  }

  lemma StakeTitles(c: Config, s: StakeInfo)
    requires !s.Split? && !s.Withdraw?
    ensures var p := PrintStake(c, s).primary;
      p.Key? && (if s.Authorize? then p.title == "Set stake auth" else if s.Delegate? then p.title == "Delegate from"
                 else IsStakeTitle(p.title))
  {
  }

  lemma VoteTitles(c: Config, v: VoteInfo)
    requires !v.VoteWithdraw?
    ensures var p := PrintVote(c, v).primary;
      p.Key? && (if v.VoteAuthorize? then p.title == "Set vote auth" else IsVoteTitle(p.title))
  {
  }

  lemma TokenTitles(c: Config, t: TokenInfo)
    ensures var p := PrintToken(c, t).primary; p.TokenItem? || (p.Key? && IsTokenTitle(p.title))
  {
  }

  predicate IsTokenTitle(title: cstring)
  {
    || title == "Init mint" || title == "Init acct" || title == "Init multisig" || title == "Revoke delegate"
    || title == "Set authority" || title == "Clear authority" || title == "Close token account"
    || title == "Freeze token account" || title == "Thaw token account" || title == "Approve delegate"
    || title == "Sync native account"
  }

  lemma TokenTitleOnly(title: cstring)
    requires IsTokenTitle(title)
    ensures !IsMixedTitle(title) && !IsCreatedTitle(title)
    ensures !IsSystemTitle(title) && !IsStakeTitle(title) && !IsVoteTitle(title)
  {
    TokenTitleNotMixed(title);
    TokenTitleNotSystem(title);
    TokenTitleNotCreated(title);
    TokenTitleNotStake(title);
    TokenTitleNotVote(title);
  }

  lemma TokenTitleNotMixed(title: cstring)
    requires IsTokenTitle(title)
    ensures !IsMixedTitle(title)
  {
  }

  lemma TokenTitleNotSystem(title: cstring)
    requires IsTokenTitle(title)
    ensures !IsSystemTitle(title)
  {
  }

  lemma TokenTitleNotCreated(title: cstring)
    requires IsTokenTitle(title)
    ensures !IsCreatedTitle(title)
  {
  }

  lemma TokenTitleNotStake(title: cstring)
    requires IsTokenTitle(title)
    ensures !IsStakeTitle(title)
  {
  }

  lemma TokenTitleNotVote(title: cstring)
    requires IsTokenTitle(title)
    ensures !IsVoteTitle(title)
  {
  }

  lemma SystemReads(c: Config, s: SystemInfo)
    ensures Read(WhoOf(c), PrintSystem(c, s)) == Some(One(System(VisibleSystem(c, s))))
  {
    var p := PrintSystem(c, s).primary;
    SystemReadBack(c, s);
    SystemTitles(c, s);
    if p.Amount? {
      SystemAmountIsRead(c, p, PrintSystem(c, s).Lines());
    } else {
      SystemTitleOnly(p.title);
    }
  }

  lemma DelegateAloneReads(c: Config, s: StakeInfo)
    requires s.Delegate?
    ensures Read(WhoOf(c), PrintStake(c, s)) == Some(One(Stake(s)))
  {
    StakeKeyReadBack(c, s);
    assert PrintStake(c, s).Lines() == DelegateLines(c, s.vote, s.authority);
  }

  lemma StakeOtherReads(c: Config, s: StakeInfo)
    requires !s.Split? && !s.Withdraw? && !s.Authorize? && !s.Delegate?
    ensures Read(WhoOf(c), PrintStake(c, s)) == Some(One(Stake(VisibleStake(c, s))))
  {
    StakeTitles(c, s);
    StakeReadBack(c, s);
    StakeTitleOnly(PrintStake(c, s).primary.title);
  }

  lemma StakeTitleOnly(title: cstring)
    requires IsStakeTitle(title)
    ensures !IsMixedTitle(title) && !IsCreatedTitle(title) && !IsSystemTitle(title)
  {
  }

  lemma StakeReads(c: Config, s: StakeInfo)
    ensures Read(WhoOf(c), PrintStake(c, s)) == Some(One(Stake(VisibleStake(c, s))))
  {
    if s.Split? {
      SplitReads(c, s);
    } else if s.Withdraw? {
      StakeReadBack(c, s);
    } else if s.Authorize? {
      StakeAuthorityReads(c, s);
    } else if s.Delegate? {
      DelegateAloneReads(c, s);
    } else {
      StakeOtherReads(c, s);
    }
  }

  lemma VoteTitleOnly(title: cstring)
    requires IsVoteTitle(title)
    ensures !IsMixedTitle(title) && !IsCreatedTitle(title) && !IsSystemTitle(title) && !IsStakeTitle(title)
  {
  }

  lemma VoteReads(c: Config, v: VoteInfo)
    ensures Read(WhoOf(c), PrintVote(c, v)) == Some(One(Vote(VisibleVote(c, v))))
  {
    if v.VoteAuthorize? {
      VoteAuthorityReads(c, v);
    } else if v.VoteWithdraw? {
      VoteReadBack(c, v);
    } else {
      VoteTitles(c, v);
      VoteTitleOnly(PrintVote(c, v).primary.title);
      VoteReadBack(c, v);
    }
  }

  lemma TokenReads(c: Config, t: TokenInfo)
    ensures Read(WhoOf(c), PrintToken(c, t)) == Some(One(Token(VisibleToken(c, t))))
  {
    TokenTitles(c, t);
    TokenReadBack(c, t);
    if PrintToken(c, t).primary.Key? {
      TokenTitleOnly(PrintToken(c, t).primary.title);
    }
  }

  lemma AloneReads(c: Config, i: Info)
    requires Alone(i).Valid()
    ensures Read(WhoOf(c), RenderAlone(c, i)) == Some(One(VisibleInfo(c, i)))
  {
    match i
    case System(s) => SystemReads(c, s);
    case Stake(s) => StakeReads(c, s);
    case Vote(v) => VoteReads(c, v);
    case Token(t) => TokenReads(c, t);
    case AssociatedToken(_, _, _, _) =>
      AssociatedReads(c, i);
      AccountIsRead(c, i.address, PrintAssociatedToken(i).after);
  }

  lemma CreatedIsRead(c: Config, title: cstring, key: key32, lines: seq<Line>)
    requires IsCreatedTitle(title) && !IsMixedTitle(title)
    ensures Read(WhoOf(c), Just(Key(title, key), lines)) == ReadCreated(WhoOf(c), title, key, lines)
  {
    JustLines(Key(title, key), lines);
  }

  lemma CreatedTitleOnly(title: cstring)
    requires IsCreatedTitle(title)
    ensures !IsMixedTitle(title)
  {
  }

  lemma CreatedReads(c: Config, shape: Shape)
    requires shape.Valid() && (shape.StakeAccount? || shape.NonceAccount? || shape.VoteAccount?)
    ensures Read(WhoOf(c), Render(c, shape)) == Some(VisibleShape(c, shape))
  {
    var p := Render(c, shape).primary;
    assert p.Key? && IsCreatedTitle(p.title);
    CreatedTitleOnly(p.title);
    CreatedIsRead(c, p.title, p.key, Render(c, shape).after);
    if shape.StakeAccount? {
      StakeAccountReads(c, shape.creation, shape.stake);
    } else if shape.NonceAccount? {
      NonceAccountReads(c, shape.creation, shape.nonce);
    } else {
      VoteAccountReads(c, shape.creation, shape.vote);
    }
  }

  lemma MixedIsRead(c: Config, title: cstring, key: key32, lines: seq<Line>)
    requires IsMixedTitle(title)
    ensures Read(WhoOf(c), Just(Key(title, key), lines)) ==
      ReadMixed(WhoOf(c), Key(title, key), lines)
  {
    JustLines(Key(title, key), lines);
  }

  lemma DelegatedIsRead(c: Config, to: key32, lines: seq<Line>)
    requires Titled(lines, 0, "Deposit")
    ensures Read(WhoOf(c), Just(Key("Delegate from", to), lines)) ==
      ReadCreated(WhoOf(c), "Delegate from", to, lines)
  {
    MixedIsRead(c, "Delegate from", to, lines);
  }

  lemma DelegatedReads(c: Config, a: SystemInfo, s: StakeInfo, d: StakeInfo)
    requires Delegation(a, s, d).Valid()
    ensures Read(WhoOf(c), Render(c, Delegation(a, s, d))) == Some(VisibleShape(c, Delegation(a, s, d)))
  {
    var lines := CreationLines(c, a) + (InitializeLines(c, s) + DelegateLines(c, d.vote, d.authority));
    DelegationReads(c, a, s, d);
    DepositFirst(c, a, InitializeLines(c, s) + DelegateLines(c, d.vote, d.authority));
    DelegatedIsRead(c, a.to, lines);
    Grouped(CreationLines(c, a), InitializeLines(c, s), DelegateLines(c, d.vote, d.authority));
  }

  lemma DepositFirst(c: Config, a: SystemInfo, rest: seq<Line>)
    requires a.CreateAccount? || a.CreateWithSeed?
    ensures Titled(CreationLines(c, a) + rest, 0, "Deposit")
  {
  }

  lemma MintsRead(c: Config, a: SystemInfo, t: TokenInfo)
    requires MintAccount(a, t).Valid()
    ensures Read(WhoOf(c), CreateMint(c, a, t)) == Some(VisibleShape(c, MintAccount(a, t)))
  {
    MixedIsRead(c, "Create token mint", t.mint, MintLines(t, "Mint decimals") + FundingLines(c, a));
    MintAccountReads(c, a, t);
  }

  lemma MultisigsRead(c: Config, a: SystemInfo, t: TokenInfo)
    requires MultisigAccount(a, t).Valid()
    ensures Read(WhoOf(c), CreateMultisig(c, a, t)) == Some(VisibleShape(c, MultisigAccount(a, t)))
  {
    MixedIsRead(c, "Create multisig", t.account, RequiredSigners(t.m, t.n) + FundingLines(c, a));
    MultisigAccountReads(c, a, t);
  }

  lemma AccountIsRead(c: Config, account: key32, lines: seq<Line>)
    ensures Read(WhoOf(c), Just(Key("Create token account", account), lines)) ==
      ReadTokenAccount(WhoOf(c), account, lines)
  {
    MixedIsRead(c, "Create token account", account, lines);
  }

  lemma TokensRead(c: Config, shape: Shape)
    requires shape.Valid()
    requires shape.MintAccount? || shape.TokenAccount? || shape.MultisigAccount? || shape.TokenTransfer?
    ensures Read(WhoOf(c), Render(c, shape)) == Some(VisibleShape(c, shape))
  {
    match shape
    case MintAccount(a, t) => MintsRead(c, a, t);
    case MultisigAccount(a, t) => MultisigsRead(c, a, t);
    case TokenAccount(a, t) =>
      AccountIsRead(c, t.account, CreateToken(c, a, t).after);
      TokenAccountReads(c, a, t);
    case TokenTransfer(i, t) =>
      AccountIsRead(c, i.address, CreateAndTransfer(c, i, t).after);
      TokenTransferReads(c, i, t);
  }

  lemma StakeAuthorityIsRead(c: Config, account: key32, lines: seq<Line>)
    ensures ReadMixed(WhoOf(c), Key("Set stake auth", account), lines) ==
      ReadStakeAuthority(WhoOf(c), account, lines)
  {
  }

  lemma VoteAuthorityIsRead(c: Config, account: key32, lines: seq<Line>)
    ensures ReadMixed(WhoOf(c), Key("Set vote auth", account), lines) ==
      ReadVoteAuthority(WhoOf(c), account, lines)
  {
  }

  lemma StakePairsRead(c: Config, x: StakeInfo, y: StakeInfo)
    requires StakeAuthorities(x, y).Valid()
    ensures Read(WhoOf(c), Render(c, StakeAuthorities(x, y))) == Some(VisibleShape(c, StakeAuthorities(x, y)))
  {
    var b := if x.newAuthority.Same(y.newAuthority) then None else Some(c.KeyAt(y.newAuthority));
    StakePairReads(c, x.account, c.KeyAt(x.newAuthority), b, y.custodian, y.authority);
    MixedIsRead(c, "Set stake auth", x.account, AuthorizeBothStake(c, x, y).after);
    StakeAuthorityIsRead(c, x.account, AuthorizeBothStake(c, x, y).after);
  }

  lemma VotePairsRead(c: Config, x: VoteInfo, y: VoteInfo)
    requires VoteAuthorities(x, y).Valid()
    ensures Read(WhoOf(c), Render(c, VoteAuthorities(x, y))) == Some(VisibleShape(c, VoteAuthorities(x, y)))
  {
    var b := if x.newAuthority.Same(y.newAuthority) then None else Some(c.KeyAt(y.newAuthority));
    VotePairReads(c, x.account, c.KeyAt(x.newAuthority), b, y.authority);
    MixedIsRead(c, "Set vote auth", x.account, AuthorizeBothVote(c, x, y).after);
    VoteAuthorityIsRead(c, x.account, AuthorizeBothVote(c, x, y).after);
  }

  lemma AmountIsRead(c: Config, script: Script, lamports: u64)
    requires script.primary == Amount("Split stake", lamports)
    ensures Read(WhoOf(c), script) == ReadSplit(WhoOf(c), lamports, script.Lines())
  {
  }

  lemma SplitsRead(c: Config, shape: Shape)
    requires shape.Valid() && (shape.SeededSplit? || shape.PrefundedSplit? || shape.PrefundedSeededSplit?)
    ensures Read(WhoOf(c), Render(c, shape)) == Some(VisibleShape(c, shape))
  {
    AmountIsRead(c, Render(c, shape), shape.stake.lamports);
    if !c.expert {
      HiddenSplitReads(c, shape);
    } else {
      match shape
      case SeededSplit(base, seed, s) => SeededSplitReads(c, base, seed, s);
      case PrefundedSplit(t, s) => PrefundedSplitReads(c, t, s);
      case PrefundedSeededSplit(t, base, seed, s) => PrefundedSeededSplitReads(c, t, base, seed, s);
    }
  }

  /** Whatever is recognised can be read back from the slots, up to what is not visible. */
  lemma ShapeReads(c: Config, shape: Shape)
    requires shape.Valid()
    ensures Read(WhoOf(c), Render(c, shape)) == Some(VisibleShape(c, shape))
  {
    match shape
    case Alone(i) => AloneReads(c, i);
    case StakeAccount(_, _) => CreatedReads(c, shape);
    case NonceAccount(_, _) => CreatedReads(c, shape);
    case VoteAccount(_, _) => CreatedReads(c, shape);
    case Delegation(a, s, d) => DelegatedReads(c, a, s, d);
    case StakeAuthorities(x, y) => StakePairsRead(c, x, y);
    case VoteAuthorities(x, y) => VotePairsRead(c, x, y);
    case SeededSplit(_, _, _) => SplitsRead(c, shape);
    case PrefundedSplit(_, _) => SplitsRead(c, shape);
    case PrefundedSeededSplit(_, _, _, _) => SplitsRead(c, shape);
    case _ => TokensRead(c, shape);
  }

  lemma AlikeReads(who: Viewer, a: Script, b: Script)
    requires Alike(a, b)
    ensures Read(who, a) == Read(who, b)
  {
  }

  // ---- Two messages ----

  /** What is visible names keys and no places in a header. */
  predicate Fixed(v: Visible)
  {
    match v
    case One(Stake(s)) => s.Authorize? ==> s.newAuthority.InData?
    case One(Vote(w)) => w.VoteAuthorize? ==> w.newAuthority.InData?
    case _ => true
  }

  lemma VisibleFixed(c: Config, shape: Shape)
    requires shape.Valid()
    ensures Fixed(VisibleShape(c, shape))
  {
  }

  lemma SystemSame(c: Config, d: Config, s: SystemInfo)
    requires SameOptions(c, d)
    ensures PrintSystem(c, s) == PrintSystem(d, s)
  {
  }

  lemma StakeSame(c: Config, d: Config, s: StakeInfo)
    requires SameOptions(c, d) && (s.Authorize? ==> s.newAuthority.InData?)
    ensures PrintStake(c, s) == PrintStake(d, s)
  {
  }

  lemma VoteSame(c: Config, d: Config, v: VoteInfo)
    requires SameOptions(c, d) && (v.VoteAuthorize? ==> v.newAuthority.InData?)
    ensures PrintVote(c, v) == PrintVote(d, v)
  {
  }

  lemma TokenSame(c: Config, d: Config, t: TokenInfo)
    requires SameOptions(c, d)
    ensures PrintToken(c, t) == PrintToken(d, t)
  {
  }

  lemma OneDrawnSame(c: Config, d: Config, i: Info)
    requires SameOptions(c, d) && Alone(i).Valid() && Fixed(One(i))
    ensures RenderAlone(c, i) == RenderAlone(d, i)
  {
    match i
    case System(s) => SystemSame(c, d, s);
    case Stake(s) => StakeSame(c, d, s);
    case Vote(v) => VoteSame(c, d, v);
    case Token(t) => TokenSame(c, d, t);
    case AssociatedToken(_, _, _, _) =>
  }

  lemma CreatedDrawnSame(c: Config, d: Config, shape: Shape)
    requires SameOptions(c, d) && shape.Valid()
    requires shape.StakeAccount? || shape.NonceAccount? || shape.VoteAccount? || shape.TokenTransfer?
    ensures Render(c, shape) == Render(d, shape)
  {
  }

  lemma TogetherDrawnSame(c: Config, d: Config, shape: Shape)
    requires SameOptions(c, d) && Drawable(Together(shape))
    ensures Draw(c, Together(shape)) == Draw(d, Together(shape))
  {
    if shape.StakeAccount? || shape.NonceAccount? || shape.VoteAccount? || shape.TokenTransfer? {
      CreatedDrawnSame(c, d, shape);
    }
  }

  lemma DrawnSame(c: Config, d: Config, v: Visible)
    requires SameOptions(c, d) && Drawable(v) && Fixed(v)
    ensures Draw(c, v) == Draw(d, v)
  {
    match v
    case One(i) => OneDrawnSame(c, d, i);
    case Together(shape) => TogetherDrawnSame(c, d, shape);
    case _ =>
  }

  lemma ShapeTells(c: Config, d: Config, a: Shape, b: Shape)
    requires SameOptions(c, d) && a.Valid() && b.Valid()
    ensures Alike(Render(c, a), Render(d, b)) <==> VisibleShape(c, a) == VisibleShape(d, b)
  {
    ShapeReads(c, a);
    ShapeReads(d, b);
    ShapeDrawn(c, a);
    ShapeDrawn(d, b);
    VisibleFixed(c, a);
    if Alike(Render(c, a), Render(d, b)) {
      AlikeReads(WhoOf(c), Render(c, a), Render(d, b));
    } else if VisibleShape(c, a) == VisibleShape(d, b) {
      DrawnSame(c, d, VisibleShape(c, a));
    }
  }

  /**
   * Two recognised sequences, of one message or of two, fill the slots alike exactly when the same of
   * them is visible.
   */
  lemma SequenceTells(c: Config, d: Config, a: seq<Info>, b: seq<Info>)
    requires SameOptions(c, d) && ShapeOf(a).Some? && ShapeOf(b).Some?
    ensures Alike(Render(c, ShapeOf(a).value), Render(d, ShapeOf(b).value)) <==>
      VisibleSequence(c, a) == VisibleSequence(d, b)
  {
    ShapeTells(c, d, ShapeOf(a).value, ShapeOf(b).value);
  }

  // ---- New authorities on one line or on two ----

  /** Both are taken from the message header, from under the same index. */
  predicate OneIndex(p: Place, q: Place)
  {
    p.InHeader? && q.InHeader? && p.index == q.index
  }

  /** The lines tell both authorities: on one line exactly for one index of the header, else on two. */
  predicate TellsBoth(lines: seq<Line>, title: cstring, one: bool, first: key32, withdrawer: key32)
  {
    && |lines| >= 1 && (lines[0].title == "New authorities" <==> one)
    && (if one then lines[0] == Key("New authorities", first) && first == withdrawer
        else |lines| >= 2 && lines[0] == Key(title, first) && lines[1] == Key("New withdraw auth", withdrawer))
  }

  lemma OneStakeLineIff(c: Config, a: Info, b: Info)
    requires ShapeOf([a, b]).Some? && a.Stake?
    ensures a.stake.Authorize? && b.Stake? && b.stake.Authorize?
    ensures var p, q := a.stake.newAuthority, b.stake.newAuthority;
      TellsBoth(Render(c, ShapeOf([a, b]).value).Lines(), "New stake auth", OneIndex(p, q), c.KeyAt(p), c.KeyAt(q))
  {
    JustLines(Key("Set stake auth", a.stake.account), AuthorizeBothStake(c, a.stake, b.stake).after);
  }

  lemma OneVoteLineIff(c: Config, a: Info, b: Info)
    requires ShapeOf([a, b]).Some? && a.Vote?
    ensures a.vote.VoteAuthorize? && b.Vote? && b.vote.VoteAuthorize?
    ensures var p, q := a.vote.newAuthority, b.vote.newAuthority;
      TellsBoth(Render(c, ShapeOf([a, b]).value).Lines(), "New vote auth", OneIndex(p, q), c.KeyAt(p), c.KeyAt(q))
  {
    JustLines(Key("Set vote auth", a.vote.account), AuthorizeBothVote(c, a.vote, b.vote).after);
  }

  /** A pair of authorizations of one stake account. */
  function AuthorityPair(account: key32, authority: key32, p: Place, q: Place): (infos: seq<Info>)
    ensures ShapeOf(infos).Some? <==> p.InHeader? == q.InHeader?
  {
    [Stake(Authorize(account, authority, p, None, First)), Stake(Authorize(account, authority, q, None, Withdrawer))]
  }

  /** A key is shown as both new authorities, on two lines. */
  predicate ShownTwice(lines: seq<Line>, key: key32)
  {
    |lines| >= 2 && lines[0] == Key("New stake auth", key) && lines[1] == Key("New withdraw auth", key)
  }

  /** One key in the data of both instructions is shown twice. */
  lemma OneKeyTwoLines(c: Config, account: key32, authority: key32, key: key32)
    ensures var infos := AuthorityPair(account, authority, InData(key), InData(key));
      ShownTwice(Render(c, ShapeOf(infos).value).Lines(), key)
  {
    var infos := AuthorityPair(account, authority, InData(key), InData(key));
    OneStakeLineIff(c, infos[0], infos[1]);
    assert infos == [infos[0], infos[1]];
  }

  /** So is one key that stands twice in the header. */
  lemma OneKeyTwoIndices(c: Config, account: key32, authority: key32, i: byte, j: byte)
    requires i != j && c.KeyAt(InHeader(i)) == c.KeyAt(InHeader(j))
    ensures var infos := AuthorityPair(account, authority, InHeader(i), InHeader(j));
      ShownTwice(Render(c, ShapeOf(infos).value).Lines(), c.KeyAt(InHeader(i)))
  {
    var infos := AuthorityPair(account, authority, InHeader(i), InHeader(j));
    OneStakeLineIff(c, infos[0], infos[1]);
    assert infos == [infos[0], infos[1]];
  }
}
