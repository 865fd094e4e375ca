/** Which instruction sequences can be printed. */
module Recogniser {
  import opened Bytes
  import opened Infos
  import opened Summary
  import opened Printers

  // ---- The known sequences ----

  datatype Shape =
    | Alone(info: Info)
    | StakeAccount(creation: SystemInfo, stake: StakeInfo)
    | NonceAccount(creation: SystemInfo, nonce: SystemInfo)
    | VoteAccount(creation: SystemInfo, vote: VoteInfo)
    | MintAccount(creation: SystemInfo, token: TokenInfo)
    | TokenAccount(creation: SystemInfo, token: TokenInfo)
    | MultisigAccount(creation: SystemInfo, token: TokenInfo)
    | StakeAuthorities(first: StakeInfo, stake: StakeInfo)
    | VoteAuthorities(voter: VoteInfo, vote: VoteInfo)
    | SeededSplit(base: key32, seed: string, stake: StakeInfo)
    | TokenTransfer(info: Info, token: TokenInfo)
    | Delegation(creation: SystemInfo, stake: StakeInfo, delegate: StakeInfo)
    | PrefundedSplit(prefund: SystemInfo, stake: StakeInfo)
    | PrefundedSeededSplit(prefund: SystemInfo, base: key32, seed: string, stake: StakeInfo)
  {
    predicate Created()
      requires StakeAccount? || NonceAccount? || VoteAccount? || Delegation?
    {
      creation.CreateAccount? || creation.CreateWithSeed?
    }

    predicate Valid()
    {
      match this
      case Alone(i) => i.System? || i.Stake? || i.Vote? || i.Token? || i.AssociatedToken?
      case StakeAccount(_, s) => Created() && (s.Initialize? || s.InitializeChecked?)
      case NonceAccount(_, n) => Created() && n.InitializeNonce?
      case VoteAccount(_, v) => Created() && v.VoteInitialize?
      case MintAccount(a, t) => a.CreateAccount? && t.InitializeMint?
      case TokenAccount(a, t) => a.CreateAccount? && t.InitializeAccount?
      case MultisigAccount(a, t) => a.CreateAccount? && t.InitializeMultisig?
      case StakeAuthorities(x, y) => x.Authorize? && y.Authorize?
      case VoteAuthorities(x, y) => x.VoteAuthorize? && y.VoteAuthorize?
      case SeededSplit(_, _, s) => s.Split?
      case TokenTransfer(i, t) => i.AssociatedToken? && t.TransferChecked?
      case Delegation(_, s, d) => Created() && s.Initialize? && d.Delegate?
      case PrefundedSplit(t, s) => t.Transfer? && s.Split?
      case PrefundedSeededSplit(t, _, _, s) => t.Transfer? && s.Split?
    }
  }

  function One(a: Info): (shape: Option<Shape>)
    ensures shape.Some? ==> shape.value.Valid()
  {
    if a.System? || a.Stake? || a.Vote? || a.Token? || a.AssociatedToken? then Some(Alone(a)) else None
  }

  /** After an account was created, with a seed or without. */
  function AfterCreate(a: SystemInfo, b: Info): (shape: Option<Shape>)
    requires a.CreateAccount? || a.CreateWithSeed?
    ensures shape.Some? ==> shape.value.Valid()
  {
    match b
    case Stake(s) =>
      if s.Initialize? || s.InitializeChecked? then Some(StakeAccount(a, s))
      else if s.Split? then Some(if a.CreateAccount? then Alone(b) else SeededSplit(a.base, a.seed, s))
      else None
    case System(s) => if s.InitializeNonce? then Some(NonceAccount(a, s)) else None
    case Vote(v) => if v.VoteInitialize? then Some(VoteAccount(a, v)) else None
    case Token(t) =>
      if a.CreateWithSeed? then None
      else if t.InitializeMint? then Some(MintAccount(a, t))
      else if t.InitializeAccount? then Some(TokenAccount(a, t))
      else if t.InitializeMultisig? then Some(MultisigAccount(a, t))
      else None
    case _ => None
  }

  /** Staker or voter come before the withdrawer, or the pair is not recognised. */
  function Two(a: Info, b: Info): (shape: Option<Shape>)
    ensures shape.Some? ==> shape.value.Valid()
  {
    match a
    case System(s) =>
      if s.CreateAccount? || s.CreateWithSeed? then AfterCreate(s, b)
      else if s.AllocateWithSeed? && b.Stake? && b.stake.Split? then Some(SeededSplit(s.base, s.seed, b.stake))
      else None
    case Stake(s) =>
      if s.Authorize? && b.Stake? && b.stake.Authorize? && s.newAuthority.InHeader? == b.stake.newAuthority.InHeader?
         && s.role.First? && b.stake.role.Withdrawer?
      then Some(StakeAuthorities(s, b.stake)) else None
    case Vote(v) =>
      if v.VoteAuthorize? && b.Vote? && b.vote.VoteAuthorize?
        && v.newAuthority.InHeader? == b.vote.newAuthority.InHeader?
         && v.role.First? && b.vote.role.Withdrawer?
      then Some(VoteAuthorities(v, b.vote)) else None
    case AssociatedToken(_, _, _, _) =>
      if b.Token? && b.token.TransferChecked? then Some(TokenTransfer(a, b.token)) else None
    case _ => None
  }

  function Three(a: Info, b: Info, d: Info): (shape: Option<Shape>)
    ensures shape.Some? ==> shape.value.Valid()
  {
    if !a.System? || !d.Stake? then None
    else if (a.system.CreateAccount? || a.system.CreateWithSeed?) && b.Stake? && b.stake.Initialize?
      && d.stake.Delegate?
    then Some(Delegation(a.system, b.stake, d.stake))
    else if !b.System? || !d.stake.Split? then None
    else if a.system.Allocate? && b.system.Assign? then Some(Alone(d))
    else if a.system.Transfer? && b.system.AllocateWithSeed?
    then Some(PrefundedSeededSplit(a.system, b.system.base, b.system.seed, d.stake))
    else None
  }

  function Four(a: Info, b: Info, d: Info, e: Info): (shape: Option<Shape>)
    ensures shape.Some? ==> shape.value.Valid()
  {
    if a.System? && a.system.Transfer? && b.System? && b.system.Allocate? && d.System? && d.system.Assign?
       && e.Stake? && e.stake.Split?
    then Some(PrefundedSplit(a.system, e.stake))
    else None
  }

  /** The shape of a sequence of instructions; None when it is not recognised. */
  function ShapeOf(infos: seq<Info>): (shape: Option<Shape>)
    ensures shape.Some? ==> shape.value.Valid()
  {
    if |infos| == 1 then One(infos[0])
    else if |infos| == 2 then Two(infos[0], infos[1])
    else if |infos| == 3 then Three(infos[0], infos[1], infos[2])
    else if |infos| == 4 then Four(infos[0], infos[1], infos[2], infos[3])
    else None
  }

  /** The instructions that a shape is made of; those in front of a split may be left out of it. */
  predicate MadeOf(shape: Shape, infos: seq<Info>)
    requires shape.Valid()
  {
    match shape
    case Alone(i) =>
      || infos == [i]
      || (|infos| == 2 && Matches(infos[0], ACreateAccount) && Matches(i, ASplit) && infos[1] == i)
      || (|infos| == 3 && Matches(infos[0], AnAllocate) && Matches(infos[1], AnAssign) && Matches(i, ASplit)
          && infos[2] == i)
    case StakeAccount(a, s) => infos == [System(a), Stake(s)]
    case NonceAccount(a, n) => infos == [System(a), System(n)]
    case VoteAccount(a, v) => infos == [System(a), Vote(v)]
    case MintAccount(a, t) => infos == [System(a), Token(t)]
    case TokenAccount(a, t) => infos == [System(a), Token(t)]
    case MultisigAccount(a, t) => infos == [System(a), Token(t)]
    case StakeAuthorities(x, y) => infos == [Stake(x), Stake(y)] && x.role.First? && y.role.Withdrawer?
    case VoteAuthorities(x, y) => infos == [Vote(x), Vote(y)] && x.role.First? && y.role.Withdrawer?
    case SeededSplit(base, seed, s) => |infos| == 2 && SeededBy(infos[0], base, seed) && infos[1] == Stake(s)
    case TokenTransfer(i, t) => infos == [i, Token(t)]
    case Delegation(a, s, d) => infos == [System(a), Stake(s), Stake(d)]
    case PrefundedSplit(t, s) =>
      && |infos| == 4 && infos[0] == System(t) && infos[3] == Stake(s)
      && Matches(infos[1], AnAllocate) && Matches(infos[2], AnAssign)
    case PrefundedSeededSplit(t, base, seed, s) =>
      && |infos| == 3 && infos[0] == System(t) && infos[2] == Stake(s)
      && Matches(infos[1], AnAllocateWithSeed) && SeededBy(infos[1], base, seed)
  }

  predicate SeededBy(info: Info, base: key32, seed: string)
  {
    && (Matches(info, ACreateWithSeed) || Matches(info, AnAllocateWithSeed))
    && info.system.base == base && info.system.seed == seed
  }

  /** A shape consists of the instructions in their order, each in its role. */
  lemma ShapeIsMadeOf(infos: seq<Info>)
    requires ShapeOf(infos).Some?
    ensures MadeOf(ShapeOf(infos).value, infos)
  {
  }

  function RenderAlone(c: Config, a: Info): Script
    requires Alone(a).Valid()
  {
    match a
    case System(s) => PrintSystem(c, s)
    case Stake(s) => PrintStake(c, s)
    case Vote(v) => PrintVote(c, v)
    case Token(t) => PrintToken(c, t)
    case AssociatedToken(_, _, _, _) => PrintAssociatedToken(a)
  }

  /** What is printed for a shape. */
  function Render(c: Config, shape: Shape): Script
    requires shape.Valid()
  {
    match shape
    case Alone(i) => RenderAlone(c, i)
    case StakeAccount(a, s) => CreateStake(c, a, s)
    case NonceAccount(a, n) => CreateNonce(c, a, n)
    case VoteAccount(a, v) => CreateVote(c, a, v)
    case MintAccount(a, t) => CreateMint(c, a, t)
    case TokenAccount(a, t) => CreateToken(c, a, t)
    case MultisigAccount(a, t) => CreateMultisig(c, a, t)
    case StakeAuthorities(x, y) => AuthorizeBothStake(c, x, y)
    case VoteAuthorities(x, y) => AuthorizeBothVote(c, x, y)
    case SeededSplit(base, seed, s) => SplitScript(c, [], s, SeedLines(c, base, seed))
    case TokenTransfer(i, t) => CreateAndTransfer(c, i, t)
    case Delegation(a, s, d) => CreateAndDelegate(c, a, s, d)
    case PrefundedSplit(t, s) => SplitScript(c, PrefundLines(c, t), s, [])
    case PrefundedSeededSplit(t, base, seed, s) => SplitScript(c, PrefundLines(c, t), s, SeedLines(c, base, seed))
  }

  // ---- The language ----

  predicate Listed2(a: Info, b: Info, x: Brief, y: Brief)
  {
    Matches(a, x) && Matches(b, y)
  }

  predicate AfterCreateTable(b: Info)
  {
    || Matches(b, AStakeInitialize) || Matches(b, AStakeInitializeChecked) || Matches(b, AnInitializeNonce)
    || Matches(b, AVoteInitialize) || Matches(b, ASplit) || Matches(b, AnInitializeMint)
    || Matches(b, AnInitializeAccount) || Matches(b, AnInitializeAccount2) || Matches(b, AnInitializeMultisig)
  }

  predicate AfterCreateWithSeedTable(b: Info)
  {
    || Matches(b, AStakeInitialize) || Matches(b, AStakeInitializeChecked) || Matches(b, AnInitializeNonce)
    || Matches(b, AVoteInitialize) || Matches(b, ASplit)
  }

  /** The tables of two instructions that start with one of the system program. */
  predicate InSystemTables(a: Info, b: Info)
  {
    || (Matches(a, ACreateAccount) && AfterCreateTable(b))
    || (Matches(a, ACreateWithSeed) && AfterCreateWithSeedTable(b))
    || Listed2(a, b, AnAllocateWithSeed, ASplit)
  }

  /** The other tables of two instructions. */
  predicate InProgramTables(a: Info, b: Info)
  {
    || Listed2(a, b, AStakeAuthorize, AStakeAuthorize) || Listed2(a, b, AStakeAuthorizeChecked, AStakeAuthorizeChecked)
    || Listed2(a, b, AVoteAuthorize, AVoteAuthorize) || Listed2(a, b, AVoteAuthorizeChecked, AVoteAuthorizeChecked)
    || Listed2(a, b, AnAssociatedToken, ATransferChecked)
  }

  predicate InLongTables(infos: seq<Info>)
  {
    || (|infos| == 3 && (
      || (Listed2(infos[0], infos[1], ACreateAccount, AStakeInitialize) && Matches(infos[2], ADelegate))
      || (Listed2(infos[0], infos[1], ACreateWithSeed, AStakeInitialize) && Matches(infos[2], ADelegate))
      || (Listed2(infos[0], infos[1], AnAllocate, AnAssign) && Matches(infos[2], ASplit))
      || (Listed2(infos[0], infos[1], ATransfer, AnAllocateWithSeed) && Matches(infos[2], ASplit))))
    || (|infos| == 4 && Listed2(infos[0], infos[1], ATransfer, AnAllocate)
        && Listed2(infos[2], infos[3], AnAssign, ASplit))
  }

  /** A pair of authorizations sets the first role, then the withdrawer. */
  predicate RolesInOrder(a: Info, b: Info)
  {
    && (a.Stake? && a.stake.Authorize? && b.Stake? && b.stake.Authorize? ==>
      a.stake.role.First? && b.stake.role.Withdrawer?)
    && (a.Vote? && a.vote.VoteAuthorize? && b.Vote? && b.vote.VoteAuthorize? ==>
      a.vote.role.First? && b.vote.role.Withdrawer?)
  }

  /** The recognised sequences: one instruction of a printable program, or a table, its roles in order. */
  predicate InLanguage(infos: seq<Info>)
  {
    || (|infos| == 1
      && (infos[0].System? || infos[0].Stake? || infos[0].Vote? || infos[0].Token? || infos[0].AssociatedToken?))
    || (|infos| == 2 && InSystemTables(infos[0], infos[1]))
    || (|infos| == 2 && InProgramTables(infos[0], infos[1]) && RolesInOrder(infos[0], infos[1]))
    || InLongTables(infos)
  }

  lemma PlainPairs(a: Info, b: Info)
    requires a.System? && a.system.CreateAccount?
    ensures Two(a, b).Some? <==> InSystemTables(a, b)
  {
  }

  lemma SeededPairs(a: Info, b: Info)
    requires a.System? && a.system.CreateWithSeed?
    ensures Two(a, b).Some? <==> InSystemTables(a, b)
  {
  }

  lemma SystemPairs(a: Info, b: Info)
    requires a.System?
    ensures Two(a, b).Some? <==> InSystemTables(a, b)
  {
    if a.system.CreateAccount? {
      PlainPairs(a, b);
    } else if a.system.CreateWithSeed? {
      SeededPairs(a, b);
    }
  }

  lemma AuthorizationPairs(a: Info, b: Info)
    requires a.Stake? || a.Vote?
    ensures Two(a, b).Some? <==> InProgramTables(a, b) && RolesInOrder(a, b)
  {
  }

  lemma ProgramPairs(a: Info, b: Info)
    requires !a.System?
    ensures Two(a, b).Some? <==> InProgramTables(a, b) && RolesInOrder(a, b)
  {
    if a.Stake? || a.Vote? {
      AuthorizationPairs(a, b);
    }
  }

  lemma SystemOnly(a: Info, b: Info)
    ensures a.System? ==> !InProgramTables(a, b)
    ensures !a.System? ==> !InSystemTables(a, b)
  {
  }

  lemma LongSequences(infos: seq<Info>)
    requires |infos| > 2
    ensures ShapeOf(infos).Some? <==> InLongTables(infos)
  {
  }

  /** The recognised sequences are those of the language. */
  lemma RecognisedIsLanguage(infos: seq<Info>)
    ensures ShapeOf(infos).Some? <==> InLanguage(infos)
  {
    if |infos| == 2 {
      SystemOnly(infos[0], infos[1]);
      if infos[0].System? {
        SystemPairs(infos[0], infos[1]);
      } else {
        ProgramPairs(infos[0], infos[1]);
      }
    } else if |infos| > 2 {
      LongSequences(infos);
    }
  }

  // ---- The number of lines ----

  lemma LockupBound(c: Config, lockup: Lockup)
    ensures |LockupLines(c, lockup)| <= 3
    ensures |LockupLines(c, lockup)| == 3 <==> lockup.time > 0 && lockup.epoch > 0
  {
  }

  lemma InitializeBound(c: Config, s: StakeInfo)
    requires s.Initialize? || s.InitializeChecked?
    ensures |InitializeLines(c, s)| <= 5
    ensures |InitializeLines(c, s)| == 5 <==>
      s.Initialize? && s.stakeAuthority != s.withdrawAuthority && s.lockup.time > 0 && s.lockup.epoch > 0
  {
    LockupBound(c, LockupOf(s));
  }

  lemma CreationBound(c: Config, a: SystemInfo)
    requires a.CreateAccount? || a.CreateWithSeed?
    ensures |CreationLines(c, a)| <= 4
    ensures |CreationLines(c, a)| == 4 <==> a.CreateWithSeed? && c.expert
  {
  }

  lemma SystemBound(c: Config, s: SystemInfo)
    ensures |PrintSystem(c, s).Lines()| < 11
  {
  }

  lemma StakeBound(c: Config, s: StakeInfo)
    ensures |PrintStake(c, s).Lines()| < 11
  {
    if s.Initialize? || s.InitializeChecked? {
      InitializeBound(c, s);
    }
  }

  lemma TokenBound(c: Config, t: TokenInfo)
    ensures |PrintToken(c, t).Lines()| < 11
  {
  }

  /** The only sequence that needs all the general slots. */
  predicate Fullest(c: Config, infos: seq<Info>)
  {
    && |infos| == 3 && Listed2(infos[0], infos[1], ACreateWithSeed, AStakeInitialize) && Matches(infos[2], ADelegate)
    && c.expert
    && var s := infos[1].stake;
       s.stakeAuthority != s.withdrawAuthority && s.lockup.time > 0 && s.lockup.epoch > 0
  }

  lemma DelegateBound(c: Config, a: SystemInfo, s: StakeInfo, d: StakeInfo)
    requires (a.CreateAccount? || a.CreateWithSeed?) && s.Initialize? && d.Delegate?
    ensures |CreateAndDelegate(c, a, s, d).Lines()| <= 11
    ensures |CreateAndDelegate(c, a, s, d).Lines()| == 11 <==>
      a.CreateWithSeed? && c.expert
      && s.stakeAuthority != s.withdrawAuthority && s.lockup.time > 0 && s.lockup.epoch > 0
  {
    CreationBound(c, a);
    InitializeBound(c, s);
  }

  lemma SingleBound(c: Config, a: Info)
    requires Alone(a).Valid()
    ensures |RenderAlone(c, a).Lines()| < 11
  {
    match a
    case System(s) => SystemBound(c, s);
    case Stake(s) => StakeBound(c, s);
    case Vote(_) =>
    case Token(t) => TokenBound(c, t);
    case AssociatedToken(_, _, _, _) =>
  }

  lemma PairBound(c: Config, shape: Shape)
    requires shape.Valid() && !shape.Alone? && !shape.Delegation?
    ensures |Render(c, shape).Lines()| < 11
  {
    if shape.StakeAccount? || shape.NonceAccount? || shape.VoteAccount? {
      CreationBound(c, shape.creation);
    }
    if shape.StakeAccount? {
      InitializeBound(c, shape.stake);
    }
  }

  predicate FullestShape(c: Config, shape: Shape)
    requires shape.Valid()
  {
    && shape.Delegation? && shape.creation.CreateWithSeed? && c.expert
    && shape.stake.stakeAuthority != shape.stake.withdrawAuthority
    && shape.stake.lockup.time > 0 && shape.stake.lockup.epoch > 0
  }

  lemma FullestIsShape(c: Config, infos: seq<Info>)
    requires ShapeOf(infos).Some?
    ensures FullestShape(c, ShapeOf(infos).value) <==> Fullest(c, infos)
  {
  }

  lemma ShapeBound(c: Config, shape: Shape)
    requires shape.Valid()
    ensures |Render(c, shape).Lines()| <= NUM_GENERAL_ITEMS
    ensures |Render(c, shape).Lines()| == NUM_GENERAL_ITEMS <==> FullestShape(c, shape)
  {
    if shape.Alone? {
      SingleBound(c, shape.info);
    } else if shape.Delegation? {
      DelegateBound(c, shape.creation, shape.stake, shape.delegate);
    } else {
      PairBound(c, shape);
    }
  }

  /** No sequence prints more lines than there are general slots, and just one kind prints that many. */
  lemma LineBudget(c: Config, infos: seq<Info>)
    requires ShapeOf(infos).Some?
    ensures |Render(c, ShapeOf(infos).value).Lines()| <= NUM_GENERAL_ITEMS
    ensures |Render(c, ShapeOf(infos).value).Lines()| == NUM_GENERAL_ITEMS <==> Fullest(c, infos)
  {
    FullestIsShape(c, infos);
    ShapeBound(c, ShapeOf(infos).value);
  }

  // ---- The chain of tables ----

  method Match2(infos: seq<Info>, x: Brief, y: Brief) returns (all: bool)
    requires |infos| == 2
    ensures all == (Matches(infos[0], x) && Matches(infos[1], y))
  {
    var briefs := [x, y];
    all := MatchBriefs(infos, briefs);
    assert briefs[0] == x && briefs[1] == y;
  }

  method Match3(infos: seq<Info>, x: Brief, y: Brief, z: Brief) returns (all: bool)
    requires |infos| == 3
    ensures all == (Matches(infos[0], x) && Matches(infos[1], y) && Matches(infos[2], z))
  {
    var briefs := [x, y, z];
    all := MatchBriefs(infos, briefs);
    assert briefs[0] == x && briefs[1] == y && briefs[2] == z;
  }

  method MatchSingle(a: Info) returns (shape: Option<Shape>)
    ensures shape == ShapeOf([a])
  {
    match a
    case System(_) => shape := Some(Alone(a));
    case Stake(_) => shape := Some(Alone(a));
    case Vote(_) => shape := Some(Alone(a));
    case Token(_) => shape := Some(Alone(a));
    case AssociatedToken(_, _, _, _) => shape := Some(Alone(a));
    case AssertOwner => shape := None;
    case Memo => shape := None;
    case Budget(_, _) => shape := None;
    case Unknown => shape := None;
  }

  /** The sequences of two that the later tables list. */
  predicate IsLater(a: Info, b: Info)
  {
    || (a.System? && b.Stake? && b.stake.Split?)
    || (a.System? && b.Token?)
    || a.Stake? || a.Vote? || a.AssociatedToken?
  }

  /** The stake, nonce and vote accounts that are created; done tells whether a table matched. */
  method MatchCreation(infos: seq<Info>) returns (done: bool, shape: Option<Shape>)
    requires |infos| == 2
    ensures done ==> shape == ShapeOf(infos)
    ensures !done ==> ShapeOf(infos).None? || IsLater(infos[0], infos[1])
  {
    var a, b := infos[0], infos[1];
    var plain := Match2(infos, ACreateAccount, AStakeInitialize);
    if !plain { plain := Match2(infos, ACreateAccount, AStakeInitializeChecked); }
    if plain { return true, Some(StakeAccount(a.system, b.stake)); }
    var seeded := Match2(infos, ACreateWithSeed, AStakeInitialize);
    if !seeded { seeded := Match2(infos, ACreateWithSeed, AStakeInitializeChecked); }
    if seeded { return true, Some(StakeAccount(a.system, b.stake)); }
    var nonce := Match2(infos, ACreateAccount, AnInitializeNonce);
    if nonce { return true, Some(NonceAccount(a.system, b.system)); }
    nonce := Match2(infos, ACreateWithSeed, AnInitializeNonce);
    if nonce { return true, Some(NonceAccount(a.system, b.system)); }
    var vote := Match2(infos, ACreateAccount, AVoteInitialize);
    if vote { return true, Some(VoteAccount(a.system, b.vote)); }
    vote := Match2(infos, ACreateWithSeed, AVoteInitialize);
    if vote { return true, Some(VoteAccount(a.system, b.vote)); }
    return false, None;
  }

  function IfInOrder(first: Role, second: Role, shape: Shape): Option<Shape>
  {
    if !first.First? || !second.Withdrawer? then None else Some(shape)
  }

  method MatchAuthorization(infos: seq<Info>) returns (done: bool, shape: Option<Shape>)
    requires |infos| == 2
    ensures done ==> shape == ShapeOf(infos)
    ensures !done && (infos[0].Stake? || infos[0].Vote?) ==> ShapeOf(infos).None?
  {
    var a, b := infos[0], infos[1];
    var stake := Match2(infos, AStakeAuthorize, AStakeAuthorize);
    if !stake { stake := Match2(infos, AStakeAuthorizeChecked, AStakeAuthorizeChecked); }
    if stake { return true, IfInOrder(a.stake.role, b.stake.role, StakeAuthorities(a.stake, b.stake)); }
    var vote := Match2(infos, AVoteAuthorize, AVoteAuthorize);
    if !vote { vote := Match2(infos, AVoteAuthorizeChecked, AVoteAuthorizeChecked); }
    if vote { return true, IfInOrder(a.vote.role, b.vote.role, VoteAuthorities(a.vote, b.vote)); }
    return false, None;
  }

  /** The splits of two instructions. */
  method MatchSplit(infos: seq<Info>) returns (shape: Option<Shape>)
    requires |infos| == 2
    ensures shape.Some? ==> shape == ShapeOf(infos)
    ensures shape.None? && infos[0].System? && infos[1].Stake? && infos[1].stake.Split? ==> ShapeOf(infos).None?
  {
    var a, b := infos[0], infos[1];
    var split := Match2(infos, AnAllocateWithSeed, ASplit);
    if split { return Some(SeededSplit(a.system.base, a.system.seed, b.stake)); }
    split := Match2(infos, ACreateAccount, ASplit);
    if split { return Some(Alone(b)); }
    split := Match2(infos, ACreateWithSeed, ASplit);
    if split { return Some(SeededSplit(a.system.base, a.system.seed, b.stake)); }
    return None;
  }

  /** The tokens of two instructions. */
  method MatchTokens(infos: seq<Info>) returns (shape: Option<Shape>)
    requires |infos| == 2
    requires infos[0].AssociatedToken? || (infos[0].System? && infos[1].Token?) || ShapeOf(infos).None?
    ensures shape == ShapeOf(infos)
  {
    var a, b := infos[0], infos[1];
    var mint := Match2(infos, ACreateAccount, AnInitializeMint);
    if mint { return Some(MintAccount(a.system, b.token)); }
    var account := Match2(infos, ACreateAccount, AnInitializeAccount);
    if !account { account := Match2(infos, ACreateAccount, AnInitializeAccount2); }
    if account { return Some(TokenAccount(a.system, b.token)); }
    var multisig := Match2(infos, ACreateAccount, AnInitializeMultisig);
    if multisig { return Some(MultisigAccount(a.system, b.token)); }
    var transfer := Match2(infos, AnAssociatedToken, ATransferChecked);
    if transfer { return Some(TokenTransfer(a, b.token)); }
    return None;
  }

  method MatchTriple(infos: seq<Info>) returns (shape: Option<Shape>)
    requires |infos| == 3
    ensures shape == ShapeOf(infos)
  {
    var a, b, d := infos[0], infos[1], infos[2];
    var delegated := Match3(infos, ACreateAccount, AStakeInitialize, ADelegate);
    if delegated { return Some(Delegation(a.system, b.stake, d.stake)); }
    delegated := Match3(infos, ACreateWithSeed, AStakeInitialize, ADelegate);
    if delegated { return Some(Delegation(a.system, b.stake, d.stake)); }
    var split := Match3(infos, AnAllocate, AnAssign, ASplit);
    if split { return Some(Alone(d)); }
    split := Match3(infos, ATransfer, AnAllocateWithSeed, ASplit);
    if split { return Some(PrefundedSeededSplit(a.system, b.system.base, b.system.seed, d.stake)); }
    return None;
  }

  method MatchQuadruple(infos: seq<Info>) returns (shape: Option<Shape>)
    requires |infos| == 4
    ensures shape == ShapeOf(infos)
  {
    var briefs := [ATransfer, AnAllocate, AnAssign, ASplit];
    var split := MatchBriefs(infos, briefs);
    assert briefs[0] == ATransfer && briefs[1] == AnAllocate && briefs[2] == AnAssign && briefs[3] == ASplit;
    shape := if split then Some(PrefundedSplit(infos[0].system, infos[3].stake)) else None;
  }

  /** print_transaction_nonce_processed: tries the tables one after the other. */
  method Dispatch(infos: seq<Info>) returns (shape: Option<Shape>)
    ensures shape == ShapeOf(infos)
  {
    if |infos| == 1 {
      shape := MatchSingle(infos[0]);
    } else if |infos| == 2 {
      var done;
      done, shape := MatchCreation(infos);
      if !done {
        done, shape := MatchAuthorization(infos);
      }
      if !done {
        shape := MatchSplit(infos);
        if shape.None? {
          shape := MatchTokens(infos);
        }
      }
    } else if |infos| == 3 {
      shape := MatchTriple(infos);
    } else if |infos| == 4 {
      shape := MatchQuadruple(infos);
    } else {
      shape := None;
    }
  }
}
