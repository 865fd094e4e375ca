/** Which of the money that is moved the slots tell about. */
module Money {
  import opened Bytes
  import opened Infos
  import opened Summary
  import opened Printers
  import opened Recogniser
  import opened Sequences

  /** An amount that an instruction names leaves one account for another. */
  datatype Move =
    | Lamports(from: key32, to: key32, lamports: u64)
    | TokenMove(source: key32, destination: key32, tokens: Tokens)

  function MovesOf(info: Info): (moves: seq<Move>)
    ensures |moves| <= 1
  {
    match info
    case System(CreateAccount(from, to, lamports)) => [Lamports(from, to, lamports)]
    case System(CreateWithSeed(from, to, _, _, lamports)) => [Lamports(from, to, lamports)]
    case System(Transfer(from, to, lamports)) => [Lamports(from, to, lamports)]
    case System(WithdrawNonce(account, _, to, lamports)) => [Lamports(account, to, lamports)]
    case Stake(Split(account, _, splitAccount, lamports)) => [Lamports(account, splitAccount, lamports)]
    case Stake(Withdraw(account, _, to, lamports)) => [Lamports(account, to, lamports)]
    case Vote(VoteWithdraw(account, _, to, lamports)) => [Lamports(account, to, lamports)]
    case Token(TransferChecked(source, destination, tokens, _)) => [TokenMove(source, destination, tokens)]
    case _ => []
  }

  /** What an instruction moves is what it announces first, unless it creates an account. */
  ghost predicate Announced(script: Script, move: Move)
  {
    match move
    case Lamports(_, to, lamports) =>
      if script.primary.Amount? then
        script.primary.lamports == lamports && (Key("To", to) in script.after || Key("Recipient", to) in script.after)
      else script.primary == Key("Create account", to) && Amount("Deposit", lamports) in script.after
    case TokenMove(source, destination, tokens) =>
      && script.primary.TokenItem? && script.primary.title == "Transfer tokens"
      && script.primary.value == tokens.amount && script.primary.decimals == tokens.decimals
      && Key("From (token account)", source) in script.after
      && Key("To (token account)", destination) in script.after
  }

  /** Announces no amount that leaves an account for another. */
  predicate Silent(script: Script)
  {
    && !script.primary.Amount? && script.primary.title != "Create account"
    && script.primary.title != "Transfer tokens"
  }

  lemma SystemAnnounces(c: Config, s: SystemInfo)
    ensures var script, moves := PrintSystem(c, s), MovesOf(System(s));
      if moves == [] then Silent(script) else Announced(script, moves[0])
  {
    var lines := PrintSystem(c, s).after;
    if s.Transfer? {
      assert lines[|lines| - 1] in lines;
    } else if s.WithdrawNonce? {
      assert lines[1] in lines;
    } else if s.CreateAccount? || s.CreateWithSeed? {
      assert lines[0] in lines;
    }
  }

  lemma StakeAnnounces(c: Config, s: StakeInfo)
    ensures var script, moves := PrintStake(c, s), MovesOf(Stake(s));
      if moves == [] then Silent(script) else Announced(script, moves[0])
  {
    if s.Split? || s.Withdraw? {
      assert PrintStake(c, s).after[1] in PrintStake(c, s).after;
    }
  }

  lemma VoteAnnounces(c: Config, v: VoteInfo)
    ensures var script, moves := PrintVote(c, v), MovesOf(Vote(v));
      if moves == [] then Silent(script) else Announced(script, moves[0])
  {
    if v.VoteWithdraw? {
      assert PrintVote(c, v).after[1] in PrintVote(c, v).after;
    }
  }

  lemma TokenAnnounces(c: Config, t: TokenInfo)
    ensures var script, moves := PrintToken(c, t), MovesOf(Token(t));
      if moves == [] then Silent(script) else Announced(script, moves[0])
  {
    if t.TransferChecked? {
      var lines := TransferLines(c, t);
      assert lines[1] in lines && lines[2] in lines;
    }
  }

  /** An instruction by itself moves just what it announces. */
  lemma AnnouncedIsMoved(c: Config, info: Info)
    requires Alone(info).Valid()
    ensures var script, moves := RenderAlone(c, info), MovesOf(info);
      if moves == [] then Silent(script) else Announced(script, moves[0])
  {
    match info
    case System(s) => SystemAnnounces(c, s);
    case Stake(s) => StakeAnnounces(c, s);
    case Vote(v) => VoteAnnounces(c, v);
    case Token(t) => TokenAnnounces(c, t);
    case AssociatedToken(_, _, _, _) =>
  }

  /** Whatever a sequence moves, in order. */
  function Moves(infos: seq<Info>): seq<Move>
  {
    if infos == [] then [] else MovesOf(infos[0]) + Moves(infos[1..])
  }

  predicate AlikeSequences(c: Config, a: seq<Info>, b: seq<Info>)
    requires ShapeOf(a).Some? && ShapeOf(b).Some?
  {
    Alike(Render(c, ShapeOf(a).value), Render(c, ShapeOf(b).value))
  }

  /** Every recognised sequence that fills the slots alike moves the same. */
  ghost predicate TellsMoves(c: Config, a: seq<Info>)
    requires ShapeOf(a).Some?
  {
    forall b :: ShapeOf(b).Some? && AlikeSequences(c, a, b) ==> Moves(b) == Moves(a)
  }

  /** A split of stake at the end, or a token account, mint or multisig account whose creation comes first. */
  predicate HidesMoves(infos: seq<Info>)
    requires |infos| > 0
  {
    || Matches(infos[|infos| - 1], ASplit)
    || (|infos| == 2 && Matches(infos[0], ACreateAccount) && infos[1].Token?)
  }

  // ---- What is told ----

  function MovesSeen(v: Visible): seq<Move>
  {
    match v
    case One(i) => MovesOf(i)
    case StakePair(_, _, _, _, _) => []
    case VotePair(_, _, _, _) => []
    case Together(shape) =>
      if shape.StakeAccount? || shape.NonceAccount? || shape.VoteAccount? || shape.Delegation?
      then MovesOf(System(shape.creation))
      else if shape.TokenTransfer? then MovesOf(Token(shape.token))
      else []
  }

  predicate Hides(v: Visible)
  {
    match v
    case One(i) => i.Stake? && i.stake.Split?
    case StakePair(_, _, _, _, _) => false
    case VotePair(_, _, _, _) => false
    case Together(shape) =>
      || shape.MintAccount? || shape.TokenAccount? || shape.MultisigAccount?
      || shape.SeededSplit? || shape.PrefundedSplit? || shape.PrefundedSeededSplit?
  }

  lemma AloneMoves(c: Config, i: Info)
    ensures MovesOf(VisibleInfo(c, i)) == MovesOf(i)
    ensures VisibleInfo(c, i).Stake? && VisibleInfo(c, i).stake.Split? <==> i.Stake? && i.stake.Split?
  {
  }

  lemma MovesOne(a: Info)
    ensures Moves([a]) == MovesOf(a)
  {
    assert [a][1..] == [];
  }

  lemma {:induction false} MovesPrepend(a: Info, infos: seq<Info>)
    ensures Moves([a] + infos) == MovesOf(a) + Moves(infos)
  {
    assert ([a] + infos)[1..] == infos;
  }

  lemma MovesTwo(a: Info, b: Info)
    ensures Moves([a, b]) == MovesOf(a) + MovesOf(b)
  {
    MovesPrepend(a, [b]);
    MovesOne(b);
    assert [a] + [b] == [a, b];
  }

  lemma MovesThree(a: Info, b: Info, d: Info)
    ensures Moves([a, b, d]) == MovesOf(a) + (MovesOf(b) + MovesOf(d))
  {
    MovesPrepend(a, [b, d]);
    MovesTwo(b, d);
    assert [a] + [b, d] == [a, b, d];
  }

  lemma OneSeen(c: Config, a: Info)
    requires ShapeOf([a]).Some?
    ensures Hides(VisibleSequence(c, [a])) <==> HidesMoves([a])
    ensures MovesSeen(VisibleSequence(c, [a])) == Moves([a])
  {
    AloneMoves(c, a);
    MovesOne(a);
  }

  lemma CreatedSeen(c: Config, a: Info, b: Info)
    requires ShapeOf([a, b]).Some? && a.System?
    ensures Hides(VisibleSequence(c, [a, b])) <==> HidesMoves([a, b])
    ensures !HidesMoves([a, b]) ==> MovesSeen(VisibleSequence(c, [a, b])) == Moves([a, b])
  {
    MovesTwo(a, b);
  }

  lemma OthersSeen(c: Config, a: Info, b: Info)
    requires ShapeOf([a, b]).Some? && !a.System?
    ensures !Hides(VisibleSequence(c, [a, b])) && !HidesMoves([a, b])
    ensures MovesSeen(VisibleSequence(c, [a, b])) == Moves([a, b])
  {
    MovesTwo(a, b);
  }

  lemma ThreeSeen(c: Config, a: Info, b: Info, d: Info)
    requires ShapeOf([a, b, d]).Some?
    ensures Hides(VisibleSequence(c, [a, b, d])) <==> HidesMoves([a, b, d])
    ensures !HidesMoves([a, b, d]) ==> MovesSeen(VisibleSequence(c, [a, b, d])) == Moves([a, b, d])
  {
    MovesThree(a, b, d);
  }

  lemma FourSeen(c: Config, infos: seq<Info>)
    requires |infos| == 4 && ShapeOf(infos).Some?
    ensures Hides(VisibleSequence(c, infos)) && HidesMoves(infos)
  {
  }

  lemma Seen(c: Config, infos: seq<Info>)
    requires ShapeOf(infos).Some?
    ensures |infos| > 0 && (Hides(VisibleSequence(c, infos)) <==> HidesMoves(infos))
    ensures !HidesMoves(infos) ==> MovesSeen(VisibleSequence(c, infos)) == Moves(infos)
  {
    if |infos| == 1 {
      assert infos == [infos[0]];
      OneSeen(c, infos[0]);
    } else if |infos| == 2 {
      assert infos == [infos[0], infos[1]];
      if infos[0].System? {
        CreatedSeen(c, infos[0], infos[1]);
      } else {
        OthersSeen(c, infos[0], infos[1]);
      }
    } else if |infos| == 3 {
      assert infos == [infos[0], infos[1], infos[2]];
      ThreeSeen(c, infos[0], infos[1], infos[2]);
    } else {
      FourSeen(c, infos);
    }
  }

  lemma ToldMoves(c: Config, a: seq<Info>, b: seq<Info>)
    requires ShapeOf(a).Some? && ShapeOf(b).Some? && AlikeSequences(c, a, b)
    requires |a| > 0 && !HidesMoves(a)
    ensures Moves(b) == Moves(a)
  {
    SequenceTells(c, c, a, b);
    Seen(c, a);
    Seen(c, b);
  }

  // ---- What is hidden ----

  /** Some other key. */
  function Other(key: key32): (other: key32)
    ensures other != key
  {
    var other: bytes := key[0 := if key[0] == 0 then 1 else 0];
    assert other[0] != key[0];
    other
  }

  /** A sequence that looks the same and moves something else. */
  predicate IsTwin(c: Config, a: seq<Info>, b: seq<Info>)
    requires ShapeOf(a).Some?
  {
    && ShapeOf(b).Some? && AlikeSequences(c, a, b) && Moves(b) != Moves(a)
    && |b| > 0 && !Matches(b[0], AnAdvanceNonce)
  }

  lemma TokenTwin(c: Config, a: seq<Info>) returns (b: seq<Info>)
    requires ShapeOf(a).Some? && |a| == 2 && Matches(a[0], ACreateAccount) && a[1].Token?
    ensures IsTwin(c, a, b)
  {
    var s, t := a[0].system, a[1];
    var other := System(CreateAccount(s.from, Other(s.to), s.lamports));
    b := [other, t];
    MovesTwo(a[0], t);
    MovesTwo(other, t);
    assert a == [a[0], t];
    assert Moves(a)[0] != Moves(b)[0];
  }

  lemma SplitVisible(c: Config, a: seq<Info>)
    requires ShapeOf(a).Some? && |a| > 0 && Matches(a[|a| - 1], ASplit)
    requires c.expert ==> |a| == 1 || Matches(a[0], ACreateAccount) || Matches(a[0], AnAllocate)
    ensures VisibleSequence(c, a) == One(a[|a| - 1])
  {
  }

  lemma SplitAlike(c: Config, a: seq<Info>)
    requires ShapeOf(a).Some? && |a| > 0 && Matches(a[|a| - 1], ASplit)
    requires c.expert ==> |a| == 1 || Matches(a[0], ACreateAccount) || Matches(a[0], AnAllocate)
    ensures Alike(Render(c, ShapeOf(a).value), PrintStake(c, a[|a| - 1].stake))
  {
    SplitVisible(c, a);
    ShapeDrawn(c, ShapeOf(a).value);
  }

  /** A split looks as the split behind a deposit does. */
  lemma SplitTwin(c: Config, a: seq<Info>) returns (b: seq<Info>)
    requires ShapeOf(a).Some? && |a| > 0 && Matches(a[|a| - 1], ASplit)
    requires c.expert ==> |a| == 1 || Matches(a[0], ACreateAccount) || Matches(a[0], AnAllocate)
    ensures IsTwin(c, a, b)
  {
    var split := a[|a| - 1];
    var deposit := System(CreateAccount(split.stake.account, split.stake.account, 0));
    SplitAlike(c, a);
    MovesTwo(deposit, split);
    MovesOne(split);
    if Moves(a) == Moves([split]) {
      b := [deposit, split];
    } else {
      b := [split];
    }
    SplitAlike(c, b);
  }

  lemma SeededTwin(c: Config, a: seq<Info>) returns (b: seq<Info>)
    requires c.expert && ShapeOf(a).Some? && |a| == 2 && Matches(a[1], ASplit)
    requires Matches(a[0], ACreateWithSeed) || Matches(a[0], AnAllocateWithSeed)
    ensures IsTwin(c, a, b)
  {
    var s, split := a[0].system, a[1];
    var other := if s.CreateWithSeed? then AllocateWithSeed(s.to, s.base, s.seed, 0, s.to)
                 else CreateWithSeed(s.account, s.account, s.base, s.seed, 0);
    b := [System(other), split];
    MovesTwo(a[0], split);
    MovesTwo(System(other), split);
    assert a == [a[0], split];
    assert |Moves(a)| != |Moves(b)|;
  }

  lemma PrefundAlike(c: Config, a: seq<Info>, b: seq<Info>)
    requires ShapeOf(a).Some? && |a| > 2 && Matches(a[0], ATransfer) && |b| == |a| && Matches(b[0], ATransfer)
    requires b[0].system.from == a[0].system.from && b[0].system.lamports == a[0].system.lamports
    requires forall i :: 1 <= i < |a| ==> b[i] == a[i]
    ensures ShapeOf(b).Some? && AlikeSequences(c, a, b)
  {
  }

  lemma PrefundTwin(c: Config, a: seq<Info>) returns (b: seq<Info>)
    requires ShapeOf(a).Some? && |a| > 2 && Matches(a[0], ATransfer)
    ensures IsTwin(c, a, b)
  {
    var s := a[0].system;
    var other := System(Transfer(s.from, Other(s.to), s.lamports));
    b := [other] + a[1..];
    MovesPrepend(a[0], a[1..]);
    MovesPrepend(other, a[1..]);
    assert a == [a[0]] + a[1..];
    assert Moves(a)[0] != Moves(b)[0];
    PrefundAlike(c, a, b);
  }

  lemma HiddenMoves(c: Config, a: seq<Info>) returns (b: seq<Info>)
    requires ShapeOf(a).Some? && |a| > 0 && HidesMoves(a)
    ensures IsTwin(c, a, b)
  {
    if !Matches(a[|a| - 1], ASplit) {
      b := TokenTwin(c, a);
    } else if !c.expert || |a| == 1 || Matches(a[0], ACreateAccount) || Matches(a[0], AnAllocate) {
      b := SplitTwin(c, a);
    } else if |a| == 2 {
      b := SeededTwin(c, a);
    } else {
      b := PrefundTwin(c, a);
    }
  }

  /** The slots tell what a recognised sequence moves unless it ends with a split or creates an account for tokens. */
  lemma MovesToldIff(c: Config, a: seq<Info>)
    requires ShapeOf(a).Some?
    ensures |a| > 0 && (TellsMoves(c, a) <==> !HidesMoves(a))
  {
    if HidesMoves(a) {
      var b := HiddenMoves(c, a);
      assert ShapeOf(b).Some? && AlikeSequences(c, a, b);
    } else {
      forall b | ShapeOf(b).Some? && AlikeSequences(c, a, b) ensures Moves(b) == Moves(a) {
        ToldMoves(c, a, b);
      }
    }
  }

  // ---- Three inputs ----

  /** A transfer to a new account, and the split of stake into that account. */
  function Prefunded(from: key32, to: key32, lamports: u64, program: key32, split: StakeInfo): seq<Info>
  {
    [System(Transfer(from, to, lamports)), System(Allocate(to, 200)), System(Assign(to, program)), Stake(split)]
  }

  /** In no mode do the slots tell who is paid before a split. */
  lemma RecipientHidden(c: Config, from: key32, to: key32, other: key32, lamports: u64, program: key32,
      split: StakeInfo)
    requires split.Split?
    ensures var a, b := Prefunded(from, to, lamports, program, split), Prefunded(from, other, lamports, program, split);
      && ShapeOf(a).Some? && ShapeOf(b).Some? && AlikeSequences(c, a, b)
      && (Moves(a) == Moves(b) <==> to == other)
  {
    var a, b := Prefunded(from, to, lamports, program, split), Prefunded(from, other, lamports, program, split);
    assert Moves(a)[0] == Lamports(from, to, lamports) && Moves(b)[0] == Lamports(from, other, lamports);
    if to == other {
      assert a == b;
    }
  }

  /** Outside expert mode they do not tell that anybody is paid. */
  lemma PaymentHidden(c: Config, from: key32, to: key32, lamports: u64, program: key32, split: StakeInfo)
    requires split.Split? && !c.expert
    ensures var a := Prefunded(from, to, lamports, program, split);
      && ShapeOf(a).Some? && AlikeSequences(c, a, [Stake(split)])
      && Moves(a) != Moves([Stake(split)])
  {
    var a := Prefunded(from, to, lamports, program, split);
    SplitAlike(c, a);
    MovesOne(Stake(split));
    MovesPrepend(a[0], a[1..]);
    MovesThree(a[1], a[2], a[3]);
    assert a == [a[0]] + a[1..] && a[1..] == [a[1], a[2], a[3]];
    assert |Moves(a)| == 2;
  }

  /** In no mode do they tell what the account that a split creates is given. */
  lemma DepositHidden(c: Config, from: key32, to: key32, lamports: u64, split: StakeInfo)
    requires split.Split?
    ensures var a := [System(CreateAccount(from, to, lamports)), Stake(split)];
      && ShapeOf(a).Some? && AlikeSequences(c, a, [Stake(split)])
      && Moves(a) == [Lamports(from, to, lamports)] + Moves([Stake(split)])
  {
    MovesTwo(System(CreateAccount(from, to, lamports)), Stake(split));
    MovesOne(Stake(split));
  }
}
