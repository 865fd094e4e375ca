/** The bytes and accounts of instructions, put together. */
module Encoding {
  import opened Bytes
  import Radix
  import opened Wire
  import opened Parser
  import opened Infos
  import opened Instructions

  // ---- Numbers ----

  /** The lowest `n` bytes of a number, lowest first. */
  function Little(x: nat, n: nat): (s: bytes)
    ensures |s| == n
  {
    if n == 0 then [] else [x % 256] + Little(x / 256, n - 1)
  }

  lemma {:induction false} LittleLe(s: bytes)
    ensures Little(Le(s), |s|) == s
  {
    if s != [] {
      LittleLe(s[1..]);
      assert Le(s) % 256 == s[0] && Le(s) / 256 == Le(s[1..]);
    }
  }

  lemma DivideBelow(x: nat, p: nat)
    requires x < 256 * p
    ensures x / 256 < p
  {
  }

  lemma {:induction false} LeLittle(x: nat, n: nat)
    requires x < Radix.Pow(256, n)
    ensures Le(Little(x, n)) == x
  {
    if n > 0 {
      DivideBelow(x, Radix.Pow(256, n - 1));
      LeLittle(x / 256, n - 1);
      assert Little(x, n)[1..] == Little(x / 256, n - 1);
    }
  }

  lemma EightBytes()
    ensures Radix.Pow(256, 4) == TWO_32 && Radix.Pow(256, 8) == TWO_64
  {
    assert Radix.Pow(256, 2) == 0x1_0000;
    assert Radix.Pow(256, 4) == 0x1_0000_0000;
    assert Radix.Pow(256, 6) == 0x1_0000_0000_0000;
  }

  /** A number is read exactly when its bytes come first. */
  lemma NumberFirst(s: bytes, n: nat, x: nat, rest: bytes)
    requires x < Radix.Pow(256, n)
    ensures ReadNumber(s, n) == Some((x, rest)) <==> s == Little(x, n) + rest
  {
    LeLittle(x, n);
    if |s| >= n {
      LittleLe(s[..n]);
      assert s == s[..n] + s[n..];
    }
    if s == Little(x, n) + rest {
      assert s[..n] == Little(x, n) && s[n..] == rest;
    }
  }

  lemma Amount64First(s: bytes, x: u64)
    ensures Amount64(s) == Some(x) <==> Little(x, 8) <= s
  {
    EightBytes();
    if |s| >= 8 {
      NumberFirst(s, 8, x, s[8..]);
      assert s == s[..8] + s[8..];
    }
  }

  lemma KeyFirst(s: bytes, key: key32)
    ensures KeyAt(s) == Some(key) <==> key <= s
  {
    if |s| >= KEY_SIZE {
      assert key <= s <==> s[..KEY_SIZE] == key;
    }
  }

  // ---- Seeds ----

  ghost predicate IsSeed(seed: string)
  {
    |seed| < TWO_64 && forall i :: 0 <= i < |seed| ==> seed[i] as int < 256
  }

  ghost function SeedBytes(seed: string): (s: bytes)
    requires IsSeed(seed)
    ensures |s| == |seed|
  {
    seq(|seed|, i requires 0 <= i < |seed| => seed[i] as int)
  }

  lemma LettersOf(s: bytes, seed: string)
    requires IsSeed(seed)
    ensures Letters(s) == seed <==> s == SeedBytes(seed)
  {
    if Letters(s) == seed {
      forall i | 0 <= i < |s| ensures s[i] == SeedBytes(seed)[i] {
        assert Letters(s)[i] == s[i] as char;
      }
    }
    if s == SeedBytes(seed) {
      forall i | 0 <= i < |s| ensures Letters(s)[i] == seed[i] {
      }
    }
  }

  ghost function SeededBytes(base: key32, seed: string, number: u64): bytes
    requires IsSeed(seed)
  {
    base + (Little(|seed|, 8) + (SeedBytes(seed) + Little(number, 8)))
  }

  /** Base, seed and number are read exactly when their bytes come first. */
  lemma SeededWritten(s: bytes, base: key32, seed: string, number: u64, rest: bytes)
    requires IsSeed(seed) && s == SeededBytes(base, seed, number) + rest
    ensures ReadSeeded(s) == Some((base, seed, number, rest))
  {
    var s3 := Little(number, 8) + rest;
    var s2 := SeedBytes(seed) + s3;
    var s1 := Little(|seed|, 8) + s2;
    assert s == base + s1;
    EightBytes();
    TakeRoundTrip(base, s1);
    NumberFirst(s1, 8, |seed|, s2);
    TakeRoundTrip(SeedBytes(seed), s3);
    Amount64First(s3, number);
    LettersOf(SeedBytes(seed), seed);
    assert s3[8..] == rest;
  }

  lemma SeedRead(s: bytes, seed: string)
    requires |s| < TWO_64 && seed == Letters(s)
    ensures IsSeed(seed) && s == SeedBytes(seed)
  {
    LettersOf(s, seed);
  }

  lemma NumberRead(s: bytes, x: nat, rest: bytes)
    requires ReadNumber(s, 8) == Some((x, rest))
    ensures x < TWO_64 && s == Little(x, 8) + rest
  {
    LeBound(s[..8]);
    EightBytes();
    NumberFirst(s, 8, x, rest);
  }

  lemma LastRead(s: bytes, number: u64)
    requires Amount64(s) == Some(number)
    ensures |s| >= 8 && s == Little(number, 8) + s[8..]
  {
    Amount64First(s, number);
  }

  lemma Halves(s: bytes, k: nat)
    requires k <= |s|
    ensures s == s[..k] + s[k..]
  {
  }

  lemma Together(base: bytes, count: bytes, seed: bytes, number: bytes, rest: bytes)
    ensures base + (count + (seed + (number + rest))) == base + (count + (seed + number)) + rest
  {
  }

  /** Nothing else is read as base, seed and number. */
  lemma SeededRead(s: bytes, base: key32, seed: string, number: u64, rest: bytes)
    requires ReadSeeded(s) == Some((base, seed, number, rest))
    ensures IsSeed(seed) && s == SeededBytes(base, seed, number) + rest
  {
    var s1 := s[KEY_SIZE..];
    var n, s2 := ReadNumber(s1, 8).value.0, s1[8..];
    var s3 := s2[n..];
    NumberRead(s1, n, s2);
    SeedRead(s2[..n], seed);
    LastRead(s3, number);
    Halves(s, KEY_SIZE);
    Halves(s2, n);
    Together(base, Little(n, 8), s2[..n], Little(number, 8), rest);
  }

  // ---- System instructions ----

  function KindOf(s: SystemInfo): nat
  {
    match s
    case CreateAccount(_, _, _) => 0
    case Assign(_, _) => 1
    case Transfer(_, _, _) => 2
    case CreateWithSeed(_, _, _, _, _) => 3
    case AdvanceNonce(_, _) => 4
    case WithdrawNonce(_, _, _, _) => 5
    case InitializeNonce(_, _) => 6
    case AuthorizeNonce(_, _, _) => 7
    case Allocate(_, _) => 8
    case AllocateWithSeed(_, _, _, _, _) => 9
  }

  /** The accounts come in the order that the program wants, with the accounts of the system between them. */
  predicate HasAccounts(s: SystemInfo, keys: seq<key32>)
  {
    match s
    case CreateAccount(from, to, _) => |keys| >= 2 && keys[0] == from && keys[1] == to
    case Assign(account, _) => |keys| >= 1 && keys[0] == account
    case Transfer(from, to, _) => |keys| >= 2 && keys[0] == from && keys[1] == to
    case CreateWithSeed(from, to, _, _, _) => |keys| >= 2 && keys[0] == from && keys[1] == to
    case AdvanceNonce(account, authority) => |keys| >= 3 && keys[0] == account && keys[2] == authority
    case WithdrawNonce(account, authority, to, _) =>
      |keys| >= 5 && keys[0] == account && keys[1] == to && keys[4] == authority
    case InitializeNonce(account, _) => |keys| >= 3 && keys[0] == account
    case AuthorizeNonce(account, authority, _) => |keys| >= 2 && keys[0] == account && keys[1] == authority
    case Allocate(account, _) => |keys| >= 1 && keys[0] == account
    case AllocateWithSeed(account, _, _, _, _) => |keys| >= 2 && keys[0] == account
  }

  ghost predicate Writable(s: SystemInfo)
  {
    s.CreateWithSeed? || s.AllocateWithSeed? ==> IsSeed(s.seed)
  }

  ghost function Fields(s: SystemInfo): bytes
    requires Writable(s)
  {
    match s
    case CreateAccount(_, _, lamports) => Little(lamports, 8)
    case Assign(_, program) => program
    case Transfer(_, _, lamports) => Little(lamports, 8)
    case CreateWithSeed(_, _, base, seed, lamports) => SeededBytes(base, seed, lamports)
    case AdvanceNonce(_, _) => []
    case WithdrawNonce(_, _, _, lamports) => Little(lamports, 8)
    case InitializeNonce(_, authority) => authority
    case AuthorizeNonce(_, _, newAuthority) => newAuthority
    case Allocate(_, space) => Little(space, 8)
    case AllocateWithSeed(_, base, seed, space, program) => SeededBytes(base, seed, space) + program
  }

  ghost function SystemData(s: SystemInfo): bytes
    requires Writable(s)
  {
    Little(KindOf(s), 4) + Fields(s)
  }

  lemma AmountFields(kind: nat, keys: seq<key32>, data: bytes, s: SystemInfo)
    requires s.CreateAccount? || s.Transfer? || s.WithdrawNonce? || s.Allocate?
    ensures DecodeAmount(kind, keys, data) == Some(s) <==>
      kind == KindOf(s) && HasAccounts(s, keys) && Fields(s) <= data
  {
    Amount64First(data, if s.Allocate? then s.space else s.lamports);
  }

  lemma KeyedFields(kind: nat, keys: seq<key32>, data: bytes, s: SystemInfo)
    requires s.Assign? || s.AdvanceNonce? || s.InitializeNonce? || s.AuthorizeNonce?
    ensures DecodeKeyed(kind, keys, data) == Some(s) <==> kind == KindOf(s) && HasAccounts(s, keys) && Fields(s) <= data
  {
    if !s.AdvanceNonce? {
      KeyFirst(data, if s.Assign? then s.program else if s.InitializeNonce? then s.authority else s.newAuthority);
    }
  }

  lemma PrefixOf(a: bytes, b: bytes, s: bytes)
    ensures a + b <= s <==> a <= s && b <= s[|a|..]
  {
    if a <= s && b <= s[|a|..] {
      assert s == a + s[|a|..];
    }
    if a + b <= s {
      assert s[..|a|] == (a + b)[..|a|] == a;
      assert s[|a|..|a| + |b|] == (a + b)[|a|..] == b;
    }
  }

  lemma SeededFieldsWritten(keys: seq<key32>, data: bytes, s: SystemInfo)
    requires (s.CreateWithSeed? || s.AllocateWithSeed?) && Writable(s) && HasAccounts(s, keys) && Fields(s) <= data
    ensures DecodeSeeded(KindOf(s), keys, data) == Some(s)
  {
    var number := if s.CreateWithSeed? then s.lamports else s.space;
    var front := SeededBytes(s.base, s.seed, number);
    if s.AllocateWithSeed? {
      PrefixOf(front, s.program, data);
      KeyFirst(data[|front|..], s.program);
    }
    assert data == front + data[|front|..];
    SeededWritten(data, s.base, s.seed, number, data[|front|..]);
  }

  lemma SeededFieldsRead(kind: nat, keys: seq<key32>, data: bytes, s: SystemInfo)
    requires kind == 3 || kind == 9
    requires DecodeSeeded(kind, keys, data) == Some(s)
    ensures (s.CreateWithSeed? || s.AllocateWithSeed?) && kind == KindOf(s)
    ensures Writable(s) && HasAccounts(s, keys) && Fields(s) <= data
  {
    var r := ReadSeeded(data).value;
    SeededRead(data, r.0, r.1, r.2, r.3);
    if s.AllocateWithSeed? {
      KeyFirst(r.3, s.program);
      PrefixOf(SeededBytes(r.0, r.1, r.2), s.program, data);
    }
  }

  lemma FieldsIff(kind: nat, keys: seq<key32>, data: bytes, s: SystemInfo)
    ensures DecodeFields(kind, keys, data) == Some(s) <==>
      kind == KindOf(s) && Writable(s) && HasAccounts(s, keys) && Fields(s) <= data
  {
    if s.CreateWithSeed? || s.AllocateWithSeed? {
      if kind == KindOf(s) && Writable(s) && HasAccounts(s, keys) && Fields(s) <= data {
        SeededFieldsWritten(keys, data, s);
      }
      if DecodeFields(kind, keys, data) == Some(s) {
        SeededFieldsRead(kind, keys, data, s);
      }
    } else if s.CreateAccount? || s.Transfer? || s.WithdrawNonce? || s.Allocate? {
      AmountFields(kind, keys, data, s);
    } else {
      KeyedFields(kind, keys, data, s);
    }
  }

  /** An instruction is taken for exactly what its accounts and bytes say, whatever bytes follow. */
  lemma SystemIff(keys: seq<key32>, data: bytes, s: SystemInfo)
    ensures DecodeSystem(keys, data) == Some(s) <==> Writable(s) && HasAccounts(s, keys) && SystemData(s) <= data
  {
    EightBytes();
    var kind := Little(KindOf(s), 4);
    if |data| >= 4 {
      NumberFirst(data, 4, KindOf(s), data[4..]);
      FieldsIff(Le(data[..4]), keys, data[4..], s);
      assert data == data[..4] + data[4..];
    }
    if Writable(s) {
      PrefixOf(kind, Fields(s), data);
    }
  }

  // ---- Compute budget instructions ----

  function BudgetData(r: Request): bytes
  {
    match r
    case HeapFrame(size) => [1] + Little(size, 4)
    case UnitLimit(units) => [2] + Little(units, 4)
    case UnitPrice(price) => [3] + Little(price, 8)
    case DataSizeLimit(size) => [4] + Little(size, 4)
  }

  lemma SmallFirst(s: bytes, x: u32)
    ensures |s| >= 4 && Le(s[..4]) == x <==> Little(x, 4) <= s
  {
    EightBytes();
    if |s| >= 4 {
      NumberFirst(s, 4, x, s[4..]);
      assert s == s[..4] + s[4..];
    }
  }

  /** A request is taken for exactly what its bytes say, whatever bytes follow. */
  lemma BudgetIff(data: bytes, r: Request)
    ensures DecodeBudget(data) == Some(r) <==> BudgetData(r) <= data
  {
    if data != [] {
      var tail := if r.UnitPrice? then Little(r.price, 8) else Little(if r.UnitLimit? then r.units else r.size, 4);
      PrefixOf([BudgetData(r)[0]], tail, data);
      if r.UnitPrice? {
        Amount64First(data[1..], r.price);
      } else {
        SmallFirst(data[1..], if r.UnitLimit? then r.units else r.size);
      }
    }
  }

  // ---- Any instruction ----

  /** The number of accounts that are looked at: it is kept in one byte. */
  function Count(ix: Instruction): byte
  {
    |ix.accounts| % 256
  }

  /** Funder, address, owner and mint come first; two more accounts have to be there. */
  predicate NamesAccount(h: MessageHeader, ix: Instruction, funder: key32, address: key32, owner: key32, mint: key32)
    requires h.Whole() && ValidIndices(ix, h)
  {
    && Count(ix) >= 6
    && h.Key(ix.accounts[0]) == funder && h.Key(ix.accounts[1]) == address
    && h.Key(ix.accounts[2]) == owner && h.Key(ix.accounts[3]) == mint
  }

  /** Where ids agree, an instruction is taken for the program that is asked for first. */
  predicate RunsBudget(env: Environment, key: key32)
  {
    && key == env.budget && key !in {env.system, env.stake, env.vote, env.token, env.associated, env.memo}
    && key !in env.assertOwner
  }

  predicate RunsMemo(env: Environment, key: key32)
  {
    key == env.memo && key !in {env.system, env.stake, env.vote, env.token, env.associated} && key !in env.assertOwner
  }

  /** What an instruction has to be for each of the things that can be found out about it. */
  ghost predicate IsInfo(env: Environment, h: MessageHeader, ix: Instruction, info: Info)
    requires h.Whole() && ValidIndices(ix, h)
  {
    var key := h.Key(ix.programIdIndex);
    match info
    case System(s) =>
      key == env.system && Writable(s) && HasAccounts(s, Accounts(h, ix)) && SystemData(s) <= ix.data
    case Stake(s) => key == env.stake && key != env.system && env.decodeStake(h, ix) == Some(s)
    case Vote(v) => key == env.vote && key !in {env.system, env.stake} && env.decodeVote(h, ix) == Some(v)
    case Token(t) =>
      key == env.token && key !in {env.system, env.stake, env.vote} && env.decodeToken(h, ix) == Some(t)
    case AssociatedToken(funder, address, owner, mint) =>
      && key == env.associated && key !in {env.system, env.stake, env.vote, env.token}
      && NamesAccount(h, ix, funder, address, owner, mint)
    case AssertOwner =>
      key in env.assertOwner && key !in {env.system, env.stake, env.vote, env.token, env.associated}
    case Memo => RunsMemo(env, key)
    case Budget(n, r) => RunsBudget(env, key) && n == h.numRequiredSignatures && BudgetData(r) <= ix.data
    case Unknown => false
  }

  lemma AssociatedIff(env: Environment, h: MessageHeader, ix: Instruction, funder: key32, address: key32, owner: key32,
      mint: key32)
    requires h.Whole() && ValidIndices(ix, h) && ProgramOf(env, h.Key(ix.programIdIndex)) == AssociatedProgram
    ensures InfoOf(env, h, ix) == AssociatedToken(funder, address, owner, mint) <==>
      NamesAccount(h, ix, funder, address, owner, mint)
  {
  }

  lemma SystemInfoIff(env: Environment, h: MessageHeader, ix: Instruction, s: SystemInfo)
    requires h.Whole() && ValidIndices(ix, h)
    ensures InfoOf(env, h, ix) == System(s) <==> IsInfo(env, h, ix, System(s))
  {
    SystemIff(Accounts(h, ix), ix.data, s);
    SystemOnly(env, h, ix, s);
  }

  lemma SystemOnly(env: Environment, h: MessageHeader, ix: Instruction, s: SystemInfo)
    requires h.Whole() && ValidIndices(ix, h)
    ensures InfoOf(env, h, ix) == System(s) <==>
      h.Key(ix.programIdIndex) == env.system && DecodeSystem(Accounts(h, ix), ix.data) == Some(s)
  {
  }

  lemma BudgetInfoIff(env: Environment, h: MessageHeader, ix: Instruction, n: byte, r: Request)
    requires h.Whole() && ValidIndices(ix, h)
    ensures InfoOf(env, h, ix) == Budget(n, r) <==> IsInfo(env, h, ix, Budget(n, r))
  {
    BudgetIff(ix.data, r);
  }

  lemma DecodedIff(env: Environment, h: MessageHeader, ix: Instruction, info: Info)
    requires h.Whole() && ValidIndices(ix, h)
    requires info.Stake? || info.Vote? || info.Token? || info.AssertOwner? || info.Memo?
    ensures InfoOf(env, h, ix) == info <==> IsInfo(env, h, ix, info)
  {
  }

  /** What is found out about an instruction is exactly what its program, accounts and bytes say. */
  lemma InfoIff(env: Environment, h: MessageHeader, ix: Instruction, info: Info)
    requires h.Whole() && ValidIndices(ix, h) && info != Unknown
    ensures InfoOf(env, h, ix) == info <==> IsInfo(env, h, ix, info)
  {
    match info
    case System(s) => SystemInfoIff(env, h, ix, s);
    case Budget(n, r) => BudgetInfoIff(env, h, ix, n, r);
    case AssociatedToken(funder, address, owner, mint) => AssociatedInfoIff(env, h, ix, funder, address, owner, mint);
    case _ => DecodedIff(env, h, ix, info);
  }

  lemma AssociatedInfoIff(env: Environment, h: MessageHeader, ix: Instruction, funder: key32, address: key32,
      owner: key32, mint: key32)
    requires h.Whole() && ValidIndices(ix, h)
    ensures InfoOf(env, h, ix) == AssociatedToken(funder, address, owner, mint) <==>
      IsInfo(env, h, ix, AssociatedToken(funder, address, owner, mint))
  {
    if ProgramOf(env, h.Key(ix.programIdIndex)) == AssociatedProgram {
      AssociatedIff(env, h, ix, funder, address, owner, mint);
    }
  }

  /** Nothing is found out exactly when the instruction is none of these. */
  lemma UnknownIff(env: Environment, h: MessageHeader, ix: Instruction)
    requires h.Whole() && ValidIndices(ix, h)
    ensures InfoOf(env, h, ix) == Unknown <==> forall info: Info :: !IsInfo(env, h, ix, info)
  {
    if InfoOf(env, h, ix) == Unknown {
      forall info: Info ensures !IsInfo(env, h, ix, info) {
        if info != Unknown {
          InfoIff(env, h, ix, info);
        }
      }
    } else {
      InfoIff(env, h, ix, InfoOf(env, h, ix));
    }
  }
}
