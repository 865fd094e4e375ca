/** From an instruction to what the printers need: libsol/instruction.c and the instruction parsers. */
module Instructions {
  import opened Bytes
  import opened Wire
  import opened Parser
  import opened Infos

  datatype Program =
    SystemProgram | StakeProgram | VoteProgram | TokenProgram | AssociatedProgram | AssertOwnerProgram | MemoProgram
    | BudgetProgram | UnknownProgram

  /** The program ids, and the parsers for the programs whose instructions are not taken apart here. */
  datatype Environment = Environment(system: key32, stake: key32, vote: key32, token: key32, associated: key32,
    assertOwner: seq<key32>, memo: key32, budget: key32,
    decodeStake: (MessageHeader, Instruction) -> Option<StakeInfo>,
    decodeVote: (MessageHeader, Instruction) -> Option<VoteInfo>,
    decodeToken: (MessageHeader, Instruction) -> Option<TokenInfo>)

  /** Program and accounts are keys of the header. */
  predicate ValidIndices(ix: Instruction, h: MessageHeader)
  {
    ix.programIdIndex < h.pubkeysLength && forall i :: 0 <= i < |ix.accounts| ==> ix.accounts[i] < h.pubkeysLength
  }

  method Validate(ix: Instruction, h: MessageHeader) returns (valid: bool)
    ensures valid == ValidIndices(ix, h)
  {
    if ix.programIdIndex >= h.pubkeysLength {
      return false;
    }
    var i := 0;
    while i < |ix.accounts|
      invariant 0 <= i <= |ix.accounts|
      invariant forall j :: 0 <= j < i ==> ix.accounts[j] < h.pubkeysLength
    {
      if ix.accounts[i] >= h.pubkeysLength {
        return false;
      }
      i := i + 1;
    }
    return true;
  }

  /** instruction_program_id: the order matters only if two programs had the same id. */
  function ProgramOf(env: Environment, key: key32): Program
  {
    if key == env.system then SystemProgram
    else if key == env.stake then StakeProgram
    else if key == env.vote then VoteProgram
    else if key == env.token then TokenProgram
    else if key == env.associated then AssociatedProgram
    else if key in env.assertOwner then AssertOwnerProgram
    else if key == env.memo then MemoProgram
    else if key == env.budget then BudgetProgram
    else UnknownProgram
  }

  /** The keys the accounts iterator yields; it keeps the number of accounts in one byte. */
  function Accounts(h: MessageHeader, ix: Instruction): (keys: seq<key32>)
    requires h.Whole() && ValidIndices(ix, h)
    ensures |keys| == |ix.accounts| % 256 && forall i :: 0 <= i < |keys| ==> keys[i] == h.Key(ix.accounts[i])
  {
    seq(|ix.accounts| % 256, i requires 0 <= i < |ix.accounts| % 256 => h.Key(ix.accounts[i]))
  }

  class AccountsIterator {
    const h: MessageHeader
    const ix: Instruction
    const length: byte
    var current: nat

    ghost predicate Valid()
      reads this
    {
      h.Whole() && ValidIndices(ix, h) && length == |ix.accounts| % 256 && current <= length
    }

    constructor (h: MessageHeader, ix: Instruction)
      requires h.Whole() && ValidIndices(ix, h)
      ensures Valid() && this.h == h && this.ix == ix && current == 0
    {
      this.h, this.ix, length, current := h, ix, |ix.accounts| % 256, 0;
    }

    /** The next of the accounts, until there are no more. */
    method Next() returns (key: Option<key32>)
      requires Valid()
      modifies this
      ensures Valid()
      ensures var keys := Accounts(h, ix);
        if old(current) < |keys| then key == Some(keys[old(current)]) && current == old(current) + 1
        else key == None && current == old(current)
    {
      if current < length {
        key := Some(h.Key(ix.accounts[current]));
        current := current + 1;
      } else {
        key := None;
      }
    }
  }

  // ---- System instructions ----

  function Letters(s: bytes): (t: string)
    ensures |t| == |s| && forall i :: 0 <= i < |s| ==> t[i] == s[i] as char
  {
    seq(|s|, i requires 0 <= i < |s| => s[i] as char)
  }

  /** A number of eight bytes at the front; what follows is ignored. */
  function Amount64(s: bytes): (n: Option<u64>)
  {
    match ReadNumber(s, 8)
    case None => None
    case Some((n, _)) => LeBound(s[..8]); Some(n)
  }

  function KeyAt(s: bytes): Option<key32>
  {
    if |s| < KEY_SIZE then None else Some(s[..KEY_SIZE])
  }

  /** Base key, seed behind its eight-byte length, a number, and what follows. */
  function ReadSeeded(s: bytes): Option<(key32, string, u64, bytes)>
  {
    match Take(s, KEY_SIZE)
    case None => None
    case Some((base, s1)) =>
      match ReadNumber(s1, 8)
      case None => None
      case Some((n, s2)) =>
        match Take(s2, n)
        case None => None
        case Some((seed, s3)) =>
          var number := Amount64(s3);
          if number.None? then None else Some((base, Letters(seed), number.value, s3[8..]))
  }

  function DecodeSeeded(kind: nat, keys: seq<key32>, data: bytes): Option<SystemInfo>
  {
    var seeded := ReadSeeded(data);
    if |keys| < 2 || seeded.None? then None
    else if kind == 3 then Some(CreateWithSeed(keys[0], keys[1], seeded.value.0, seeded.value.1, seeded.value.2))
    else
      var program := KeyAt(seeded.value.3);
      if program.None? then None
      else Some(AllocateWithSeed(keys[0], seeded.value.0, seeded.value.1, seeded.value.2, program.value))
  }

  /** The instructions that hold a key, or nothing. */
  function DecodeKeyed(kind: nat, keys: seq<key32>, data: bytes): Option<SystemInfo>
  {
    var key := KeyAt(data);
    if kind == 4 then if |keys| < 3 then None else Some(AdvanceNonce(keys[0], keys[2]))
    else if key.None? then None
    else if kind == 1 then if |keys| < 1 then None else Some(Assign(keys[0], key.value))
    else if kind == 6 then if |keys| < 3 then None else Some(InitializeNonce(keys[0], key.value))
    else if kind == 7 then if |keys| < 2 then None else Some(AuthorizeNonce(keys[0], keys[1], key.value))
    else None
  }

  /** The instructions that hold an amount. */
  function DecodeAmount(kind: nat, keys: seq<key32>, data: bytes): Option<SystemInfo>
  {
    var amount := Amount64(data);
    if amount.None? then None
    else if kind == 8 then if |keys| < 1 then None else Some(Allocate(keys[0], amount.value))
    else if |keys| < 2 then None
    else if kind == 0 then Some(CreateAccount(keys[0], keys[1], amount.value))
    else if kind == 2 then Some(Transfer(keys[0], keys[1], amount.value))
    else if kind != 5 || |keys| < 5 then None
    else Some(WithdrawNonce(keys[0], keys[4], keys[1], amount.value))
  }

  function DecodeFields(kind: nat, keys: seq<key32>, data: bytes): Option<SystemInfo>
  {
    if kind == 3 || kind == 9 then DecodeSeeded(kind, keys, data)
    else if kind == 1 || kind == 4 || kind == 6 || kind == 7 then DecodeKeyed(kind, keys, data)
    else DecodeAmount(kind, keys, data)
  }

  /** parse_system_instructions: the kind decides which accounts and fields there are. */
  function DecodeSystem(keys: seq<key32>, data: bytes): Option<SystemInfo>
  {
    match ReadNumber(data, 4)
    case None => None
    case Some((kind, rest)) => DecodeFields(kind, keys, rest)
  }

  // ---- Compute budget instructions ----

  function DecodeBudget(data: bytes): Option<Request>
  {
    if data == [] then None
    else
      var rest := data[1..];
      var small := ReadNumber(rest, 4);
      if data[0] == 3 then
        var price := Amount64(rest);
        if price.None? then None else Some(UnitPrice(price.value))
      else if small.None? then None
      else
        LeBound(rest[..4]);
        var n := small.value.0;
        if data[0] == 1 then Some(HeapFrame(n))
        else if data[0] == 2 then Some(UnitLimit(n))
        else if data[0] == 4 then Some(DataSizeLimit(n))
        else None
  }

  // ---- Any instruction ----

  /** What process_message_body finds out about one instruction; Unknown if its parser fails. */
  function InfoOf(env: Environment, h: MessageHeader, ix: Instruction): Info
    requires h.Whole() && ValidIndices(ix, h)
  {
    var keys := Accounts(h, ix);
    match ProgramOf(env, h.Key(ix.programIdIndex))
    case AssertOwnerProgram => AssertOwner
    case MemoProgram => Memo
    case AssociatedProgram =>
      if |keys| < 6 then Unknown else AssociatedToken(keys[0], keys[1], keys[2], keys[3])
    case TokenProgram =>
      var t := env.decodeToken(h, ix);
      if t.None? then Unknown else Token(t.value)
    case SystemProgram =>
      var s := DecodeSystem(keys, ix.data);
      if s.None? then Unknown else System(s.value)
    case StakeProgram =>
      var s := env.decodeStake(h, ix);
      if s.None? then Unknown else Stake(s.value)
    case VoteProgram =>
      var v := env.decodeVote(h, ix);
      if v.None? then Unknown else Vote(v.value)
    case BudgetProgram =>
      var b := DecodeBudget(ix.data);
      if b.None? then Unknown else Budget(h.numRequiredSignatures, b.value)
    case UnknownProgram => Unknown
  }
}
