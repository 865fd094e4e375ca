/** What the instruction parsers find out, and matching instructions against tables of libsol/instruction.c. */
module Infos {
  import opened Bytes

  /**
   * Where a key lies: among the keys of the message, by its index, or in the data of its own
   * instruction.  Two printers compare places instead of keys.
   */
  datatype Place = InHeader(index: byte) | InData(key: key32)
  {
    /** Data of two instructions never overlaps. */
    predicate Same(other: Place) { InHeader? && this == other }
  }

  datatype SystemInfo =
    | CreateAccount(from: key32, to: key32, lamports: u64)
    | Assign(account: key32, program: key32)
    | Transfer(from: key32, to: key32, lamports: u64)
    | CreateWithSeed(from: key32, to: key32, base: key32, seed: string, lamports: u64)
    | AdvanceNonce(account: key32, authority: key32)
    | WithdrawNonce(account: key32, authority: key32, to: key32, lamports: u64)
    | InitializeNonce(account: key32, authority: key32)
    | AuthorizeNonce(account: key32, authority: key32, newAuthority: key32)
    | Allocate(account: key32, space: u64)
    | AllocateWithSeed(account: key32, base: key32, seed: string, space: u64, program: key32)

  /** Staker and voter are the first role of their programs.  The checked variants take the new authority
      from the accounts. */
  datatype Role = First | Withdrawer

  datatype Lockup = Lockup(time: i64, epoch: u64, custodian: key32)

  datatype StakeInfo =
    | Initialize(account: key32, stakeAuthority: key32, withdrawAuthority: key32, lockup: Lockup)
    | InitializeChecked(account: key32, stakeAuthority: key32, withdrawAuthority: key32)
    | Authorize(account: key32, authority: key32, newAuthority: Place, custodian: Option<key32>, role: Role)
    | Delegate(account: key32, vote: key32, authority: key32)
    | Split(account: key32, authority: key32, splitAccount: key32, lamports: u64)
    | Withdraw(account: key32, authority: key32, to: key32, lamports: u64)
    | Deactivate(account: key32, authority: key32)
    | SetLockup(account: key32, authority: key32, time: Option<i64>, epoch: Option<u64>, custodian: Option<key32>)
    | Merge(destination: key32, source: key32, authority: key32)

  datatype VoteInfo =
    | VoteInitialize(account: key32, validator: key32, voteAuthority: key32, withdrawAuthority: key32, commission: u64)
    | VoteAuthorize(account: key32, authority: key32, newAuthority: Place, role: Role)
    | VoteWithdraw(account: key32, authority: key32, to: key32, lamports: u64)
    | UpdateValidator(account: key32, authority: key32, validator: key32)
    | UpdateCommission(account: key32, authority: key32, percent: byte)

  datatype Sign = Single(signer: key32) | Multi(account: key32, signers: byte)

  datatype Tokens = Tokens(mint: key32, amount: u64, decimals: byte)

  datatype TokenInfo =
    | InitializeMint(mint: key32, mintAuthority: key32, freezeAuthority: Option<key32>, decimals: byte)
    | InitializeAccount(second: bool, account: key32, mint: key32, owner: key32)
    | InitializeMultisig(account: key32, m: byte, n: byte)
    | Revoke(account: key32, sign: Sign)
    | SetAuthority(account: key32, newAuthority: Option<key32>, authorityType: cstring, sign: Sign)
    | CloseAccount(account: key32, destination: key32, sign: Sign)
    | FreezeAccount(account: key32, mint: key32, sign: Sign)
    | ThawAccount(account: key32, mint: key32, sign: Sign)
    | TransferChecked(source: key32, destination: key32, tokens: Tokens, sign: Sign)
    | ApproveChecked(account: key32, delegate: key32, tokens: Tokens, sign: Sign)
    | MintToChecked(account: key32, tokens: Tokens, sign: Sign)
    | BurnChecked(account: key32, tokens: Tokens, sign: Sign)
    | SyncNative(account: key32)

  datatype Request = HeapFrame(size: u32) | UnitLimit(units: u32) | UnitPrice(price: u64) | DataSizeLimit(size: u32)

  datatype Info =
    | Unknown
    | System(system: SystemInfo)
    | Stake(stake: StakeInfo)
    | Vote(vote: VoteInfo)
    | Token(token: TokenInfo)
    | AssociatedToken(funder: key32, address: key32, owner: key32, mint: key32)
    | Memo
    | AssertOwner
    | Budget(signatures: byte, request: Request)

  // ---- Briefs ----

  /** The entries of the tables at libsol/transaction_printers.c:8-198. */
  datatype Brief =
    | AnAdvanceNonce | ACreateAccount | ACreateWithSeed | ATransfer | AnAllocate | AnAllocateWithSeed | AnAssign
    | AnInitializeNonce
    | AStakeInitialize | AStakeInitializeChecked | ADelegate | ASplit | AStakeAuthorize | AStakeAuthorizeChecked
    | AVoteInitialize | AVoteAuthorize | AVoteAuthorizeChecked
    | AnInitializeMint | AnInitializeAccount | AnInitializeAccount2 | AnInitializeMultisig | ATransferChecked
    | AnAssociatedToken

  /** The program is the same and so is the kind of instruction; an associated token instruction has one kind. */
  predicate Matches(info: Info, brief: Brief)
  {
    match brief
    case AnAdvanceNonce => info.System? && info.system.AdvanceNonce?
    case ACreateAccount => info.System? && info.system.CreateAccount?
    case ACreateWithSeed => info.System? && info.system.CreateWithSeed?
    case ATransfer => info.System? && info.system.Transfer?
    case AnAllocate => info.System? && info.system.Allocate?
    case AnAllocateWithSeed => info.System? && info.system.AllocateWithSeed?
    case AnAssign => info.System? && info.system.Assign?
    case AnInitializeNonce => info.System? && info.system.InitializeNonce?
    case AStakeInitialize => info.Stake? && info.stake.Initialize?
    case AStakeInitializeChecked => info.Stake? && info.stake.InitializeChecked?
    case ADelegate => info.Stake? && info.stake.Delegate?
    case ASplit => info.Stake? && info.stake.Split?
    case AStakeAuthorize => info.Stake? && info.stake.Authorize? && info.stake.newAuthority.InData?
    case AStakeAuthorizeChecked => info.Stake? && info.stake.Authorize? && info.stake.newAuthority.InHeader?
    case AVoteInitialize => info.Vote? && info.vote.VoteInitialize?
    case AVoteAuthorize => info.Vote? && info.vote.VoteAuthorize? && info.vote.newAuthority.InData?
    case AVoteAuthorizeChecked => info.Vote? && info.vote.VoteAuthorize? && info.vote.newAuthority.InHeader?
    case AnInitializeMint => info.Token? && info.token.InitializeMint?
    case AnInitializeAccount => info.Token? && info.token.InitializeAccount? && !info.token.second
    case AnInitializeAccount2 => info.Token? && info.token.InitializeAccount? && info.token.second
    case AnInitializeMultisig => info.Token? && info.token.InitializeMultisig?
    case ATransferChecked => info.Token? && info.token.TransferChecked?
    case AnAssociatedToken => info.AssociatedToken?
  }

  /** The instructions match a table of as many briefs, entry by entry. */
  ghost predicate AllMatch(infos: seq<Info>, briefs: seq<Brief>)
    requires |infos| == |briefs|
  {
    forall i :: 0 <= i < |infos| ==> Matches(infos[i], briefs[i])
  }

  method MatchBriefs(infos: seq<Info>, briefs: seq<Brief>) returns (all: bool)
    requires |infos| == |briefs|
    ensures all == AllMatch(infos, briefs)
  {
    var i := 0;
    while i < |infos|
      invariant 0 <= i <= |infos|
      invariant forall j :: 0 <= j < i ==> Matches(infos[j], briefs[j])
    {
      if !Matches(infos[i], briefs[i]) {
        break;
      }
      i := i + 1;
    }
    all := i == |infos|;
  }
}
