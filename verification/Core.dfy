/** Values shared by every component: accounts, program calls and their outputs,
    and the account contents the token and AMM programs store.

    Account data and instruction data are typed values here; the byte encodings
    are not part of this model. */
module Core {

  // ---------------------------------------------------------------- results

  datatype Option<+T> = None | Some(value: T)

  datatype Result<+T, +E> = Ok(value: T) | Err(error: E) {
    predicate IsFailure() { Err? }

    function PropagateFailure<U>(): Result<U, E>
      requires Err?
    {
      Err(error)
    }

    function Extract(): T
      requires Ok?
    {
      value
    }
  }

  /** The outcome of a check: it passes, or fails with an error. */
  datatype Check<+E> = Pass | Fail(error: E) {
    predicate IsFailure() { Fail? }

    function PropagateFailure<U>(): Result<U, E>
      requires Fail?
    {
      Err(error)
    }
  }

  function Ensure<E>(condition: bool, error: E): Check<E> {
    if condition then Pass else Fail(error)
  }

  // --------------------------------------------------------------- integers

  const U128_LIMIT: nat := 0x1_0000_0000_0000_0000_0000_0000_0000_0000

  type u128 = x: nat | x < U128_LIMIT

  // --------------------------------------------------------------- accounts

  datatype AccountId = AccountId(value: nat)

  type ProgramId = nat

  const DEFAULT_PROGRAM_ID: ProgramId := 0

  datatype PdaSeed = PdaSeed(value: nat)

  datatype Account = Account(owner: ProgramId, balance: u128, data: Data, nonce: u128)

  const DEFAULT_ACCOUNT := Account(DEFAULT_PROGRAM_ID, 0, Empty, 0)

  type Accounts = map<AccountId, Account>

  /** An id that is not stored reads as the default account. */
  function Lookup(accounts: Accounts, id: AccountId): Account {
    if id in accounts then accounts[id] else DEFAULT_ACCOUNT
  }

  datatype AccountWithMetadata =
    AccountWithMetadata(account: Account, isAuthorized: bool, id: AccountId)

  // ------------------------------------------------- contents of an account

  datatype Data =
    | Empty
    | HoldingData(holding: TokenHolding)
    | DefinitionData(definition: TokenDefinition)
    | MetadataData(metadata: TokenMetadata)
    | PoolData(pool: PoolDefinition)
    | OtherData(bytes: seq<nat>)

  datatype TokenHolding =
    | Fungible(definitionId: AccountId, balance: u128)
    | NftMaster(definitionId: AccountId, printBalance: u128)
    | NftPrintedCopy(definitionId: AccountId, owned: bool)

  datatype TokenDefinition =
    | FungibleDefinition(name: string, totalSupply: u128, metadataId: Option<AccountId>)
    | NonFungibleDefinition(name: string, printableSupply: u128, nftMetadataId: AccountId)

  datatype MetadataStandard = Simple | Expanded

  datatype TokenMetadata = TokenMetadata(
    definitionId: AccountId, standard: MetadataStandard, uri: string, creators: string, primarySaleDate: nat)

  datatype PoolDefinition = PoolDefinition(
    tokenA: AccountId,
    tokenB: AccountId,
    vaultA: AccountId,
    vaultB: AccountId,
    lpDefinition: AccountId,
    lpSupply: u128,
    reserveA: u128,
    reserveB: u128,
    fees: u128,
    active: bool)

  // ----------------------------------------------------------- instructions

  datatype Instruction =
    | TokenCall(token: TokenInstruction)
    | AmmCall(amm: AmmInstruction)
    | OtherCall(words: seq<nat>)

  datatype NewTokenDefinition =
    | NewFungible(name: string, totalSupply: u128)
    | NewNonFungible(name: string, printableSupply: u128)

  datatype NewTokenMetadata = NewTokenMetadata(standard: MetadataStandard, uri: string, creators: string)

  datatype TokenInstruction =
    | Transfer(amount: u128)
    | NewFungibleDefinition(name: string, totalSupply: u128)
    | NewDefinitionWithMetadata(newDefinition: NewTokenDefinition, metadata: NewTokenMetadata)
    | InitializeAccount
    | Burn(amount: u128)
    | Mint(amount: u128)
    | PrintNft

  datatype AmmInstruction =
    | NewPool(amountA: u128, amountB: u128, ammProgram: ProgramId)
    | AddLiquidity(minLiquidity: u128, maxA: u128, maxB: u128)
    | RemoveLiquidity(liquidity: u128, minA: u128, minB: u128)
    | SwapExactInput(amountIn: u128, minOut: u128, tokenIn: AccountId)
    | SwapExactOutput(amountOut: u128, maxIn: u128, tokenIn: AccountId)

  // ---------------------------------------------------------- program calls

  datatype Claim = Authorized | Pda(seed: PdaSeed)

  datatype AccountPostState = AccountPostState(account: Account, claim: Option<Claim>)

  function Unclaimed(account: Account): AccountPostState {
    AccountPostState(account, None)
  }

  function Claimed(account: Account, claim: Claim): AccountPostState {
    AccountPostState(account, Some(claim))
  }

  function ClaimedIfDefault(account: Account, claim: Claim): AccountPostState {
    AccountPostState(account, if account.owner == DEFAULT_PROGRAM_ID then Some(claim) else None)
  }

  datatype ChainedCall = ChainedCall(
    programId: ProgramId,
    preStates: seq<AccountWithMetadata>,
    instruction: Instruction,
    pdaSeeds: seq<PdaSeed>)

  /** Half-open: `from` is included, `to` is not. */
  datatype ValidityWindow = ValidityWindow(from: Option<nat>, to: Option<nat>) {
    predicate Contains(value: nat) {
      && (from.Some? ==> from.value <= value)
      && (to.Some? ==> value < to.value)
    }
  }

  const UNBOUNDED := ValidityWindow(None, None)

  datatype ProgramOutput = ProgramOutput(
    selfProgramId: ProgramId,
    callerProgramId: Option<ProgramId>,
    preStates: seq<AccountWithMetadata>,
    postStates: seq<AccountPostState>,
    chainedCalls: seq<ChainedCall>,
    blockWindow: ValidityWindow,
    timestampWindow: ValidityWindow)

  // ------------------------------------------------------------ sequences

  ghost predicate Distinct<T>(s: seq<T>) {
    forall i, j :: 0 <= i < j < |s| ==> s[i] != s[j]
  }

  function Ids(states: seq<AccountWithMetadata>): seq<AccountId> {
    seq(|states|, i requires 0 <= i < |states| => states[i].id)
  }
}
