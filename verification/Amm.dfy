/** The AMM program: constant-product pools over pairs of tokens, moving tokens by chained calls to
    the token program. */
module Amm {
  import opened Core
  import opened Arithmetic

  /** Unchecked integer operations stop the program in a checked build and wrap around in a release
      build; the model covers both. */
  datatype Profile = Checked | Wrapping

  datatype AmmError =
    | WrongAccountCount
    | ZeroAmountInput
    | ArithmeticOverflow
    | DivisionByZero
    | InvalidPool
    | InactivePool
    | ActivePool
    | VaultMismatch
    | LpDefinitionMismatch
    | InvalidTokenHolding
    | NotFungible
    | ReserveExceedsVault
    | ZeroReserves
    | ZeroTradeAmount
    | ZeroLiquidity
    | Slippage
    | ExceedsReserve
    | UnknownToken
    | TokenProgramMismatch
    | SameToken
    | PdaMismatch
    | LpHoldingMismatch

  type Amount = Result<u128, AmmError>

  // ------------------------------------------------------------- arithmetic

  function UAdd(p: Profile, a: u128, b: u128): Amount {
    if a + b < U128_LIMIT then Ok(a + b)
    else if p.Wrapping? then Ok((a + b) % U128_LIMIT)
    else Err(ArithmeticOverflow)
  }

  function USub(p: Profile, a: u128, b: u128): Amount {
    if b <= a then Ok(a - b)
    else if p.Wrapping? then Ok((a - b) % U128_LIMIT)
    else Err(ArithmeticOverflow)
  }

  function UMul(p: Profile, a: u128, b: u128): Amount {
    if a * b < U128_LIMIT then Ok(a * b)
    else if p.Wrapping? then Ok((a * b) % U128_LIMIT)
    else Err(ArithmeticOverflow)
  }

  /** `checked_mul`: stops in every build. */
  function CheckedMul(a: u128, b: u128): Amount {
    if a * b < U128_LIMIT then Ok(a * b) else Err(ArithmeticOverflow)
  }

  function UDiv(a: u128, b: u128): Amount {
    if b == 0 then Err(DivisionByZero)
    else
      DivAtMost(a, b);
      Ok(a / b)
  }

  function DivCeil(a: u128, b: u128): Amount {
    if b == 0 then Err(DivisionByZero)
    else
      DivAtMost(a, b);
      Ok(CeilDiv(a, b))
  }

  function Min(a: u128, b: u128): u128 {
    if a <= b then a else b
  }

  /** The integer square root. */
  function Isqrt(n: nat): (r: nat)
    ensures r * r <= n < (r + 1) * (r + 1)
    ensures r <= n
  {
    if n == 0 then 0
    else
      var half := Isqrt(n / 4);
      IsqrtStep(n, n / 4, half);
      var r := if (2 * half + 1) * (2 * half + 1) <= n then 2 * half + 1 else 2 * half;
      SelfSquare(r);
      r
  }

  lemma IsqrtStep(n: nat, quarter: nat, half: nat)
    requires 4 * quarter <= n < 4 * quarter + 4
    requires half * half <= quarter < (half + 1) * (half + 1)
    ensures (2 * half) * (2 * half) <= n < (2 * half + 2) * (2 * half + 2)
  {
    assert (2 * half) * (2 * half) == 4 * (half * half);
    assert (2 * half + 2) * (2 * half + 2) == 4 * ((half + 1) * (half + 1));
  }

  lemma SelfSquare(r: nat)
    ensures r <= r * r
  {
    if r > 0 {
      MulLe(1, r, r);
    }
  }

  // ----------------------------------------------------------- pool amounts

  function SwapInputAmount(p: Profile, reserveIn: u128, reserveOut: u128, amountIn: u128, minOut: u128): Amount {
    var product :- CheckedMul(reserveOut, amountIn);
    var divisor :- UAdd(p, reserveIn, amountIn);
    var out :- UDiv(product, divisor);
    if out < minOut then Err(Slippage)
    else if out == 0 then Err(ZeroTradeAmount)
    else Ok(out)
  }

  function SwapOutputAmount(reserveIn: u128, reserveOut: u128, amountOut: u128, maxIn: u128): Amount {
    if amountOut == 0 then Err(ZeroTradeAmount)
    else if amountOut >= reserveOut then Err(ExceedsReserve)
    else
      var product :- CheckedMul(reserveIn, amountOut);
      var deposit :- DivCeil(product, reserveOut - amountOut);
      if deposit > maxIn then Err(Slippage) else Ok(deposit)
  }

  /** A reserve after a deposit and a withdrawal. */
  function Moved(p: Profile, reserve: u128, deposit: u128, withdraw: u128): Amount {
    var raised :- UAdd(p, reserve, deposit);
    USub(p, raised, withdraw)
  }

  function PoolAfterSwap(p: Profile, pool: PoolDefinition, inA: u128, outA: u128, inB: u128, outB: u128)
      : Result<PoolDefinition, AmmError>
  {
    var a :- Moved(p, pool.reserveA, inA, outA);
    var b :- Moved(p, pool.reserveB, inB, outB);
    Ok(pool.(reserveA := a, reserveB := b))
  }

  datatype Deposit = Deposit(a: u128, b: u128, liquidity: u128)

  function AddAmounts(p: Profile, pool: PoolDefinition, minLiquidity: u128,
                      maxA: u128, maxB: u128): Result<Deposit, AmmError> {
    var productA :- UMul(p, pool.reserveA, maxB);
    var idealA :- UDiv(productA, pool.reserveB);
    var productB :- UMul(p, pool.reserveB, maxA);
    var idealB :- UDiv(productB, pool.reserveA);
    var a, b := Min(idealA, maxA), Min(idealB, maxB);
    if a == 0 || b == 0 then Err(ZeroTradeAmount) else
    var shareA :- UMul(p, pool.lpSupply, a);
    var liquidityA :- UDiv(shareA, pool.reserveA);
    var shareB :- UMul(p, pool.lpSupply, b);
    var liquidityB :- UDiv(shareB, pool.reserveB);
    var liquidity := Min(liquidityA, liquidityB);
    if liquidity == 0 then Err(ZeroLiquidity)
    else if liquidity < minLiquidity then Err(Slippage)
    else Ok(Deposit(a, b, liquidity))
  }

  function PoolAfterAdd(p: Profile, pool: PoolDefinition, d: Deposit): Result<PoolDefinition, AmmError> {
    var supply :- UAdd(p, pool.lpSupply, d.liquidity);
    var a :- UAdd(p, pool.reserveA, d.a);
    var b :- UAdd(p, pool.reserveB, d.b);
    Ok(pool.(lpSupply := supply, reserveA := a, reserveB := b))
  }

  datatype Withdrawal = Withdrawal(a: u128, b: u128, liquidity: u128)

  function RemoveAmounts(p: Profile, pool: PoolDefinition, amount: u128,
                         minA: u128, minB: u128): Result<Withdrawal, AmmError> {
    var productA :- UMul(p, pool.reserveA, amount);
    var a :- UDiv(productA, pool.lpSupply);
    var productB :- UMul(p, pool.reserveB, amount);
    var b :- UDiv(productB, pool.lpSupply);
    if a < minA || b < minB then Err(Slippage) else
    var product :- UMul(p, pool.lpSupply, amount);
    var liquidity :- UDiv(product, pool.lpSupply);
    Ok(Withdrawal(a, b, liquidity))
  }

  function PoolAfterRemove(p: Profile, pool: PoolDefinition, w: Withdrawal): Result<PoolDefinition, AmmError> {
    var supply :- USub(p, pool.lpSupply, w.liquidity);
    var a :- USub(p, pool.reserveA, w.a);
    var b :- USub(p, pool.reserveB, w.b);
    Ok(pool.(lpSupply := supply, reserveA := a, reserveB := b, active := supply != 0))
  }

  function InitialLiquidity(p: Profile, amountA: u128, amountB: u128): Amount {
    var product :- UMul(p, amountA, amountB);
    Ok(Isqrt(product))
  }

  // ---------------------------------------------------------------- accounts

  /** How pool, vault and liquidity-token addresses are derived. Arbitrary. */
  datatype Addresses = Addresses(publicPda: (ProgramId, PdaSeed) -> AccountId, seedHash: (AccountId, AccountId) -> PdaSeed)

  function PoolSeed(at: Addresses, a: AccountId, b: AccountId): PdaSeed {
    if a.value < b.value then at.seedHash(b, a) else at.seedHash(a, b)
  }

  function VaultSeed(at: Addresses, pool: AccountId, token: AccountId): PdaSeed {
    at.seedHash(pool, token)
  }

  function LpSeed(at: Addresses, pool: AccountId): PdaSeed {
    at.seedHash(pool, AccountId(0))
  }

  function HoldingOf(data: Data): Result<TokenHolding, AmmError> {
    if data.HoldingData? then Ok(data.holding) else Err(InvalidTokenHolding)
  }

  function FungibleBalance(data: Data): Amount {
    var h :- HoldingOf(data);
    if h.Fungible? then Ok(h.balance) else Err(NotFungible)
  }

  function PoolOf(data: Data): Result<PoolDefinition, AmmError> {
    if data.PoolData? then Ok(data.pool) else Err(InvalidPool)
  }

  function WithPool(account: Account, pool: PoolDefinition): Account {
    account.(data := PoolData(pool))
  }

  function Authorize(a: AccountWithMetadata): AccountWithMetadata {
    a.(isAuthorized := true)
  }

  function TokenTransfer(program: ProgramId, from: AccountWithMetadata, to: AccountWithMetadata,
                         amount: u128, seeds: seq<PdaSeed>): ChainedCall {
    ChainedCall(program, [from, to], TokenCall(Transfer(amount)), seeds)
  }

  datatype AmmOutput = AmmOutput(posts: seq<AccountPostState>, calls: seq<ChainedCall>)

  type AmmEffect = Result<AmmOutput, AmmError>

  // ------------------------------------------------------------------- swaps

  /** The pool is active, the vaults are its own, hold fungible tokens, and cover the reserves. */
  function ValidateSwapSetup(pool: AccountWithMetadata, vaultA: AccountWithMetadata, vaultB: AccountWithMetadata)
      : Result<PoolDefinition, AmmError>
  {
    var def :- PoolOf(pool.account.data);
    if !def.active then Err(InactivePool)
    else if vaultA.id != def.vaultA || vaultB.id != def.vaultB then Err(VaultMismatch)
    else
      var balanceA :- FungibleBalance(vaultA.account.data);
      if balanceA < def.reserveA then Err(ReserveExceedsVault) else
      var balanceB :- FungibleBalance(vaultB.account.data);
      if balanceB < def.reserveB then Err(ReserveExceedsVault) else
      Ok(def)
  }

  /** Deposit call, then withdrawal call under the withdrawing vault's seed. */
  function SwapCalls(at: Addresses, userDeposit: AccountWithMetadata, vaultDeposit: AccountWithMetadata,
                     vaultWithdraw: AccountWithMetadata, userWithdraw: AccountWithMetadata, amountIn: u128,
                     amountOut: u128, poolId: AccountId): Result<seq<ChainedCall>, AmmError>
  {
    var program := userDeposit.account.owner;
    var holding :- HoldingOf(vaultWithdraw.account.data);
    Ok([TokenTransfer(program, userDeposit, vaultDeposit, amountIn, []),
        TokenTransfer(program, Authorize(vaultWithdraw), userWithdraw, amountOut,
                      [VaultSeed(at, poolId, holding.definitionId)])])
  }

  function SwapPosts(pool: AccountWithMetadata, after: PoolDefinition, vaultA: AccountWithMetadata,
                     vaultB: AccountWithMetadata, userA: AccountWithMetadata,
                     userB: AccountWithMetadata): seq<AccountPostState>
  {
    [Unclaimed(WithPool(pool.account, after)), Unclaimed(vaultA.account), Unclaimed(vaultB.account),
     Unclaimed(userA.account), Unclaimed(userB.account)]
  }

  /** Swaps in the direction of `tokenIn`, given what goes in and what comes out of the two reserves. */
  function SwapEffect(p: Profile, at: Addresses, pool: AccountWithMetadata, vaultA: AccountWithMetadata,
                      vaultB: AccountWithMetadata, userA: AccountWithMetadata, userB: AccountWithMetadata,
                      exactInput: bool, amount: u128, limit: u128, tokenIn: AccountId): AmmEffect
  {
    var def :- ValidateSwapSetup(pool, vaultA, vaultB);
    if tokenIn == def.tokenA then
      var amounts :- SwapAmounts(p, def.reserveA, def.reserveB, exactInput, amount, limit);
      var calls :- SwapCalls(at, userA, vaultA, vaultB, userB, amounts.0, amounts.1, pool.id);
      var after :- PoolAfterSwap(p, def, amounts.0, 0, 0, amounts.1);
      Ok(AmmOutput(SwapPosts(pool, after, vaultA, vaultB, userA, userB), calls))
    else if tokenIn == def.tokenB then
      var amounts :- SwapAmounts(p, def.reserveB, def.reserveA, exactInput, amount, limit);
      var calls :- SwapCalls(at, userB, vaultB, vaultA, userA, amounts.0, amounts.1, pool.id);
      var after :- PoolAfterSwap(p, def, 0, amounts.1, amounts.0, 0);
      Ok(AmmOutput(SwapPosts(pool, after, vaultA, vaultB, userA, userB), calls))
    else Err(UnknownToken)
  }

  /** Amount in and amount out, for either kind of swap. */
  function SwapAmounts(p: Profile, reserveIn: u128, reserveOut: u128, exactInput: bool, amount: u128, limit: u128)
      : Result<(u128, u128), AmmError>
  {
    if exactInput then
      var out :- SwapInputAmount(p, reserveIn, reserveOut, amount, limit);
      Ok((amount, out))
    else
      var deposit :- SwapOutputAmount(reserveIn, reserveOut, amount, limit);
      Ok((deposit, amount))
  }

  // --------------------------------------------------------------- liquidity

  function AddEffect(p: Profile, at: Addresses, pool: AccountWithMetadata, vaultA: AccountWithMetadata,
                     vaultB: AccountWithMetadata, lpDefinition: AccountWithMetadata,
                     userA: AccountWithMetadata, userB: AccountWithMetadata,
                     userLp: AccountWithMetadata, minLiquidity: u128, maxA: u128, maxB: u128): AmmEffect
  {
    var def :- PoolOf(pool.account.data);
    if vaultA.id != def.vaultA then Err(VaultMismatch)
    else if lpDefinition.id != def.lpDefinition then Err(LpDefinitionMismatch)
    else if vaultB.id != def.vaultB then Err(VaultMismatch)
    else if maxA == 0 || maxB == 0 then Err(ZeroAmountInput)
    else
      var balanceB :- FungibleBalance(vaultB.account.data);
      var balanceA :- FungibleBalance(vaultA.account.data);
      if def.reserveA == 0 || def.reserveB == 0 then Err(ZeroReserves)
      else if balanceA < def.reserveA || balanceB < def.reserveB then Err(ReserveExceedsVault)
      else
        var deposit :- AddAmounts(p, def, minLiquidity, maxA, maxB);
        var after :- PoolAfterAdd(p, def, deposit);
        var program := userA.account.owner;
        var calls := [
          ChainedCall(program, [Authorize(lpDefinition), userLp], TokenCall(Mint(deposit.liquidity)), [LpSeed(at, pool.id)]),
          TokenTransfer(program, userB, vaultB, deposit.b, []),
          TokenTransfer(program, userA, vaultA, deposit.a, [])];
        Ok(AmmOutput(LiquidityPosts(Unclaimed(WithPool(pool.account, after)), vaultA, vaultB, lpDefinition, userA,
            userB, userLp), calls))
  }

  function LiquidityPosts(poolPost: AccountPostState, vaultA: AccountWithMetadata, vaultB: AccountWithMetadata,
                          lpDefinition: AccountWithMetadata, userA: AccountWithMetadata,
                          userB: AccountWithMetadata, userLp: AccountWithMetadata): seq<AccountPostState>
  {
    [poolPost, Unclaimed(vaultA.account), Unclaimed(vaultB.account), Unclaimed(lpDefinition.account),
     Unclaimed(userA.account), Unclaimed(userB.account), Unclaimed(userLp.account)]
  }

  function RemoveEffect(p: Profile, at: Addresses, pool: AccountWithMetadata, vaultA: AccountWithMetadata,
                        vaultB: AccountWithMetadata, lpDefinition: AccountWithMetadata,
                        userA: AccountWithMetadata, userB: AccountWithMetadata,
                        userLp: AccountWithMetadata, amount: u128, minA: u128, minB: u128): AmmEffect
  {
    var def :- PoolOf(pool.account.data);
    if !def.active then Err(InactivePool)
    else if lpDefinition.id != def.lpDefinition then Err(LpDefinitionMismatch)
    else if vaultA.id != def.vaultA || vaultB.id != def.vaultB then Err(VaultMismatch)
    else if minA == 0 || minB == 0 then Err(ZeroAmountInput)
    else
      var held :- HoldingOf(userLp.account.data);
      if !held.Fungible? then Err(NotFungible)
      else if held.balance > def.lpSupply || held.definitionId != def.lpDefinition then Err(LpHoldingMismatch)
      else
        var w :- RemoveAmounts(p, def, amount, minA, minB);
        var after :- PoolAfterRemove(p, def, w);
        var program := userA.account.owner;
        var calls := [
          ChainedCall(program, [Authorize(lpDefinition), userLp], TokenCall(Burn(w.liquidity)), [LpSeed(at, pool.id)]),
          TokenTransfer(program, Authorize(vaultB), userB, w.b, [VaultSeed(at, pool.id, def.tokenB)]),
          TokenTransfer(program, Authorize(vaultA), userA, w.a, [VaultSeed(at, pool.id, def.tokenA)])];
        Ok(AmmOutput(LiquidityPosts(Unclaimed(WithPool(pool.account, after)), vaultA, vaultB, lpDefinition, userA,
            userB, userLp), calls))
  }

  /** Creates a pool, or re-creates one whose liquidity was all removed. */
  function NewPoolEffect(p: Profile, at: Addresses, pool: AccountWithMetadata, vaultA: AccountWithMetadata,
                         vaultB: AccountWithMetadata, lpDefinition: AccountWithMetadata,
                         userA: AccountWithMetadata, userB: AccountWithMetadata, userLp: AccountWithMetadata,
                         amountA: u128, amountB: u128, amm: ProgramId): AmmEffect
  {
    var holdingA :- HoldingOf(userA.account.data);
    var holdingB :- HoldingOf(userB.account.data);
    var tokenA, tokenB := holdingA.definitionId, holdingB.definitionId;
    if userB.account.owner != userA.account.owner then Err(TokenProgramMismatch)
    else if tokenA == tokenB then Err(SameToken)
    else if pool.id != at.publicPda(amm, PoolSeed(at, tokenA, tokenB))
         || vaultA.id != at.publicPda(amm, VaultSeed(at, pool.id, tokenA))
         || vaultB.id != at.publicPda(amm, VaultSeed(at, pool.id, tokenB))
         || lpDefinition.id != at.publicPda(amm, LpSeed(at, pool.id)) then Err(PdaMismatch)
    else
      var isNew := pool.account == DEFAULT_ACCOUNT;
      var active :- if isNew then Ok(false) else var def :- PoolOf(pool.account.data); Ok(def.active);
      if active then Err(ActivePool) else
      var liquidity :- InitialLiquidity(p, amountA, amountB);
      var after := PoolDefinition(tokenA, tokenB, vaultA.id, vaultB.id, lpDefinition.id, liquidity, amountA, amountB,
          0, true);
      var program := userA.account.owner;
      var lpInstruction := if isNew then NewFungibleDefinition("LP Token", liquidity) else Mint(liquidity);
      var calls := [
        ChainedCall(program, [Authorize(lpDefinition), userLp], TokenCall(lpInstruction), [LpSeed(at, pool.id)]),
        TokenTransfer(program, userB, Authorize(vaultB), amountB, [VaultSeed(at, pool.id, tokenB)]),
        TokenTransfer(program, userA, Authorize(vaultA), amountA, [VaultSeed(at, pool.id, tokenA)])];
      var poolPost := ClaimedIfDefault(WithPool(pool.account, after), Pda(PoolSeed(at, tokenA, tokenB)));
      Ok(AmmOutput(LiquidityPosts(poolPost, vaultA, vaultB, lpDefinition, userA, userB, userLp), calls))
  }

  // --------------------------------------------------------------- the program

  function AmmEffects(p: Profile, at: Addresses, s: seq<AccountWithMetadata>, instruction: AmmInstruction): AmmEffect {
    match instruction
    case NewPool(a, b, amm) =>
      if |s| != 7 then Err(WrongAccountCount) else if a == 0 || b == 0 then Err(ZeroAmountInput)
      else NewPoolEffect(p, at, s[0], s[1], s[2], s[3], s[4], s[5], s[6], a, b, amm)
    case AddLiquidity(min, maxA, maxB) =>
      if |s| != 7 then Err(WrongAccountCount) else if min == 0 then Err(ZeroAmountInput)
      else AddEffect(p, at, s[0], s[1], s[2], s[3], s[4], s[5], s[6], min, maxA, maxB)
    case RemoveLiquidity(amount, minA, minB) =>
      if |s| != 7 then Err(WrongAccountCount) else if amount == 0 then Err(ZeroAmountInput)
      else RemoveEffect(p, at, s[0], s[1], s[2], s[3], s[4], s[5], s[6], amount, minA, minB)
    case SwapExactInput(amount, min, tokenIn) =>
      if |s| != 5 then Err(WrongAccountCount)
      else SwapEffect(p, at, s[0], s[1], s[2], s[3], s[4], true, amount, min, tokenIn)
    case SwapExactOutput(amount, max, tokenIn) =>
      if |s| != 5 then Err(WrongAccountCount)
      else SwapEffect(p, at, s[0], s[1], s[2], s[3], s[4], false, amount, max, tokenIn)
  }

  function AmmProgram(p: Profile, at: Addresses, self: ProgramId, caller: Option<ProgramId>,
                      pres: seq<AccountWithMetadata>, instruction: Instruction): Option<ProgramOutput>
  {
    if !instruction.AmmCall? then None
    else
      match AmmEffects(p, at, pres, instruction.amm)
      case Err(_) => None
      case Ok(out) => Some(ProgramOutput(self, caller, pres, out.posts, out.calls, UNBOUNDED, UNBOUNDED))
  }
}
