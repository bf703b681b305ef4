/** Trades that always go through: on a wired pool with the right vaults, a user who signed and has the tokens. */
module AmmTrades {
  import opened Core
  import opened Sums
  import opened Calls
  import opened CallTrace
  import opened Token
  import opened TokenSupply
  import opened TokenRules
  import opened TokenTransfers
  import opened Amm
  import opened AmmMath
  import opened AmmAmounts
  import opened AmmRules
  import opened AmmPools
  import opened AmmWiring
  import opened AmmCalls
  import opened AmmSolvency
  import opened AmmProgress

  /** A transaction's own AMM call on a wired pool whose vaults hold the pool's two tokens, in a state where every
      token is backed. */
  ghost predicate Market(ctx: Context, amm: ProgramId, token: ProgramId, at: Addresses) {
    var s := ctx.initialCall.preStates;
    && RunsToken(ctx.execute, token) && token != DEFAULT_PROGRAM_ID && at.publicPda == ctx.publicPda
    && WellPrepared(ctx, amm, token) && Backed(token, ctx.accounts)
    && |s| >= 5 && s[0].account.data.PoolData?
    && var pool := s[0].account.data.pool;
       && WiredBy(at, amm, s[0].id, pool)
       && s[1].id == pool.vaultA && s[2].id == pool.vaultB
       && Coins(token, s[1].account, pool.tokenA) && Coins(token, s[2].account, pool.tokenB)
  }

  /** The user's holdings of the two tokens. */
  ghost predicate UserHolds(token: ProgramId, pool: PoolDefinition,
                            userA: AccountWithMetadata, userB: AccountWithMetadata) {
    Coins(token, userA.account, pool.tokenA) && Coins(token, userB.account, pool.tokenB)
  }

  // -------------------------------------------------------------------- token calls

  /** Two holdings of one backed token never hold 2^128 together. */
  lemma CoinsFit(token: ProgramId, accounts: Accounts, x: AccountWithMetadata, y: AccountWithMetadata, d: AccountId)
    requires Backed(token, accounts) && x.id != y.id
    requires x.account == Lookup(accounts, x.id) && y.account == Lookup(accounts, y.id)
    requires Coins(token, x.account, d) && Coins(token, y.account, d)
    ensures Held(x.account.data) + Held(y.account.data) < U128_LIMIT
  {
    hide Sum;
    SumBoundsTwo(accounts, UnitsOf(token, Coin, d), x.id, y.id);
  }

  /** A holding is within what its definition declares. */
  lemma CoinsDeclared(token: ProgramId, accounts: Accounts, x: AccountWithMetadata, d: AccountId)
    requires Backed(token, accounts) && x.account == Lookup(accounts, x.id) && Coins(token, x.account, d)
    ensures Held(x.account.data) <= Declared(Lookup(accounts, d).data)
  {
    hide Sum;
    SumBoundsEach(accounts, UnitsOf(token, Coin, d), x.id);
  }

  lemma TransferCall(ctx: Context, amm: ProgramId, token: ProgramId, x: AccountWithMetadata,
                     y: AccountWithMetadata, d: AccountId, amount: u128, call: ChainedCall)
    requires RunsToken(ctx.execute, token) && token != DEFAULT_PROGRAM_ID
    requires IsCall(call, token, x, y, Transfer(amount), call.pdaSeeds) && WellFlagged(ctx, amm, call)
    requires x.isAuthorized && Coins(token, x.account, d) && Coins(token, y.account, d)
    requires amount <= Held(x.account.data) && Held(y.account.data) + amount < U128_LIMIT
    ensures Acceptable(ctx, amm, token, call)
  {
    hide RunsToken, WellFlagged, Acceptable, TransferEffect;
    TransferExactly(x, y, amount);
    TokenAcceptable(ctx, amm, token, call);
  }

  /** A call without seeds, on accounts flagged exactly when they signed. */
  lemma UnseededFlagged(ctx: Context, amm: ProgramId, call: ChainedCall, x: AccountWithMetadata, y: AccountWithMetadata)
    requires call.preStates == [x, y] && call.pdaSeeds == []
    requires (x.isAuthorized <==> x.id in ctx.signers) && (y.isAuthorized <==> y.id in ctx.signers)
    ensures WellFlagged(ctx, amm, call)
  {
    assert AuthorizedPdas(ctx, Some(amm), call.pdaSeeds) == {};
  }

  /** The user's transfer into a vault. */
  lemma PaysIn(ctx: Context, amm: ProgramId, token: ProgramId, user: AccountWithMetadata,
               vault: AccountWithMetadata, d: AccountId, amount: u128, call: ChainedCall)
    requires RunsToken(ctx.execute, token) && token != DEFAULT_PROGRAM_ID && Backed(token, ctx.accounts)
    requires GivenTruly(ctx, user) && GivenTruly(ctx, vault) && user.id != vault.id && user.isAuthorized
    requires Coins(token, user.account, d) && Coins(token, vault.account, d) && amount <= Held(user.account.data)
    requires IsCall(call, token, user, vault, Transfer(amount), [])
    ensures Acceptable(ctx, amm, token, call) && Held(vault.account.data) + amount < U128_LIMIT
  {
    hide RunsToken, Backed, Acceptable, WellFlagged;
    UnseededFlagged(ctx, amm, call, user, vault);
    CoinsFit(token, ctx.accounts, user, vault, d);
    TransferCall(ctx, amm, token, user, vault, d, amount, call);
  }

  /** The vault's transfer to the user, under the vault's seed. */
  lemma PaysOut(ctx: Context, amm: ProgramId, token: ProgramId, vault: AccountWithMetadata,
                user: AccountWithMetadata, d: AccountId, amount: u128, seed: PdaSeed, call: ChainedCall)
    requires RunsToken(ctx.execute, token) && token != DEFAULT_PROGRAM_ID && Backed(token, ctx.accounts)
    requires GivenTruly(ctx, user) && GivenTruly(ctx, vault) && user.id != vault.id
    requires vault.id == ctx.publicPda(amm, seed)
    requires Coins(token, user.account, d) && Coins(token, vault.account, d) && amount <= Held(vault.account.data)
    requires IsCall(call, token, Authorize(vault), user, Transfer(amount), [seed])
    ensures Acceptable(ctx, amm, token, call)
  {
    hide RunsToken, Backed, Acceptable, WellFlagged;
    OneSeedFlagged(ctx, amm, call, Authorize(vault), user, seed);
    CoinsFit(token, ctx.accounts, user, vault, d);
    TransferCall(ctx, amm, token, Authorize(vault), user, d, amount, call);
  }

  // --------------------------------------------------------------------------- swaps

  /** The two calls of a swap. */
  lemma SwapCallsAccepted(ctx: Context, amm: ProgramId, token: ProgramId, payer: AccountWithMetadata,
                          vaultIn: AccountWithMetadata, vaultOut: AccountWithMetadata, receiver: AccountWithMetadata,
                          dIn: AccountId, dOut: AccountId, i: u128, o: u128, seed: PdaSeed, calls: seq<ChainedCall>)
    requires RunsToken(ctx.execute, token) && token != DEFAULT_PROGRAM_ID && Backed(token, ctx.accounts)
    requires GivenTruly(ctx, payer) && GivenTruly(ctx, vaultIn) && GivenTruly(ctx, vaultOut) && GivenTruly(ctx, receiver)
    requires payer.id != vaultIn.id && vaultOut.id != receiver.id && vaultOut.id == ctx.publicPda(amm, seed)
    requires Coins(token, payer.account, dIn) && Coins(token, vaultIn.account, dIn)
    requires Coins(token, vaultOut.account, dOut) && Coins(token, receiver.account, dOut)
    requires payer.isAuthorized && i <= Held(payer.account.data) && o <= Held(vaultOut.account.data)
    requires |calls| == 2 && IsCall(calls[0], token, payer, vaultIn, Transfer(i), [])
      && IsCall(calls[1], token, Authorize(vaultOut), receiver, Transfer(o), [seed])
    ensures forall j :: 0 <= j < 2 ==> Acceptable(ctx, amm, token, calls[j])
  {
    hide RunsToken, Backed, Acceptable, Coins, IsCall;
    PaysIn(ctx, amm, token, payer, vaultIn, dIn, i, calls[0]);
    PaysOut(ctx, amm, token, vaultOut, receiver, dOut, o, seed, calls[1]);
  }

  lemma SwapWithinVaults(p: Profile, x: u128, y: u128, exactInput: bool, amount: u128, limit: u128, i: u128, o: u128)
    requires IsSwap(p, x, y, exactInput, amount, limit, i, o) && x + i < U128_LIMIT
    ensures o <= y
  {
    hide IsSwap, SwapAmounts;
    SwapExactly(p, x, y, exactInput, amount, limit, i, o);
    SwapMoves(p, x, y, exactInput, amount, limit);
  }

  /** In a market, a swap of which there is one within the limit is accepted from a user who signed and holds what
      it costs; and then it is what happens. */
  lemma SwapGoesThrough(ctx: Context, amm: ProgramId, token: ProgramId, p: Profile, at: Addresses,
                        exactInput: bool, amount: u128, limit: u128, tokenIn: AccountId, i: u128, o: u128)
    requires RunsAmm(ctx.execute, amm, p, at) && Market(ctx, amm, token, at)
    requires ctx.initialCall.instruction == AmmCall(if exactInput then SwapExactInput(amount, limit, tokenIn)
                                                    else SwapExactOutput(amount, limit, tokenIn))
    requires var s := ctx.initialCall.preStates; var pool := s[0].account.data.pool; var aToB := tokenIn == pool.tokenA;
      && SwapReady(s, tokenIn) && UserHolds(token, pool, s[3], s[4])
      && IsSwap(p, if aToB then pool.reserveA else pool.reserveB, if aToB then pool.reserveB else pool.reserveA,
                exactInput, amount, limit, i, o)
      && (if aToB then s[3] else s[4]).isAuthorized && i <= Held((if aToB then s[3] else s[4]).account.data)
    ensures RunCalls(ctx).Ok?
    ensures AmmKept(p, ctx.initialCall.preStates, ctx.initialCall.instruction.amm, ctx.accounts,
                    ctx.accounts + RunCalls(ctx).value.diff)
  {
    hide RunsAmm, RunsToken, Backed, AmmEffects, IsSwap, Acceptable,
         RunCalls, AmmKept, IsCall, Distinct, OnlyPoolWritten;
    var s := ctx.initialCall.preStates;
    var pool := s[0].account.data.pool;
    AllApart(s);
    var out: AmmOutput;
    if tokenIn == pool.tokenA {
      CoinsFit(token, ctx.accounts, s[3], s[1], pool.tokenA);
      SwapWithinVaults(p, pool.reserveA, pool.reserveB, exactInput, amount, limit, i, o);
      out := SwapOutput(p, at, s, exactInput, amount, limit, tokenIn, i, o);
      SwapCallsAccepted(ctx, amm, token, s[3], s[1], s[2], s[4], pool.tokenA, pool.tokenB, i, o,
                        at.seedHash(s[0].id, pool.tokenB), out.calls);
    } else {
      CoinsFit(token, ctx.accounts, s[4], s[2], pool.tokenB);
      SwapWithinVaults(p, pool.reserveB, pool.reserveA, exactInput, amount, limit, i, o);
      out := SwapOutput(p, at, s, exactInput, amount, limit, tokenIn, i, o);
      SwapCallsAccepted(ctx, amm, token, s[4], s[2], s[1], s[3], pool.tokenB, pool.tokenA, i, o,
                        at.seedHash(s[0].id, pool.tokenA), out.calls);
    }
    TradeGoesThrough(ctx, amm, token, p, at, out);
  }

  lemma AllApart(s: seq<AccountWithMetadata>)
    requires Distinct(Ids(s))
    ensures forall i, j :: 0 <= i < j < |s| ==> s[i].id != s[j].id
  {
    forall i, j | 0 <= i < j < |s|
      ensures s[i].id != s[j].id
    {
      assert Ids(s)[i] != Ids(s)[j];
    }
  }

  /** A trade whose calls the token program accepts is accepted, and does what it promises. */
  lemma TradeGoesThrough(ctx: Context, amm: ProgramId, token: ProgramId, p: Profile, at: Addresses, out: AmmOutput)
    requires RunsAmm(ctx.execute, amm, p, at) && RunsToken(ctx.execute, token) && WellPrepared(ctx, amm, token)
    requires AmmEffects(p, at, ctx.initialCall.preStates, ctx.initialCall.instruction.amm) == Ok(out)
    requires out.calls != [] && forall j :: 0 <= j < |out.calls| ==> Acceptable(ctx, amm, token, out.calls[j])
    ensures RunCalls(ctx).Ok?
    ensures AmmKept(p, ctx.initialCall.preStates, ctx.initialCall.instruction.amm, ctx.accounts,
                    ctx.accounts + RunCalls(ctx).value.diff)
  {
    hide RunsAmm, RunsToken, AmmEffects, Acceptable, RunCalls, AmmKept;
    TokenIsLeaf(ctx, token);
    AmmGoesThrough(ctx, amm, token, p, at, out);
    AcceptableGoesTo(ctx, amm, token, out.calls[0]);
    AmmCallsOneProgram(p, at, ctx.initialCall.preStates, ctx.initialCall.instruction.amm, out);
    RootCall(ctx, amm, token);
    TransactionSolvent(ctx, amm, token, p, at);
  }

  lemma RootCall(ctx: Context, amm: ProgramId, token: ProgramId)
    requires RunCalls(ctx).Ok? && WellPrepared(ctx, amm, token)
    ensures ctx.initialCall.programId == amm && ctx.initialCall.instruction.AmmCall?
    ensures |RunCalls(ctx).value.trace| > 0 && RunCalls(ctx).value.trace[0].item.call == ctx.initialCall
  {
    hide RunCalls, History;
    AcceptedRunHasHistory(ctx);
  }

  // ------------------------------------------------------------------------- liquidity

  /** The liquidity token's definition and the user's holding of it. */
  ghost predicate LiquidityHeld(token: ProgramId, pool: PoolDefinition,
                                lp: AccountWithMetadata, user: AccountWithMetadata) {
    && lp.account.owner == token && lp.id == pool.lpDefinition
    && lp.account.data.DefinitionData? && lp.account.data.definition.FungibleDefinition?
    && Coins(token, user.account, pool.lpDefinition)
  }

  /** The call on the liquidity token: a mint, or a burn the holder signed. */
  lemma LiquidityCall(ctx: Context, amm: ProgramId, token: ProgramId, pool: PoolDefinition, lp: AccountWithMetadata,
                      user: AccountWithMetadata, instruction: TokenInstruction, seed: PdaSeed, call: ChainedCall)
    requires RunsToken(ctx.execute, token) && token != DEFAULT_PROGRAM_ID
    requires GivenTruly(ctx, lp) && GivenTruly(ctx, user) && lp.id != user.id && lp.id == ctx.publicPda(amm, seed)
    requires LiquidityHeld(token, pool, lp, user)
    requires match instruction
      case Mint(amount) => Held(user.account.data) + amount < U128_LIMIT && Declared(lp.account.data) + amount < U128_LIMIT
      case Burn(amount) => user.isAuthorized && amount <= Held(user.account.data) && amount <= Declared(lp.account.data)
      case _ => false
    requires IsCall(call, token, Authorize(lp), user, instruction, [seed])
    ensures Acceptable(ctx, amm, token, call)
  {
    hide RunsToken, Acceptable, WellFlagged, MintEffect, BurnEffect;
    OneSeedFlagged(ctx, amm, call, Authorize(lp), user, seed);
    match instruction {
      case Mint(amount) => MintExactly(Authorize(lp), user, amount);
      case Burn(amount) => BurnExactly(Authorize(lp), user, amount);
      case _ =>
    }
    TokenAcceptable(ctx, amm, token, call);
  }

  /** A withdrawal of at most the whole supply pays within the reserves. */
  lemma WithdrawalFits(p: Profile, pool: PoolDefinition, amount: u128, minA: u128, minB: u128, w: Withdrawal)
    requires IsWithdrawal(p, pool, amount, minA, minB, w) && amount <= pool.lpSupply
    ensures w.a <= pool.reserveA && w.b <= pool.reserveB && w.liquidity <= amount
  {
    hide IsWithdrawal, RemoveAmounts;
    WithdrawalExactly(p, pool, amount, minA, minB, w);
    WithdrawalWithinShare(p, pool, amount, minA, minB);
    PaidWithin(pool.lpSupply, pool.reserveA, amount, w.a);
    PaidWithin(pool.lpSupply, pool.reserveB, amount, w.b);
  }

  /** In a market, whoever signed and holds liquidity tokens can withdraw what they are worth, down to their
      minimums. */
  lemma RemoveGoesThrough(ctx: Context, amm: ProgramId, token: ProgramId, p: Profile,
                          at: Addresses, amount: u128, minA: u128, minB: u128, w: Withdrawal)
    requires RunsAmm(ctx.execute, amm, p, at) && Market(ctx, amm, token, at)
    requires ctx.initialCall.instruction == AmmCall(RemoveLiquidity(amount, minA, minB))
    requires amount > 0 && minA > 0 && minB > 0
    requires var s := ctx.initialCall.preStates; var pool := s[0].account.data.pool;
      && RemoveReady(s) && IsWithdrawal(p, pool, amount, minA, minB, w)
      && CoversReserve(s[1].account.data, pool.reserveA) && CoversReserve(s[2].account.data, pool.reserveB)
      && UserHolds(token, pool, s[4], s[5]) && LiquidityHeld(token, pool, s[3], s[6])
      && s[6].isAuthorized && amount <= Held(s[6].account.data)
    ensures RunCalls(ctx).Ok?
    ensures AmmKept(p, ctx.initialCall.preStates, ctx.initialCall.instruction.amm, ctx.accounts,
                    ctx.accounts + RunCalls(ctx).value.diff)
  {
    hide RunsAmm, RunsToken, Backed, AmmEffects, IsWithdrawal, Acceptable,
         RunCalls, AmmKept, IsCall, Distinct, OnlyPoolWritten;
    var s := ctx.initialCall.preStates;
    var pool := s[0].account.data.pool;
    AllApart(s);
    WithdrawalFits(p, pool, amount, minA, minB, w);
    var out := RemoveOutput(p, at, s, amount, minA, minB, w);
    CoinsDeclared(token, ctx.accounts, s[6], pool.lpDefinition);
    LiquidityCall(ctx, amm, token, pool, s[3], s[6], Burn(w.liquidity), at.seedHash(s[0].id, AccountId(0)), out.calls[0]);
    PaysOut(ctx, amm, token, s[2], s[5], pool.tokenB, w.b, at.seedHash(s[0].id, pool.tokenB), out.calls[1]);
    PaysOut(ctx, amm, token, s[1], s[4], pool.tokenA, w.a, at.seedHash(s[0].id, pool.tokenA), out.calls[2]);
    TradeGoesThrough(ctx, amm, token, p, at, out);
  }

  /** The amounts of a deposit, and its place on top of a sound pool's numbers. */
  lemma DepositFits(p: Profile, pool: PoolDefinition, min: u128, maxA: u128, maxB: u128, d: Deposit)
    requires IsDeposit(p, pool, min, maxA, maxB, d)
    ensures d.a <= maxA && d.b <= maxB
    ensures PoolOk(pool) && pool.reserveA + d.a < U128_LIMIT && pool.reserveB + d.b < U128_LIMIT ==>
      pool.lpSupply + d.liquidity < U128_LIMIT
  {
    hide AddAmounts, Matches, Covered, PoolOk, Allows;
    DepositExactly(p, pool, min, maxA, maxB, d);
    MintWithinShare(p, pool, min, maxA, maxB);
    if PoolOk(pool) && pool.reserveA + d.a < U128_LIMIT && pool.reserveB + d.b < U128_LIMIT {
      AddKeepsPool(p, pool, min, maxA, maxB);
    }
  }

  /** In a market, a deposit into a sound pool that counts all its liquidity tokens is accepted from a user who
      signed and holds what was offered. */
  lemma AddGoesThrough(ctx: Context, amm: ProgramId, token: ProgramId, p: Profile,
                       at: Addresses, min: u128, maxA: u128, maxB: u128, d: Deposit)
    requires RunsAmm(ctx.execute, amm, p, at) && Market(ctx, amm, token, at)
    requires ctx.initialCall.instruction == AmmCall(AddLiquidity(min, maxA, maxB))
    requires min > 0 && maxA > 0 && maxB > 0
    requires var s := ctx.initialCall.preStates; var pool := s[0].account.data.pool;
      && AddReady(s) && IsDeposit(p, pool, min, maxA, maxB, d)
      && PoolOk(pool) && Declared(s[3].account.data) <= pool.lpSupply
      && UserHolds(token, pool, s[4], s[5]) && LiquidityHeld(token, pool, s[3], s[6])
      && s[4].isAuthorized && maxA <= Held(s[4].account.data) && s[5].isAuthorized && maxB <= Held(s[5].account.data)
    ensures RunCalls(ctx).Ok?
    ensures AmmKept(p, ctx.initialCall.preStates, ctx.initialCall.instruction.amm, ctx.accounts,
                    ctx.accounts + RunCalls(ctx).value.diff)
  {
    hide RunsAmm, RunsToken, Backed, AmmEffects, IsDeposit, Acceptable,
         RunCalls, AmmKept, IsCall, Distinct, OnlyPoolWritten, PoolOk;
    var s := ctx.initialCall.preStates;
    var pool := s[0].account.data.pool;
    AllApart(s);
    CoinsFit(token, ctx.accounts, s[4], s[1], pool.tokenA);
    CoinsFit(token, ctx.accounts, s[5], s[2], pool.tokenB);
    DepositFits(p, pool, min, maxA, maxB, d);
    var out := AddOutput(p, at, s, min, maxA, maxB, d);
    CoinsDeclared(token, ctx.accounts, s[6], pool.lpDefinition);
    LiquidityCall(ctx, amm, token, pool, s[3], s[6], Mint(d.liquidity), at.seedHash(s[0].id, AccountId(0)), out.calls[0]);
    PaysIn(ctx, amm, token, s[5], s[2], pool.tokenB, d.b, out.calls[1]);
    PaysIn(ctx, amm, token, s[4], s[1], pool.tokenA, d.a, out.calls[2]);
    TradeGoesThrough(ctx, amm, token, p, at, out);
  }
}
