/** The AMM and the token program composed by the transaction loop: what the vaults hold follows what
    the pool says, exactly. */
module AmmSolvency {
  import opened Core
  import opened Calls
  import opened CallTrace
  import opened Authority
  import opened Token
  import opened TokenSupply
  import opened Amm
  import opened AmmMath
  import opened AmmAmounts
  import opened AmmPools
  import opened AmmCalls

  // ------------------------------------------------------------- measuring

  /** What a pool counts as held in a vault. */
  function ReserveAt(data: Data, vault: AccountId): nat {
    if data.PoolData? then
      (if data.pool.vaultA == vault then data.pool.reserveA else 0)
      + (if data.pool.vaultB == vault then data.pool.reserveB else 0)
    else 0
  }

  function LpSupplyAt(data: Data, lp: AccountId): nat {
    if data.PoolData? && data.pool.lpDefinition == lp then data.pool.lpSupply else 0
  }

  /** What a vault holds beyond what the pool counts. */
  function Surplus(accounts: Accounts, pool: AccountId, vault: AccountId): int {
    Held(Lookup(accounts, vault).data) - ReserveAt(Lookup(accounts, pool).data, vault)
  }

  /** Liquidity tokens in existence beyond those the pool counts. */
  function SurplusLp(accounts: Accounts, pool: AccountId, lp: AccountId): int {
    Declared(Lookup(accounts, lp).data) - LpSupplyAt(Lookup(accounts, pool).data, lp)
  }

  // --------------------------------------------------------- what each call keeps

  /** A swap: no addition wraps, and each vault moves exactly as its reserve does. */
  ghost predicate SwapKept(p: Profile, s: seq<AccountWithMetadata>,
                           instruction: AmmInstruction, before: Accounts, after: Accounts) {
    && |s| == 5 && s[0].account.data.PoolData? && Fits(p, s[0].account.data.pool, instruction)
    && Surplus(after, s[0].id, s[1].id) == Surplus(before, s[0].id, s[1].id)
    && Surplus(after, s[0].id, s[2].id) == Surplus(before, s[0].id, s[2].id)
  }

  /** A deposit: the same, and the liquidity token follows if and only if the pool's supply does not wrap, as
      it does not in a checked build or a sound pool. */
  ghost predicate AddKept(p: Profile, s: seq<AccountWithMetadata>, min: u128,
                          maxA: u128, maxB: u128, before: Accounts, after: Accounts) {
    && |s| == 7 && s[0].account.data.PoolData?
    && var pool := s[0].account.data.pool;
       && Fits(p, pool, AddLiquidity(min, maxA, maxB))
       && Surplus(after, s[0].id, s[1].id) == Surplus(before, s[0].id, s[1].id)
       && Surplus(after, s[0].id, s[2].id) == Surplus(before, s[0].id, s[2].id)
       && AddAmounts(p, pool, min, maxA, maxB).Ok?
       && var fitsSupply := pool.lpSupply + AddAmounts(p, pool, min, maxA, maxB).value.liquidity < U128_LIMIT;
          && (SurplusLp(after, s[0].id, s[3].id) == SurplusLp(before, s[0].id, s[3].id) <==> fitsSupply)
          && (p.Checked? || PoolOk(pool) ==> fitsSupply)
  }

  /** A withdrawal: the liquidity token follows, and each vault does unless the payout exceeds the reserve,
      which it never does in a checked build or for at most the whole supply; then it is short by 2^128. */
  ghost predicate RemoveKept(p: Profile, s: seq<AccountWithMetadata>, amount: u128, before: Accounts, after: Accounts) {
    && |s| == 7 && s[0].account.data.PoolData?
    && var pool := s[0].account.data.pool;
       var withinA := PaysWithin(pool.reserveA, pool.lpSupply, amount);
       var withinB := PaysWithin(pool.reserveB, pool.lpSupply, amount);
       && Surplus(after, s[0].id, s[1].id) == Surplus(before, s[0].id, s[1].id) - (if withinA then 0 else U128_LIMIT)
       && Surplus(after, s[0].id, s[2].id) == Surplus(before, s[0].id, s[2].id) - (if withinB then 0 else U128_LIMIT)
       && SurplusLp(after, s[0].id, s[3].id) == SurplusLp(before, s[0].id, s[3].id)
       && (p.Checked? || amount <= pool.lpSupply ==> withinA && withinB)
  }

  /** A creation: each surplus rises by exactly what the old pool still counted, so it is kept if and only if
      that was nothing. */
  ghost predicate NewKept(s: seq<AccountWithMetadata>, before: Accounts, after: Accounts) {
    && |s| == 7
    && var was := s[0].account.data;
       && Surplus(after, s[0].id, s[1].id) == Surplus(before, s[0].id, s[1].id) + ReserveAt(was, s[1].id)
       && Surplus(after, s[0].id, s[2].id) == Surplus(before, s[0].id, s[2].id) + ReserveAt(was, s[2].id)
       && SurplusLp(after, s[0].id, s[3].id) == SurplusLp(before, s[0].id, s[3].id) + LpSupplyAt(was, s[3].id)
  }

  /** What an account holds afterwards. */
  ghost predicate Gains(after: Accounts, x: AccountWithMetadata, change: int) {
    Held(Lookup(after, x.id).data) == Held(x.account.data) + change
  }

  /** The user's holdings of the two tokens and of the liquidity token. */
  ghost predicate UserGains(after: Accounts, s: seq<AccountWithMetadata>, a: int, b: int, liquidity: int)
    requires |s| == 7
  {
    Gains(after, s[4], a) && Gains(after, s[5], b) && Gains(after, s[6], liquidity)
  }

  /** The user pays and receives exactly the amounts of the trade. */
  ghost predicate UserKept(p: Profile, s: seq<AccountWithMetadata>, instruction: AmmInstruction, after: Accounts) {
    && |s| >= 5 && (instruction.NewPool? || s[0].account.data.PoolData?)
    && (!instruction.SwapExactInput? && !instruction.SwapExactOutput? ==> |s| == 7)
    && match instruction
       case NewPool(a, b, _) => exists l: u128 :: IsInitial(p, a, b, l) && UserGains(after, s, 0 - a, 0 - b, l)
       case AddLiquidity(min, maxA, maxB) =>
         exists d :: IsDeposit(p, s[0].account.data.pool, min, maxA, maxB, d)
           && UserGains(after, s, 0 - d.a, 0 - d.b, d.liquidity)
       case RemoveLiquidity(amount, minA, minB) =>
         exists w :: IsWithdrawal(p, s[0].account.data.pool, amount, minA, minB, w)
           && UserGains(after, s, w.a, w.b, 0 - w.liquidity)
       case SwapExactInput(amount, min, tokenIn) =>
         var pool := s[0].account.data.pool;
         if tokenIn == pool.tokenA then Swapped(p, pool.reserveA, pool.reserveB, true, amount, min, s[3], s[4], after)
         else Swapped(p, pool.reserveB, pool.reserveA, true, amount, min, s[4], s[3], after)
       case SwapExactOutput(amount, max, tokenIn) =>
         var pool := s[0].account.data.pool;
         if tokenIn == pool.tokenA then Swapped(p, pool.reserveA, pool.reserveB, false, amount, max, s[3], s[4], after)
         else Swapped(p, pool.reserveB, pool.reserveA, false, amount, max, s[4], s[3], after)
  }

  /** The payer gave and the receiver got the two sides of one swap. */
  ghost predicate Swapped(p: Profile, x: u128, y: u128, exactInput: bool, amount: u128, limit: u128,
                          payer: AccountWithMetadata, receiver: AccountWithMetadata, after: Accounts) {
    exists i: u128, o: u128 :: IsSwap(p, x, y, exactInput, amount, limit, i, o)
      && Gains(after, payer, 0 - i) && Gains(after, receiver, o)
  }

  /** What an executed AMM call with its token calls keeps, of the vaults and for the user. */
  ghost predicate AmmKept(p: Profile, s: seq<AccountWithMetadata>,
                          instruction: AmmInstruction, before: Accounts, after: Accounts) {
    VaultsKept(p, s, instruction, before, after) && UserKept(p, s, instruction, after)
  }

  ghost predicate VaultsKept(p: Profile, s: seq<AccountWithMetadata>,
                             instruction: AmmInstruction, before: Accounts, after: Accounts) {
    match instruction
    case NewPool(_, _, _) => NewKept(s, before, after)
    case AddLiquidity(min, maxA, maxB) => AddKept(p, s, min, maxA, maxB, before, after)
    case RemoveLiquidity(amount, _, _) => RemoveKept(p, s, amount, before, after)
    case SwapExactInput(_, _, _) => SwapKept(p, s, instruction, before, after)
    case SwapExactOutput(_, _, _) => SwapKept(p, s, instruction, before, after)
  }

  // ------------------------------------------------------------------- swaps

  /** The calls of a swap at `k`: the AMM call wrote the pool, and each vault moved by its transfer, the
      paid-in amount fitting on top of a fungible vault's balance. */
  lemma SwapTrace(ctx: Context, trace: seq<Executed>, k: nat, amm: ProgramId, token: ProgramId,
                  p: Profile, at: Addresses, out: AmmOutput, payer: nat, vaultIn: nat,
                  vaultOut: nat, receiver: nat, i: u128, o: u128, seeds: seq<PdaSeed>)
    requires History(ctx, trace) && k < |trace| && ChildrenFollow(trace, k)
    requires RunsAmm(ctx.execute, amm, p, at) && RunsToken(ctx.execute, token)
    requires trace[k].item.call.programId == amm && trace[k].item.call.instruction.AmmCall?
    requires AmmEffects(p, at, trace[k].item.call.preStates, InstructionOf(trace[k])) == Ok(out)
    requires |trace[k].item.call.preStates| == 5 && |out.posts| == 5
    requires 0 < payer < 5 && 0 < vaultIn < 5 && 0 < vaultOut < 5 && 0 < receiver < 5
    requires vaultIn != vaultOut && vaultIn != receiver && payer != vaultOut && payer != receiver
    requires var s := trace[k].item.call.preStates;
      out.calls == [TokenTransfer(token, s[payer], s[vaultIn], i, []),
                    TokenTransfer(token, Authorize(s[vaultOut]), s[receiver], o, seeds)]
    ensures k + 3 <= |trace|
    ensures var s, before, after := trace[k].item.call.preStates, World(ctx, trace, k), World(ctx, trace, k + 3);
      && s[0].account == Lookup(before, s[0].id)
      && s[vaultIn].account == Lookup(before, s[vaultIn].id) && s[vaultOut].account == Lookup(before, s[vaultOut].id)
      && Lookup(after, s[0].id).data == out.posts[0].account.data
      && Held(Lookup(after, s[vaultIn].id).data) == Held(s[vaultIn].account.data) + i
      && Held(Lookup(after, s[vaultOut].id).data) == Held(s[vaultOut].account.data) - o
      && Gains(after, s[payer], 0 - i) && Gains(after, s[receiver], o)
      && (FungibleBalance(s[vaultIn].account.data).Ok? ==> Held(s[vaultIn].account.data) + i < U128_LIMIT)
  {
    hide Replay, AmmEffects, PoolChanges, History, RunsAmm, RunsToken, Held, Lookup, World, ChildrenFollow;
    BalancedHistory(ctx, trace);
    var s := trace[k].item.call.preStates;
    var root := AmmCallAt(ctx, trace, k, amm, p, at);
    ChildAt(trace, k, 0);
    ChildAt(trace, k, 1);
    FiveDistinct(s);
    TransferLeaf(ctx, trace, k + 1, token, s[payer], s[vaultIn], i, []);
    TransferLeaf(ctx, trace, k + 2, token, Authorize(s[vaultOut]), s[receiver], o, seeds);
  }

  lemma FiveDistinct(s: seq<AccountWithMetadata>)
    requires Distinct(Ids(s)) && |s| == 5
    ensures forall i, j :: 0 <= i < j < 5 ==> s[i].id != s[j].id
  {
    forall i, j | 0 <= i < j < 5
      ensures s[i].id != s[j].id
    {
      assert Ids(s)[i] != Ids(s)[j];
    }
  }

  /** A swap whose deposit fits moves the reserves by exactly the amounts, in either build. */
  lemma SwapMoves(p: Profile, x: u128, y: u128, exactInput: bool, amount: u128, limit: u128)
    requires SwapAmounts(p, x, y, exactInput, amount, limit).Ok?
    requires x + SwapAmounts(p, x, y, exactInput, amount, limit).value.0 < U128_LIMIT
    ensures var (i, o) := SwapAmounts(p, x, y, exactInput, amount, limit).value;
      o <= y && Moved(p, x, i, 0) == Ok(x + i) && Moved(p, y, 0, o) == Ok(y - o)
  {
    hide SwapAmounts;
    SwapAmountsAgree(x, y, exactInput, amount, limit);
  }

  lemma FungibleHeld(data: Data)
    requires FungibleBalance(data).Ok?
    ensures Held(data) == FungibleBalance(data).value
  {
  }

  lemma SwappedPool(p: Profile, pool: PoolDefinition, aToB: bool, exactInput: bool,
                    amount: u128, limit: u128, after: PoolDefinition)
    requires PoolSwap(p, pool, aToB, exactInput, amount, limit) == Ok(after)
    requires SwapFits(p, pool, aToB, exactInput, amount, limit)
    ensures var x, y := if aToB then pool.reserveA else pool.reserveB, if aToB then pool.reserveB else pool.reserveA;
      && SwapAmounts(p, x, y, exactInput, amount, limit).Ok?
      && var (i, o) := SwapAmounts(p, x, y, exactInput, amount, limit).value;
         && o <= y && x + i < U128_LIMIT
         && after == if aToB then pool.(reserveA := x + i, reserveB := y - o)
                     else pool.(reserveA := y - o, reserveB := x + i)
  {
    hide SwapAmounts, Moved;
    var x, y := if aToB then pool.reserveA else pool.reserveB, if aToB then pool.reserveB else pool.reserveA;
    SwapMoves(p, x, y, exactInput, amount, limit);
  }

  /** Where the deposit fits, vaults that moved by the two amounts keep their surplus. */
  lemma SwapSurplus(p: Profile, s: seq<AccountWithMetadata>, exactInput: bool, amount: u128, limit: u128,
                    tokenIn: AccountId, before: Accounts, after: Accounts, i: u128, o: u128)
    requires |s| == 5 && s[0].account.data.PoolData? && Lookup(after, s[0].id).data.PoolData?
    requires s[1].id == s[0].account.data.pool.vaultA && s[2].id == s[0].account.data.pool.vaultB && s[1].id != s[2].id
    requires s[0].account == Lookup(before, s[0].id)
    requires s[1].account == Lookup(before, s[1].id) && s[2].account == Lookup(before, s[2].id)
    requires var pool := s[0].account.data.pool; var aToB := tokenIn == pool.tokenA;
      var x, y := if aToB then pool.reserveA else pool.reserveB, if aToB then pool.reserveB else pool.reserveA;
      && SwapAmounts(p, x, y, exactInput, amount, limit) == Ok((i, o)) && x + i < U128_LIMIT
      && PoolSwap(p, pool, aToB, exactInput, amount, limit) == Ok(Lookup(after, s[0].id).data.pool)
      && Gains(after, s[1], if aToB then i else 0 - o) && Gains(after, s[2], if aToB then 0 - o else i)
    ensures SwapKept(p, s, if exactInput then SwapExactInput(amount, limit, tokenIn)
                           else SwapExactOutput(amount, limit, tokenIn), before, after)
  {
    hide SwapAmounts, PoolSwap, Lookup, Held;
    var pool := s[0].account.data.pool;
    SwappedPool(p, pool, tokenIn == pool.tokenA, exactInput, amount, limit, Lookup(after, s[0].id).data.pool);
  }

  /** An executed swap through the token program, in either build and whatever the pool's numbers. */
  lemma SwapSolvent(ctx: Context, trace: seq<Executed>, k: nat, amm: ProgramId,
                    token: ProgramId, p: Profile, at: Addresses)
    requires History(ctx, trace) && k < |trace| && ChildrenFollow(trace, k)
    requires RunsAmm(ctx.execute, amm, p, at) && RunsToken(ctx.execute, token)
    requires trace[k].item.call.programId == amm && PaysThrough(trace[k], token)
    requires InstructionOf(trace[k]).SwapExactInput? || InstructionOf(trace[k]).SwapExactOutput?
    ensures k + 3 <= |trace|
    ensures AmmKept(p, trace[k].item.call.preStates, InstructionOf(trace[k]),
                    World(ctx, trace, k), World(ctx, trace, k + 3))
  {
    hide SwapKept, Swapped, AmmEffects, SwapAmounts, PoolSwap, RunsAmm, RunsToken, Lookup, History,
         World, ChildrenFollow, PoolChanges, Held, Authorize, TokenTransfer, FungibleBalance;
    BalancedHistory(ctx, trace);
    var instruction, s := InstructionOf(trace[k]), trace[k].item.call.preStates;
    var out := AmmCallAt(ctx, trace, k, amm, p, at);
    var i, o, seeds := SwapShape(p, at, s, instruction, out);
    assert Ids(s)[1] != Ids(s)[2];
    var pool, tokenIn := s[0].account.data.pool, instruction.tokenIn;
    var exactInput := instruction.SwapExactInput?;
    var amount, limit := if exactInput then instruction.amountIn else instruction.amountOut,
        if exactInput then instruction.minOut else instruction.maxIn;
    if tokenIn == pool.tokenA {
      SwapTrace(ctx, trace, k, amm, token, p, at, out, 3, 1, 2, 4, i, o, seeds);
      FungibleHeld(s[1].account.data);
      SwappedBy(p, pool.reserveA, pool.reserveB, exactInput, amount, limit, s[3], s[4], World(ctx, trace, k + 3), i, o);
    } else {
      SwapTrace(ctx, trace, k, amm, token, p, at, out, 4, 2, 1, 3, i, o, seeds);
      FungibleHeld(s[2].account.data);
      SwappedBy(p, pool.reserveB, pool.reserveA, exactInput, amount, limit, s[4], s[3], World(ctx, trace, k + 3), i, o);
    }
    SwapSurplus(p, s, exactInput, amount, limit, tokenIn, World(ctx, trace, k), World(ctx, trace, k + 3), i, o);
  }

  lemma SwappedBy(p: Profile, x: u128, y: u128, exactInput: bool, amount: u128, limit: u128,
                  payer: AccountWithMetadata, receiver: AccountWithMetadata, after: Accounts, i: u128, o: u128)
    requires SwapAmounts(p, x, y, exactInput, amount, limit) == Ok((i, o))
    requires Gains(after, payer, 0 - i) && Gains(after, receiver, o)
    ensures Swapped(p, x, y, exactInput, amount, limit, payer, receiver, after)
  {
    hide IsSwap, Gains, SwapAmounts;
    SwapExactly(p, x, y, exactInput, amount, limit, i, o);
  }

  // --------------------------------------------------------------- liquidity

  function Flow(into: bool, amount: nat): int {
    if into then amount else 0 - amount
  }

  /** The vaults hold what they held plus or minus the transfers, which fitted; the declared supply of the
      liquidity token follows its own call. */
  ghost predicate VaultsMoved(s: seq<AccountWithMetadata>, after: Accounts, c: LiquidityCalls)
    requires |s| == 7 && (c.lp.Mint? || c.lp.Burn? || c.lp.NewFungibleDefinition?)
  {
    && Held(Lookup(after, s[1].id).data) == Held(s[1].account.data) + Flow(c.into, c.a)
    && Held(Lookup(after, s[2].id).data) == Held(s[2].account.data) + Flow(c.into, c.b)
    && Declared(Lookup(after, s[3].id).data) == (match c.lp
         case Mint(amount) => Declared(s[3].account.data) + amount
         case Burn(amount) => Declared(s[3].account.data) - amount
         case NewFungibleDefinition(_, supply) => supply)
    && UserGains(after, s, 0 - Flow(c.into, c.a), 0 - Flow(c.into, c.b), match c.lp
         case Mint(amount) => amount
         case Burn(amount) => 0 - amount
         case NewFungibleDefinition(_, supply) => supply)
    && (c.lp.NewFungibleDefinition? ==> Declared(s[3].account.data) == 0)
    && (c.lp.Burn? ==> c.lp.amount <= Held(s[6].account.data))
    && (c.into && FungibleBalance(s[1].account.data).Ok? ==> Held(s[1].account.data) + c.a < U128_LIMIT)
    && (c.into && FungibleBalance(s[2].account.data).Ok? ==> Held(s[2].account.data) + c.b < U128_LIMIT)
  }

  /** What the three calls do to vaults and liquidity-token supply; the pool account is not touched. */
  lemma LiquidityLeaves(ctx: Context, trace: seq<Executed>, k: nat, token: ProgramId,
                        s: seq<AccountWithMetadata>, c: LiquidityCalls)
    requires History(ctx, trace) && k + 4 <= |trace|
    requires RunsToken(ctx.execute, token)
    requires ChainsLiquidity(s, token, [trace[k + 1].item.call, trace[k + 2].item.call, trace[k + 3].item.call], c)
    requires c.lp.Mint? || c.lp.Burn? || c.lp.NewFungibleDefinition?
    requires Distinct(Ids(s))
    ensures var before, after := World(ctx, trace, k + 1), World(ctx, trace, k + 4);
      && s[3].account == Lookup(before, s[3].id) && s[2].account == Lookup(before, s[2].id)
        && s[1].account == Lookup(before, s[1].id)
      && Lookup(after, s[0].id) == Lookup(before, s[0].id)
      && VaultsMoved(s, after, c)
  {
    hide Replay, History, RunsToken, Declared, Held, World, Lookup, Distinct, Ids;
    BalancedHistory(ctx, trace);
    SevenDistinct(s);
    var t2, t3 := trace[k + 2].item.call, trace[k + 3].item.call;
    SupplyLeaf(ctx, trace, k + 1, token, Authorize(s[3]), s[6], c.lp, trace[k + 1].item.call.pdaSeeds);
    TransferLeaf(ctx, trace, k + 2, token, t2.preStates[0], t2.preStates[1], c.b, t2.pdaSeeds);
    TransferLeaf(ctx, trace, k + 3, token, t3.preStates[0], t3.preStates[1], c.a, t3.pdaSeeds);
  }

  /** The four calls: the AMM call, then its three token calls. */
  lemma LiquidityTrace(ctx: Context, trace: seq<Executed>, k: nat, amm: ProgramId, token: ProgramId,
                       p: Profile, at: Addresses, out: AmmOutput, c: LiquidityCalls)
    requires History(ctx, trace) && k < |trace| && ChildrenFollow(trace, k)
    requires RunsAmm(ctx.execute, amm, p, at) && RunsToken(ctx.execute, token)
    requires trace[k].item.call.programId == amm && trace[k].item.call.instruction.AmmCall?
    requires AmmEffects(p, at, trace[k].item.call.preStates, InstructionOf(trace[k])) == Ok(out)
    requires |out.posts| == 7 && ChainsLiquidity(trace[k].item.call.preStates, token, out.calls, c)
    requires c.lp.Mint? || c.lp.Burn? || c.lp.NewFungibleDefinition?
    ensures k + 4 <= |trace|
    ensures var s, before, after := trace[k].item.call.preStates, World(ctx, trace, k), World(ctx, trace, k + 4);
      && |s| == 7
      && (forall i :: 0 <= i < 7 ==> s[i].account == Lookup(before, s[i].id))
      && (forall i, j :: 0 <= i < j < 7 ==> s[i].id != s[j].id)
      && Lookup(after, s[0].id).data == out.posts[0].account.data
      && VaultsMoved(s, after, c)
  {
    hide Replay, AmmEffects, PoolChanges, History, RunsAmm, RunsToken,
         IsTransfer, VaultsMoved, World, Lookup, ChildrenFollow;
    BalancedHistory(ctx, trace);
    var s := trace[k].item.call.preStates;
    var root := AmmCallAt(ctx, trace, k, amm, p, at);
    var calls := out.calls;
    ChildAt(trace, k, 0);
    ChildAt(trace, k, 1);
    ChildAt(trace, k, 2);
    assert [trace[k + 1].item.call, trace[k + 2].item.call, trace[k + 3].item.call] == calls;
    LiquidityLeaves(ctx, trace, k, token, s, c);
    SevenDistinct(s);
  }

  /** An executed deposit through the token program, in either build and whatever the pool's numbers. */
  lemma AddSolvent(ctx: Context, trace: seq<Executed>, k: nat, amm: ProgramId,
                   token: ProgramId, p: Profile, at: Addresses)
    requires History(ctx, trace) && k < |trace| && ChildrenFollow(trace, k)
    requires RunsAmm(ctx.execute, amm, p, at) && RunsToken(ctx.execute, token)
    requires trace[k].item.call.programId == amm && PaysThrough(trace[k], token) && InstructionOf(trace[k]).AddLiquidity?
    ensures k + 4 <= |trace|
    ensures AmmKept(p, trace[k].item.call.preStates, InstructionOf(trace[k]),
                    World(ctx, trace, k), World(ctx, trace, k + 4))
  {
    hide AmmEffects, AddAmounts, IsDeposit, Gains, ChainsLiquidity, RunsAmm,
         RunsToken, Lookup, History, World, ChildrenFollow, PoolChanges, PoolOk;
    BalancedHistory(ctx, trace);
    var instruction, s := InstructionOf(trace[k]), trace[k].item.call.preStates;
    var min, maxA, maxB := instruction.minLiquidity, instruction.maxA, instruction.maxB;
    var out := AmmCallAt(ctx, trace, k, amm, p, at);
    AddShape(p, at, s, min, maxA, maxB, out);
    var pool := s[0].account.data.pool;
    var d := AddAmounts(p, pool, min, maxA, maxB).value;
    LiquidityTrace(ctx, trace, k, amm, token, p, at, out, LiquidityCalls(Mint(d.liquidity), true, d.a, d.b));
    DepositExactly(p, pool, min, maxA, maxB, d);
    if PoolOk(pool) {
      AddKeepsPool(p, pool, min, maxA, maxB);
    }
  }

  lemma WithdrawnPool(p: Profile, pool: PoolDefinition, w: Withdrawal, after: PoolDefinition)
    requires PoolAfterRemove(p, pool, w) == Ok(after) && w.liquidity <= pool.lpSupply
    ensures after.reserveA == pool.reserveA - w.a + (if w.a <= pool.reserveA then 0 else U128_LIMIT)
    ensures after.reserveB == pool.reserveB - w.b + (if w.b <= pool.reserveB then 0 else U128_LIMIT)
    ensures after.lpSupply == pool.lpSupply - w.liquidity
    ensures after.vaultA == pool.vaultA && after.vaultB == pool.vaultB && after.lpDefinition == pool.lpDefinition
    ensures p.Checked? ==> w.a <= pool.reserveA && w.b <= pool.reserveB
  {
  }

  /** An executed withdrawal through the token program, in either build and whatever the pool's numbers. */
  lemma RemoveSolvent(ctx: Context, trace: seq<Executed>, k: nat, amm: ProgramId,
                      token: ProgramId, p: Profile, at: Addresses)
    requires History(ctx, trace) && k < |trace| && ChildrenFollow(trace, k)
    requires RunsAmm(ctx.execute, amm, p, at) && RunsToken(ctx.execute, token)
    requires trace[k].item.call.programId == amm && PaysThrough(trace[k], token) && InstructionOf(trace[k]).RemoveLiquidity?
    ensures k + 4 <= |trace|
    ensures AmmKept(p, trace[k].item.call.preStates, InstructionOf(trace[k]),
                    World(ctx, trace, k), World(ctx, trace, k + 4))
  {
    hide IsWithdrawal, Gains, AmmEffects, RemoveAmounts, PoolAfterRemove, ChainsLiquidity, RunsAmm,
         RunsToken, Lookup, History, World, ChildrenFollow, PoolChanges, PaysWithin, Held, Declared;
    BalancedHistory(ctx, trace);
    var instruction, s := InstructionOf(trace[k]), trace[k].item.call.preStates;
    var amount := instruction.liquidity;
    var out := AmmCallAt(ctx, trace, k, amm, p, at);
    RemoveShape(p, at, s, amount, instruction.minA, instruction.minB, out);
    var pool := s[0].account.data.pool;
    var w := RemoveAmounts(p, pool, amount, instruction.minA, instruction.minB).value;
    LiquidityTrace(ctx, trace, k, amm, token, p, at, out, LiquidityCalls(Burn(w.liquidity), false, w.a, w.b));
    WithdrawalExactly(p, pool, amount, instruction.minA, instruction.minB, w);
    WithdrawnPool(p, pool, w, out.posts[0].account.data.pool);
    PayoutWithinReserve(p, pool, amount, instruction.minA, instruction.minB);
    WithdrawalWithinShare(p, pool, amount, instruction.minA, instruction.minB);
    if amount <= pool.lpSupply {
      PaidWithin(pool.lpSupply, pool.reserveA, amount, w.a);
      PaidWithin(pool.lpSupply, pool.reserveB, amount, w.b);
    }
  }

  /** An executed creation, or re-creation of an emptied pool, through the token program. */
  lemma NewSolvent(ctx: Context, trace: seq<Executed>, k: nat, amm: ProgramId,
                   token: ProgramId, p: Profile, at: Addresses)
    requires History(ctx, trace) && k < |trace| && ChildrenFollow(trace, k)
    requires RunsAmm(ctx.execute, amm, p, at) && RunsToken(ctx.execute, token)
    requires trace[k].item.call.programId == amm && PaysThrough(trace[k], token) && InstructionOf(trace[k]).NewPool?
    ensures k + 4 <= |trace|
    ensures AmmKept(p, trace[k].item.call.preStates, InstructionOf(trace[k]),
                    World(ctx, trace, k), World(ctx, trace, k + 4))
  {
    hide IsInitial, Gains, AmmEffects, InitialLiquidity, ChainsLiquidity,
         RunsAmm, RunsToken, Lookup, History, World, ChildrenFollow, PoolChanges;
    BalancedHistory(ctx, trace);
    var instruction, s := InstructionOf(trace[k]), trace[k].item.call.preStates;
    var a, b := instruction.amountA, instruction.amountB;
    var out := AmmCallAt(ctx, trace, k, amm, p, at);
    NewShape(p, at, s, a, b, instruction.ammProgram, out);
    var liquidity := InitialLiquidity(p, a, b).value;
    var lp := if s[0].account == DEFAULT_ACCOUNT then NewFungibleDefinition("LP Token", liquidity) else Mint(liquidity);
    LiquidityTrace(ctx, trace, k, amm, token, p, at, out, LiquidityCalls(lp, true, a, b));
    InitialExactly(p, a, b, liquidity);
  }

  // ------------------------------------------------------- every executed AMM call

  /** Any executed AMM call that pays through the token program, followed by its children. */
  lemma AmmBlockSolvent(ctx: Context, trace: seq<Executed>, k: nat, amm: ProgramId,
                        token: ProgramId, p: Profile, at: Addresses)
    requires History(ctx, trace) && k < |trace| && ChildrenFollow(trace, k)
    requires RunsAmm(ctx.execute, amm, p, at) && RunsToken(ctx.execute, token)
    requires trace[k].item.call.programId == amm && PaysThrough(trace[k], token)
    ensures k + 1 + |trace[k].output.chainedCalls| <= |trace|
    ensures AmmKept(p, trace[k].item.call.preStates, InstructionOf(trace[k]),
                    World(ctx, trace, k), World(ctx, trace, k + 1 + |trace[k].output.chainedCalls|))
  {
    hide AmmEffects, RunsAmm, RunsToken, History, World, ChainsLiquidity, SwapKept,
         AddKept, RemoveKept, NewKept, WritesOnlyPool, UserKept, AddAmounts, RemoveAmounts,
         SwapAmounts, InitialLiquidity, PoolAfterAdd, PoolAfterRemove, PoolSwap, Lookup;
    var instruction, s := InstructionOf(trace[k]), trace[k].item.call.preStates;
    BalancedHistory(ctx, trace);
    var out := AmmCallAt(ctx, trace, k, amm, p, at);
    AmmCallCount(p, at, s, instruction, out);
    match instruction
    case NewPool(_, _, _) => NewSolvent(ctx, trace, k, amm, token, p, at);
    case AddLiquidity(_, _, _) => AddSolvent(ctx, trace, k, amm, token, p, at);
    case RemoveLiquidity(_, _, _) => RemoveSolvent(ctx, trace, k, amm, token, p, at);
    case SwapExactInput(_, _, _) => SwapSolvent(ctx, trace, k, amm, token, p, at);
    case SwapExactOutput(_, _, _) => SwapSolvent(ctx, trace, k, amm, token, p, at);
  }

  lemma AmmCallCount(p: Profile, at: Addresses, s: seq<AccountWithMetadata>,
                     instruction: AmmInstruction, out: AmmOutput)
    requires AmmEffects(p, at, s, instruction) == Ok(out)
    ensures |out.calls| == if instruction.SwapExactInput? || instruction.SwapExactOutput? then 2 else 3
  {
    hide AddAmounts, RemoveAmounts, SwapAmounts, InitialLiquidity, PoolAfterAdd, PoolAfterRemove, PoolAfterSwap;
  }

  /** In every accepted transaction, each executed AMM call that pays through the token program, chained by
      whomever, is followed directly by its token calls, and together they keep what `AmmKept` says. */
  lemma AmmCallSolvent(ctx: Context, k: nat, amm: ProgramId, token: ProgramId, p: Profile, at: Addresses)
    requires RunCalls(ctx).Ok? && k < |RunCalls(ctx).value.trace|
    requires RunsAmm(ctx.execute, amm, p, at) && RunsToken(ctx.execute, token)
    requires RunCalls(ctx).value.trace[k].item.call.programId == amm && PaysThrough(RunCalls(ctx).value.trace[k], token)
    ensures var trace := RunCalls(ctx).value.trace; var e, end := trace[k], k + 1 + |trace[k].output.chainedCalls|;
      && History(ctx, trace) && ChildrenFollow(trace, k) && end <= |trace|
      && AmmKept(p, e.item.call.preStates, InstructionOf(e), World(ctx, trace, k), World(ctx, trace, end))
  {
    hide RunCalls, History, RunsAmm, RunsToken, ChildrenFollow, World, AmmKept, PaysThrough;
    TokenIsLeaf(ctx, token);
    AmmChildrenFollow(ctx, k, amm, token, p, at);
    AmmBlockSolvent(ctx, RunCalls(ctx).value.trace, k, amm, token, p, at);
  }

  /** For a transaction's own AMM call the two worlds are the accounts before and after the transaction. */
  lemma TransactionSolvent(ctx: Context, amm: ProgramId, token: ProgramId, p: Profile, at: Addresses)
    requires RunCalls(ctx).Ok?
    requires RunsAmm(ctx.execute, amm, p, at) && RunsToken(ctx.execute, token)
    requires ctx.initialCall.programId == amm && PaysThrough(RunCalls(ctx).value.trace[0], token)
    ensures ctx.initialCall.instruction.AmmCall?
    ensures AmmKept(p, ctx.initialCall.preStates, ctx.initialCall.instruction.amm, ctx.accounts,
                    ctx.accounts + RunCalls(ctx).value.diff)
  {
    hide RunCalls, History, RunsAmm, RunsToken, AmmKept, Replay, AmmEffects, WritesOnlyPool, Lookup;
    var trace := RunCalls(ctx).value.trace;
    AcceptedRunHasHistory(ctx);
    BalancedHistory(ctx, trace);
    EmptyReplay(ctx, trace);
    AmmCallSolvent(ctx, 0, amm, token, p, at);
    var out := AmmCallAt(ctx, trace, 0, amm, p, at);
    AmmCallsOneProgram(p, at, ctx.initialCall.preStates, InstructionOf(trace[0]), out);
    TokenIsLeaf(ctx, token);
    FlatTransaction(ctx, token);
  }

  /** A transaction whose own call chains only calls to a program that never chains runs exactly those. */
  lemma FlatTransaction(ctx: Context, program: ProgramId)
    requires NeverChains(ctx, program)
    requires RunCalls(ctx).Ok? && ChainsOnly(RunCalls(ctx).value.trace[0], program)
    ensures |RunCalls(ctx).value.trace| == 1 + |RunCalls(ctx).value.trace[0].output.chainedCalls|
  {
    hide Execute;
    var start := Progress(map[], []);
    var done := Execute(ctx, RootItem(ctx), start.diff).value;
    ExecutedIsBalanced(ctx, RootItem(ctx), start.diff);
    var next := Progress(Write(start.diff, done), start.trace + [done]);
    var trace := RunCalls(ctx).value.trace;
    assert EvalAll(ctx, Children(done), next).Ok? && next.trace <= trace;
    assert trace[0] == next.trace[0] == done;
    LeavesRunInOrder(ctx, Children(done), next, program);
  }

  // ------------------------------------------------ a pool emptied with reserve left

  /** A wrapping build can deactivate a pool that still counts a reserve; re-creating it then raises the
      vault's surplus by that reserve. */
  lemma WrappingRemovalLeavesReserve(pool: PoolDefinition)
    requires pool.active && pool.lpSupply == 2 && pool.reserveB == 2
    requires pool.reserveA == 0x8000_0000_0000_0000_0000_0000_0000_0001
    ensures PoolOk(pool) && RemoveAmounts(Wrapping, pool, 2, 1, 1) == Ok(Withdrawal(1, 2, 2))
    ensures var r := PoolAfterRemove(Wrapping, pool, Withdrawal(1, 2, 2));
      r.Ok? && !r.value.active && r.value.lpSupply == 0
        && ReserveAt(PoolData(r.value), pool.vaultA) >= 0x8000_0000_0000_0000_0000_0000_0000_0000
    ensures RemoveAmounts(Checked, pool, 2, 1, 1).Err?
  {
  }
}
