/** The AMM sends its transfers to whatever program owns the paying holding. Solvency turns on that program. */
module AmmPayment {
  import opened Core
  import opened Calls
  import opened CallTrace
  import opened Authority
  import opened Token
  import opened TokenSupply
  import opened Amm
  import opened AmmMath
  import opened AmmPools
  import opened AmmCalls
  import opened AmmSolvency
  import opened AmmStakes

  /** Without a call of the token program its accounts keep their data. */
  lemma {:induction false} DataWithoutToken(ctx: Context, trace: seq<Executed>, k: nat,
                                            n: nat, token: ProgramId, id: AccountId)
    requires History(ctx, trace) && k <= n <= |trace| && token != DEFAULT_PROGRAM_ID
    requires Lookup(World(ctx, trace, k), id).owner == token
    requires forall m :: k <= m < n ==> trace[m].item.call.programId != token
    ensures Lookup(World(ctx, trace, n), id).data == Lookup(World(ctx, trace, k), id).data
    decreases n
  {
    hide History, World;
    BalancedHistory(ctx, trace);
    if n > k {
      DataWithoutToken(ctx, trace, k, n - 1, token, id);
      OwnerIsKept(ctx, trace, k, n - 1, id);
      AccountAcrossCall(ctx, trace, n - 1, id);
    }
  }

  /** The AMM does not answer the calls it chains. */
  lemma AmmNeverPays(ctx: Context, trace: seq<Executed>, k: nat, amm: ProgramId, p: Profile, at: Addresses)
    requires History(ctx, trace) && k < |trace| && ChildrenFollow(trace, k)
    requires RunsAmm(ctx.execute, amm, p, at) && trace[k].item.call.programId == amm
    ensures !PaysThrough(trace[k], amm)
  {
    hide History, AmmEffects, ChildrenFollow, World, Lookup, PoolChanges, Separate, Uses;
    BalancedHistory(ctx, trace);
    var s := trace[k].item.call.preStates;
    var out := AmmCallAt(ctx, trace, k, amm, p, at);
    var slots := AmmCallsAreSeparate(p, at, s, InstructionOf(trace[k]), out);
    AmmCallsOneProgram(p, at, s, InstructionOf(trace[k]), out);
    ChildAt(trace, k, 0);
    CallOutput(ctx, trace, k + 1);
    TokenCallAt(s, out.calls, slots);
  }

  lemma TokenCallAt(s: seq<AccountWithMetadata>, calls: seq<ChainedCall>, slots: seq<(nat, nat)>)
    requires FromSlots(s, calls, slots) && |calls| > 0
    ensures calls[0].instruction.TokenCall?
  {
    SlotUse(s, calls, slots, 0);
  }

  /** An AMM call paid in a holding of another program leaves a token vault as it was, while the pool counts
      what the instruction computed. */
  lemma UnpaidBlock(ctx: Context, trace: seq<Executed>, k: nat, amm: ProgramId, token: ProgramId,
                    p: Profile, at: Addresses, vault: AccountId) returns (out: AmmOutput)
    requires History(ctx, trace) && k < |trace| && ChildrenFollow(trace, k)
    requires RunsAmm(ctx.execute, amm, p, at) && amm != token && amm != DEFAULT_PROGRAM_ID && token != DEFAULT_PROGRAM_ID
    requires trace[k].item.call.programId == amm && |trace[k].item.call.preStates| > 0 && !PaysThrough(trace[k], token)
    requires Lookup(World(ctx, trace, k), vault).owner == token
    requires Lookup(World(ctx, trace, k + 1), trace[k].item.call.preStates[0].id).owner == amm
    ensures trace[k].item.call.instruction.AmmCall? && k + 1 + |trace[k].output.chainedCalls| <= |trace|
    ensures AmmEffects(p, at, trace[k].item.call.preStates, InstructionOf(trace[k])) == Ok(out) && |out.posts| > 0
    ensures var pool, end := trace[k].item.call.preStates[0].id, World(ctx, trace, k + 1 + |trace[k].output.chainedCalls|);
      && Held(Lookup(end, vault).data) == Held(Lookup(World(ctx, trace, k), vault).data)
      && Lookup(end, pool).data == out.posts[0].account.data
  {
    hide History, RunsAmm, AmmEffects, World, Lookup, PoolChanges, Held;
    BalancedHistory(ctx, trace);
    var s, n := trace[k].item.call.preStates, |trace[k].output.chainedCalls|;
    out := AmmCallAt(ctx, trace, k, amm, p, at);
    AmmCallsOneProgram(p, at, s, InstructionOf(trace[k]), out);
    var paying := PayingHolding(s, InstructionOf(trace[k])).account.owner;
    AmmNeverPays(ctx, trace, k, amm, p, at);
    forall m | k <= m < k + 1 + n
      ensures trace[m].item.call.programId != token
    {
      if m > k {
        ChildAt(trace, k, m - k - 1);
      }
    }
    DataWithoutToken(ctx, trace, k, k + 1 + n, token, vault);
    PoolThroughBlock(ctx, trace, k, n, amm, paying, p, at);
  }

  // ---------------------------------------------------------- every instruction moves a reserve

  lemma SwapMovesReserve(p: Profile, at: Addresses, s: seq<AccountWithMetadata>,
                         instruction: AmmInstruction, out: AmmOutput)
    requires instruction.SwapExactInput? || instruction.SwapExactOutput?
    requires AmmEffects(p, at, s, instruction) == Ok(out)
    ensures |s| == 5 && s[0].account.data.PoolData? && |out.posts| == 5 && out.posts[0].account.data.PoolData?
    ensures var before, after := s[0].account.data.pool, out.posts[0].account.data.pool;
      before.reserveA != after.reserveA || before.reserveB != after.reserveB
  {
    hide AmmEffects, SwapAmounts, FungibleBalance;
    var i, o, seeds := SwapShape(p, at, s, instruction, out);
    var pool := s[0].account.data.pool;
    var aToB, exactInput := instruction.tokenIn == pool.tokenA, instruction.SwapExactInput?;
    var x, y := if aToB then pool.reserveA else pool.reserveB, if aToB then pool.reserveB else pool.reserveA;
    PaysSomething(p, x, y, exactInput, if exactInput then instruction.amountIn else instruction.amountOut,
                  if exactInput then instruction.minOut else instruction.maxIn);
    MovedDown(p, y, o);
  }

  lemma PaysSomething(p: Profile, x: u128, y: u128, exactInput: bool, amount: u128, limit: u128)
    requires SwapAmounts(p, x, y, exactInput, amount, limit).Ok?
    ensures SwapAmounts(p, x, y, exactInput, amount, limit).value.1 > 0
  {
    hide UDiv, DivCeil, CheckedMul, UAdd;
  }

  lemma MovedDown(p: Profile, y: u128, o: u128)
    requires o > 0
    ensures Moved(p, y, 0, o) != Ok(y)
  {
  }

  lemma AddMovesReserve(p: Profile, at: Addresses, s: seq<AccountWithMetadata>,
                        min: u128, maxA: u128, maxB: u128, out: AmmOutput)
    requires AmmEffects(p, at, s, AddLiquidity(min, maxA, maxB)) == Ok(out)
    ensures |s| == 7 && s[0].account.data.PoolData? && |out.posts| == 7 && out.posts[0].account.data.PoolData?
    ensures s[0].account.data.pool.reserveA != out.posts[0].account.data.pool.reserveA
  {
    hide AmmEffects, AddAmounts, ChainsLiquidity;
    AddShape(p, at, s, min, maxA, maxB, out);
    MintWithinShare(p, s[0].account.data.pool, min, maxA, maxB);
  }

  lemma RemoveMovesReserve(p: Profile, at: Addresses, s: seq<AccountWithMetadata>,
                           amount: u128, minA: u128, minB: u128, out: AmmOutput)
    requires AmmEffects(p, at, s, RemoveLiquidity(amount, minA, minB)) == Ok(out)
    ensures |s| == 7 && s[0].account.data.PoolData? && |out.posts| == 7 && out.posts[0].account.data.PoolData?
    ensures var pool := s[0].account.data.pool;
      out.posts[0].account.data.pool.reserveA
      != pool.reserveA + if PaysWithin(pool.reserveA, pool.lpSupply, amount) then 0 else U128_LIMIT
  {
    hide AmmEffects, RemoveAmounts, ChainsLiquidity, PaysWithin;
    RemoveShape(p, at, s, amount, minA, minB, out);
    var pool := s[0].account.data.pool;
    PayoutWithinReserve(p, pool, amount, minA, minB);
    PaysOut(p, at, s, amount, minA, minB);
  }

  lemma PaysOut(p: Profile, at: Addresses, s: seq<AccountWithMetadata>, amount: u128, minA: u128, minB: u128)
    requires AmmEffects(p, at, s, RemoveLiquidity(amount, minA, minB)).Ok?
    ensures |s| == 7 && s[0].account.data.PoolData?
    ensures var r := RemoveAmounts(p, s[0].account.data.pool, amount, minA, minB); r.Ok? && r.value.a > 0
  {
    hide UMul, UDiv, PoolAfterRemove;
  }

  // ------------------------------------------------------------------- payment decides

  /** For an executed AMM call on token vaults whose chained calls follow it directly: it keeps what `AmmKept`
      says if and only if the paying holding belongs to the token program. */
  lemma PaymentDecides(ctx: Context, trace: seq<Executed>, k: nat, amm: ProgramId,
                       token: ProgramId, p: Profile, at: Addresses)
    requires History(ctx, trace) && k < |trace| && ChildrenFollow(trace, k)
    requires RunsAmm(ctx.execute, amm, p, at) && RunsToken(ctx.execute, token)
    requires amm != token && amm != DEFAULT_PROGRAM_ID && token != DEFAULT_PROGRAM_ID
    requires trace[k].item.call.programId == amm && |trace[k].item.call.preStates| >= 3
    requires Lookup(World(ctx, trace, k), trace[k].item.call.preStates[1].id).owner == token
    requires Lookup(World(ctx, trace, k), trace[k].item.call.preStates[2].id).owner == token
    requires Lookup(World(ctx, trace, k + 1), trace[k].item.call.preStates[0].id).owner == amm
    ensures trace[k].item.call.instruction.AmmCall? && k + 1 + |trace[k].output.chainedCalls| <= |trace|
    ensures AmmKept(p, trace[k].item.call.preStates, InstructionOf(trace[k]),
                    World(ctx, trace, k), World(ctx, trace, k + 1 + |trace[k].output.chainedCalls|))
       <==> PaysThrough(trace[k], token)
  {
    hide History, RunsAmm, RunsToken, AmmEffects, World, Lookup, PoolChanges, ChildrenFollow, Held, AmmKept;
    BalancedHistory(ctx, trace);
    if PaysThrough(trace[k], token) {
      AmmBlockSolvent(ctx, trace, k, amm, token, p, at);
    } else {
      var s := trace[k].item.call.preStates;
      var out := AmmCallAt(ctx, trace, k, amm, p, at);
      var outA := UnpaidBlock(ctx, trace, k, amm, token, p, at, s[1].id);
      var outB := UnpaidBlock(ctx, trace, k, amm, token, p, at, s[2].id);
      assert Ids(s)[1] != Ids(s)[2];
      UnpaidNotKept(p, at, s, InstructionOf(trace[k]), out, World(ctx, trace, k),
                    World(ctx, trace, k + 1 + |trace[k].output.chainedCalls|));
    }
  }

  lemma UnpaidNotKept(p: Profile, at: Addresses, s: seq<AccountWithMetadata>,
                      instruction: AmmInstruction, out: AmmOutput, before: Accounts, after: Accounts)
    requires AmmEffects(p, at, s, instruction) == Ok(out) && WritesOnlyPool(p, s, instruction, out)
    requires |s| >= 3 && s[1].id != s[2].id && s[0].account == Lookup(before, s[0].id)
    requires Lookup(after, s[0].id).data == out.posts[0].account.data
    requires Held(Lookup(after, s[1].id).data) == Held(Lookup(before, s[1].id).data)
    requires Held(Lookup(after, s[2].id).data) == Held(Lookup(before, s[2].id).data)
    ensures !AmmKept(p, s, instruction, before, after)
  {
    hide AmmEffects, Lookup, PoolChanges, Held, Fits, AddAmounts, PaysWithin, PoolOk;
    WrittenVaults(p, at, s, instruction, out);
    if !instruction.NewPool? {
      RecordedVaults(p, at, s, instruction, out);
    }
    match instruction
    case NewPool(a, b, amm) => NewReserves(p, at, s, a, b, amm, out);
    case AddLiquidity(min, maxA, maxB) => AddMovesReserve(p, at, s, min, maxA, maxB, out);
    case RemoveLiquidity(amount, minA, minB) => RemoveMovesReserve(p, at, s, amount, minA, minB, out);
    case SwapExactInput(_, _, _) => SwapMovesReserve(p, at, s, instruction, out);
    case SwapExactOutput(_, _, _) => SwapMovesReserve(p, at, s, instruction, out);
  }

  lemma NewReserves(p: Profile, at: Addresses, s: seq<AccountWithMetadata>,
                    a: u128, b: u128, amm: ProgramId, out: AmmOutput)
    requires AmmEffects(p, at, s, NewPool(a, b, amm)) == Ok(out)
    ensures |out.posts| == 7 && out.posts[0].account.data.PoolData? && out.posts[0].account.data.pool.reserveA == a
  {
    hide AmmEffects, InitialLiquidity, ChainsLiquidity;
    NewShape(p, at, s, a, b, amm, out);
  }

  /** Except at creation the two accounts given as vaults are those the pool recorded. */
  lemma RecordedVaults(p: Profile, at: Addresses, s: seq<AccountWithMetadata>,
                       instruction: AmmInstruction, out: AmmOutput)
    requires AmmEffects(p, at, s, instruction) == Ok(out) && !instruction.NewPool?
    ensures |s| >= 3 && s[0].account.data.PoolData?
    ensures s[0].account.data.pool.vaultA == s[1].id && s[0].account.data.pool.vaultB == s[2].id
  {
    hide AmmEffects, SwapAmounts, AddAmounts, RemoveAmounts, ChainsLiquidity, PoolSwap, PoolAfterAdd, PoolAfterRemove;
    match instruction
    case AddLiquidity(min, maxA, maxB) => AddShape(p, at, s, min, maxA, maxB, out);
    case RemoveLiquidity(amount, minA, minB) => RemoveShape(p, at, s, amount, minA, minB, out);
    case SwapExactInput(_, _, _) => var i, o, seeds := SwapShape(p, at, s, instruction, out);
    case SwapExactOutput(_, _, _) => var i, o, seeds := SwapShape(p, at, s, instruction, out);
  }
}
