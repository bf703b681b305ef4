/** Exactly when the AMM accepts each instruction, the pool it then records, and the calls it chains. */
module AmmRules {
  import opened Core
  import opened Amm
  import opened AmmAmounts

  /** A fungible holding of at least the reserve. */
  predicate CoversReserve(data: Data, reserve: u128) {
    data.HoldingData? && data.holding.Fungible? && reserve <= data.holding.balance
  }

  /** The pool account with a new record, all other accounts as they were, and nothing claimed but a new pool. */
  predicate OnlyPoolWritten(s: seq<AccountWithMetadata>, pool: PoolDefinition,
                            claim: Option<Claim>, posts: seq<AccountPostState>)
    requires |s| > 0
  {
    && |posts| == |s|
    && posts[0] == AccountPostState(s[0].account.(data := PoolData(pool)), claim)
    && forall i :: 1 <= i < |s| ==> posts[i] == AccountPostState(s[i].account, None)
  }

  predicate IsCall(call: ChainedCall, program: ProgramId, x: AccountWithMetadata,
                   y: AccountWithMetadata, instruction: TokenInstruction, seeds: seq<PdaSeed>) {
    call == ChainedCall(program, [x, y], TokenCall(instruction), seeds)
  }

  // ----------------------------------------------------------------------- swaps

  /** The pool and the two vaults a swap may use. */
  predicate SwapReady(s: seq<AccountWithMetadata>, tokenIn: AccountId) {
    && |s| == 5 && s[0].account.data.PoolData?
    && var pool := s[0].account.data.pool;
       && pool.active && s[1].id == pool.vaultA && s[2].id == pool.vaultB
       && CoversReserve(s[1].account.data, pool.reserveA) && CoversReserve(s[2].account.data, pool.reserveB)
       && (tokenIn == pool.tokenA || tokenIn == pool.tokenB)
  }

  /** The payer's transfer into the vault of the token paid in, then the other vault's transfer out. */
  ghost predicate SwapResult(p: Profile, at: Addresses, s: seq<AccountWithMetadata>,
                             aToB: bool, i: u128, o: u128, out: AmmOutput)
    requires |s| == 5 && s[0].account.data.PoolData?
  {
    var pool := s[0].account.data.pool;
    var x, y := if aToB then pool.reserveA else pool.reserveB, if aToB then pool.reserveB else pool.reserveA;
    var x', y' := (x + i) % U128_LIMIT, (y - o) % U128_LIMIT;
    var payer, vaultIn := if aToB then s[3] else s[4], if aToB then s[1] else s[2];
    var vaultOut, receiver := if aToB then s[2] else s[1], if aToB then s[4] else s[3];
    && (p.Checked? ==> x + i < U128_LIMIT && o <= y)
    && OnlyPoolWritten(s, pool.(reserveA := if aToB then x' else y', reserveB := if aToB then y' else x'), None, out.posts)
    && |out.calls| == 2
    && IsCall(out.calls[0], payer.account.owner, payer, vaultIn, Transfer(i), [])
    && vaultOut.account.data.HoldingData?
    && IsCall(out.calls[1], payer.account.owner, Authorize(vaultOut), receiver, Transfer(o),
              [at.seedHash(s[0].id, vaultOut.account.data.holding.definitionId)])
  }

  /** A swap is accepted if and only if pool and vaults are ready and there is a trade within the limit; the trade
      is the best one for what was given, recorded in the pool, and carried out by the two transfers. */
  lemma SwapEffectExactly(p: Profile, at: Addresses, s: seq<AccountWithMetadata>, exactInput: bool,
                          amount: u128, limit: u128, tokenIn: AccountId, out: AmmOutput)
    ensures AmmEffects(p, at, s, if exactInput then SwapExactInput(amount, limit, tokenIn)
                                 else SwapExactOutput(amount, limit, tokenIn)) == Ok(out)
       <==>
      && SwapReady(s, tokenIn)
      && var pool := s[0].account.data.pool; var aToB := tokenIn == pool.tokenA;
         exists i: u128, o: u128 ::
           && IsSwap(p, if aToB then pool.reserveA else pool.reserveB, if aToB then pool.reserveB else pool.reserveA,
                     exactInput, amount, limit, i, o)
           && SwapResult(p, at, s, aToB, i, o, out)
  {
    hide SwapEffect, IsSwap, SwapResult;
    var instruction :=
      if exactInput then SwapExactInput(amount, limit, tokenIn) else SwapExactOutput(amount, limit, tokenIn);
    if |s| == 5 {
      assert AmmEffects(p, at, s, instruction)
          == SwapEffect(p, at, s[0], s[1], s[2], s[3], s[4], exactInput, amount, limit, tokenIn);
      if AmmEffects(p, at, s, instruction) == Ok(out) {
        SwapEffectResult(p, at, s, exactInput, amount, limit, tokenIn, out);
      }
      if SwapReady(s, tokenIn) {
        var pool := s[0].account.data.pool;
        var aToB := tokenIn == pool.tokenA;
        var x, y := if aToB then pool.reserveA else pool.reserveB, if aToB then pool.reserveB else pool.reserveA;
        forall i, o | IsSwap(p, x, y, exactInput, amount, limit, i, o) && SwapResult(p, at, s, aToB, i, o, out)
          ensures AmmEffects(p, at, s, instruction) == Ok(out)
        {
          SwapEffectAccepted(p, at, s, exactInput, amount, limit, tokenIn, i, o, out);
        }
      }
    }
  }

  lemma MovedExactly(p: Profile, reserve: u128, i: u128, o: u128)
    ensures Moved(p, reserve, i, 0).Ok? <==> (p.Checked? ==> reserve + i < U128_LIMIT)
    ensures Moved(p, reserve, i, 0).Ok? ==> Moved(p, reserve, i, 0).value == (reserve + i) % U128_LIMIT
    ensures Moved(p, reserve, 0, o).Ok? <==> (p.Checked? ==> o <= reserve)
    ensures Moved(p, reserve, 0, o).Ok? ==> Moved(p, reserve, 0, o).value == (reserve - o) % U128_LIMIT
  {
    Reduced(reserve);
    if o <= reserve {
      Reduced(reserve - o);
    }
  }

  lemma Reduced(n: u128)
    ensures n % U128_LIMIT == n
  {
  }

  lemma SetupExactly(pool: AccountWithMetadata, vaultA: AccountWithMetadata, vaultB: AccountWithMetadata)
    ensures ValidateSwapSetup(pool, vaultA, vaultB).Ok? <==>
      && pool.account.data.PoolData? && pool.account.data.pool.active
      && vaultA.id == pool.account.data.pool.vaultA && vaultB.id == pool.account.data.pool.vaultB
      && CoversReserve(vaultA.account.data, pool.account.data.pool.reserveA)
      && CoversReserve(vaultB.account.data, pool.account.data.pool.reserveB)
    ensures ValidateSwapSetup(pool, vaultA, vaultB).Ok? ==>
      ValidateSwapSetup(pool, vaultA, vaultB).value == pool.account.data.pool
  {
  }

  lemma SwapEffectResult(p: Profile, at: Addresses, s: seq<AccountWithMetadata>, exactInput: bool,
                         amount: u128, limit: u128, tokenIn: AccountId, out: AmmOutput)
    requires |s| == 5
    requires SwapEffect(p, at, s[0], s[1], s[2], s[3], s[4], exactInput, amount, limit, tokenIn) == Ok(out)
    ensures SwapReady(s, tokenIn)
    ensures var pool := s[0].account.data.pool; var aToB := tokenIn == pool.tokenA;
      exists i: u128, o: u128 ::
        && IsSwap(p, if aToB then pool.reserveA else pool.reserveB, if aToB then pool.reserveB else pool.reserveA,
                  exactInput, amount, limit, i, o)
        && SwapResult(p, at, s, aToB, i, o, out)
  {
    hide ValidateSwapSetup, SwapAmounts, IsSwap, Moved;
    SetupExactly(s[0], s[1], s[2]);
    var pool := s[0].account.data.pool;
    var aToB := tokenIn == pool.tokenA;
    var x, y := if aToB then pool.reserveA else pool.reserveB, if aToB then pool.reserveB else pool.reserveA;
    var (i, o) := SwapAmounts(p, x, y, exactInput, amount, limit).value;
    SwapExactly(p, x, y, exactInput, amount, limit, i, o);
    MovedExactly(p, x, i, 0);
    MovedExactly(p, y, 0, o);
    assert SwapResult(p, at, s, aToB, i, o, out);
  }

  lemma SwapEffectAccepted(p: Profile, at: Addresses, s: seq<AccountWithMetadata>, exactInput: bool,
                           amount: u128, limit: u128, tokenIn: AccountId, i: u128, o: u128, out: AmmOutput)
    requires SwapReady(s, tokenIn)
    requires var pool := s[0].account.data.pool; var aToB := tokenIn == pool.tokenA;
      && IsSwap(p, if aToB then pool.reserveA else pool.reserveB, if aToB then pool.reserveB else pool.reserveA,
                exactInput, amount, limit, i, o)
      && SwapResult(p, at, s, aToB, i, o, out)
    ensures SwapEffect(p, at, s[0], s[1], s[2], s[3], s[4], exactInput, amount, limit, tokenIn) == Ok(out)
  {
    hide ValidateSwapSetup, SwapAmounts, IsSwap, Moved;
    SetupExactly(s[0], s[1], s[2]);
    var pool := s[0].account.data.pool;
    var aToB := tokenIn == pool.tokenA;
    var x, y := if aToB then pool.reserveA else pool.reserveB, if aToB then pool.reserveB else pool.reserveA;
    SwapExactly(p, x, y, exactInput, amount, limit, i, o);
    MovedExactly(p, x, i, 0);
    MovedExactly(p, y, 0, o);
    var done := SwapEffect(p, at, s[0], s[1], s[2], s[3], s[4], exactInput, amount, limit, tokenIn).value;
    assert done.posts == out.posts;
    assert done.calls == out.calls;
  }

  // -------------------------------------------------------------------- deposits

  predicate AddReady(s: seq<AccountWithMetadata>) {
    && |s| == 7 && s[0].account.data.PoolData?
    && var pool := s[0].account.data.pool;
       && s[1].id == pool.vaultA && s[2].id == pool.vaultB && s[3].id == pool.lpDefinition
       && CoversReserve(s[1].account.data, pool.reserveA) && CoversReserve(s[2].account.data, pool.reserveB)
  }

  ghost predicate AddResult(p: Profile, at: Addresses, s: seq<AccountWithMetadata>, d: Deposit, out: AmmOutput)
    requires |s| == 7 && s[0].account.data.PoolData?
  {
    var pool, program := s[0].account.data.pool, s[4].account.owner;
    && (p.Checked? ==> pool.lpSupply + d.liquidity < U128_LIMIT
                       && pool.reserveA + d.a < U128_LIMIT && pool.reserveB + d.b < U128_LIMIT)
    && OnlyPoolWritten(s, pool.(lpSupply := (pool.lpSupply + d.liquidity) % U128_LIMIT,
                                reserveA := (pool.reserveA + d.a) % U128_LIMIT,
                                reserveB := (pool.reserveB + d.b) % U128_LIMIT), None, out.posts)
    && |out.calls| == 3
    && IsCall(out.calls[0], program, Authorize(s[3]), s[6], Mint(d.liquidity), [at.seedHash(s[0].id, AccountId(0))])
    && IsCall(out.calls[1], program, s[5], s[2], Transfer(d.b), [])
    && IsCall(out.calls[2], program, s[4], s[1], Transfer(d.a), [])
  }

  /** A deposit is accepted if and only if pool and vaults are ready, all three limits are positive, and there is a
      deposit within them; then that deposit is made. */
  lemma AddEffectExactly(p: Profile, at: Addresses, s: seq<AccountWithMetadata>,
                         min: u128, maxA: u128, maxB: u128, out: AmmOutput)
    ensures AmmEffects(p, at, s, AddLiquidity(min, maxA, maxB)) == Ok(out) <==>
      && AddReady(s) && min > 0 && maxA > 0 && maxB > 0
      && exists d :: IsDeposit(p, s[0].account.data.pool, min, maxA, maxB, d) && AddResult(p, at, s, d, out)
  {
    hide AddAmounts, IsDeposit, PoolAfterAdd;
    if AmmEffects(p, at, s, AddLiquidity(min, maxA, maxB)) == Ok(out) {
      var pool := s[0].account.data.pool;
      var d := AddAmounts(p, pool, min, maxA, maxB).value;
      DepositExactly(p, pool, min, maxA, maxB, d);
      AfterAddExactly(p, pool, d);
      assert AddResult(p, at, s, d, out);
    }
    if AddReady(s) && min > 0 && maxA > 0 && maxB > 0 {
      var pool := s[0].account.data.pool;
      forall d | IsDeposit(p, pool, min, maxA, maxB, d) && AddResult(p, at, s, d, out)
        ensures AmmEffects(p, at, s, AddLiquidity(min, maxA, maxB)) == Ok(out)
      {
        AddEffectAccepted(p, at, s, min, maxA, maxB, d, out);
      }
    }
  }

  lemma AfterAddExactly(p: Profile, pool: PoolDefinition, d: Deposit)
    ensures PoolAfterAdd(p, pool, d).Ok? <==>
      (p.Checked? ==> pool.lpSupply + d.liquidity < U128_LIMIT
                      && pool.reserveA + d.a < U128_LIMIT && pool.reserveB + d.b < U128_LIMIT)
    ensures PoolAfterAdd(p, pool, d).Ok? ==>
      PoolAfterAdd(p, pool, d).value == pool.(lpSupply := (pool.lpSupply + d.liquidity) % U128_LIMIT,
                                              reserveA := (pool.reserveA + d.a) % U128_LIMIT,
                                              reserveB := (pool.reserveB + d.b) % U128_LIMIT)
  {
    hide UAdd;
    SumExactly(p, pool.lpSupply, d.liquidity);
    SumExactly(p, pool.reserveA, d.a);
    SumExactly(p, pool.reserveB, d.b);
  }

  lemma AddEffectAccepted(p: Profile, at: Addresses, s: seq<AccountWithMetadata>,
                          min: u128, maxA: u128, maxB: u128, d: Deposit, out: AmmOutput)
    requires AddReady(s) && min > 0 && maxA > 0 && maxB > 0
    requires IsDeposit(p, s[0].account.data.pool, min, maxA, maxB, d) && AddResult(p, at, s, d, out)
    ensures AmmEffects(p, at, s, AddLiquidity(min, maxA, maxB)) == Ok(out)
  {
    hide AddAmounts, PoolAfterAdd, Matches, Covered, Allows, Low;
    var pool := s[0].account.data.pool;
    DepositExactly(p, pool, min, maxA, maxB, d);
    AfterAddExactly(p, pool, d);
    var done := AmmEffects(p, at, s, AddLiquidity(min, maxA, maxB)).value;
    assert done.posts == out.posts;
    assert done.calls == out.calls;
  }

  // ----------------------------------------------------------------- withdrawals

  predicate RemoveReady(s: seq<AccountWithMetadata>) {
    && |s| == 7 && s[0].account.data.PoolData?
    && var pool := s[0].account.data.pool;
       && pool.active && s[1].id == pool.vaultA && s[2].id == pool.vaultB && s[3].id == pool.lpDefinition
       && s[6].account.data.HoldingData? && s[6].account.data.holding.Fungible?
       && s[6].account.data.holding.definitionId == pool.lpDefinition
       && s[6].account.data.holding.balance <= pool.lpSupply
  }

  ghost predicate RemoveResult(p: Profile, at: Addresses, s: seq<AccountWithMetadata>, w: Withdrawal, out: AmmOutput)
    requires |s| == 7 && s[0].account.data.PoolData?
  {
    var pool, program := s[0].account.data.pool, s[4].account.owner;
    var supply := (pool.lpSupply - w.liquidity) % U128_LIMIT;
    && (p.Checked? ==> w.liquidity <= pool.lpSupply && w.a <= pool.reserveA && w.b <= pool.reserveB)
    && OnlyPoolWritten(s, pool.(lpSupply := supply, active := supply != 0,
                                reserveA := (pool.reserveA - w.a) % U128_LIMIT,
                                reserveB := (pool.reserveB - w.b) % U128_LIMIT), None, out.posts)
    && |out.calls| == 3
    && IsCall(out.calls[0], program, Authorize(s[3]), s[6], Burn(w.liquidity), [at.seedHash(s[0].id, AccountId(0))])
    && IsCall(out.calls[1], program, Authorize(s[2]), s[5], Transfer(w.b), [at.seedHash(s[0].id, pool.tokenB)])
    && IsCall(out.calls[2], program, Authorize(s[1]), s[4], Transfer(w.a), [at.seedHash(s[0].id, pool.tokenA)])
  }

  /** A withdrawal is accepted if and only if pool and vaults are ready, the amount and both minimums are positive,
      and what the tokens are worth covers the minimums; then exactly that is paid. */
  lemma RemoveEffectExactly(p: Profile, at: Addresses, s: seq<AccountWithMetadata>,
                            amount: u128, minA: u128, minB: u128, out: AmmOutput)
    ensures AmmEffects(p, at, s, RemoveLiquidity(amount, minA, minB)) == Ok(out) <==>
      && RemoveReady(s) && amount > 0 && minA > 0 && minB > 0
      && exists w :: IsWithdrawal(p, s[0].account.data.pool, amount, minA, minB, w) && RemoveResult(p, at, s, w, out)
  {
    hide RemoveAmounts, IsWithdrawal, PoolAfterRemove;
    if AmmEffects(p, at, s, RemoveLiquidity(amount, minA, minB)) == Ok(out) {
      var pool := s[0].account.data.pool;
      var w := RemoveAmounts(p, pool, amount, minA, minB).value;
      WithdrawalExactly(p, pool, amount, minA, minB, w);
      AfterRemoveExactly(p, pool, w);
      assert RemoveResult(p, at, s, w, out);
    }
    if RemoveReady(s) && amount > 0 && minA > 0 && minB > 0 {
      var pool := s[0].account.data.pool;
      forall w | IsWithdrawal(p, pool, amount, minA, minB, w) && RemoveResult(p, at, s, w, out)
        ensures AmmEffects(p, at, s, RemoveLiquidity(amount, minA, minB)) == Ok(out)
      {
        RemoveEffectAccepted(p, at, s, amount, minA, minB, w, out);
      }
    }
  }

  lemma DifferenceExactly(p: Profile, x: u128, y: u128)
    ensures USub(p, x, y).Ok? <==> (p.Checked? ==> y <= x)
    ensures USub(p, x, y).Ok? ==> USub(p, x, y).value == (x - y) % U128_LIMIT
  {
    if y <= x {
      Reduced(x - y);
    }
  }

  lemma AfterRemoveExactly(p: Profile, pool: PoolDefinition, w: Withdrawal)
    ensures PoolAfterRemove(p, pool, w).Ok? <==>
      (p.Checked? ==> w.liquidity <= pool.lpSupply && w.a <= pool.reserveA && w.b <= pool.reserveB)
    ensures PoolAfterRemove(p, pool, w).Ok? ==>
      var supply := (pool.lpSupply - w.liquidity) % U128_LIMIT;
      PoolAfterRemove(p, pool, w).value == pool.(lpSupply := supply, active := supply != 0,
                                                 reserveA := (pool.reserveA - w.a) % U128_LIMIT,
                                                 reserveB := (pool.reserveB - w.b) % U128_LIMIT)
  {
    hide USub;
    DifferenceExactly(p, pool.lpSupply, w.liquidity);
    DifferenceExactly(p, pool.reserveA, w.a);
    DifferenceExactly(p, pool.reserveB, w.b);
  }

  lemma RemoveEffectAccepted(p: Profile, at: Addresses, s: seq<AccountWithMetadata>,
                             amount: u128, minA: u128, minB: u128, w: Withdrawal, out: AmmOutput)
    requires RemoveReady(s) && amount > 0 && minA > 0 && minB > 0
    requires IsWithdrawal(p, s[0].account.data.pool, amount, minA, minB, w) && RemoveResult(p, at, s, w, out)
    ensures AmmEffects(p, at, s, RemoveLiquidity(amount, minA, minB)) == Ok(out)
  {
    hide RemoveAmounts, PoolAfterRemove, IsWithdrawal;
    var pool := s[0].account.data.pool;
    WithdrawalExactly(p, pool, amount, minA, minB, w);
    AfterRemoveExactly(p, pool, w);
    var done := AmmEffects(p, at, s, RemoveLiquidity(amount, minA, minB)).value;
    assert done.posts == out.posts;
    assert done.calls == out.calls;
  }

  // -------------------------------------------------------------------- creation

  /** The seed of a pool does not depend on the order of its tokens. */
  function PairSeed(at: Addresses, x: AccountId, y: AccountId): PdaSeed {
    if x.value >= y.value then at.seedHash(x, y) else at.seedHash(y, x)
  }

  /** Two holdings of different tokens under one program, the addresses derived from them, and no active pool. */
  predicate NewReady(at: Addresses, s: seq<AccountWithMetadata>, amm: ProgramId) {
    && |s| == 7 && s[4].account.data.HoldingData? && s[5].account.data.HoldingData?
    && s[4].account.owner == s[5].account.owner
    && (s[0].account == DEFAULT_ACCOUNT || (s[0].account.data.PoolData? && !s[0].account.data.pool.active))
    && var tokenA, tokenB := s[4].account.data.holding.definitionId, s[5].account.data.holding.definitionId;
       && tokenA != tokenB
       && s[0].id == at.publicPda(amm, PairSeed(at, tokenA, tokenB))
       && s[1].id == at.publicPda(amm, at.seedHash(s[0].id, tokenA))
       && s[2].id == at.publicPda(amm, at.seedHash(s[0].id, tokenB))
       && s[3].id == at.publicPda(amm, at.seedHash(s[0].id, AccountId(0)))
  }

  ghost predicate NewResult(at: Addresses, s: seq<AccountWithMetadata>,
                            a: u128, b: u128, liquidity: u128, out: AmmOutput)
    requires |s| == 7 && s[4].account.data.HoldingData? && s[5].account.data.HoldingData?
  {
    var tokenA, tokenB := s[4].account.data.holding.definitionId, s[5].account.data.holding.definitionId;
    var program, isNew := s[4].account.owner, s[0].account == DEFAULT_ACCOUNT;
    && OnlyPoolWritten(s, PoolDefinition(tokenA, tokenB, s[1].id, s[2].id, s[3].id, liquidity, a, b, 0, true),
                       if s[0].account.owner == DEFAULT_PROGRAM_ID then Some(Pda(PairSeed(at, tokenA, tokenB))) else None,
                       out.posts)
    && |out.calls| == 3
    && IsCall(out.calls[0], program, Authorize(s[3]), s[6],
              if isNew then NewFungibleDefinition("LP Token", liquidity) else Mint(liquidity),
              [at.seedHash(s[0].id, AccountId(0))])
    && IsCall(out.calls[1], program, s[5], Authorize(s[2]), Transfer(b), [at.seedHash(s[0].id, tokenB)])
    && IsCall(out.calls[2], program, s[4], Authorize(s[1]), Transfer(a), [at.seedHash(s[0].id, tokenA)])
  }

  /** A pool is created if and only if both amounts are positive and the accounts are ready; it records the tokens of
      the two paying holdings, their amounts, and the square root of the product as liquidity. */
  lemma NewEffectExactly(p: Profile, at: Addresses, s: seq<AccountWithMetadata>,
                         a: u128, b: u128, amm: ProgramId, out: AmmOutput)
    ensures AmmEffects(p, at, s, NewPool(a, b, amm)) == Ok(out) <==>
      && a > 0 && b > 0 && NewReady(at, s, amm)
      && exists liquidity: u128 :: IsInitial(p, a, b, liquidity) && NewResult(at, s, a, b, liquidity, out)
  {
    hide InitialLiquidity, IsInitial;
    if AmmEffects(p, at, s, NewPool(a, b, amm)) == Ok(out) {
      var liquidity := InitialLiquidity(p, a, b).value;
      InitialExactly(p, a, b, liquidity);
      assert NewResult(at, s, a, b, liquidity, out);
    }
    if a > 0 && b > 0 && NewReady(at, s, amm) {
      forall liquidity | IsInitial(p, a, b, liquidity) && NewResult(at, s, a, b, liquidity, out)
        ensures AmmEffects(p, at, s, NewPool(a, b, amm)) == Ok(out)
      {
        NewEffectAccepted(p, at, s, a, b, amm, liquidity, out);
      }
    }
  }

  lemma NewEffectAccepted(p: Profile, at: Addresses, s: seq<AccountWithMetadata>, a: u128,
                          b: u128, amm: ProgramId, liquidity: u128, out: AmmOutput)
    requires a > 0 && b > 0 && NewReady(at, s, amm)
    requires IsInitial(p, a, b, liquidity) && NewResult(at, s, a, b, liquidity, out)
    ensures AmmEffects(p, at, s, NewPool(a, b, amm)) == Ok(out)
  {
    hide InitialLiquidity, IsInitial;
    InitialExactly(p, a, b, liquidity);
    var done := AmmEffects(p, at, s, NewPool(a, b, amm)).value;
    assert done.posts == out.posts;
    assert done.calls == out.calls;
  }

  // ------------------------------------------------------------------ what is accepted

  /** Posts that write only the pool. */
  function PostsOf(s: seq<AccountWithMetadata>, after: PoolDefinition,
                   claim: Option<Claim>): (posts: seq<AccountPostState>)
    requires |s| > 0
    ensures OnlyPoolWritten(s, after, claim, posts)
  {
    seq(|s|, i requires 0 <= i < |s| =>
      if i == 0 then AccountPostState(s[0].account.(data := PoolData(after)), claim)
      else AccountPostState(s[i].account, None))
  }

  /** What the AMM outputs for a swap. */
  lemma SwapOutput(p: Profile, at: Addresses, s: seq<AccountWithMetadata>, exactInput: bool, amount: u128,
                   limit: u128, tokenIn: AccountId, i: u128, o: u128) returns (out: AmmOutput)
    requires SwapReady(s, tokenIn)
    requires var pool := s[0].account.data.pool; var aToB := tokenIn == pool.tokenA;
      var x, y := if aToB then pool.reserveA else pool.reserveB, if aToB then pool.reserveB else pool.reserveA;
      IsSwap(p, x, y, exactInput, amount, limit, i, o) && (p.Checked? ==> x + i < U128_LIMIT && o <= y)
    ensures AmmEffects(p, at, s, if exactInput then SwapExactInput(amount, limit, tokenIn)
                                 else SwapExactOutput(amount, limit, tokenIn)) == Ok(out)
    ensures SwapResult(p, at, s, tokenIn == s[0].account.data.pool.tokenA, i, o, out)
  {
    hide IsSwap, SwapEffect;
    var pool := s[0].account.data.pool;
    var aToB := tokenIn == pool.tokenA;
    var x, y := if aToB then pool.reserveA else pool.reserveB, if aToB then pool.reserveB else pool.reserveA;
    var x', y' := (x + i) % U128_LIMIT, (y - o) % U128_LIMIT;
    var after := pool.(reserveA := if aToB then x' else y', reserveB := if aToB then y' else x');
    var vaultOut := if aToB then s[2] else s[1];
    var payer := if aToB then s[3] else s[4];
    out := AmmOutput(
      PostsOf(s, after, None),
      [ChainedCall(payer.account.owner, [payer, if aToB then s[1] else s[2]], TokenCall(Transfer(i)), []),
       ChainedCall(payer.account.owner, [Authorize(vaultOut), if aToB then s[4] else s[3]], TokenCall(Transfer(o)),
                   [at.seedHash(s[0].id, vaultOut.account.data.holding.definitionId)])]);
    assert SwapResult(p, at, s, aToB, i, o, out);
    SwapEffectAccepted(p, at, s, exactInput, amount, limit, tokenIn, i, o, out);
  }

  /** What the AMM outputs for a withdrawal. */
  lemma RemoveOutput(p: Profile, at: Addresses, s: seq<AccountWithMetadata>, amount: u128,
                     minA: u128, minB: u128, w: Withdrawal) returns (out: AmmOutput)
    requires RemoveReady(s) && amount > 0 && minA > 0 && minB > 0
    requires IsWithdrawal(p, s[0].account.data.pool, amount, minA, minB, w)
    requires var pool := s[0].account.data.pool;
      p.Checked? ==> w.liquidity <= pool.lpSupply && w.a <= pool.reserveA && w.b <= pool.reserveB
    ensures AmmEffects(p, at, s, RemoveLiquidity(amount, minA, minB)) == Ok(out) && RemoveResult(p, at, s, w, out)
  {
    hide IsWithdrawal, AmmEffects;
    var pool, program := s[0].account.data.pool, s[4].account.owner;
    var supply := (pool.lpSupply - w.liquidity) % U128_LIMIT;
    var after := pool.(lpSupply := supply, active := supply != 0, reserveA := (pool.reserveA - w.a) % U128_LIMIT,
                       reserveB := (pool.reserveB - w.b) % U128_LIMIT);
    out := AmmOutput(
      PostsOf(s, after, None),
      [ChainedCall(program, [Authorize(s[3]), s[6]], TokenCall(Burn(w.liquidity)), [at.seedHash(s[0].id, AccountId(0))]),
       ChainedCall(program, [Authorize(s[2]), s[5]], TokenCall(Transfer(w.b)), [at.seedHash(s[0].id, pool.tokenB)]),
       ChainedCall(program, [Authorize(s[1]), s[4]], TokenCall(Transfer(w.a)), [at.seedHash(s[0].id, pool.tokenA)])]);
    assert RemoveResult(p, at, s, w, out);
    RemoveEffectAccepted(p, at, s, amount, minA, minB, w, out);
  }

  /** What the AMM outputs for a deposit. */
  lemma AddOutput(p: Profile, at: Addresses, s: seq<AccountWithMetadata>, min: u128,
                  maxA: u128, maxB: u128, d: Deposit) returns (out: AmmOutput)
    requires AddReady(s) && min > 0 && maxA > 0 && maxB > 0
    requires IsDeposit(p, s[0].account.data.pool, min, maxA, maxB, d)
    requires var pool := s[0].account.data.pool;
      p.Checked? ==> pool.lpSupply + d.liquidity < U128_LIMIT
                     && pool.reserveA + d.a < U128_LIMIT && pool.reserveB + d.b < U128_LIMIT
    ensures AmmEffects(p, at, s, AddLiquidity(min, maxA, maxB)) == Ok(out) && AddResult(p, at, s, d, out)
  {
    hide IsDeposit, AmmEffects;
    var pool, program := s[0].account.data.pool, s[4].account.owner;
    var after := pool.(lpSupply := (pool.lpSupply + d.liquidity) % U128_LIMIT,
                       reserveA := (pool.reserveA + d.a) % U128_LIMIT, reserveB := (pool.reserveB + d.b) % U128_LIMIT);
    out := AmmOutput(
      PostsOf(s, after, None),
      [ChainedCall(program, [Authorize(s[3]), s[6]], TokenCall(Mint(d.liquidity)), [at.seedHash(s[0].id, AccountId(0))]),
       ChainedCall(program, [s[5], s[2]], TokenCall(Transfer(d.b)), []),
       ChainedCall(program, [s[4], s[1]], TokenCall(Transfer(d.a)), [])]);
    assert AddResult(p, at, s, d, out);
    AddEffectAccepted(p, at, s, min, maxA, maxB, d, out);
  }

  /** What the AMM outputs for a creation. */
  lemma NewOutput(p: Profile, at: Addresses, s: seq<AccountWithMetadata>, a: u128,
                  b: u128, amm: ProgramId, liquidity: u128) returns (out: AmmOutput)
    requires a > 0 && b > 0 && NewReady(at, s, amm) && IsInitial(p, a, b, liquidity)
    ensures AmmEffects(p, at, s, NewPool(a, b, amm)) == Ok(out) && NewResult(at, s, a, b, liquidity, out)
  {
    hide IsInitial, AmmEffects;
    var tokenA, tokenB := s[4].account.data.holding.definitionId, s[5].account.data.holding.definitionId;
    var program, pool := s[4].account.owner, s[0].id;
    out := AmmOutput(
      PostsOf(s, PoolDefinition(tokenA, tokenB, s[1].id, s[2].id, s[3].id, liquidity, a, b, 0, true),
              if s[0].account.owner == DEFAULT_PROGRAM_ID then Some(Pda(PairSeed(at, tokenA, tokenB))) else None),
      [ChainedCall(program, [Authorize(s[3]), s[6]],
                   TokenCall(if s[0].account == DEFAULT_ACCOUNT then NewFungibleDefinition("LP Token", liquidity)
                             else Mint(liquidity)), [at.seedHash(pool, AccountId(0))]),
       ChainedCall(program, [s[5], Authorize(s[2])], TokenCall(Transfer(b)), [at.seedHash(pool, tokenB)]),
       ChainedCall(program, [s[4], Authorize(s[1])], TokenCall(Transfer(a)), [at.seedHash(pool, tokenA)])]);
    assert NewResult(at, s, a, b, liquidity, out);
    NewEffectAccepted(p, at, s, a, b, amm, liquidity, out);
  }

  /** There is a trade within the limit that the build can record. */
  ghost predicate CanSwap(p: Profile, x: u128, y: u128, exactInput: bool, amount: u128, limit: u128) {
    exists i: u128, o: u128 :: IsSwap(p, x, y, exactInput, amount, limit, i, o)
      && (p.Checked? ==> x + i < U128_LIMIT && o <= y)
  }

  /** What the AMM asks of each instruction, on the accounts it is given. */
  ghost predicate AmmAccepts(p: Profile, at: Addresses, s: seq<AccountWithMetadata>, instruction: AmmInstruction) {
    match instruction
    case NewPool(a, b, amm) => a > 0 && b > 0 && NewReady(at, s, amm) && exists l: u128 :: IsInitial(p, a, b, l)
    case AddLiquidity(min, maxA, maxB) =>
      && AddReady(s) && min > 0 && maxA > 0 && maxB > 0
      && var pool := s[0].account.data.pool;
         exists d :: IsDeposit(p, pool, min, maxA, maxB, d)
           && (p.Checked? ==> pool.lpSupply + d.liquidity < U128_LIMIT
                              && pool.reserveA + d.a < U128_LIMIT && pool.reserveB + d.b < U128_LIMIT)
    case RemoveLiquidity(amount, minA, minB) =>
      && RemoveReady(s) && amount > 0 && minA > 0 && minB > 0
      && var pool := s[0].account.data.pool;
         exists w :: IsWithdrawal(p, pool, amount, minA, minB, w)
           && (p.Checked? ==> w.liquidity <= pool.lpSupply && w.a <= pool.reserveA && w.b <= pool.reserveB)
    case SwapExactInput(amount, min, tokenIn) =>
      SwapReady(s, tokenIn) && SwapsIn(p, s[0].account.data.pool, tokenIn, true, amount, min)
    case SwapExactOutput(amount, max, tokenIn) =>
      SwapReady(s, tokenIn) && SwapsIn(p, s[0].account.data.pool, tokenIn, false, amount, max)
  }

  ghost predicate SwapsIn(p: Profile, pool: PoolDefinition, tokenIn: AccountId,
                          exactInput: bool, amount: u128, limit: u128) {
    if tokenIn == pool.tokenA then CanSwap(p, pool.reserveA, pool.reserveB, exactInput, amount, limit)
    else CanSwap(p, pool.reserveB, pool.reserveA, exactInput, amount, limit)
  }

  lemma SwapAcceptedExactly(p: Profile, at: Addresses, s: seq<AccountWithMetadata>,
                            exactInput: bool, amount: u128, limit: u128, tokenIn: AccountId)
    ensures AmmEffects(p, at, s, if exactInput then SwapExactInput(amount, limit, tokenIn)
                                 else SwapExactOutput(amount, limit, tokenIn)).Ok?
       <==> SwapReady(s, tokenIn) && SwapsIn(p, s[0].account.data.pool, tokenIn, exactInput, amount, limit)
  {
    hide AmmEffects, IsSwap, OnlyPoolWritten, IsCall;
    var r := AmmEffects(p, at, s, if exactInput then SwapExactInput(amount, limit, tokenIn)
                                  else SwapExactOutput(amount, limit, tokenIn));
    if r.Ok? {
      SwapEffectExactly(p, at, s, exactInput, amount, limit, tokenIn, r.value);
    }
    if SwapReady(s, tokenIn) && SwapsIn(p, s[0].account.data.pool, tokenIn, exactInput, amount, limit) {
      var pool := s[0].account.data.pool;
      var x, y := if tokenIn == pool.tokenA then pool.reserveA else pool.reserveB,
          if tokenIn == pool.tokenA then pool.reserveB else pool.reserveA;
      assert CanSwap(p, x, y, exactInput, amount, limit);
      var i: u128, o: u128 :| IsSwap(p, x, y, exactInput, amount, limit, i, o)
        && (p.Checked? ==> x + i < U128_LIMIT && o <= y);
      var out := SwapOutput(p, at, s, exactInput, amount, limit, tokenIn, i, o);
    }
  }

  /** The AMM answers if and only if it is asked for an AMM instruction it accepts; it reports the accounts as it was
      given them and sets no validity window. */
  lemma AmmAnswersExactly(p: Profile, at: Addresses, self: ProgramId, caller: Option<ProgramId>,
                          s: seq<AccountWithMetadata>, instruction: Instruction)
    ensures AmmProgram(p, at, self, caller, s, instruction).Some?
       <==> instruction.AmmCall? && AmmAccepts(p, at, s, instruction.amm)
    ensures AmmProgram(p, at, self, caller, s, instruction).Some? ==>
      var output := AmmProgram(p, at, self, caller, s, instruction).value;
      && output.selfProgramId == self && output.callerProgramId == caller && output.preStates == s
      && output.blockWindow == output.timestampWindow == ValidityWindow(None, None)
  {
    hide AmmEffects, IsSwap, IsDeposit, IsWithdrawal, IsInitial, CanSwap, OnlyPoolWritten, IsCall;
    if instruction.AmmCall? {
      var r := AmmEffects(p, at, s, instruction.amm);
      match instruction.amm
      case NewPool(a, b, amm) =>
        if r.Ok? {
          NewEffectExactly(p, at, s, a, b, amm, r.value);
        }
        if AmmAccepts(p, at, s, instruction.amm) {
          var l: u128 :| IsInitial(p, a, b, l);
          var out := NewOutput(p, at, s, a, b, amm, l);
        }
      case AddLiquidity(min, maxA, maxB) =>
        if r.Ok? {
          AddEffectExactly(p, at, s, min, maxA, maxB, r.value);
        }
        if AmmAccepts(p, at, s, instruction.amm) {
          var pool := s[0].account.data.pool;
          var d :| IsDeposit(p, pool, min, maxA, maxB, d)
            && (p.Checked? ==> pool.lpSupply + d.liquidity < U128_LIMIT
                               && pool.reserveA + d.a < U128_LIMIT && pool.reserveB + d.b < U128_LIMIT);
          var out := AddOutput(p, at, s, min, maxA, maxB, d);
        }
      case RemoveLiquidity(amount, minA, minB) =>
        if r.Ok? {
          RemoveEffectExactly(p, at, s, amount, minA, minB, r.value);
        }
        if AmmAccepts(p, at, s, instruction.amm) {
          var pool := s[0].account.data.pool;
          var w :| IsWithdrawal(p, pool, amount, minA, minB, w)
            && (p.Checked? ==> w.liquidity <= pool.lpSupply && w.a <= pool.reserveA && w.b <= pool.reserveB);
          var out := RemoveOutput(p, at, s, amount, minA, minB, w);
        }
      case SwapExactInput(amount, min, tokenIn) => SwapAcceptedExactly(p, at, s, true, amount, min, tokenIn);
      case SwapExactOutput(amount, max, tokenIn) => SwapAcceptedExactly(p, at, s, false, amount, max, tokenIn);
    }
  }
}
