/** What a pool has at stake in token accounts is safe over whole runs: its vaults never fall behind its reserves,
    and no liquidity token exists that it does not count. */
module AmmStakes {
  import opened Core
  import opened Sums
  import opened Execution
  import opened Calls
  import opened CallTrace
  import opened Authority
  import opened Ledger
  import opened LedgerRuns
  import opened Token
  import opened TokenSupply
  import opened Amm
  import opened AmmMath
  import opened AmmPools
  import opened AmmCalls
  import opened AmmSolvency

  // ------------------------------------------------------------------- the stake

  /** What a pool has a stake in at a token account: the tokens in a vault, or the liquidity tokens in existence. */
  datatype Stake = Vault | Liquidity

  /** The programs, the pool, and the account where its stake is. */
  datatype Setting = Setting(
    amm: ProgramId, token: ProgramId, profile: Profile, at: Addresses, which: Stake, pool: AccountId, id: AccountId)

  /** What the account holds for the pool; liquidity tokens count against it. */
  function Holding(which: Stake, data: Data): int {
    match which
    case Vault => Held(data)
    case Liquidity => -(Declared(data) as int)
  }

  /** What the pool counts on there. */
  function Counted(which: Stake, data: Data, id: AccountId): int {
    match which
    case Vault => ReserveAt(data, id)
    case Liquidity => -(LpSupplyAt(data, id) as int)
  }

  /** What must not fall: the surplus of a vault, or the negated surplus of the liquidity token. */
  function Margin(g: Setting, accounts: Accounts): int {
    Holding(g.which, Lookup(accounts, g.id).data) - Counted(g.which, Lookup(accounts, g.pool).data, g.id)
  }

  lemma MarginIsSurplus(g: Setting, accounts: Accounts)
    ensures g.which.Vault? ==> Margin(g, accounts) == Surplus(accounts, g.pool, g.id)
    ensures g.which.Liquidity? ==> Margin(g, accounts) == -SurplusLp(accounts, g.pool, g.id)
  {
  }

  predicate EmptyIfInactive(data: Data) {
    data.PoolData? && !data.pool.active ==> data.pool.lpSupply == 0
  }

  /** The account is the token program's and the pool the AMM's; where liquidity is at stake, an inactive pool
      counts none. */
  ghost predicate Owned(g: Setting, accounts: Accounts) {
    && Lookup(accounts, g.pool).owner == g.amm && Lookup(accounts, g.id).owner == g.token
    && (g.which.Liquidity? ==> EmptyIfInactive(Lookup(accounts, g.pool).data))
  }

  /** Only the AMM derives the account's address, and only from seeds hashed from this pool. */
  ghost predicate Exclusive(g: Setting, publicPda: (ProgramId, PdaSeed) -> AccountId) {
    forall program, seed {:trigger publicPda(program, seed)} :: publicPda(program, seed) == g.id ==>
      program == g.amm && forall q, t {:trigger g.at.seedHash(q, t)} :: g.at.seedHash(q, t) == seed ==> q == g.pool
  }

  /** What is assumed of the environment. */
  ghost predicate Guarded(
    g: Setting,
    execute: (ProgramId, Option<ProgramId>, seq<AccountWithMetadata>, Instruction) -> Option<ProgramOutput>,
    publicPda: (ProgramId, PdaSeed) -> AccountId)
  {
    && RunsAmm(execute, g.amm, g.profile, g.at) && RunsToken(execute, g.token)
    && g.amm != g.token && g.amm != DEFAULT_PROGRAM_ID && g.token != DEFAULT_PROGRAM_ID
    && Exclusive(g, publicPda)
  }

  /** An executed call: lawful in its world, with the output its program computes. */
  ghost predicate Ran(ctx: Context, world: Accounts, e: Executed) {
    && Lawful(ctx, world, e)
    && ctx.execute(e.item.call.programId, e.item.caller.programId, e.item.call.preStates, e.item.call.instruction)
       == Some(e.output)
  }

  /** An AMM call on the pool. */
  predicate OnPool(g: Setting, e: Executed) {
    e.item.call.programId == g.amm && |e.item.call.preStates| > 0 && e.item.call.preStates[0].id == g.pool
  }

  // ------------------------------------------------------------ who can harm the stake

  /** An instruction may harm the stake at this position: debit a holding, or mint against a definition. */
  predicate MayHarm(which: Stake, instruction: TokenInstruction, i: nat) {
    match which
    case Vault => ((instruction.Transfer? || instruction.PrintNft?) && i == 0) || (instruction.Burn? && i == 1)
    case Liquidity => instruction.Mint? && i == 0
  }

  /** A token call debits only with the holder's authorization, and mints only with the definition's. */
  lemma HarmIsAuthorized(which: Stake, token: ProgramId, pres: seq<AccountWithMetadata>,
                         instruction: TokenInstruction, posts: seq<AccountPostState>, i: nat, after: Account)
    requires Effects(pres, instruction) == Ok(posts) && i < |pres| && |posts| == |pres|
    requires pres[i].account != DEFAULT_ACCOUNT && Settles(token, pres[i], posts[i], after)
    requires Holding(which, after.data) < Holding(which, pres[i].account.data)
    ensures MayHarm(which, instruction, i) && pres[i].isAuthorized
  {
  }

  /** Across one call that does not harm it with authorization, a token account keeps what it holds. */
  lemma HoldingAcross(ctx: Context, world: Accounts, e: Executed, which: Stake, token: ProgramId, id: AccountId)
    requires Ran(ctx, world, e) && RunsToken(ctx.execute, token) && token != DEFAULT_PROGRAM_ID
    requires Lookup(world, id).owner == token
    requires e.item.call.programId == token && e.item.call.instruction.TokenCall? ==>
      forall i :: 0 <= i < |e.output.preStates| && MayHarm(which, e.item.call.instruction.token, i) ==>
        !(e.output.preStates[i].id == id && e.output.preStates[i].isAuthorized)
    ensures |e.output.preStates| == |e.posts|
    ensures Lookup(Write(world, e), id).owner == token
    ensures Holding(which, Lookup(Write(world, e), id).data) >= Holding(which, Lookup(world, id).data)
  {
    hide Granted, Effects, Holding, Record, SumSeq;
    var pres, ids := e.output.preStates, Ids(e.output.preStates);
    if id in ids {
      var i :| 0 <= i < |ids| && ids[i] == id;
      RecordAt(world, ids, PostAccounts(e.posts), i);
      assert Permitted(ctx, e.item.call.programId, pres[i], e.output.postStates[i].claim, e.posts[i].account);
      if e.item.call.programId == token && Holding(which, e.posts[i].account.data) < Holding(which, pres[i].account.data) {
        LawfulSettles(ctx, world, e, i);
        HarmIsAuthorized(which, token, pres, e.item.call.instruction.token, e.output.postStates, i, e.posts[i].account);
      }
    } else {
      RecordElsewhere(world, ids, PostAccounts(e.posts), id);
    }
  }

  /** Across one call that is not an AMM call on it, a pool keeps its data. */
  lemma PoolAcross(ctx: Context, world: Accounts, e: Executed, amm: ProgramId,
                   p: Profile, at: Addresses, pool: AccountId)
    requires Ran(ctx, world, e) && RunsAmm(ctx.execute, amm, p, at) && amm != DEFAULT_PROGRAM_ID
    requires Lookup(world, pool).owner == amm
    requires e.item.call.programId == amm && |e.item.call.preStates| > 0 ==> e.item.call.preStates[0].id != pool
    ensures |e.output.preStates| == |e.posts|
    ensures Lookup(Write(world, e), pool).owner == amm && Lookup(Write(world, e), pool).data == Lookup(world, pool).data
  {
    hide Granted, AmmEffects, PoolChanges, Record, SumSeq, RunsAmm;
    if e.item.call.programId == amm {
      hide Lawful;
      var out := AmmExecuted(ctx, world, e, amm, p, at);
    } else {
      var pres, ids := e.output.preStates, Ids(e.output.preStates);
      if pool in ids {
        var i :| 0 <= i < |ids| && ids[i] == pool;
        RecordAt(world, ids, PostAccounts(e.posts), i);
        assert Permitted(ctx, e.item.call.programId, pres[i], e.output.postStates[i].claim, e.posts[i].account);
      } else {
        RecordElsewhere(world, ids, PostAccounts(e.posts), pool);
      }
    }
  }

  /** A call that is not an AMM call on the pool, and to which the account is not granted, does not lower the margin. */
  lemma OtherCallKeeps(ctx: Context, world: Accounts, e: Executed, g: Setting)
    requires Ran(ctx, world, e) && Guarded(g, ctx.execute, ctx.publicPda)
    requires g.id !in Granted(ctx, e.item) && Owned(g, world) && !OnPool(g, e)
    ensures |e.output.preStates| == |e.posts|
    ensures Owned(g, Write(world, e)) && Margin(g, Write(world, e)) >= Margin(g, world)
  {
    hide RunsAmm, RunsToken, Granted, AmmEffects, Effects, Holding, Counted, Exclusive;
    SeenAsGranted(ctx, world, e);
    HoldingAcross(ctx, world, e, g.which, g.token, g.id);
    PoolAcross(ctx, world, e, g.amm, g.profile, g.at, g.pool);
  }

  lemma SeenAsGranted(ctx: Context, world: Accounts, e: Executed)
    requires Lawful(ctx, world, e)
    ensures forall i :: 0 <= i < |e.output.preStates| ==>
      (e.output.preStates[i].isAuthorized <==> e.output.preStates[i].id in Granted(ctx, e.item))
  {
    hide Granted;
  }

  // -------------------------------------------------------------- what an AMM call lists

  /** Every seed an AMM call lists is hashed from its pool. */
  lemma AmmSeeds(p: Profile, at: Addresses, s: seq<AccountWithMetadata>,
                 instruction: AmmInstruction, out: AmmOutput, j: nat, seed: PdaSeed)
    requires AmmEffects(p, at, s, instruction) == Ok(out) && j < |out.calls| && seed in out.calls[j].pdaSeeds
    ensures |s| > 0 && exists t :: seed == at.seedHash(s[0].id, t)
  {
    hide SwapEffect, AddAmounts, PoolAfterAdd, RemoveAmounts, PoolAfterRemove, InitialLiquidity;
    match instruction
    case NewPool(_, _, _) =>
    case AddLiquidity(_, _, _) =>
    case RemoveLiquidity(_, _, _) =>
    case SwapExactInput(amount, min, tokenIn) =>
      SwapSeeds(p, at, s[0], s[1], s[2], s[3], s[4], true, amount, min, tokenIn, out, j, seed);
    case SwapExactOutput(amount, max, tokenIn) =>
      SwapSeeds(p, at, s[0], s[1], s[2], s[3], s[4], false, amount, max, tokenIn, out, j, seed);
  }

  lemma SwapSeeds(p: Profile, at: Addresses, pool: AccountWithMetadata, vaultA: AccountWithMetadata,
                  vaultB: AccountWithMetadata, userA: AccountWithMetadata, userB: AccountWithMetadata, exactInput: bool,
                  amount: u128, limit: u128, tokenIn: AccountId, out: AmmOutput, j: nat, seed: PdaSeed)
    requires SwapEffect(p, at, pool, vaultA, vaultB, userA, userB, exactInput, amount, limit, tokenIn) == Ok(out)
    requires j < |out.calls| && seed in out.calls[j].pdaSeeds
    ensures exists t :: seed == at.seedHash(pool.id, t)
  {
    hide SwapAmounts, PoolAfterSwap, ValidateSwapSetup, SwapPosts;
  }

  /** The account is granted to no call chained by one it was not granted to, the AMM's calls on the pool aside. */
  lemma ChildNotGranted(ctx: Context, world: Accounts, e: Executed, g: Setting, j: nat)
    requires Ran(ctx, world, e) && Guarded(g, ctx.execute, ctx.publicPda)
    requires g.id !in Granted(ctx, e.item) && !OnPool(g, e)
    requires j < |Children(e)|
    ensures g.id !in Granted(ctx, Children(e)[j])
  {
    hide RunsAmm, RunsToken, AmmEffects, SumSeq, Permitted, WellBehaved, ResolveClaim;
    var call := e.output.chainedCalls[j];
    assert g.id !in AuthorizedBelow(e);
    if g.id in AuthorizedPdas(ctx, Some(e.item.call.programId), call.pdaSeeds) {
      var seed :| seed in call.pdaSeeds && ctx.publicPda(e.item.call.programId, seed) == g.id;
      assert e.item.call.programId == g.amm;
      var out := AmmExecuted(ctx, world, e, g.amm, g.profile, g.at);
      AmmSeeds(g.profile, g.at, e.item.call.preStates, InstructionOf(e), out, j, seed);
      assert false;
    }
  }

  /** The accounts an AMM call itself authorizes to be harmed: the two vaults, and the liquidity token's definition. */
  predicate IsOwn(which: Stake, s: seq<AccountWithMetadata>, id: AccountId)
    requires |s| >= 3
  {
    match which
    case Vault => id == s[1].id || id == s[2].id
    case Liquidity => |s| == 7 && id == s[3].id
  }

  /** Apart from these, the calls an instruction chains harm only what was authorized for the AMM call itself. */
  lemma AmmHarms(which: Stake, p: Profile, at: Addresses, s: seq<AccountWithMetadata>,
                 instruction: AmmInstruction, out: AmmOutput, j: nat, i: nat)
    requires AmmEffects(p, at, s, instruction) == Ok(out) && j < |out.calls| && i < |out.calls[j].preStates|
    requires out.calls[j].instruction.TokenCall? && MayHarm(which, out.calls[j].instruction.token, i)
    requires out.calls[j].preStates[i].isAuthorized
    ensures |s| >= 3
    ensures var x := out.calls[j].preStates[i];
      IsOwn(which, s, x.id) || exists m :: 0 <= m < |s| && s[m].isAuthorized && s[m].id == x.id
  {
    hide AmmEffects, SwapAmounts, PoolSwap, AddAmounts, RemoveAmounts, InitialLiquidity, PoolAfterAdd, PoolAfterRemove;
    match instruction
    case NewPool(a, b, amm) =>
      NewShape(p, at, s, a, b, amm, out);
    case AddLiquidity(min, maxA, maxB) =>
      AddShape(p, at, s, min, maxA, maxB, out);
    case RemoveLiquidity(amount, minA, minB) =>
      RemoveShape(p, at, s, amount, minA, minB, out);
    case SwapExactInput(_, _, _) =>
      var x, y, seeds := SwapShape(p, at, s, instruction, out);
    case SwapExactOutput(_, _, _) =>
      var x, y, seeds := SwapShape(p, at, s, instruction, out);
  }

  /** The pool an instruction writes records the two accounts given as vaults. */
  lemma WrittenVaults(p: Profile, at: Addresses, s: seq<AccountWithMetadata>,
                      instruction: AmmInstruction, out: AmmOutput)
    requires AmmEffects(p, at, s, instruction) == Ok(out)
    ensures |s| >= 3 && |out.posts| > 0 && out.posts[0].account.data.PoolData?
    ensures out.posts[0].account.data.pool.vaultA == s[1].id && out.posts[0].account.data.pool.vaultB == s[2].id
  {
    hide AmmEffects, SwapAmounts, AddAmounts, RemoveAmounts, InitialLiquidity, ChainsLiquidity, Moved, USub, UAdd;
    match instruction
    case NewPool(a, b, amm) =>
      NewShape(p, at, s, a, b, amm, out);
    case AddLiquidity(min, maxA, maxB) =>
      AddShape(p, at, s, min, maxA, maxB, out);
    case RemoveLiquidity(amount, minA, minB) =>
      RemoveShape(p, at, s, amount, minA, minB, out);
    case SwapExactInput(_, _, _) =>
      var x, y, seeds := SwapShape(p, at, s, instruction, out);
    case SwapExactOutput(_, _, _) =>
      var x, y, seeds := SwapShape(p, at, s, instruction, out);
  }

  /** The liquidity token and supply a pool records change only at the definition given to the call. */
  lemma WrittenSupply(p: Profile, at: Addresses, s: seq<AccountWithMetadata>,
                      instruction: AmmInstruction, out: AmmOutput, id: AccountId)
    requires AmmEffects(p, at, s, instruction) == Ok(out) && EmptyIfInactive(s[0].account.data)
    ensures |s| >= 3 && |out.posts| > 0
    ensures !IsOwn(Liquidity, s, id) ==> LpSupplyAt(out.posts[0].account.data, id) == LpSupplyAt(s[0].account.data, id)
    ensures EmptyIfInactive(out.posts[0].account.data)
  {
    hide AmmEffects, SwapAmounts, AddAmounts, RemoveAmounts, InitialLiquidity, ChainsLiquidity, Moved, USub, UAdd;
    match instruction
    case NewPool(a, b, amm) =>
      NewShape(p, at, s, a, b, amm, out);
      NewIsActive(p, at, s, a, b, amm, out);
    case AddLiquidity(min, maxA, maxB) =>
      AddShape(p, at, s, min, maxA, maxB, out);
      MintWithinShare(p, s[0].account.data.pool, min, maxA, maxB);
    case RemoveLiquidity(amount, minA, minB) =>
      RemoveShape(p, at, s, amount, minA, minB, out);
    case SwapExactInput(_, _, _) =>
      var x, y, seeds := SwapShape(p, at, s, instruction, out);
    case SwapExactOutput(_, _, _) =>
      var x, y, seeds := SwapShape(p, at, s, instruction, out);
  }

  lemma NewIsActive(p: Profile, at: Addresses, s: seq<AccountWithMetadata>,
                    a: u128, b: u128, amm: ProgramId, out: AmmOutput)
    requires AmmEffects(p, at, s, NewPool(a, b, amm)) == Ok(out)
    ensures |out.posts| > 0 && out.posts[0].account.data.PoolData? && out.posts[0].account.data.pool.active
  {
    hide InitialLiquidity;
  }

  // ---------------------------------------------------------- an AMM call on the pool

  /** A token account that the AMM call does not own in this sense, and that was not granted to it, keeps what it
      holds through the calls it chains. */
  lemma {:induction false} HoldingThroughBlock(ctx: Context, trace: seq<Executed>, k: nat, n: nat, g: Setting)
    requires History(ctx, trace) && k < |trace| && ChildrenFollow(trace, k) && trace[k].item.call.programId == g.amm
    requires Guarded(g, ctx.execute, ctx.publicPda) && PaysThrough(trace[k], g.token)
    requires g.id !in Granted(ctx, trace[k].item) && Lookup(World(ctx, trace, k), g.id).owner == g.token
    requires !IsOwn(g.which, trace[k].item.call.preStates, g.id)
    requires n <= |trace[k].output.chainedCalls|
    ensures k + 1 + n <= |trace|
    ensures Lookup(World(ctx, trace, k + 1 + n), g.id).owner == g.token
    ensures Holding(g.which, Lookup(World(ctx, trace, k + 1 + n), g.id).data)
         >= Holding(g.which, Lookup(World(ctx, trace, k), g.id).data)
    decreases n
  {
    hide History, RunsAmm, RunsToken, Granted, AmmEffects, Effects, Holding,
         Lookup, World, PoolChanges, Lawful, Exclusive, IsOwn, MayHarm;
    BalancedHistory(ctx, trace);
    var e := trace[k];
    var out := AmmCallAt(ctx, trace, k, g.amm, g.profile, g.at);
    RanAt(ctx, trace, k);
    if n == 0 {
      WorldStep(ctx, trace, k);
      HoldingAcross(ctx, World(ctx, trace, k), e, g.which, g.token, g.id);
    } else {
      HoldingThroughBlock(ctx, trace, k, n - 1, g);
      var m := k + n;
      ChildAt(trace, k, n - 1);
      RanAt(ctx, trace, m);
      WorldStep(ctx, trace, m);
      AmmCallsOneProgram(g.profile, g.at, e.item.call.preStates, InstructionOf(e), out);
      TokenReports(ctx, trace[m], g.token);
      SeenAsGranted(ctx, World(ctx, trace, k), e);
      forall i | 0 <= i < |trace[m].output.preStates| && MayHarm(g.which, trace[m].item.call.instruction.token, i)
        ensures !(trace[m].output.preStates[i].id == g.id && trace[m].output.preStates[i].isAuthorized)
      {
        if trace[m].output.preStates[i].isAuthorized {
          AmmHarms(g.which, g.profile, g.at, e.item.call.preStates, InstructionOf(e), out, n - 1, i);
        }
      }
      HoldingAcross(ctx, World(ctx, trace, m), trace[m], g.which, g.token, g.id);
    }
  }

  lemma RanAt(ctx: Context, trace: seq<Executed>, k: nat)
    requires History(ctx, trace) && k < |trace|
    ensures Ran(ctx, World(ctx, trace, k), trace[k])
  {
    hide History, Lawful, World;
    BalancedHistory(ctx, trace);
    CallEffect(ctx, trace, k);
    CallOutput(ctx, trace, k);
  }

  lemma TokenReports(ctx: Context, e: Executed, token: ProgramId)
    requires RunsToken(ctx.execute, token) && e.item.call.programId == token
    requires ctx.execute(token, e.item.caller.programId, e.item.call.preStates, e.item.call.instruction) == Some(e.output)
    ensures e.item.call.instruction.TokenCall? && e.output.preStates == e.item.call.preStates
  {
    hide Effects;
  }

  /** The pool account is not touched by the calls chained on it. */
  lemma {:induction false} PoolThroughBlock(ctx: Context, trace: seq<Executed>, k: nat, n: nat,
                                            amm: ProgramId, paying: ProgramId, p: Profile, at: Addresses)
    requires History(ctx, trace) && k < |trace| && ChildrenFollow(trace, k) && trace[k].item.call.programId == amm
    requires RunsAmm(ctx.execute, amm, p, at) && PaysThrough(trace[k], paying)
    requires amm != paying && amm != DEFAULT_PROGRAM_ID
    requires Lookup(World(ctx, trace, k + 1), trace[k].item.call.preStates[0].id).owner == amm
    requires n <= |trace[k].output.chainedCalls|
    ensures k + 1 + n <= |trace|
    ensures var pool := trace[k].item.call.preStates[0].id;
      && Lookup(World(ctx, trace, k + 1 + n), pool).owner == amm
      && Lookup(World(ctx, trace, k + 1 + n), pool).data == Lookup(World(ctx, trace, k + 1), pool).data
    decreases n
  {
    hide History, RunsAmm, Granted, AmmEffects, Lookup, World, PoolChanges, Lawful;
    BalancedHistory(ctx, trace);
    var pool := trace[k].item.call.preStates[0].id;
    if n > 0 {
      PoolThroughBlock(ctx, trace, k, n - 1, amm, paying, p, at);
      var m := k + n;
      ChildAt(trace, k, n - 1);
      RanAt(ctx, trace, m);
      WorldStep(ctx, trace, m);
      var out := AmmCallAt(ctx, trace, k, amm, p, at);
      AmmCallsOneProgram(p, at, trace[k].item.call.preStates, InstructionOf(trace[k]), out);
      PoolAcross(ctx, World(ctx, trace, m), trace[m], amm, p, at, pool);
    }
  }

  /** What is asked of an executed AMM call on the pool: it pays through the token program; where a vault is at
      stake a withdrawal pays within the reserves, where liquidity is, a deposit does not wrap the supply. A checked
      build always does both. */
  ghost predicate SafeCall(g: Setting, e: Executed) {
    && PaysThrough(e, g.token)
    && (g.profile.Wrapping? && e.item.call.preStates[0].account.data.PoolData? ==>
          SafeArguments(g, e.item.call.preStates[0].account.data.pool, InstructionOf(e)))
  }

  predicate SafeArguments(g: Setting, pool: PoolDefinition, instruction: AmmInstruction) {
    match instruction
    case RemoveLiquidity(amount, _, _) => g.which.Vault? ==>
      PaysWithin(pool.reserveA, pool.lpSupply, amount) && PaysWithin(pool.reserveB, pool.lpSupply, amount)
    case AddLiquidity(min, maxA, maxB) => g.which.Liquidity? && AddAmounts(Wrapping, pool, min, maxA, maxB).Ok? ==>
      pool.lpSupply + AddAmounts(Wrapping, pool, min, maxA, maxB).value.liquidity < U128_LIMIT
    case _ => true
  }

  /** At the accounts it owns in this sense, what an AMM call keeps is a margin that does not fall. */
  lemma OwnKept(g: Setting, s: seq<AccountWithMetadata>, instruction: AmmInstruction, before: Accounts, after: Accounts)
    requires AmmKept(g.profile, s, instruction, before, after)
    requires |s| >= 3 && s[0].id == g.pool && s[0].account == Lookup(before, g.pool) && IsOwn(g.which, s, g.id)
    requires g.which.Liquidity? ==> EmptyIfInactive(s[0].account.data)
    requires g.which.Liquidity? && instruction.NewPool? ==> s[0].account.data.PoolData? ==> !s[0].account.data.pool.active
    requires g.profile.Wrapping? && s[0].account.data.PoolData? ==> SafeArguments(g, s[0].account.data.pool, instruction)
    ensures Margin(g, after) >= Margin(g, before)
  {
    hide Lookup, Held, Declared, PaysWithin, AddAmounts, Fits, PoolOk;
  }

  /** An executed AMM call on the pool, with all it chains, does not lower the margin. */
  lemma PoolCallKeeps(ctx: Context, trace: seq<Executed>, k: nat, g: Setting)
    requires History(ctx, trace) && k < |trace| && ChildrenFollow(trace, k)
    requires Guarded(g, ctx.execute, ctx.publicPda) && OnPool(g, trace[k]) && SafeCall(g, trace[k])
    requires g.id !in Granted(ctx, trace[k].item) && Owned(g, World(ctx, trace, k))
    ensures k + 1 + |trace[k].output.chainedCalls| <= |trace|
    ensures var end := World(ctx, trace, k + 1 + |trace[k].output.chainedCalls|);
      Owned(g, end) && Margin(g, end) >= Margin(g, World(ctx, trace, k))
  {
    hide History, RunsAmm, RunsToken, Granted, AmmEffects, Holding, Lookup, World, PoolChanges,
         ChildrenFollow, AmmKept, SafeArguments, EmptyIfInactive, IsOwn, Exclusive, LpSupplyAt;
    BalancedHistory(ctx, trace);
    var e, n := trace[k], |trace[k].output.chainedCalls|;
    var s, instruction := e.item.call.preStates, InstructionOf(e);
    var out := AmmCallAt(ctx, trace, k, g.amm, g.profile, g.at);
    WrittenVaults(g.profile, g.at, s, instruction, out);
    AmmBlockSolvent(ctx, trace, k, g.amm, g.token, g.profile, g.at);
    OwnerIsKept(ctx, trace, k, k + 1, g.pool);
    OwnerIsKept(ctx, trace, k, k + 1 + n, g.id);
    PoolThroughBlock(ctx, trace, k, n, g.amm, g.token, g.profile, g.at);
    if g.which.Liquidity? {
      WrittenSupply(g.profile, g.at, s, instruction, out, g.id);
    }
    if IsOwn(g.which, s, g.id) {
      if instruction.NewPool? {
        NewShape(g.profile, g.at, s, instruction.amountA, instruction.amountB, instruction.ammProgram, out);
        DefaultHasNoPool(s[0].account);
      }
      OwnKept(g, s, instruction, World(ctx, trace, k), World(ctx, trace, k + 1 + n));
    } else {
      HoldingThroughBlock(ctx, trace, k, n, g);
      NotOwnNotCounted(g.which, s, out.posts[0].account.data, g.id);
    }
  }

  lemma DefaultHasNoPool(a: Account)
    ensures a == DEFAULT_ACCOUNT ==> !a.data.PoolData?
  {
  }

  lemma NotOwnNotCounted(which: Stake, s: seq<AccountWithMetadata>, data: Data, id: AccountId)
    requires |s| >= 3 && !IsOwn(which, s, id)
    requires data.PoolData? && data.pool.vaultA == s[1].id && data.pool.vaultB == s[2].id
    ensures which.Vault? ==> ReserveAt(data, id) == 0
  {
  }

  // --------------------------------------------------------------- whole transactions

  /** Every executed AMM call on the pool is safe. */
  ghost predicate SafeOnPool(g: Setting, trace: seq<Executed>) {
    forall k {:trigger At(trace, k)} :: At(trace, k) && OnPool(g, trace[k]) ==> SafeCall(g, trace[k])
  }

  /** An AMM call that chains only to the token program is all of its subtree. */
  lemma SubtreeLength(ctx: Context, item: WorkItem, p: Progress, token: ProgramId)
    requires RunsToken(ctx.execute, token) && EvalCall(ctx, item, p).Ok?
    requires ChainsOnly(EvalCall(ctx, item, p).value.trace[|p.trace|], token)
    ensures var trace := EvalCall(ctx, item, p).value.trace;
      |trace| == |p.trace| + 1 + |trace[|p.trace|].output.chainedCalls|
  {
    hide Execute, RunsToken, Write;
    var done := Execute(ctx, item, p.diff).value;
    ExecutedIsBalanced(ctx, item, p.diff);
    var next := Progress(Write(p.diff, done), p.trace + [done]);
    var trace := EvalAll(ctx, Children(done), next).value.trace;
    assert next.trace <= trace && trace[|p.trace|] == next.trace[|p.trace|] == done;
    TokenIsLeaf(ctx, token);
    LeavesRunInOrder(ctx, Children(done), next, token);
  }

  /** The world at the start and at the end of a subtree. */
  lemma SubtreeWorlds(ctx: Context, item: WorkItem, p: Progress)
    requires History(ctx, p.trace) && p.diff == Replay(map[], p.trace)
    requires Rooted(ctx, p.trace, item) && EvalCall(ctx, item, p).Ok?
    ensures var q := EvalCall(ctx, item, p).value;
      && History(ctx, q.trace) && q.diff == Replay(map[], q.trace) && |p.trace| < |q.trace|
      && World(ctx, q.trace, |p.trace|) == ctx.accounts + p.diff && World(ctx, q.trace, |q.trace|) == ctx.accounts + q.diff
      && Execute(ctx, item, p.diff) == Ok(q.trace[|p.trace|])
  {
    hide Execute, Replay;
    EvalCallHistory(ctx, item, p);
    var q, done := EvalCall(ctx, item, p).value, Execute(ctx, item, p.diff).value;
    ExecutedIsBalanced(ctx, item, p.diff);
    assert p.trace + [done] <= q.trace;
    assert q.trace[..|p.trace|] == p.trace && q.trace[..|q.trace|] == q.trace;
    assert (p.trace + [done])[|p.trace|] == done;
    OverlayIsReplay(ctx.accounts, p.trace);
    OverlayIsReplay(ctx.accounts, q.trace);
  }

  /** No call, with all it chains, lowers the margin at an account that was not granted to it. */
  lemma {:induction false} MarginInSubtree(ctx: Context, item: WorkItem, p: Progress, g: Setting)
    requires Guarded(g, ctx.execute, ctx.publicPda)
    requires History(ctx, p.trace) && p.diff == Replay(map[], p.trace) && Rooted(ctx, p.trace, item)
    requires EvalCall(ctx, item, p).Ok? && SafeOnPool(g, EvalCall(ctx, item, p).value.trace)
    requires g.id !in Granted(ctx, item) && Owned(g, ctx.accounts + p.diff)
    ensures var q := EvalCall(ctx, item, p).value;
      Owned(g, ctx.accounts + q.diff) && Margin(g, ctx.accounts + q.diff) >= Margin(g, ctx.accounts + p.diff)
    decreases Remaining(p), 0
  {
    hide Execute, Replay, Guarded, Granted, Owned, Margin, SafeCall, World, Lawful;
    SubtreeWorlds(ctx, item, p);
    var q, k := EvalCall(ctx, item, p).value, |p.trace|;
    var e := q.trace[k];
    ExecutedIsBalanced(ctx, item, p.diff);
    assert At(q.trace, k);
    if OnPool(g, e) {
      PoolSubtree(ctx, item, p, g);
    } else {
      ExecuteOutput(ctx, item, p.diff);
      AcceptedCallIsLawful(ctx, item, p.diff);
      OtherCallKeeps(ctx, ctx.accounts + p.diff, e, g);
      RecordOverlay(ctx.accounts, p.diff, Ids(e.output.preStates), PostAccounts(e.posts));
      var next := Progress(Write(p.diff, e), p.trace + [e]);
      HistoryExtends(ctx, p, item, e);
      forall child | child in Children(e)
        ensures Rooted(ctx, next.trace, child) && g.id !in Granted(ctx, child)
      {
        var j :| 0 <= j < |Children(e)| && Children(e)[j] == child;
        ChildNotGranted(ctx, ctx.accounts + p.diff, e, g, j);
      }
      MarginInGroup(ctx, Children(e), next, g);
    }
  }

  lemma PoolSubtree(ctx: Context, item: WorkItem, p: Progress, g: Setting)
    requires Guarded(g, ctx.execute, ctx.publicPda)
    requires History(ctx, p.trace) && p.diff == Replay(map[], p.trace) && Rooted(ctx, p.trace, item)
    requires EvalCall(ctx, item, p).Ok? && Owned(g, ctx.accounts + p.diff)
    requires var e := EvalCall(ctx, item, p).value.trace[|p.trace|];
      OnPool(g, e) && SafeCall(g, e) && g.id !in Granted(ctx, e.item)
    ensures var q := EvalCall(ctx, item, p).value;
      Owned(g, ctx.accounts + q.diff) && Margin(g, ctx.accounts + q.diff) >= Margin(g, ctx.accounts + p.diff)
  {
    hide Execute, EvalCall, Replay, RunsAmm, RunsToken, Granted, Owned, Margin, History,
         AmmEffects, WritesOnlyPool, Lookup, World, ChildrenFollow, Exclusive, SafeArguments;
    var q, k := EvalCall(ctx, item, p).value, |p.trace|;
    SubtreeWorlds(ctx, item, p);
    BalancedHistory(ctx, q.trace);
    var out := AmmCallAt(ctx, q.trace, k, g.amm, g.profile, g.at);
    AmmCallsOneProgram(g.profile, g.at, q.trace[k].item.call.preStates, InstructionOf(q.trace[k]), out);
    TokenIsLeaf(ctx, g.token);
    FollowInSubtree(ctx, item, p, k, g.token);
    SubtreeLength(ctx, item, p, g.token);
    PoolCallKeeps(ctx, q.trace, k, g);
  }

  lemma {:induction false} MarginInGroup(ctx: Context, items: seq<WorkItem>, p: Progress, g: Setting)
    requires Guarded(g, ctx.execute, ctx.publicPda)
    requires History(ctx, p.trace) && p.diff == Replay(map[], p.trace)
    requires forall item :: item in items ==> Rooted(ctx, p.trace, item) && g.id !in Granted(ctx, item)
    requires EvalAll(ctx, items, p).Ok? && SafeOnPool(g, EvalAll(ctx, items, p).value.trace)
    requires Owned(g, ctx.accounts + p.diff)
    ensures var q := EvalAll(ctx, items, p).value;
      Owned(g, ctx.accounts + q.diff) && Margin(g, ctx.accounts + q.diff) >= Margin(g, ctx.accounts + p.diff)
    decreases Remaining(p), |items|
  {
    hide Execute, Replay, Guarded, Granted, Owned, Margin, SafeCall, OnPool;
    if items != [] {
      var q, all := EvalCall(ctx, items[0], p).value, EvalAll(ctx, items, p).value.trace;
      SubtreeWorlds(ctx, items[0], p);
      assert q.trace <= all;
      forall k {:trigger At(q.trace, k)} | At(q.trace, k) && OnPool(g, q.trace[k])
        ensures SafeCall(g, q.trace[k])
      {
        assert At(all, k) && all[k] == q.trace[k];
      }
      MarginInSubtree(ctx, items[0], p, g);
      forall item | item in items[1..]
        ensures Rooted(ctx, q.trace, item) && g.id !in Granted(ctx, item)
      {
        assert Rooted(ctx, p.trace, item);
        assert p.trace <= q.trace;
      }
      MarginInGroup(ctx, items[1..], q, g);
    }
  }

  /** A public transaction not signed by the account does not lower the margin. */
  lemma TransactionKeepsMargin(ctx: Context, g: Setting)
    requires Guarded(g, ctx.execute, ctx.publicPda) && g.id !in ctx.signers
    requires RunCalls(ctx).Ok? && SafeOnPool(g, RunCalls(ctx).value.trace)
    requires Owned(g, ctx.accounts)
    ensures var after := ctx.accounts + RunCalls(ctx).value.diff;
      Owned(g, after) && Margin(g, after) >= Margin(g, ctx.accounts)
  {
    hide EvalCall, Guarded, Owned, Margin, ModifiedDefaultsClaimed, SafeOnPool;
    var start := Progress(map[], []);
    assert ctx.accounts + start.diff == ctx.accounts;
    assert Granted(ctx, RootItem(ctx)) == ctx.signers;
    MarginInSubtree(ctx, RootItem(ctx), start, g);
  }

  // -------------------------------------------------------------------- whole runs

  ghost predicate StepSafe(g: Setting, host: Host, st: State, step: Step) {
    step.tx.Public? ==>
      var ctx := PublicContext(host, st.accounts, st.programs, step.tx.public, step.blockId, step.timestamp);
      RunCalls(ctx).Ok? ==> SafeOnPool(g, RunCalls(ctx).value.trace)
  }

  /** A run of public and deployment transactions not signed by the account, each safe where it comes. */
  ghost predicate SafeRun(g: Setting, host: Host, st: State, steps: seq<Step>) {
    && NoPrivate(steps)
    && (forall i :: 0 <= i < |steps| ==> g.id !in Signers(host, steps[i].tx))
    && (forall i :: 0 <= i < |steps| ==> StepSafe(g, host, Run(host, st, steps[..i]), steps[i]))
  }

  lemma BumpKeepsMargin(g: Setting, accounts: Accounts, signers: seq<AccountId>)
    requires BumpNonces(accounts, signers).Some? && Owned(g, accounts)
    ensures var after := BumpNonces(accounts, signers).value; Owned(g, after) && Margin(g, after) == Margin(g, accounts)
  {
    hide BumpNonces;
    BumpEffect(accounts, signers, g.pool);
    BumpEffect(accounts, signers, g.id);
  }

  lemma AfterKeepsMargin(g: Setting, host: Host, st: State, step: Step)
    requires !step.tx.PrivacyPreserving? && g.id !in Signers(host, step.tx)
    requires Guarded(g, host.execute, host.publicPda) && StepSafe(g, host, st, step) && Owned(g, st.accounts)
    ensures var after := After(host, st, step).accounts; Owned(g, after) && Margin(g, after) >= Margin(g, st.accounts)
  {
    hide FromPublic, RunCalls, Replay, Apply, BumpNonces, Owned, Margin, Guarded, SafeOnPool;
    if Accept(host, st, step).Some? {
      AcceptedAccounts(host, st, step);
      var diff := ComputeStateDiff(host, st, step.tx, step.blockId, step.timestamp).value;
      if step.tx.Public? {
        PublicHistory(host, st, step.tx.public, step.blockId, step.timestamp);
        var ctx := PublicContext(host, st.accounts, st.programs, step.tx.public, step.blockId, step.timestamp);
        TransactionKeepsMargin(ctx, g);
      }
      BumpKeepsMargin(g, st.accounts + diff.publicDiff, diff.signers);
    }
  }

  /** Over any safe run, with all other programs arbitrary, the margin never falls. */
  lemma {:induction false} MarginNeverFalls(g: Setting, host: Host, st: State, steps: seq<Step>)
    requires Guarded(g, host.execute, host.publicPda) && SafeRun(g, host, st, steps) && Owned(g, st.accounts)
    ensures var after := Run(host, st, steps).accounts; Owned(g, after) && Margin(g, after) >= Margin(g, st.accounts)
  {
    hide After, StepSafe, Guarded, Owned, Margin, Signers;
    if steps != [] {
      var init, last := steps[..|steps| - 1], steps[|steps| - 1];
      forall i | 0 <= i < |init|
        ensures StepSafe(g, host, Run(host, st, init[..i]), init[i])
      {
        assert init[..i] == steps[..i];
      }
      MarginNeverFalls(g, host, st, init);
      AfterKeepsMargin(g, host, Run(host, st, init), last);
    }
  }

  /** Over any run of public and deployment transactions that the vault does not sign, with all other programs
      arbitrary, what a vault holds beyond what its pool counts never falls, as long as the AMM calls on that
      pool pay through the token program and withdraw within the reserves. */
  lemma VaultsNeverFallBehind(g: Setting, host: Host, st: State, steps: seq<Step>)
    requires g.which.Vault? && Guarded(g, host.execute, host.publicPda)
    requires SafeRun(g, host, st, steps) && Owned(g, st.accounts)
    ensures var after := Run(host, st, steps).accounts;
      Owned(g, after) && Surplus(after, g.pool, g.id) >= Surplus(st.accounts, g.pool, g.id)
  {
    hide Run, Guarded, SafeRun, Owned, Margin, Surplus;
    MarginNeverFalls(g, host, st, steps);
    MarginIsSurplus(g, st.accounts);
    MarginIsSurplus(g, Run(host, st, steps).accounts);
  }

  /** Over any such run liquidity tokens beyond those the pool counts never become more, as long as the AMM calls
      on that pool pay through the token program and deposits do not wrap its supply. Holders may burn, so they may
      become fewer. */
  lemma LiquidityStaysCounted(g: Setting, host: Host, st: State, steps: seq<Step>)
    requires g.which.Liquidity? && Guarded(g, host.execute, host.publicPda)
    requires SafeRun(g, host, st, steps) && Owned(g, st.accounts)
    ensures var after := Run(host, st, steps).accounts;
      Owned(g, after) && SurplusLp(after, g.pool, g.id) <= SurplusLp(st.accounts, g.pool, g.id)
  {
    hide Run, Guarded, SafeRun, Owned, Margin, SurplusLp;
    MarginNeverFalls(g, host, st, steps);
    MarginIsSurplus(g, st.accounts);
    MarginIsSurplus(g, Run(host, st, steps).accounts);
  }
}
