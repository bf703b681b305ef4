/** Every pool records the tokens its address, its vaults and its liquidity token were derived from, in every state
    reached by public transactions, with all other programs arbitrary. */
module AmmWiring {
  import opened Core
  import opened Sums
  import opened Calls
  import opened CallTrace
  import opened Ledger
  import opened LedgerRuns
  import opened Fence
  import opened TokenSupply
  import opened Amm
  import opened AmmAmounts
  import opened AmmRules
  import opened AmmPools

  /** Two different tokens, and the addresses `program` derives from them. */
  predicate WiredBy(at: Addresses, program: ProgramId, id: AccountId, pool: PoolDefinition) {
    && pool.tokenA != pool.tokenB && pool.fees == 0
    && id == at.publicPda(program, PairSeed(at, pool.tokenA, pool.tokenB))
    && pool.vaultA == at.publicPda(program, at.seedHash(id, pool.tokenA))
    && pool.vaultB == at.publicPda(program, at.seedHash(id, pool.tokenB))
    && pool.lpDefinition == at.publicPda(program, at.seedHash(id, AccountId(0)))
  }

  ghost predicate WiredData(at: Addresses, id: AccountId, data: Data) {
    data.PoolData? && exists program :: WiredBy(at, program, id, data.pool)
  }

  ghost function Wiring(at: Addresses): (AccountId, Data) -> bool {
    (id, data) => WiredData(at, id, data)
  }

  /** Everything the AMM owns is a wired pool. */
  ghost predicate WiredPools(amm: ProgramId, at: Addresses, accounts: Accounts) {
    forall id {:trigger Lookup(accounts, id)} :: Lookup(accounts, id).owner == amm ==>
      WiredData(at, id, Lookup(accounts, id).data)
  }

  predicate SameRecord(x: PoolDefinition, y: PoolDefinition) {
    && x.tokenA == y.tokenA && x.tokenB == y.tokenB && x.vaultA == y.vaultA && x.vaultB == y.vaultB
    && x.lpDefinition == y.lpDefinition && x.fees == y.fees
  }

  /** A new pool records the tokens of the two paying holdings and what derives from them; every other instruction
      keeps what is recorded. */
  lemma InstructionKeepsRecord(p: Profile, at: Addresses, s: seq<AccountWithMetadata>,
                               instruction: AmmInstruction, out: AmmOutput)
    requires AmmEffects(p, at, s, instruction) == Ok(out)
    ensures |s| > 0 && |out.posts| > 0 && out.posts[0].account.data.PoolData?
    ensures var after := out.posts[0].account.data.pool;
      if instruction.NewPool? then
        && WiredBy(at, instruction.ammProgram, s[0].id, after)
        && |s| == 7 && s[4].account.data.HoldingData? && s[5].account.data.HoldingData?
        && after.tokenA == s[4].account.data.holding.definitionId
        && after.tokenB == s[5].account.data.holding.definitionId
      else s[0].account.data.PoolData? && SameRecord(s[0].account.data.pool, after)
  {
    hide AmmEffects, IsSwap, IsDeposit, IsWithdrawal, IsInitial;
    match instruction
    case NewPool(a, b, amm) => NewEffectExactly(p, at, s, a, b, amm, out);
    case AddLiquidity(min, maxA, maxB) => AddEffectExactly(p, at, s, min, maxA, maxB, out);
    case RemoveLiquidity(amount, minA, minB) => RemoveEffectExactly(p, at, s, amount, minA, minB, out);
    case SwapExactInput(amount, min, tokenIn) => SwapEffectExactly(p, at, s, true, amount, min, tokenIn, out);
    case SwapExactOutput(amount, max, tokenIn) => SwapEffectExactly(p, at, s, false, amount, max, tokenIn, out);
  }

  lemma CallKeepsWiring(ctx: Context, trace: seq<Executed>, k: nat, amm: ProgramId, p: Profile, at: Addresses)
    requires History(ctx, trace) && k < |trace| && RunsAmm(ctx.execute, amm, p, at)
    requires trace[k].item.call.programId == amm
    ensures CallKeeps(Wiring(at), trace[k])
  {
    hide Execute, History, RunsAmm, AmmEffects;
    AmmOutputOf(ctx, trace, k, amm, p, at);
    var pres, instruction := trace[k].output.preStates, trace[k].item.call.instruction.amm;
    InstructionKeepsRecord(p, at, pres, instruction, AmmEffects(p, at, pres, instruction).value);
    RecordKeepsWiring(at, pres[0].id, pres[0].account, trace[k].output.postStates[0].account.data);
  }

  lemma RecordKeepsWiring(at: Addresses, id: AccountId, was: Account, now: Data)
    requires now.PoolData?
    requires || (exists program :: WiredBy(at, program, id, now.pool))
             || (was.data.PoolData? && SameRecord(was.data.pool, now.pool))
    ensures was == DEFAULT_ACCOUNT || WiredData(at, id, was.data) ==> WiredData(at, id, now)
  {
    if was.data.PoolData? && SameRecord(was.data.pool, now.pool) && WiredData(at, id, was.data) {
      var program :| WiredBy(at, program, id, was.data.pool);
      assert WiredBy(at, program, id, now.pool);
    }
  }

  lemma StepKeepsWiring(host: Host, st: State, step: Step, amm: ProgramId, p: Profile, at: Addresses)
    requires RunsAmm(host.execute, amm, p, at)
    ensures StepKeeps(Wiring(at), host, st, step, amm)
  {
    hide RunCalls, RunsAmm, CallKeeps, History;
    if step.tx.Public? {
      var ctx := PublicContext(host, st.accounts, st.programs, step.tx.public, step.blockId, step.timestamp);
      if RunCalls(ctx).Ok? {
        AcceptedRunHasHistory(ctx);
        var trace := RunCalls(ctx).value.trace;
        forall k {:trigger At(trace, k)} | At(trace, k) && trace[k].item.call.programId == amm
          ensures CallKeeps(Wiring(at), trace[k])
        {
          CallKeepsWiring(ctx, trace, k, amm, p, at);
        }
      }
    }
  }

  lemma WiredIsInvariant(amm: ProgramId, at: Addresses, accounts: Accounts)
    ensures WiredPools(amm, at, accounts) <==> HoldsOfPools(amm, Wiring(at), accounts)
  {
    hide WiredData;
  }

  /** Over any run of public and deployment transactions, in either build, every pool stays wired: its address and
      those of its vaults and liquidity token are the ones derived from the tokens it records. */
  lemma PoolsWiredOverRun(host: Host, st: State, steps: seq<Step>, amm: ProgramId, p: Profile, at: Addresses)
    requires NoPrivate(steps)
    requires RunsAmm(host.execute, amm, p, at) && amm != DEFAULT_PROGRAM_ID
    requires WiredPools(amm, at, st.accounts)
    ensures WiredPools(amm, at, Run(host, st, steps).accounts)
  {
    hide Run, HoldsOfPools, StepKeeps, RunsAmm, WiredPools;
    forall i | 0 <= i < |steps|
      ensures StepKeeps(Wiring(at), host, Run(host, st, steps[..i]), steps[i], amm)
    {
      StepKeepsWiring(host, Run(host, st, steps[..i]), steps[i], amm, p, at);
    }
    WiredIsInvariant(amm, at, st.accounts);
    RunKeepsPools(host, st, steps, amm, p, at, Wiring(at));
    WiredIsInvariant(amm, at, Run(host, st, steps).accounts);
  }

  lemma GenesisPoolsWired(host: Host, sys: System, initial: seq<(AccountId, u128)>,
                          private: seq<(Commitment, Nullifier)>, timestamp: nat, amm: ProgramId, at: Addresses)
    requires amm != DEFAULT_PROGRAM_ID && amm != sys.transferProgram && amm != sys.clockProgram
    ensures WiredPools(amm, at, Genesis(host, sys, initial, private, timestamp).accounts)
  {
    hide Record, ExtendIndex;
    GenesisOwners(host, sys, initial, private, timestamp, amm);
  }
}
