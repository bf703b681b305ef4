/** Every pool the AMM program owns satisfies the pool invariant in every state reached by public
    transactions, with all other programs arbitrary. */
module AmmPools {
  import opened Core
  import opened Sums
  import opened Execution
  import opened Calls
  import opened CallTrace
  import opened Authority
  import opened Ledger
  import opened LedgerRuns
  import opened Fence
  import opened TokenSupply
  import opened Amm
  import opened AmmMath

  /** The program installed as `amm` is the AMM program, built with profile `p`. */
  ghost predicate RunsAmm(
    execute: (ProgramId, Option<ProgramId>, seq<AccountWithMetadata>, Instruction) -> Option<ProgramOutput>,
    amm: ProgramId, p: Profile, at: Addresses)
  {
    forall caller, pres, instruction {:trigger execute(amm, caller, pres, instruction)} ::
      execute(amm, caller, pres, instruction) == AmmProgram(p, at, amm, caller, pres, instruction)
  }

  /** `inv` holds of every account the AMM owns. */
  ghost predicate HoldsOfPools(amm: ProgramId, inv: (AccountId, Data) -> bool, accounts: Accounts) {
    forall id {:trigger Lookup(accounts, id)} :: Lookup(accounts, id).owner == amm ==> inv(id, Lookup(accounts, id).data)
  }

  predicate SoundData(id: AccountId, data: Data) {
    data.PoolData? && PoolOk(data.pool)
  }

  /** Everything the AMM owns is a sound pool. */
  ghost predicate SoundPools(amm: ProgramId, accounts: Accounts) {
    HoldsOfPools(amm, SoundData, accounts)
  }

  // ------------------------------------------------------- one instruction

  /** How an instruction takes the pool account's data to the pool it writes. */
  ghost predicate PoolChanges(p: Profile, instruction: AmmInstruction, before: Data, after: PoolDefinition) {
    if before.PoolData? then
      && PoolStep(p, before.pool, instruction).Ok?
      && SameNumbers(PoolStep(p, before.pool, instruction).value, after)
    else
      && instruction.NewPool?
      && after.active && after.reserveA == instruction.amountA && after.reserveB == instruction.amountB
      && InitialLiquidity(p, instruction.amountA, instruction.amountB) == Ok(after.lpSupply)
  }

  predicate SameNumbers(x: PoolDefinition, y: PoolDefinition) {
    x.lpSupply == y.lpSupply && x.reserveA == y.reserveA && x.reserveB == y.reserveB && x.active == y.active
  }

  /** Every instruction writes only the pool account; all the others it leaves to the calls it chains. */
  ghost predicate WritesOnlyPool(p: Profile, pres: seq<AccountWithMetadata>,
                                 instruction: AmmInstruction, out: AmmOutput) {
    && |pres| > 0 && |out.posts| == |pres|
    && (forall i :: 1 <= i < |pres| ==> out.posts[i] == Unclaimed(pres[i].account))
    && out.posts[0].account.data.PoolData?
    && out.posts[0].account == pres[0].account.(data := out.posts[0].account.data)
    && PoolChanges(p, instruction, pres[0].account.data, out.posts[0].account.data.pool)
    && (pres[0].account.data.PoolData? || pres[0].account == DEFAULT_ACCOUNT)
    && (instruction.NewPool? ==> instruction.amountA > 0 && instruction.amountB > 0)
  }

  lemma SwapWritesOnlyPool(p: Profile, at: Addresses, s: seq<AccountWithMetadata>,
                           instruction: AmmInstruction, out: AmmOutput)
    requires instruction.SwapExactInput? || instruction.SwapExactOutput?
    requires AmmEffects(p, at, s, instruction) == Ok(out)
    ensures WritesOnlyPool(p, s, instruction, out)
  {
    hide SwapEffect, PoolSwap;
    match instruction
    case SwapExactInput(amount, min, tokenIn) =>
      SwapEffectPosts(p, at, s[0], s[1], s[2], s[3], s[4], true, amount, min, tokenIn, out);
    case SwapExactOutput(amount, max, tokenIn) =>
      SwapEffectPosts(p, at, s[0], s[1], s[2], s[3], s[4], false, amount, max, tokenIn, out);
  }

  /** A swap returns every account as it was, except that the pool's numbers are stepped. */
  lemma SwapEffectPosts(p: Profile, at: Addresses, pool: AccountWithMetadata, vaultA: AccountWithMetadata,
                        vaultB: AccountWithMetadata, userA: AccountWithMetadata, userB: AccountWithMetadata,
                        exactInput: bool, amount: u128, limit: u128, tokenIn: AccountId, out: AmmOutput)
    requires SwapEffect(p, at, pool, vaultA, vaultB, userA, userB, exactInput, amount, limit, tokenIn) == Ok(out)
    ensures pool.account.data.PoolData? && pool.account.data.pool.active
    ensures var r := PoolSwap(p, pool.account.data.pool, tokenIn == pool.account.data.pool.tokenA,
                            exactInput, amount, limit);
      r.Ok? && out.posts == SwapPosts(pool, r.value, vaultA, vaultB, userA, userB)
  {
    hide SwapAmounts, PoolAfterSwap, SwapCalls, ValidateSwapSetup, SwapPosts;
    SwapSetupMeans(pool, vaultA, vaultB);
  }

  /** A validated setup is the pool account's own active pool, with fungible vaults covering its reserves. */
  lemma SwapSetupMeans(pool: AccountWithMetadata, vaultA: AccountWithMetadata, vaultB: AccountWithMetadata)
    requires ValidateSwapSetup(pool, vaultA, vaultB).Ok?
    ensures pool.account.data.PoolData? && ValidateSwapSetup(pool, vaultA, vaultB).value == pool.account.data.pool
    ensures pool.account.data.pool.active
    ensures vaultA.id == pool.account.data.pool.vaultA && vaultB.id == pool.account.data.pool.vaultB
    ensures FungibleBalance(vaultA.account.data).Ok?
        && pool.account.data.pool.reserveA <= FungibleBalance(vaultA.account.data).value
    ensures FungibleBalance(vaultB.account.data).Ok?
        && pool.account.data.pool.reserveB <= FungibleBalance(vaultB.account.data).value
  {
  }

  lemma AddWritesOnlyPool(p: Profile, at: Addresses, s: seq<AccountWithMetadata>,
                          instruction: AmmInstruction, out: AmmOutput)
    requires instruction.AddLiquidity?
    requires AmmEffects(p, at, s, instruction) == Ok(out)
    ensures WritesOnlyPool(p, s, instruction, out)
  {
    hide AddAmounts, PoolAfterAdd;
  }

  lemma RemoveWritesOnlyPool(p: Profile, at: Addresses, s: seq<AccountWithMetadata>,
                             instruction: AmmInstruction, out: AmmOutput)
    requires instruction.RemoveLiquidity?
    requires AmmEffects(p, at, s, instruction) == Ok(out)
    ensures WritesOnlyPool(p, s, instruction, out)
  {
    hide RemoveAmounts, PoolAfterRemove;
  }

  lemma NewWritesOnlyPool(p: Profile, at: Addresses, s: seq<AccountWithMetadata>,
                          instruction: AmmInstruction, out: AmmOutput)
    requires instruction.NewPool?
    requires AmmEffects(p, at, s, instruction) == Ok(out)
    ensures WritesOnlyPool(p, s, instruction, out)
  {
    hide InitialLiquidity;
  }

  lemma InstructionWritesOnlyPool(p: Profile, at: Addresses, s: seq<AccountWithMetadata>,
                                  instruction: AmmInstruction, out: AmmOutput)
    requires AmmEffects(p, at, s, instruction) == Ok(out)
    ensures WritesOnlyPool(p, s, instruction, out)
  {
    hide AmmEffects, WritesOnlyPool;
    match instruction
    case NewPool(_, _, _) => NewWritesOnlyPool(p, at, s, instruction, out);
    case AddLiquidity(_, _, _) => AddWritesOnlyPool(p, at, s, instruction, out);
    case RemoveLiquidity(_, _, _) => RemoveWritesOnlyPool(p, at, s, instruction, out);
    case SwapExactInput(_, _, _) => SwapWritesOnlyPool(p, at, s, instruction, out);
    case SwapExactOutput(_, _, _) => SwapWritesOnlyPool(p, at, s, instruction, out);
  }

  /** The condition for a wrapping build, on the pool account a call is given. */
  predicate CallFits(p: Profile, before: Data, instruction: AmmInstruction) {
    if before.PoolData? then Fits(p, before.pool, instruction)
    else instruction.NewPool? ==> (instruction.amountA * instruction.amountB) % U128_LIMIT != 0
  }

  lemma ChangeKeepsPool(p: Profile, instruction: AmmInstruction, before: Data, after: PoolDefinition)
    requires PoolChanges(p, instruction, before, after)
    requires before.PoolData? ==> PoolOk(before.pool)
    requires instruction.NewPool? ==> instruction.amountA > 0 && instruction.amountB > 0
    requires p.Checked? || CallFits(p, before, instruction)
    ensures PoolOk(after)
  {
    hide PoolStep, Fits, InitialLiquidity;
    if before.PoolData? {
      if p.Checked? {
        CheckedStepFits(before.pool, instruction);
      }
      StepKeepsPool(p, before.pool, instruction);
    } else {
      NewPoolOk(p, after);
    }
  }

  /** An inactive pool refuses deposits although the program never reads its `active` flag there. */
  lemma InactivePoolRefusesDeposits(p: Profile, at: Addresses, s: seq<AccountWithMetadata>,
                                    min: u128, maxA: u128, maxB: u128)
    requires |s| == 7 && s[0].account.data.PoolData?
    requires PoolOk(s[0].account.data.pool) && !s[0].account.data.pool.active
    ensures AmmEffects(p, at, s, AddLiquidity(min, maxA, maxB)).Err?
  {
    hide AddAmounts, PoolAfterAdd;
  }

  // ------------------------------------------------------------- every call

  /** An AMM call keeps `inv` of the pool account it is given. */
  ghost predicate CallKeeps(inv: (AccountId, Data) -> bool, e: Executed) {
    && |e.output.preStates| > 0 && |e.output.postStates| > 0
    && var pool := e.output.preStates[0];
       pool.account == DEFAULT_ACCOUNT || inv(pool.id, pool.account.data) ==>
         inv(pool.id, e.output.postStates[0].account.data)
  }

  /** A call of any program keeps `inv` of every pool, if it does so as an AMM call. */
  lemma CallKeepsPools(ctx: Context, world: Accounts, e: Executed, amm: ProgramId,
                       p: Profile, at: Addresses, inv: (AccountId, Data) -> bool)
    requires Lawful(ctx, world, e) && amm != DEFAULT_PROGRAM_ID
    requires HoldsOfPools(amm, inv, world)
    requires e.item.call.programId == amm ==>
      && e.item.call.instruction.AmmCall?
      && AmmEffects(p, at, e.output.preStates, e.item.call.instruction.amm).Ok?
      && AmmEffects(p, at, e.output.preStates, e.item.call.instruction.amm).value.posts == e.output.postStates
      && CallKeeps(inv, e)
    ensures |e.output.preStates| == |e.posts| && HoldsOfPools(amm, inv, Write(world, e))
  {
    hide AmmEffects, Granted, PoolChanges, Record, SumSeq;
    var pres := e.output.preStates;
    var ids, after := Ids(pres), PostAccounts(e.posts);
    forall id {:trigger Lookup(Write(world, e), id)} | Lookup(Write(world, e), id).owner == amm
      ensures inv(id, Lookup(Write(world, e), id).data)
    {
      assert Lookup(world, id).owner == amm ==> inv(id, Lookup(world, id).data);
      if id in ids {
        var i :| 0 <= i < |ids| && ids[i] == id;
        RecordAt(world, ids, after, i);
        LawfulSettles(ctx, world, e, i);
        if e.item.call.programId == amm {
          InstructionWritesOnlyPool(p, at, pres, e.item.call.instruction.amm, AmmEffects(p, at, pres,
              e.item.call.instruction.amm).value);
        } else {
          assert Permitted(ctx, e.item.call.programId, pres[i], e.output.postStates[i].claim, e.posts[i].account);
        }
      } else {
        RecordElsewhere(world, ids, after, id);
      }
    }
  }

  // ------------------------------------------------------------ whole chains

  lemma AmmOutputOf(ctx: Context, trace: seq<Executed>, k: nat, amm: ProgramId, p: Profile, at: Addresses)
    requires History(ctx, trace) && k < |trace|
    requires RunsAmm(ctx.execute, amm, p, at)
    requires trace[k].item.call.programId == amm
    ensures trace[k].item.call.instruction.AmmCall?
    ensures var r := AmmEffects(p, at, trace[k].output.preStates, trace[k].item.call.instruction.amm);
      && r.Ok? && r.value.posts == trace[k].output.postStates && r.value.calls == trace[k].output.chainedCalls
      && |trace[k].output.preStates| > 0
  {
    hide Execute, Replay, AmmEffects, PoolChanges;
    CallOutput(ctx, trace, k);
    var pres, instruction := trace[k].output.preStates, trace[k].item.call.instruction.amm;
    InstructionWritesOnlyPool(p, at, pres, instruction, AmmEffects(p, at, pres, instruction).value);
  }

  /** Every executed AMM call keeps `inv`. */
  ghost predicate ChainKeeps(inv: (AccountId, Data) -> bool, amm: ProgramId, trace: seq<Executed>) {
    forall k {:trigger At(trace, k)} :: At(trace, k) && trace[k].item.call.programId == amm ==> CallKeeps(inv, trace[k])
  }

  lemma {:induction false} ChainKeepsPools(ctx: Context, trace: seq<Executed>, n: nat, amm: ProgramId,
                                           p: Profile, at: Addresses, inv: (AccountId, Data) -> bool)
    requires History(ctx, trace) && n <= |trace|
    requires RunsAmm(ctx.execute, amm, p, at) && amm != DEFAULT_PROGRAM_ID
    requires ChainKeeps(inv, amm, trace)
    requires HoldsOfPools(amm, inv, ctx.accounts)
    ensures HoldsOfPools(amm, inv, World(ctx, trace, n))
    decreases n
  {
    hide Execute, Replay, HoldsOfPools, Lawful, AmmEffects, CallKeeps;
    EmptyReplay(ctx, trace);
    if n > 0 {
      var k := n - 1;
      ChainKeepsPools(ctx, trace, k, amm, p, at, inv);
      CallEffect(ctx, trace, k);
      WorldStep(ctx, trace, k);
      assert At(trace, k);
      if trace[k].item.call.programId == amm {
        AmmOutputOf(ctx, trace, k, amm, p, at);
      }
      CallKeepsPools(ctx, World(ctx, trace, k), trace[k], amm, p, at, inv);
    }
  }

  // -------------------------------------------------------------- whole runs

  ghost predicate StepKeeps(inv: (AccountId, Data) -> bool, host: Host, st: State, step: Step, amm: ProgramId) {
    step.tx.Public? ==>
      var ctx := PublicContext(host, st.accounts, st.programs, step.tx.public, step.blockId, step.timestamp);
      RunCalls(ctx).Ok? ==> ChainKeeps(inv, amm, RunCalls(ctx).value.trace)
  }

  lemma BumpKeepsPools(amm: ProgramId, accounts: Accounts, signers: seq<AccountId>, inv: (AccountId, Data) -> bool)
    requires HoldsOfPools(amm, inv, accounts)
    requires BumpNonces(accounts, signers).Some?
    ensures HoldsOfPools(amm, inv, BumpNonces(accounts, signers).value)
  {
    hide BumpNonces;
    forall id {:trigger Lookup(BumpNonces(accounts, signers).value, id)}
      | Lookup(BumpNonces(accounts, signers).value, id).owner == amm
      ensures inv(id, Lookup(BumpNonces(accounts, signers).value, id).data)
    {
      BumpEffect(accounts, signers, id);
      assert Lookup(accounts, id).owner == amm;
    }
  }

  lemma AfterKeepsPools(host: Host, st: State, step: Step, amm: ProgramId,
                        p: Profile, at: Addresses, inv: (AccountId, Data) -> bool)
    requires !step.tx.PrivacyPreserving?
    requires RunsAmm(host.execute, amm, p, at) && amm != DEFAULT_PROGRAM_ID
    requires StepKeeps(inv, host, st, step, amm)
    requires HoldsOfPools(amm, inv, st.accounts)
    ensures HoldsOfPools(amm, inv, After(host, st, step).accounts)
  {
    hide FromPublic, RunCalls, Replay, Apply, BumpNonces, HoldsOfPools, ChainKeeps;
    if Accept(host, st, step).Some? {
      AcceptedAccounts(host, st, step);
      var diff := ComputeStateDiff(host, st, step.tx, step.blockId, step.timestamp).value;
      if step.tx.Public? {
        PublicHistory(host, st, step.tx.public, step.blockId, step.timestamp);
        var ctx := PublicContext(host, st.accounts, st.programs, step.tx.public, step.blockId, step.timestamp);
        ChainKeepsPools(ctx, RunCalls(ctx).value.trace, |RunCalls(ctx).value.trace|, amm, p, at, inv);
      }
      BumpKeepsPools(amm, st.accounts + diff.publicDiff, diff.signers, inv);
    }
  }

  /** What every executed AMM call keeps, every run keeps, with all other programs arbitrary. */
  lemma {:induction false} RunKeepsPools(host: Host, st: State, steps: seq<Step>, amm: ProgramId,
                                         p: Profile, at: Addresses, inv: (AccountId, Data) -> bool)
    requires NoPrivate(steps)
    requires RunsAmm(host.execute, amm, p, at) && amm != DEFAULT_PROGRAM_ID
    requires forall i :: 0 <= i < |steps| ==> StepKeeps(inv, host, Run(host, st, steps[..i]), steps[i], amm)
    requires HoldsOfPools(amm, inv, st.accounts)
    ensures HoldsOfPools(amm, inv, Run(host, st, steps).accounts)
  {
    hide After, HoldsOfPools, StepKeeps;
    if steps != [] {
      var init, last := steps[..|steps| - 1], steps[|steps| - 1];
      forall i | 0 <= i < |init|
        ensures StepKeeps(inv, host, Run(host, st, init[..i]), init[i], amm)
      {
        assert init[..i] == steps[..i];
      }
      RunKeepsPools(host, st, init, amm, p, at, inv);
      AfterKeepsPools(host, Run(host, st, init), last, amm, p, at, inv);
    }
  }

  // ------------------------------------------------------------- sound pools

  /** Every executed AMM call fits, or the build is checked. */
  ghost predicate ChainFits(p: Profile, amm: ProgramId, trace: seq<Executed>) {
    p.Checked? || forall k {:trigger At(trace, k)} :: At(trace, k) && trace[k].item.call.programId == amm ==>
      && trace[k].item.call.instruction.AmmCall? && |trace[k].output.preStates| > 0
      && CallFits(p, trace[k].output.preStates[0].account.data, trace[k].item.call.instruction.amm)
  }

  /** The transaction's AMM calls fit, or the build is checked. */
  ghost predicate StepFits(host: Host, st: State, step: Step, amm: ProgramId, p: Profile) {
    step.tx.Public? ==>
      var ctx := PublicContext(host, st.accounts, st.programs, step.tx.public, step.blockId, step.timestamp);
      RunCalls(ctx).Ok? ==> ChainFits(p, amm, RunCalls(ctx).value.trace)
  }

  /** An executed AMM call that fits keeps its pool sound. */
  lemma FittingCallKeeps(ctx: Context, trace: seq<Executed>, k: nat, amm: ProgramId, p: Profile, at: Addresses)
    requires History(ctx, trace) && k < |trace| && RunsAmm(ctx.execute, amm, p, at)
    requires trace[k].item.call.programId == amm && ChainFits(p, amm, trace)
    ensures CallKeeps(SoundData, trace[k])
  {
    hide Execute, History, RunsAmm, AmmEffects, PoolOk, CallFits, PoolChanges;
    AmmOutputOf(ctx, trace, k, amm, p, at);
    var pres, instruction := trace[k].output.preStates, trace[k].item.call.instruction.amm;
    var out := AmmEffects(p, at, pres, instruction).value;
    InstructionWritesOnlyPool(p, at, pres, instruction, out);
    assert At(trace, k);
    if pres[0].account == DEFAULT_ACCOUNT || SoundData(pres[0].id, pres[0].account.data) {
      ChangeKeepsPool(p, instruction, pres[0].account.data, out.posts[0].account.data.pool);
    }
  }

  lemma FittingStepKeeps(host: Host, st: State, step: Step, amm: ProgramId, p: Profile, at: Addresses)
    requires RunsAmm(host.execute, amm, p, at) && (p.Checked? || StepFits(host, st, step, amm, p))
    ensures StepKeeps(SoundData, host, st, step, amm)
  {
    hide RunCalls, RunsAmm, CallKeeps, ChainFits, History;
    if step.tx.Public? {
      var ctx := PublicContext(host, st.accounts, st.programs, step.tx.public, step.blockId, step.timestamp);
      if RunCalls(ctx).Ok? {
        AcceptedRunHasHistory(ctx);
        var trace := RunCalls(ctx).value.trace;
        CheckedFits(p, amm, trace);
        forall k {:trigger At(trace, k)} | At(trace, k) && trace[k].item.call.programId == amm
          ensures CallKeeps(SoundData, trace[k])
        {
          FittingCallKeeps(ctx, trace, k, amm, p, at);
        }
      }
    }
  }

  lemma CheckedFits(p: Profile, amm: ProgramId, trace: seq<Executed>)
    ensures p.Checked? ==> ChainFits(p, amm, trace)
  {
  }

  /** Over any run of public and deployment transactions every account the AMM owns is a pool that is
      active with positive reserves and supply, supply squared within their product, or inactive and
      empty: always in a checked build, and in a wrapping build as long as its calls fit. */
  lemma PoolsSoundOverRun(host: Host, st: State, steps: seq<Step>, amm: ProgramId, p: Profile, at: Addresses)
    requires NoPrivate(steps)
    requires RunsAmm(host.execute, amm, p, at) && amm != DEFAULT_PROGRAM_ID
    requires p.Checked? || forall i :: 0 <= i < |steps| ==> StepFits(host, Run(host, st, steps[..i]), steps[i], amm, p)
    requires SoundPools(amm, st.accounts)
    ensures SoundPools(amm, Run(host, st, steps).accounts)
  {
    hide Run, HoldsOfPools, StepFits, StepKeeps, RunsAmm;
    forall i | 0 <= i < |steps|
      ensures StepKeeps(SoundData, host, Run(host, st, steps[..i]), steps[i], amm)
    {
      FittingStepKeeps(host, Run(host, st, steps[..i]), steps[i], amm, p, at);
    }
    RunKeepsPools(host, st, steps, amm, p, at, SoundData);
  }

  /** Genesis holds no pools. */
  lemma GenesisPoolsSound(host: Host, sys: System, initial: seq<(AccountId, u128)>,
                          private: seq<(Commitment, Nullifier)>, timestamp: nat, amm: ProgramId)
    requires amm != DEFAULT_PROGRAM_ID && amm != sys.transferProgram && amm != sys.clockProgram
    ensures SoundPools(amm, Genesis(host, sys, initial, private, timestamp).accounts)
  {
    hide Record, ExtendIndex;
    GenesisOwners(host, sys, initial, private, timestamp, amm);
  }
}
