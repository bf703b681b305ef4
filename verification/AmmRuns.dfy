/** Pools stay sound over whole runs of transactions whose AMM calls pay through the token program. */
module AmmRuns {
  import opened Core
  import opened Calls
  import opened CallTrace
  import opened Ledger
  import opened LedgerRuns
  import opened TokenSupply
  import opened Amm
  import opened AmmMath
  import opened AmmPools
  import opened AmmCalls
  import opened AmmSolvency

  // --------------------------------------------------- sound pools through the token program

  /** Every executed AMM call pays through the token program; creations and withdrawals fit. */
  ghost predicate PaidInToken(p: Profile, amm: ProgramId, token: ProgramId, trace: seq<Executed>) {
    forall k {:trigger At(trace, k)} :: At(trace, k) && trace[k].item.call.programId == amm ==>
      && PaysThrough(trace[k], token)
      && (InstructionOf(trace[k]).NewPool? || InstructionOf(trace[k]).RemoveLiquidity? ==>
            CallFits(p, trace[k].item.call.preStates[0].account.data, InstructionOf(trace[k])))
  }

  /** Swaps and deposits then fit by themselves. */
  lemma PaidInTokenFits(ctx: Context, amm: ProgramId, token: ProgramId, p: Profile, at: Addresses)
    requires RunCalls(ctx).Ok? && RunsAmm(ctx.execute, amm, p, at) && RunsToken(ctx.execute, token)
    requires PaidInToken(p, amm, token, RunCalls(ctx).value.trace)
    ensures ChainFits(p, amm, RunCalls(ctx).value.trace)
  {
    hide RunCalls, RunsAmm, RunsToken, History, World, ChildrenFollow, Surplus, SurplusLp,
         AmmEffects, WritesOnlyPool, Fits, Lookup, AddAmounts, RemoveKept, NewKept;
    var trace := RunCalls(ctx).value.trace;
    forall k {:trigger At(trace, k)} | At(trace, k) && trace[k].item.call.programId == amm
      ensures trace[k].item.call.instruction.AmmCall? && |trace[k].output.preStates| > 0
      ensures CallFits(p, trace[k].output.preStates[0].account.data, trace[k].item.call.instruction.amm)
    {
      AmmCallSolvent(ctx, k, amm, token, p, at);
      BalancedHistory(ctx, trace);
      var out := AmmCallAt(ctx, trace, k, amm, p, at);
    }
  }

  ghost predicate StepPaidInToken(host: Host, st: State, step: Step, amm: ProgramId, token: ProgramId, p: Profile) {
    step.tx.Public? ==>
      var ctx := PublicContext(host, st.accounts, st.programs, step.tx.public, step.blockId, step.timestamp);
      RunCalls(ctx).Ok? ==> PaidInToken(p, amm, token, RunCalls(ctx).value.trace)
  }

  /** Over any run whose AMM calls pay through the token program, in a wrapping build too, every pool stays
      sound as long as creations and withdrawals fit: swaps and deposits need no assumption. */
  lemma PoolsSoundThroughToken(host: Host, st: State, steps: seq<Step>, amm: ProgramId,
                               token: ProgramId, p: Profile, at: Addresses)
    requires NoPrivate(steps)
    requires RunsAmm(host.execute, amm, p, at) && RunsToken(host.execute, token) && amm != DEFAULT_PROGRAM_ID
    requires forall i :: 0 <= i < |steps| ==> StepPaidInToken(host, Run(host, st, steps[..i]), steps[i], amm, token, p)
    requires SoundPools(amm, st.accounts)
    ensures SoundPools(amm, Run(host, st, steps).accounts)
  {
    hide Run, RunCalls, RunsAmm, RunsToken, PaidInToken, ChainFits, SoundPools;
    forall i | 0 <= i < |steps|
      ensures StepFits(host, Run(host, st, steps[..i]), steps[i], amm, p)
    {
      var before, step := Run(host, st, steps[..i]), steps[i];
      assert StepPaidInToken(host, before, step, amm, token, p);
      if step.tx.Public? {
        var ctx := PublicContext(host, before.accounts, before.programs, step.tx.public, step.blockId, step.timestamp);
        if RunCalls(ctx).Ok? {
          assert RunsAmm(ctx.execute, amm, p, at) && RunsToken(ctx.execute, token);
          PaidInTokenFits(ctx, amm, token, p, at);
        }
      }
    }
    PoolsSoundOverRun(host, st, steps, amm, p, at);
  }
}
