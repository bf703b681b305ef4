/** Enough for the loop to accept an AMM transaction on an existing pool. */
module AmmProgress {
  import opened Core
  import opened Sums
  import opened Execution
  import opened Calls
  import opened CallTrace
  import opened Token
  import opened TokenSupply
  import opened Amm
  import opened AmmPools
  import opened AmmCalls
  import opened AmmAcceptance

  // ----------------------------------------------------- a call that changes only data

  lemma {:induction false} BalancesBelow(accounts: seq<Account>)
    ensures SumSeq(accounts, Balance) <= |accounts| * U128_LIMIT
  {
    if accounts != [] {
      BalancesBelow(accounts[..|accounts| - 1]);
    }
  }

  /** An output that reports its accounts as they are, claims nothing and changes only data of accounts the
      program owns. */
  ghost predicate Plain(ctx: Context, item: WorkItem, diff: Accounts, output: ProgramOutput) {
    var pres, posts, program := output.preStates, output.postStates, item.call.programId;
    && program in ctx.programs
    && output.selfProgramId == program && output.callerProgramId == item.caller.programId
    && output.blockWindow == output.timestampWindow == UNBOUNDED
    && |pres| == |posts| <= 7 && Distinct(Ids(pres))
    && forall i :: 0 <= i < |pres| ==>
         && pres[i].account == Lookup(ctx.accounts + diff, pres[i].id)
         && (pres[i].isAuthorized <==> pres[i].id in Granted(ctx, item))
         && posts[i].claim.None? && pres[i].account.owner != DEFAULT_PROGRAM_ID
         && OnlyData(pres[i].account, posts[i].account)
         && (pres[i].account.owner == program || posts[i].account == pres[i].account)
  }

  lemma PlainOutputExecutes(ctx: Context, item: WorkItem, diff: Accounts, output: ProgramOutput)
    requires ctx.execute(item.call.programId, item.caller.programId, item.call.preStates,
        item.call.instruction) == Some(output)
    requires Plain(ctx, item, diff, output)
    ensures Execute(ctx, item, diff) == Ok(Executed(item, output, output.postStates))
  {
    hide ValidateExecution, Distinct, Granted, SumSeq, Lookup, ResolveClaims;
    var pres, posts, program := output.preStates, output.postStates, item.call.programId;
    var before, after := AccountsOf(pres), PostAccounts(posts);
    SumSeqPointwise(before, after, Balance);
    BalancesBelow(before);
    ValidateExecutionMeaning(pres, posts, program);
    NothingClaimed(ctx, program, pres, posts);
  }

  lemma NothingClaimed(ctx: Context, program: ProgramId, pres: seq<AccountWithMetadata>, posts: seq<AccountPostState>)
    requires |pres| == |posts| && forall i :: 0 <= i < |posts| ==> posts[i].claim.None?
    ensures ResolveClaims(ctx, program, pres, posts) == Ok(posts)
  {
    hide ResolveClaims;
    forall i | 0 <= i < |posts|
      ensures ResolveClaim(ctx, program, pres[i], posts[i]) == Ok(posts[i])
    {
    }
    var r := ResolveClaims(ctx, program, pres, posts);
    assert r.value == posts;
  }

  /** A token instruction on two accounts the token program owns changes only their data and claims nothing. */
  lemma TokenEffectIsPlain(token: ProgramId, x: AccountWithMetadata, y: AccountWithMetadata,
                           instruction: TokenInstruction, posts: seq<AccountPostState>)
    requires token != DEFAULT_PROGRAM_ID && x.account.owner == y.account.owner == token
    requires Effects([x, y], instruction) == Ok(posts)
    ensures |posts| == 2 && posts[0].claim.None? && posts[1].claim.None?
    ensures OnlyData(x.account, posts[0].account) && OnlyData(y.account, posts[1].account)
  {
  }

  // ------------------------------------------------------------- enough to be accepted

  /** A transaction's own call to the AMM on an existing pool, made as the loop demands: known programs, different
      accounts as they are, authorized exactly when they signed; the pool is the AMM's, and every other account
      has an owner. */
  ghost predicate WellPrepared(ctx: Context, amm: ProgramId, paying: ProgramId) {
    var s := ctx.initialCall.preStates;
    && amm in ctx.programs && paying in ctx.programs && amm != DEFAULT_PROGRAM_ID
    && ctx.initialCall.programId == amm && ctx.initialCall.instruction.AmmCall?
    && 0 < |s| <= 7 && Distinct(Ids(s)) && s[0].account.owner == amm
    && (forall i :: 0 <= i < |s| ==>
          && s[i].account == Lookup(ctx.accounts, s[i].id) && (s[i].isAuthorized <==> s[i].id in ctx.signers)
          && s[i].account.owner != DEFAULT_PROGRAM_ID)
  }

  /** What the paying program answers to a chained call. */
  function Answer(ctx: Context, amm: ProgramId, paying: ProgramId, call: ChainedCall): Option<ProgramOutput> {
    ctx.execute(paying, Some(amm), call.preStates, call.instruction)
  }

  /** Only accounts that signed, or whose seed the AMM lists, are flagged as authorized. */
  ghost predicate WellFlagged(ctx: Context, amm: ProgramId, call: ChainedCall) {
    forall i :: 0 <= i < |call.preStates| ==>
      (call.preStates[i].isAuthorized <==>
         call.preStates[i].id in AuthorizedPdas(ctx, Some(amm), call.pdaSeeds) + ctx.signers)
  }

  /** The first account is the AMM's for the seed and flagged, the second flagged exactly when it signed. */
  ghost predicate Flagged(ctx: Context, amm: ProgramId, x: AccountWithMetadata, y: AccountWithMetadata, seed: PdaSeed) {
    && x.id == ctx.publicPda(amm, seed) && x.isAuthorized && x.id != y.id
    && (y.isAuthorized <==> y.id in ctx.signers)
  }

  lemma OneSeedFlagged(ctx: Context, amm: ProgramId, call: ChainedCall,
                       x: AccountWithMetadata, y: AccountWithMetadata, seed: PdaSeed)
    requires Flagged(ctx, amm, x, y, seed) && call.preStates == [x, y] && call.pdaSeeds == [seed]
    ensures WellFlagged(ctx, amm, call)
  {
    assert AuthorizedPdas(ctx, Some(amm), call.pdaSeeds) == {x.id};
  }

  /** A well flagged call to which the paying program answers by changing at most data of its own accounts. */
  ghost predicate Acceptable(ctx: Context, amm: ProgramId, paying: ProgramId, call: ChainedCall) {
    && call.programId == paying && WellFlagged(ctx, amm, call)
    && Answer(ctx, amm, paying, call).Some?
    && var posts := Answer(ctx, amm, paying, call).value.postStates;
       && Answer(ctx, amm, paying, call).value
          == ProgramOutput(paying, Some(amm), call.preStates, posts, [], UNBOUNDED, UNBOUNDED)
       && |posts| == |call.preStates|
       && forall i :: 0 <= i < |posts| ==>
            && posts[i].claim.None? && OnlyData(call.preStates[i].account, posts[i].account)
            && (call.preStates[i].account.owner == paying || posts[i].account == call.preStates[i].account)
  }

  /** A token call the token program accepts on accounts of its own. */
  lemma TokenAcceptable(ctx: Context, amm: ProgramId, token: ProgramId, call: ChainedCall)
    requires RunsToken(ctx.execute, token) && token != DEFAULT_PROGRAM_ID
    requires call.programId == token && call.instruction.TokenCall? && WellFlagged(ctx, amm, call)
    requires |call.preStates| == 2 && call.preStates[0].account.owner == call.preStates[1].account.owner == token
    requires Effects(call.preStates, call.instruction.token).Ok?
    ensures Acceptable(ctx, amm, token, call)
  {
    hide Effects, WellFlagged;
    var x, y := call.preStates[0], call.preStates[1];
    assert call.preStates == [x, y];
    TokenEffectIsPlain(token, x, y, call.instruction.token, Effects(call.preStates, call.instruction.token).value);
  }

  /** The AMM's own call executes. */
  lemma RootExecutes(ctx: Context, amm: ProgramId, paying: ProgramId, p: Profile, at: Addresses, out: AmmOutput)
    requires RunsAmm(ctx.execute, amm, p, at) && WellPrepared(ctx, amm, paying)
    requires AmmEffects(p, at, ctx.initialCall.preStates, ctx.initialCall.instruction.amm) == Ok(out)
    ensures Execute(ctx, RootItem(ctx), map[]) == Ok(Executed(RootItem(ctx),
      ProgramOutput(amm, None, ctx.initialCall.preStates, out.posts, out.calls, UNBOUNDED, UNBOUNDED), out.posts))
  {
    hide AmmEffects, Execute, PoolChanges, Distinct;
    var s := ctx.initialCall.preStates;
    var output := ProgramOutput(amm, None, s, out.posts, out.calls, UNBOUNDED, UNBOUNDED);
    InstructionWritesOnlyPool(p, at, s, ctx.initialCall.instruction.amm, out);
    assert ctx.accounts + map[] == ctx.accounts;
    assert ctx.execute(amm, None, s, ctx.initialCall.instruction) == Some(output);
    AmmPostsClaimNothing(p, at, s, ctx.initialCall.instruction.amm, out);
    PlainOutputExecutes(ctx, RootItem(ctx), map[], output);
  }

  lemma AmmPostsClaimNothing(p: Profile, at: Addresses, s: seq<AccountWithMetadata>,
                             instruction: AmmInstruction, out: AmmOutput)
    requires AmmEffects(p, at, s, instruction) == Ok(out) && |s| > 0 && s[0].account.owner != DEFAULT_PROGRAM_ID
    ensures |out.posts| > 0 && out.posts[0].claim.None?
  {
    hide SwapEffect, AddAmounts, PoolAfterAdd, RemoveAmounts, PoolAfterRemove, InitialLiquidity;
    match instruction
    case NewPool(_, _, _) =>
    case AddLiquidity(_, _, _) =>
    case RemoveLiquidity(_, _, _) =>
    case SwapExactInput(amount, min, tokenIn) =>
      SwapEffectPosts(p, at, s[0], s[1], s[2], s[3], s[4], true, amount, min, tokenIn, out);
    case SwapExactOutput(amount, max, tokenIn) =>
      SwapEffectPosts(p, at, s[0], s[1], s[2], s[3], s[4], false, amount, max, tokenIn, out);
  }

  /** A chained call, as the AMM call hands it down, executes by itself. */
  lemma ChildExecutes(ctx: Context, amm: ProgramId, paying: ProgramId,
                      root: Executed, base: Accounts, call: ChainedCall)
    requires paying in ctx.programs
    requires root.item.call.programId == amm && AuthorizedBelow(root) == ctx.signers
    requires Acceptable(ctx, amm, paying, call) && |call.preStates| == 2 && call.preStates[0].id != call.preStates[1].id
    requires forall i :: 0 <= i < 2 ==>
      && call.preStates[i].account == Lookup(ctx.accounts + base, call.preStates[i].id)
      && call.preStates[i].account.owner != DEFAULT_PROGRAM_ID
    ensures Execute(ctx, Child(root, call), base).Ok?
  {
    hide Execute, AuthorizedBelow, Lookup;
    assert Ids(call.preStates) == [call.preStates[0].id, call.preStates[1].id];
    PlainOutputExecutes(ctx, Child(root, call), base, Answer(ctx, amm, paying, call).value);
  }

  /** Nothing is left unclaimed where every account of the transaction had an owner. */
  lemma OwnedIsSettled(ctx: Context, diff: Accounts, ids: seq<AccountId>)
    requires forall id :: id in ids ==> Lookup(ctx.accounts, id).owner != DEFAULT_PROGRAM_ID
    requires forall id :: id !in ids ==> Lookup(ctx.accounts + diff, id) == Lookup(ctx.accounts, id)
    ensures ModifiedDefaultsClaimed(ctx.accounts, diff)
  {
    hide ModifiedDefaultsClaimed, Lookup;
    ClaimedEverywhere(ctx, diff);
  }

  /** A well prepared AMM transaction is accepted as soon as the AMM accepts its instruction and the paying
      program, whichever it is, answers each chained call on the accounts as the AMM saw them. */
  lemma AmmGoesThrough(ctx: Context, amm: ProgramId, paying: ProgramId, p: Profile, at: Addresses, out: AmmOutput)
    requires RunsAmm(ctx.execute, amm, p, at) && IsLeaf(ctx, paying) && WellPrepared(ctx, amm, paying)
    requires AmmEffects(p, at, ctx.initialCall.preStates, ctx.initialCall.instruction.amm) == Ok(out)
    requires forall j :: 0 <= j < |out.calls| ==> Acceptable(ctx, amm, paying, out.calls[j])
    ensures RunCalls(ctx).Ok?
  {
    hide AmmEffects, Execute, RunsAmm, IsLeaf, Acceptable, FromSlots,
         Separate, Lookup, Write, RunCalls, Names, ModifiedDefaultsClaimed;
    var s := ctx.initialCall.preStates;
    RootExecutes(ctx, amm, paying, p, at, out);
    var root := Execute(ctx, RootItem(ctx), map[]).value;
    var pool := AmmCallLeaves(ctx, RootItem(ctx), map[], amm, p, at, root);
    AuthorizedIsSigned(ctx, root);
    var base := Write(map[], root);
    var slots := AmmCallsAreSeparate(p, at, s, ctx.initialCall.instruction.amm, out);
    forall j | 0 <= j < |Children(root)|
      ensures AcceptedAlone(ctx, Children(root)[j], base)
    {
      ChildAccepted(ctx, amm, paying, root, base, s, slots, pool, j);
    }
    forall i | 0 <= i < |root.output.chainedCalls|
      ensures root.output.chainedCalls[i].programId == paying
    {
      AcceptableGoesTo(ctx, amm, paying, out.calls[i]);
    }
    AmmAcceptedExactly(ctx, amm, paying, p, at, root);
  }

  lemma AcceptableGoesTo(ctx: Context, amm: ProgramId, paying: ProgramId, call: ChainedCall)
    requires Acceptable(ctx, amm, paying, call)
    ensures call.programId == paying
  {
  }

  lemma AuthorizedIsSigned(ctx: Context, root: Executed)
    requires root.item == RootItem(ctx)
    requires forall i :: 0 <= i < |root.output.preStates| ==>
      (root.output.preStates[i].isAuthorized <==> root.output.preStates[i].id in ctx.signers)
    ensures AuthorizedBelow(root) == ctx.signers
  {
  }

  lemma ChildAccepted(ctx: Context, amm: ProgramId, paying: ProgramId, root: Executed, base: Accounts,
                      s: seq<AccountWithMetadata>, slots: seq<(nat, nat)>, pool: AccountId, j: nat)
    requires IsLeaf(ctx, paying) && WellPrepared(ctx, amm, paying) && s == ctx.initialCall.preStates
    requires root.item.call.programId == amm && AuthorizedBelow(root) == ctx.signers
    requires FromSlots(s, root.output.chainedCalls, slots) && j < |root.output.chainedCalls|
    requires Acceptable(ctx, amm, paying, root.output.chainedCalls[j])
    requires pool == s[0].id && forall id :: id != pool ==> SameAt(ctx, base, map[], id)
    ensures AcceptedAlone(ctx, Children(root)[j], base)
  {
    hide Execute, IsLeaf, Acceptable, FromSlots, Lookup, ModifiedDefaultsClaimed, AuthorizedBelow;
    var call := root.output.chainedCalls[j];
    SlotUse(s, root.output.chainedCalls, slots, j);
    var ids := Ids(s);
    var a, b := slots[j].0, slots[j].1;
    assert ids[0] != ids[a] && ids[0] != ids[b] && ids[a] != ids[b];
    assert ctx.accounts + map[] == ctx.accounts;
    assert SameAt(ctx, base, map[], ids[a]) && SameAt(ctx, base, map[], ids[b]);
    ChildExecutes(ctx, amm, paying, root, base, call);
    var item := Children(root)[j];
    AcceptableGoesTo(ctx, amm, paying, call);
    forall id | id !in ids
      ensures Lookup(ctx.accounts + Alone(ctx, item, base), id) == Lookup(ctx.accounts, id)
    {
      assert ids[0] == pool;
      assert !Names(item, id) by {
        assert Ids(call.preStates) == [ids[a], ids[b]];
      }
      AloneElsewhere(ctx, item, base, paying, id);
      assert SameAt(ctx, base, map[], id);
    }
    forall id | id in ids
      ensures Lookup(ctx.accounts, id).owner != DEFAULT_PROGRAM_ID
    {
      var i :| 0 <= i < |ids| && ids[i] == id;
      assert s[i].account == Lookup(ctx.accounts, s[i].id);
    }
    OwnedIsSettled(ctx, Alone(ctx, item, base), ids);
  }
}
