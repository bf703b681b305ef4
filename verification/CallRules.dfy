/** Exactly when one call of a chain is executed, and exactly what it is authorized to do. */
module CallRules {
  import opened Core
  import opened Sums
  import opened Execution
  import opened Calls
  import opened CallTrace
  import opened Authority

  // ------------------------------------------------------- what an output must meet

  /** The account was handed down by the callers above, or the direct caller listed a seed of its own for it. */
  ghost predicate HandedDown(ctx: Context, item: WorkItem, id: AccountId) {
    || id in item.caller.authorized
    || (item.caller.programId.Some?
        && exists seed :: seed in item.call.pdaSeeds && id == ctx.publicPda(item.caller.programId.value, seed))
  }

  /** Every account is reported as it is, flagged exactly when it was handed down. */
  ghost predicate ReportsTruthfully(ctx: Context, item: WorkItem, current: Accounts, pres: seq<AccountWithMetadata>) {
    forall i :: 0 <= i < |pres| ==>
      && pres[i].account == Lookup(current, pres[i].id)
      && (pres[i].isAuthorized <==> HandedDown(ctx, item, pres[i].id))
  }

  /** Different accounts, each changed only as `program` may change it, with the total balance kept below 2^256. */
  ghost predicate BehavesWell(program: ProgramId, pres: seq<AccountWithMetadata>, posts: seq<AccountPostState>) {
    && |pres| == |posts|
    && Distinct(Ids(pres))
    && (forall i :: 0 <= i < |pres| ==> WellBehaved(pres[i].account, posts[i].account, program))
    && SumSeq(AccountsOf(pres), Balance) == SumSeq(PostAccounts(posts), Balance) < U128_LIMIT * U128_LIMIT
  }

  /** From the first bound on, and before the second. */
  ghost predicate InTime(window: ValidityWindow, now: nat) {
    && (match window.from case None => true case Some(from) => from <= now)
    && (match window.to case None => true case Some(to) => now < to)
  }

  /** Claims are for accounts without an owner, and justified. */
  ghost predicate ClaimsWell(ctx: Context, program: ProgramId,
                             pres: seq<AccountWithMetadata>, posts: seq<AccountPostState>)
    requires |pres| == |posts|
  {
    forall i :: 0 <= i < |posts| && posts[i].claim.Some? ==>
      posts[i].account.owner == DEFAULT_PROGRAM_ID && ClaimJustified(ctx, program, pres[i], posts[i].claim)
  }

  /** What the loop asks of a program's output. */
  ghost predicate MeetsRules(ctx: Context, item: WorkItem, current: Accounts, output: ProgramOutput) {
    && ReportsTruthfully(ctx, item, current, output.preStates)
    && output.selfProgramId == item.call.programId && output.callerProgramId == item.caller.programId
    && BehavesWell(item.call.programId, output.preStates, output.postStates)
    && InTime(output.blockWindow, ctx.blockId) && InTime(output.timestampWindow, ctx.timestamp)
    && ClaimsWell(ctx, item.call.programId, output.preStates, output.postStates)
  }

  /** The output with the claimed accounts given to the program. */
  ghost predicate Settled(program: ProgramId, outputs: seq<AccountPostState>, posts: seq<AccountPostState>) {
    && |posts| == |outputs|
    && forall i :: 0 <= i < |posts| ==>
         && posts[i].claim == outputs[i].claim
         && posts[i].account.owner == (if outputs[i].claim.Some? then program else outputs[i].account.owner)
         && posts[i].account.balance == outputs[i].account.balance
         && posts[i].account.data == outputs[i].account.data && posts[i].account.nonce == outputs[i].account.nonce
  }

  /** The call `e` of `item` was deployed, answered, and met every rule on the accounts as they stood. */
  ghost predicate RanAsRuled(ctx: Context, item: WorkItem, current: Accounts, e: Executed) {
    && item.call.programId in ctx.programs
    && ctx.execute(item.call.programId, item.caller.programId, item.call.preStates, item.call.instruction)
       == Some(e.output)
    && MeetsRules(ctx, item, current, e.output)
    && e.item == item && Settled(item.call.programId, e.output.postStates, e.posts)
  }

  // -------------------------------------------------------------------- exactness

  lemma GrantedIsHandedDown(ctx: Context, item: WorkItem, id: AccountId)
    ensures id in Granted(ctx, item) <==> HandedDown(ctx, item, id)
  {
  }

  lemma ReportsExactly(ctx: Context, item: WorkItem, current: Accounts, pres: seq<AccountWithMetadata>)
    ensures CheckPreStates(current, Granted(ctx, item), pres).Pass? <==> ReportsTruthfully(ctx, item, current, pres)
  {
    hide Granted, HandedDown, CheckPreStates;
    forall i | 0 <= i < |pres|
      ensures pres[i].id in Granted(ctx, item) <==> HandedDown(ctx, item, pres[i].id)
    {
      GrantedIsHandedDown(ctx, item, pres[i].id);
    }
  }

  lemma ClaimExactly(ctx: Context, program: ProgramId, pre: AccountWithMetadata, post: AccountPostState)
    ensures var r := ResolveClaim(ctx, program, pre, post);
      && (r.Ok? <==> post.claim.None?
                     || (post.account.owner == DEFAULT_PROGRAM_ID && ClaimJustified(ctx, program, pre, post.claim)))
      && (r.Ok? ==> r.value == post.(account := post.account.(owner := if post.claim.Some? then program
                                                                       else post.account.owner)))
  {
  }

  lemma ClaimsExactly(ctx: Context, program: ProgramId, pres: seq<AccountWithMetadata>, posts: seq<AccountPostState>)
    requires |pres| == |posts|
    ensures var r := ResolveClaims(ctx, program, pres, posts);
      (r.Ok? <==> ClaimsWell(ctx, program, pres, posts)) && (r.Ok? ==> Settled(program, posts, r.value))
  {
    hide ResolveClaim, ResolveClaims, ClaimJustified;
    forall i | 0 <= i < |posts|
      ensures var r := ResolveClaim(ctx, program, pres[i], posts[i]);
        && (r.Ok? <==> posts[i].claim.None?
                       || (posts[i].account.owner == DEFAULT_PROGRAM_ID
                           && ClaimJustified(ctx, program, pres[i], posts[i].claim)))
        && (r.Ok? ==> r.value == posts[i].(account := posts[i].account.(owner := if posts[i].claim.Some? then program
                                                                                 else posts[i].account.owner)))
    {
      ClaimExactly(ctx, program, pres[i], posts[i]);
    }
  }

  /** A call is executed if and only if its program is deployed, answers, and the answer meets every rule; the
      result is the answer with the claimed accounts given to the program. */
  lemma ExecuteExactly(ctx: Context, item: WorkItem, diff: Accounts)
    ensures Execute(ctx, item, diff).Ok? <==>
      && item.call.programId in ctx.programs
      && var ran := ctx.execute(item.call.programId, item.caller.programId, item.call.preStates, item.call.instruction);
         ran.Some? && MeetsRules(ctx, item, ctx.accounts + diff, ran.value)
    ensures Execute(ctx, item, diff).Ok? ==> RanAsRuled(ctx, item, ctx.accounts + diff, Execute(ctx, item, diff).value)
  {
    hide Granted, CheckPreStates, ReportsTruthfully, ValidateExecution, BehavesWell, ResolveClaims, ClaimsWell, Settled;
    var ran := ctx.execute(item.call.programId, item.caller.programId, item.call.preStates, item.call.instruction);
    if item.call.programId in ctx.programs && ran.Some? {
      var pres, posts := ran.value.preStates, ran.value.postStates;
      ReportsExactly(ctx, item, ctx.accounts + diff, pres);
      ValidExactly(item.call.programId, pres, posts);
      if |pres| == |posts| {
        ClaimsExactly(ctx, item.call.programId, pres, posts);
      }
    }
  }

  lemma ValidExactly(program: ProgramId, pres: seq<AccountWithMetadata>, posts: seq<AccountPostState>)
    ensures ValidateExecution(pres, posts, program).Pass? <==> BehavesWell(program, pres, posts)
    ensures BehavesWell(program, pres, posts) ==> |pres| == |posts|
  {
    hide ValidateExecution, WellBehaved, Distinct, SumSeq;
    ValidateExecutionMeaning(pres, posts, program);
  }

  /** What the rules determine is one result. */
  lemma RuledResult(ctx: Context, item: WorkItem, diff: Accounts, e: Executed)
    ensures Execute(ctx, item, diff) == Ok(e) <==> RanAsRuled(ctx, item, ctx.accounts + diff, e)
  {
    hide Execute, MeetsRules, Settled;
    ExecuteExactly(ctx, item, diff);
    if RanAsRuled(ctx, item, ctx.accounts + diff, e) {
      var done := Execute(ctx, item, diff).value;
      SettledOnce(item.call.programId, e.output.postStates, e.posts, done.posts);
    }
  }

  lemma SettledOnce(program: ProgramId, outputs: seq<AccountPostState>,
                    x: seq<AccountPostState>, y: seq<AccountPostState>)
    requires Settled(program, outputs, x) && Settled(program, outputs, y)
    ensures x == y
  {
    forall i | 0 <= i < |x|
      ensures x[i] == y[i]
    {
    }
  }

  /** Every call of an accepted transaction was deployed, answered, and met every rule, its validity windows and
      program ids included, on the accounts left by the calls before it. */
  lemma EveryCallRanAsRuled(ctx: Context, trace: seq<Executed>, k: nat)
    requires History(ctx, trace) && k < |trace|
    ensures RanAsRuled(ctx, trace[k].item, World(ctx, trace, k), trace[k])
  {
    hide Execute, Replay, RanAsRuled;
    assert At(trace, k);
    RuledResult(ctx, trace[k].item, Replay(map[], trace[..k]), trace[k]);
    OverlayIsReplay(ctx.accounts, trace[..k]);
  }

  // ------------------------------------------------------- exact authorization

  /** The account signed, the direct caller listed a seed of its own for it, or a call above saw it authorized. */
  ghost predicate Entitled(ctx: Context, e: Executed, id: AccountId) {
    var line := Lineage(e);
    || id in ctx.signers
    || (|line| > 1 && ListedFor(ctx, line[|line| - 2], e, id))
    || exists a :: 0 <= a < |line| - 1 && SawAuthorized(line[a], id)
  }

  ghost predicate ListedFor(ctx: Context, caller: Executed, callee: Executed, id: AccountId) {
    exists seed :: seed in callee.item.call.pdaSeeds && id == ctx.publicPda(caller.item.call.programId, seed)
  }

  ghost predicate SawAuthorized(e: Executed, id: AccountId) {
    exists i :: 0 <= i < |e.output.preStates| && e.output.preStates[i].isAuthorized && e.output.preStates[i].id == id
  }

  lemma BelowExactly(e: Executed, id: AccountId)
    ensures id in AuthorizedBelow(e) <==> id in e.item.caller.authorized || SawAuthorized(e, id)
  {
  }

  /** What reaches a call from above is what signed or was seen authorized on the path to it. */
  lemma {:induction false} HandedFromAbove(ctx: Context, trace: seq<Executed>, k: nat, id: AccountId)
    requires History(ctx, trace) && k < |trace|
    ensures var line := Lineage(trace[k]);
      id in trace[k].item.caller.authorized
      <==> id in ctx.signers || exists a :: 0 <= a < |line| - 1 && SawAuthorized(line[a], id)
    decreases k
  {
    hide Execute, Replay, AuthorizedBelow, SawAuthorized, Children;
    var e := trace[k];
    match e.item.parent
    case None =>
      assert At(trace, k);
    case Some(parent) =>
      var m := ParentPosition(ctx, trace, k);
      var above := Lineage(parent);
      assert Lineage(e) == above + [e];
      HandedFromAbove(ctx, trace, m, id);
      BelowExactly(parent, id);
      assert forall a :: 0 <= a < |above| ==> Lineage(e)[a] == above[a];
  }

  /** An account a program reports is flagged if and only if it signed, the direct caller listed a seed of its
      own for it, or a call on the path above saw it authorized. */
  lemma AuthorizedExactly(ctx: Context, trace: seq<Executed>, k: nat, i: nat)
    requires History(ctx, trace) && k < |trace| && i < |trace[k].output.preStates|
    ensures trace[k].output.preStates[i].isAuthorized <==> Entitled(ctx, trace[k], trace[k].output.preStates[i].id)
  {
    hide Execute, Replay, AuthorizedBelow, SawAuthorized, Children, BehavesWell, InTime, ClaimsWell, Settled;
    var e, id := trace[k], trace[k].output.preStates[i].id;
    EveryCallRanAsRuled(ctx, trace, k);
    HandedFromAbove(ctx, trace, k, id);
    match e.item.parent
    case None =>
      assert At(trace, k);
    case Some(parent) =>
      var m := ParentPosition(ctx, trace, k);
      assert Lineage(e) == Lineage(parent) + [e];
  }
}
