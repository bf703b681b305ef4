/** What every accepted chain of calls satisfies, for arbitrary programs. */
module CallTrace {
  import opened Core
  import opened Sums
  import opened Execution
  import opened Calls

  // ------------------------------------------------------------- histories

  ghost predicate Balanced(trace: seq<Executed>) {
    forall k :: 0 <= k < |trace| ==> |trace[k].output.preStates| == |trace[k].posts|
  }

  /** Applies each executed call's post-states directly to the accounts, in execution order. */
  ghost function Replay(accounts: Accounts, trace: seq<Executed>): Accounts
    requires Balanced(trace)
  {
    if trace == [] then accounts
    else Write(Replay(accounts, trace[..|trace| - 1]), trace[|trace| - 1])
  }

  /** The item is the transaction's own call, or was chained by a call already executed. */
  ghost predicate Rooted(ctx: Context, earlier: seq<Executed>, item: WorkItem) {
    match item.parent
    case None => item == RootItem(ctx)
    case Some(parent) => parent in earlier && item in Children(parent)
  }

  ghost predicate At(trace: seq<Executed>, k: int) {
    0 <= k < |trace|
  }

  /** Every call ran on the accounts as left by the calls before it. Only `At` triggers the
      quantifier, so that a proof unfolds the calls it names and no others. */
  ghost predicate History(ctx: Context, trace: seq<Executed>) {
    && Balanced(trace)
    && forall k {:trigger At(trace, k)} :: At(trace, k) ==>
         && Execute(ctx, trace[k].item, Replay(map[], trace[..k])) == Ok(trace[k])
         && Rooted(ctx, trace[..k], trace[k].item)
  }

  lemma ExecutedIsBalanced(ctx: Context, item: WorkItem, diff: Accounts)
    requires Execute(ctx, item, diff).Ok?
    ensures var done := Execute(ctx, item, diff).value;
      && done.item == item
      && |done.output.preStates| == |done.posts| == |done.output.postStates|
  {
    var done := Execute(ctx, item, diff).value;
    ValidateExecutionMeaning(done.output.preStates, done.output.postStates, item.call.programId);
  }

  lemma HistoryExtends(ctx: Context, p: Progress, item: WorkItem, done: Executed)
    requires History(ctx, p.trace) && p.diff == Replay(map[], p.trace)
    requires Rooted(ctx, p.trace, item)
    requires Execute(ctx, item, p.diff) == Ok(done)
    ensures |done.output.preStates| == |done.posts|
    ensures History(ctx, p.trace + [done])
    ensures Write(p.diff, done) == Replay(map[], p.trace + [done])
  {
    hide Execute;
    ExecutedIsBalanced(ctx, item, p.diff);
    var trace := p.trace + [done];
    assert trace[..|p.trace|] == p.trace;
    forall k | At(trace, k)
      ensures Execute(ctx, trace[k].item, Replay(map[], trace[..k])) == Ok(trace[k])
      ensures Rooted(ctx, trace[..k], trace[k].item)
    {
      if k < |p.trace| {
        assert At(p.trace, k);
        assert trace[..k] == p.trace[..k] && trace[k] == p.trace[k];
      }
    }
  }

  lemma {:induction false} EvalCallHistory(ctx: Context, item: WorkItem, p: Progress)
    requires History(ctx, p.trace) && p.diff == Replay(map[], p.trace)
    requires Rooted(ctx, p.trace, item)
    requires EvalCall(ctx, item, p).Ok?
    ensures var q := EvalCall(ctx, item, p).value;
      History(ctx, q.trace) && q.diff == Replay(map[], q.trace)
    decreases Remaining(p), 0
  {
    hide Execute, Replay;
    var done := Execute(ctx, item, p.diff).value;
    HistoryExtends(ctx, p, item, done);
    EvalAllHistory(ctx, Children(done), Progress(Write(p.diff, done), p.trace + [done]));
  }

  lemma {:induction false} EvalAllHistory(ctx: Context, items: seq<WorkItem>, p: Progress)
    requires History(ctx, p.trace) && p.diff == Replay(map[], p.trace)
    requires forall item :: item in items ==> Rooted(ctx, p.trace, item)
    requires EvalAll(ctx, items, p).Ok?
    ensures var q := EvalAll(ctx, items, p).value;
      History(ctx, q.trace) && q.diff == Replay(map[], q.trace)
    decreases Remaining(p), |items|
  {
    hide Execute, Replay;
    if items != [] {
      EvalCallHistory(ctx, items[0], p);
      var q := EvalCall(ctx, items[0], p).value;
      forall item | item in items[1..]
        ensures Rooted(ctx, q.trace, item)
      {
        assert Rooted(ctx, p.trace, item);
      }
      EvalAllHistory(ctx, items[1..], q);
    }
  }

  /** An accepted transaction leaves a history of at most MAX_NUMBER_CHAINED_CALLS + 1 calls, and its
      diff over the accounts is those calls' post-states applied one after the other. */
  lemma AcceptedRunHasHistory(ctx: Context)
    requires RunCalls(ctx).Ok?
    ensures var p := RunCalls(ctx).value;
      && 1 <= |p.trace| <= MAX_NUMBER_CHAINED_CALLS + 1
      && History(ctx, p.trace)
      && ctx.accounts + p.diff == Replay(ctx.accounts, p.trace)
      && p.trace[0].item == RootItem(ctx)
  {
    EvalCallHistory(ctx, RootItem(ctx), Progress(map[], []));
    var p := RunCalls(ctx).value;
    OverlayIsReplay(ctx.accounts, p.trace);
    assert At(p.trace, 0);
  }

  /** One accumulated overlay applied once equals applying every call's writes in order. */
  lemma {:induction false} OverlayIsReplay(accounts: Accounts, trace: seq<Executed>)
    requires Balanced(trace)
    ensures accounts + Replay(map[], trace) == Replay(accounts, trace)
  {
    if trace == [] {
      assert accounts + map[] == accounts;
    } else {
      var init, last := trace[..|trace| - 1], trace[|trace| - 1];
      OverlayIsReplay(accounts, init);
      RecordOverlay(accounts, Replay(map[], init), Ids(last.output.preStates), PostAccounts(last.posts));
    }
  }

  // ------------------------------------------------------ one call's effect

  /** Why a call of `program` may set itself as the owner of an account. */
  ghost predicate ClaimJustified(ctx: Context, program: ProgramId, pre: AccountWithMetadata, claim: Option<Claim>) {
    match claim
    case None => false
    case Some(Authorized) => pre.isAuthorized
    case Some(Pda(seed)) => pre.id == ctx.publicPda(program, seed)
  }

  /** What a call of `program` may do to one account, claims included. */
  ghost predicate Permitted(ctx: Context, program: ProgramId, pre: AccountWithMetadata,
                            claim: Option<Claim>, post: Account) {
    && post.nonce == pre.account.nonce
    && (post.owner == pre.account.owner
        || (pre.account == DEFAULT_ACCOUNT && post.owner == program && ClaimJustified(ctx, program, pre, claim)))
    && (post.balance < pre.account.balance ==> pre.account.owner == program)
    && (post.data != pre.account.data ==> pre.account.owner == program || pre.account == DEFAULT_ACCOUNT)
    && (pre.account.owner == DEFAULT_PROGRAM_ID ==> pre.account == DEFAULT_ACCOUNT)
  }

  /** One accepted execution: it read the accounts as they are, under exactly the authorizations it was
      granted, changed only what it was permitted to change, and kept the total balance. */
  ghost predicate Lawful(ctx: Context, current: Accounts, e: Executed) {
    var pres, program := e.output.preStates, e.item.call.programId;
    && program in ctx.programs
    && |pres| == |e.posts| == |e.output.postStates|
    && Distinct(Ids(pres))
    && (forall i :: 0 <= i < |pres| ==>
          && pres[i].account == Lookup(current, pres[i].id)
          && (pres[i].isAuthorized <==> pres[i].id in Granted(ctx, e.item))
          && WellBehaved(pres[i].account, e.output.postStates[i].account, program)
          && ResolveClaim(ctx, program, pres[i], e.output.postStates[i]) == Ok(e.posts[i])
          && Permitted(ctx, program, pres[i], e.output.postStates[i].claim, e.posts[i].account))
    && SumSeq(AccountsOf(pres), Balance) == SumSeq(PostAccounts(e.posts), Balance)
  }

  lemma ClaimedIsPermitted(ctx: Context, program: ProgramId, pre: AccountWithMetadata, post: AccountPostState)
    requires WellBehaved(pre.account, post.account, program)
    requires ResolveClaim(ctx, program, pre, post).Ok?
    ensures Permitted(ctx, program, pre, post.claim, ResolveClaim(ctx, program, pre, post).value.account)
  {
  }

  lemma AcceptedCallIsLawful(ctx: Context, item: WorkItem, diff: Accounts)
    requires Execute(ctx, item, diff).Ok?
    ensures Lawful(ctx, ctx.accounts + diff, Execute(ctx, item, diff).value)
  {
    hide Permitted, WellBehaved, ResolveClaim, ValidateExecution, ResolveClaims, SumSeq, Granted;
    var done := Execute(ctx, item, diff).value;
    var pres, posts, program := done.output.preStates, done.output.postStates, item.call.programId;
    ValidateExecutionMeaning(pres, posts, program);
    ClaimsKeepBalances(ctx, program, pres, posts);
    forall i | 0 <= i < |pres|
      ensures Permitted(ctx, program, pres[i], posts[i].claim, done.posts[i].account)
    {
      assert ResolveClaim(ctx, program, pres[i], posts[i]) == Ok(done.posts[i]);
      ClaimedIsPermitted(ctx, program, pres[i], posts[i]);
    }
  }

  /** The world seen by the k-th call. */
  ghost function World(ctx: Context, trace: seq<Executed>, k: nat): Accounts
    requires Balanced(trace) && k <= |trace|
  {
    Replay(ctx.accounts, trace[..k])
  }

  lemma WorldStep(ctx: Context, trace: seq<Executed>, k: nat)
    requires Balanced(trace) && k < |trace|
    ensures World(ctx, trace, k + 1) == Write(World(ctx, trace, k), trace[k])
  {
    assert trace[..k + 1][..k] == trace[..k];
  }

  /** Every call of a history is lawful in the world left by the calls before it. */
  lemma CallEffect(ctx: Context, trace: seq<Executed>, k: nat)
    requires History(ctx, trace) && k < |trace|
    ensures Lawful(ctx, World(ctx, trace, k), trace[k])
  {
    hide Execute, Lawful, Replay;
    assert At(trace, k);
    AcceptedCallIsLawful(ctx, trace[k].item, Replay(map[], trace[..k]));
    OverlayIsReplay(ctx.accounts, trace[..k]);
  }

  lemma {:induction false} ClaimsKeepBalances(
    ctx: Context, program: ProgramId, pres: seq<AccountWithMetadata>, posts: seq<AccountPostState>)
    requires |pres| == |posts|
    requires ResolveClaims(ctx, program, pres, posts).Ok?
    ensures SumSeq(PostAccounts(ResolveClaims(ctx, program, pres, posts).value), Balance)
         == SumSeq(PostAccounts(posts), Balance)
  {
    var claimed := ResolveClaims(ctx, program, pres, posts).value;
    SumSeqPointwise(PostAccounts(claimed), PostAccounts(posts), Balance);
  }

  lemma {:induction false} SumSeqPointwise(left: seq<Account>, right: seq<Account>, measure: Account -> nat)
    requires |left| == |right|
    requires forall i :: 0 <= i < |left| ==> measure(left[i]) == measure(right[i])
    ensures SumSeq(left, measure) == SumSeq(right, measure)
  {
    if left != [] {
      SumSeqPointwise(left[..|left| - 1], right[..|left| - 1], measure);
    }
  }

  ghost predicate Touches(e: Executed, id: AccountId) {
    exists i :: 0 <= i < |e.output.preStates| && e.output.preStates[i].id == id
  }

  /** Position of a touched account in the call's lists. */
  ghost function Slot(e: Executed, id: AccountId): nat
    requires Touches(e, id)
    ensures Slot(e, id) < |e.output.preStates| && e.output.preStates[Slot(e, id)].id == id
  {
    var i :| 0 <= i < |e.output.preStates| && e.output.preStates[i].id == id;
    i
  }

  /** One call, seen from one account. */
  lemma AccountAcrossCall(ctx: Context, trace: seq<Executed>, k: nat, id: AccountId)
    requires History(ctx, trace) && k < |trace|
    ensures var before, after := Lookup(World(ctx, trace, k), id), Lookup(World(ctx, trace, k + 1), id);
      && (!Touches(trace[k], id) ==> after == before)
      && (Touches(trace[k], id) ==>
            var i := Slot(trace[k], id);
            && |trace[k].output.preStates| == |trace[k].posts| == |trace[k].output.postStates|
            && trace[k].output.preStates[i].account == before
            && after == trace[k].posts[i].account
            && Permitted(ctx, trace[k].item.call.programId, trace[k].output.preStates[i],
                         trace[k].output.postStates[i].claim, after))
  {
    CallEffect(ctx, trace, k);
    WorldStep(ctx, trace, k);
    var e := trace[k];
    var ids := Ids(e.output.preStates);
    if Touches(e, id) {
      var i := Slot(e, id);
      assert ids[i] == id;
      RecordAt(World(ctx, trace, k), ids, PostAccounts(e.posts), i);
    } else {
      assert id !in ids;
      RecordElsewhere(World(ctx, trace, k), ids, PostAccounts(e.posts), id);
    }
  }
}
