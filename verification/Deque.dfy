/** The loop that validates a public transaction: a deque of pending calls, popped from the
    front, each call's own chained calls pushed back onto the front. Proved to compute what
    the recursive evaluator computes. */
module Deque {
  import opened Core
  import opened Sums
  import opened Execution
  import opened Calls

  method CheckOutputPreStates(ctx: Context, item: WorkItem, diff: Accounts, pres: seq<AccountWithMetadata>)
    returns (r: Check<LeeError>)
    ensures r == CheckPreStates(ctx.accounts + diff, Granted(ctx, item), pres)
  {
    var authorizedPdas := AuthorizedPdas(ctx, item.caller.programId, item.call.pdaSeeds);
    for i := 0 to |pres|
      invariant CheckPreStates(ctx.accounts + diff, Granted(ctx, item), pres)
             == CheckPreStates(ctx.accounts + diff, Granted(ctx, item), pres[i..])
    {
      var pre := pres[i];
      var expected := if pre.id in diff then diff[pre.id] else Lookup(ctx.accounts, pre.id);
      assert pres[i..][0] == pre && pres[i..][1..] == pres[i + 1..];
      if pre.account != expected {
        return Fail(InconsistentAccountPreState(pre.id));
      }
      var isIndeedAuthorized := pre.id in authorizedPdas || pre.id in item.caller.authorized;
      if pre.isAuthorized && !isIndeedAuthorized {
        return Fail(InvalidAccountAuthorization(pre.id));
      }
      if !pre.isAuthorized && isIndeedAuthorized {
        return Fail(AuthorizedAccountMarkedAsNotAuthorized(pre.id));
      }
    }
    return Pass;
  }

  /** A refused claim refuses the whole list. */
  lemma {:induction false} RefusedClaimRefusesAll(
    ctx: Context, program: ProgramId, pres: seq<AccountWithMetadata>, posts: seq<AccountPostState>, n: nat)
    requires |pres| == |posts|
    requires n <= |posts|
    requires ResolveClaims(ctx, program, pres[..n], posts[..n]).Err?
    ensures ResolveClaims(ctx, program, pres, posts) == ResolveClaims(ctx, program, pres[..n], posts[..n])
  {
    hide ResolveClaim;
    var last := |posts| - 1;
    if n == |posts| {
      assert pres[..n] == pres && posts[..n] == posts;
    } else {
      assert pres[..last][..n] == pres[..n] && posts[..last][..n] == posts[..n];
      RefusedClaimRefusesAll(ctx, program, pres[..last], posts[..last], n);
    }
  }

  lemma ResolveNoClaims(ctx: Context, program: ProgramId)
    ensures ResolveClaims(ctx, program, [], []) == Ok([])
  {
  }

  lemma ResolveClaimsNext(
    ctx: Context, program: ProgramId, pres: seq<AccountWithMetadata>, posts: seq<AccountPostState>, i: nat)
    requires |pres| == |posts|
    requires i < |posts|
    ensures ResolveClaims(ctx, program, pres[..i + 1], posts[..i + 1]) ==
      match ResolveClaims(ctx, program, pres[..i], posts[..i])
      case Err(e) => Err(e)
      case Ok(init) =>
        match ResolveClaim(ctx, program, pres[i], posts[i])
        case Err(e) => Err(e)
        case Ok(claimed) => Ok(init + [claimed])
  {
    assert pres[..i + 1][..i] == pres[..i] && posts[..i + 1][..i] == posts[..i];
  }

  method ResolveClaimsInPlace(ctx: Context, program: ProgramId, pres: seq<AccountWithMetadata>,
                              outputPosts: seq<AccountPostState>)
    returns (r: Outcome<seq<AccountPostState>>)
    requires |pres| == |outputPosts|
    ensures r == ResolveClaims(ctx, program, pres, outputPosts)
  {
    hide ResolveClaims;
    var posts := outputPosts;
    assert ResolveClaims(ctx, program, pres[..0], outputPosts[..0]) == Ok(posts[..0]) by {
      ResolveNoClaims(ctx, program);
    }
    for i := 0 to |posts|
      invariant |posts| == |outputPosts|
      invariant posts[i..] == outputPosts[i..]
      invariant ResolveClaims(ctx, program, pres[..i], outputPosts[..i]) == Ok(posts[..i])
    {
      var pre, post := pres[i], posts[i];
      assert post == outputPosts[i..][0];
      ResolveClaimsNext(ctx, program, pres, outputPosts, i);
      if post.claim.Some? {
        if post.account.owner != DEFAULT_PROGRAM_ID {
          RefusedClaimRefusesAll(ctx, program, pres, outputPosts, i + 1);
          return Err(ClaimedNonDefaultAccount(pre.id));
        }
        match post.claim.value {
          case Authorized =>
            if !pre.isAuthorized {
              RefusedClaimRefusesAll(ctx, program, pres, outputPosts, i + 1);
              return Err(ClaimedUnauthorizedAccount(pre.id));
            }
          case Pda(seed) =>
            var pda := ctx.publicPda(program, seed);
            if pre.id != pda {
              RefusedClaimRefusesAll(ctx, program, pres, outputPosts, i + 1);
              return Err(MismatchedPdaClaim(pda, pre.id));
            }
        }
        posts := posts[i := post.(account := post.account.(owner := program))];
      }
      assert posts[..i + 1] == posts[..i] + [posts[i]];
    }
    assert pres[..|posts|] == pres && outputPosts[..|posts|] == outputPosts && posts[..|posts|] == posts;
    return Ok(posts);
  }

  method UpdateStateDiff(diff: Accounts, pres: seq<AccountWithMetadata>, posts: seq<AccountPostState>)
    returns (updated: Accounts)
    requires |pres| == |posts|
    ensures updated == Record(diff, Ids(pres), PostAccounts(posts))
  {
    updated := diff;
    ghost var ids, accounts := Ids(pres), PostAccounts(posts);
    for i := 0 to |pres|
      invariant updated == Record(diff, ids[..i], accounts[..i])
    {
      updated := updated[pres[i].id := posts[i].account];
      assert ids[..i + 1][..i] == ids[..i] && accounts[..i + 1][..i] == accounts[..i];
    }
    assert ids[..|pres|] == ids && accounts[..|pres|] == accounts;
  }

  /** Pushing the chained calls in reverse leaves them at the front in their own order. */
  method PushChildren(done: Executed, pending: seq<WorkItem>) returns (queue: seq<WorkItem>)
    ensures queue == Children(done) + pending
  {
    queue := pending;
    var authorized := AuthorizedBelow(done);
    var i := |done.output.chainedCalls|;
    while i > 0
      invariant 0 <= i <= |done.output.chainedCalls|
      invariant queue == Children(done)[i..] + pending
    {
      i := i - 1;
      var caller := CallerData(Some(done.item.call.programId), authorized);
      queue := [WorkItem(done.output.chainedCalls[i], caller, Some(done))] + queue;
      assert Children(done)[i..] == [Children(done)[i]] + Children(done)[i + 1..];
    }
  }

  /** The body of the loop up to the update of the diff. */
  method ExecuteCall(ctx: Context, item: WorkItem, diff: Accounts) returns (r: Outcome<Executed>)
    ensures r == Execute(ctx, item, diff)
    ensures r.Ok? ==> |r.value.output.preStates| == |r.value.posts|
  {
    var program := item.call.programId;
    if program !in ctx.programs {
      return Err(UnknownProgram);
    }
    var ran := ctx.execute(program, item.caller.programId, item.call.preStates, item.call.instruction);
    if ran.None? {
      return Err(ProgramExecutionFailed);
    }
    var output := ran.value;
    var consistent := CheckOutputPreStates(ctx, item, diff, output.preStates);
    if consistent.Fail? {
      return Err(consistent.error);
    }
    if output.selfProgramId != program {
      return Err(MismatchedProgramId);
    }
    if output.callerProgramId != item.caller.programId {
      return Err(MismatchedCallerProgramId);
    }
    var valid := ValidateExecution(output.preStates, output.postStates, program);
    if valid.Fail? {
      return Err(ExecutionValidationFailed(valid.error));
    }
    ValidateExecutionMeaning(output.preStates, output.postStates, program);
    if !(output.blockWindow.Contains(ctx.blockId) && output.timestampWindow.Contains(ctx.timestamp)) {
      return Err(OutOfValidityWindow);
    }
    var posts := ResolveClaimsInPlace(ctx, program, output.preStates, output.postStates);
    if posts.Err? {
      return Err(posts.error);
    }
    return Ok(Executed(item, output, posts.value));
  }

  /** A changed account that had no owner and has none now. */
  predicate LeftUnclaimed(accounts: Accounts, diff: Accounts, id: AccountId) {
    && id in diff && Lookup(accounts, id).owner == DEFAULT_PROGRAM_ID
    && Lookup(accounts, id) != diff[id] && diff[id].owner == DEFAULT_PROGRAM_ID
  }

  /** The final check, visiting the diff in whatever order the map yields its entries: it names an unclaimed
      account if and only if there is one. */
  method CheckModifiedDefaults(accounts: Accounts, diff: Accounts) returns (unclaimed: Option<AccountId>)
    ensures unclaimed.None? <==> ModifiedDefaultsClaimed(accounts, diff)
    ensures unclaimed.Some? ==> LeftUnclaimed(accounts, diff, unclaimed.value)
  {
    var left := diff.Keys;
    while left != {}
      invariant left <= diff.Keys
      invariant ModifiedDefaultsClaimed(accounts, map id | id in diff && id !in left :: diff[id])
    {
      var id :| id in left;
      var pre, post := Lookup(accounts, id), diff[id];
      if pre.owner == DEFAULT_PROGRAM_ID && pre != post && post.owner == DEFAULT_PROGRAM_ID {
        return Some(id);
      }
      left := left - {id};
    }
    assert (map id | id in diff && id !in left :: diff[id]) == diff;
    return None;
  }

  /** The deque loop computes exactly what the recursive evaluator does: same calls in the same
      order, same diff, same error. */
  method RunDeque(ctx: Context) returns (r: Outcome<Accounts>, ghost trace: seq<Executed>)
    ensures r == match RunCalls(ctx) case Err(e) => Err(e) case Ok(p) => Ok(p.diff)
    ensures r.Ok? ==> RunCalls(ctx) == Ok(Progress(r.value, trace))
  {
    var stateDiff: Accounts := map[];
    var queue := [RootItem(ctx)];
    var counter := 0;
    trace := [];
    ghost var whole := EvalCall(ctx, RootItem(ctx), Progress(map[], []));
    assert EvalAll(ctx, queue, Progress(stateDiff, trace)) == whole by {
      if whole.Ok? {
        assert queue[1..] == [];
        assert EvalAll(ctx, queue[1..], whole.value) == whole;
      }
    }
    while queue != []
      invariant counter == |trace| <= MAX_NUMBER_CHAINED_CALLS + 1
      invariant EvalAll(ctx, queue, Progress(stateDiff, trace)) == whole
      decreases MAX_NUMBER_CHAINED_CALLS + 1 - counter
    {
      var item := queue[0];
      queue := queue[1..];
      if counter > MAX_NUMBER_CHAINED_CALLS {
        return Err(MaxChainedCallsDepthExceeded), trace;
      }
      var step := ExecuteCall(ctx, item, stateDiff);
      if step.Err? {
        return Err(step.error), trace;
      }
      var done := step.value;
      ghost var rest := queue;
      stateDiff := UpdateStateDiff(stateDiff, done.output.preStates, done.posts);
      queue := PushChildren(done, queue);
      counter := counter + 1;
      trace := trace + [done];
      EvalAllAppend(ctx, Children(done), rest, Progress(stateDiff, trace));
    }
    var unclaimed := CheckModifiedDefaults(ctx.accounts, stateDiff);
    if unclaimed.Some? {
      return Err(DefaultAccountModifiedWithoutClaim), trace;
    }
    return Ok(stateDiff), trace;
  }
}
