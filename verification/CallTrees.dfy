/** The chain of calls of a transaction as a tree: exactly when it is accepted, without the evaluator. */
module CallTrees {
  import opened Core
  import opened Calls
  import opened CallTrace
  import opened CallRules

  /** An executed call with the trees of the calls it chained. */
  datatype CallTree = CallTree(call: Executed, below: seq<CallTree>)

  /** The calls of a tree, each before the calls it chained, left to right. */
  ghost function Preorder(t: CallTree): seq<Executed>
    decreases t
  {
    [t.call] + PreorderAll(t.below)
  }

  ghost function PreorderAll(ts: seq<CallTree>): seq<Executed>
    decreases ts
  {
    if ts == [] then [] else Preorder(ts[0]) + PreorderAll(ts[1..])
  }

  /** The item `parent` leaves for the `i`-th call it chains: the call as listed, the parent as its caller, and
      everything authorized for the parent or seen authorized by it. */
  ghost predicate ChainedBy(parent: Executed, i: nat, item: WorkItem)
    requires i < |parent.output.chainedCalls|
  {
    && item.call == parent.output.chainedCalls[i]
    && item.caller.programId == Some(parent.item.call.programId)
    && (forall id :: id in item.caller.authorized <==> id in parent.item.caller.authorized || SawAuthorized(parent, id))
    && item.parent == Some(parent)
  }

  /** Below each call are exactly the calls it chained, in order. */
  ghost predicate Grown(t: CallTree)
    decreases t
  {
    && |t.below| == |t.call.output.chainedCalls|
    && forall i :: 0 <= i < |t.below| ==> ChainedBy(t.call, i, t.below[i].call.item) && Grown(t.below[i])
  }

  /** The transaction's own call, on behalf of nobody but its signers. */
  ghost predicate IsRoot(ctx: Context, item: WorkItem) {
    && item.call == ctx.initialCall && item.parent.None?
    && item.caller.programId.None? && item.caller.authorized == ctx.signers
  }

  /** From the `n`-th on, each call ran as ruled on the accounts left by the calls before it. */
  ghost predicate RuledFrom(ctx: Context, trace: seq<Executed>, n: nat) {
    && Balanced(trace)
    && forall k :: n <= k < |trace| ==> RanAsRuled(ctx, trace[k].item, World(ctx, trace, k), trace[k])
  }

  /** No account that was without an owner is left changed and still without one. */
  ghost predicate NoneLeftUnclaimed(before: Accounts, after: Accounts) {
    forall id {:trigger Lookup(after, id)} ::
      Lookup(before, id).owner == DEFAULT_PROGRAM_ID && Lookup(after, id) != Lookup(before, id) ==>
        Lookup(after, id).owner != DEFAULT_PROGRAM_ID
  }

  /** The tree of a transaction that is to be accepted. */
  ghost predicate Succeeds(ctx: Context, t: CallTree) {
    && IsRoot(ctx, t.call.item) && Grown(t)
    && |Preorder(t)| <= 11
    && RuledFrom(ctx, Preorder(t), 0)
    && NoneLeftUnclaimed(ctx.accounts, Replay(ctx.accounts, Preorder(t)))
  }

  // ------------------------------------------------------------ runs grow trees

  lemma ChainedByChild(parent: Executed, i: nat, item: WorkItem)
    requires i < |parent.output.chainedCalls|
    ensures ChainedBy(parent, i, item) <==> item == Children(parent)[i]
  {
    hide SawAuthorized, AuthorizedBelow;
    forall id
      ensures id in AuthorizedBelow(parent) <==> id in parent.item.caller.authorized || SawAuthorized(parent, id)
    {
      BelowExactly(parent, id);
    }
    if ChainedBy(parent, i, item) {
      assert item.caller.authorized == AuthorizedBelow(parent);
    }
  }

  lemma {:induction false} CallGrowsTree(ctx: Context, item: WorkItem, p: Progress) returns (t: CallTree)
    requires EvalCall(ctx, item, p).Ok?
    ensures t.call.item == item && Grown(t) && EvalCall(ctx, item, p).value.trace == p.trace + Preorder(t)
    decreases Remaining(p), 0
  {
    hide Execute, Children;
    var done := Execute(ctx, item, p.diff).value;
    ExecutedIsBalanced(ctx, item, p.diff);
    var below := GroupGrowsTrees(ctx, Children(done), Progress(Write(p.diff, done), p.trace + [done]));
    t := CallTree(done, below);
    ChildrenCount(done);
    forall i | 0 <= i < |below|
      ensures ChainedBy(done, i, below[i].call.item)
    {
      ChainedByChild(done, i, below[i].call.item);
    }
    assert p.trace + [done] + PreorderAll(below) == p.trace + Preorder(t);
  }

  lemma ChildrenCount(done: Executed)
    ensures |Children(done)| == |done.output.chainedCalls|
  {
  }

  lemma {:induction false} GroupGrowsTrees(ctx: Context, items: seq<WorkItem>, p: Progress) returns (ts: seq<CallTree>)
    requires EvalAll(ctx, items, p).Ok?
    ensures |ts| == |items|
    ensures forall i :: 0 <= i < |items| ==> ts[i].call.item == items[i] && Grown(ts[i])
    ensures EvalAll(ctx, items, p).value.trace == p.trace + PreorderAll(ts)
    decreases Remaining(p), |items|
  {
    hide Execute, Grown;
    if items == [] {
      ts := [];
    } else {
      var first := CallGrowsTree(ctx, items[0], p);
      var q := EvalCall(ctx, items[0], p).value;
      var rest := GroupGrowsTrees(ctx, items[1..], q);
      ts := [first] + rest;
      assert ts[1..] == rest;
      assert p.trace + Preorder(first) + PreorderAll(rest) == p.trace + PreorderAll(ts);
    }
  }

  // ------------------------------------------------------------------ trees run

  lemma RuledPrefix(ctx: Context, trace: seq<Executed>, more: seq<Executed>, n: nat)
    requires RuledFrom(ctx, trace + more, n)
    ensures RuledFrom(ctx, trace, n)
  {
    hide RanAsRuled, Replay;
    var all := trace + more;
    assert forall k :: 0 <= k < |trace| ==> all[k] == trace[k];
    forall k | n <= k < |trace|
      ensures RanAsRuled(ctx, trace[k].item, World(ctx, trace, k), trace[k])
    {
      assert all[..k] == trace[..k];
      assert RanAsRuled(ctx, all[k].item, World(ctx, all, k), all[k]);
    }
  }

  lemma {:induction false} TreeRuns(ctx: Context, t: CallTree, p: Progress)
    requires Grown(t) && Balanced(p.trace) && p.diff == Replay(map[], p.trace)
    requires RuledFrom(ctx, p.trace + Preorder(t), |p.trace|) && |p.trace + Preorder(t)| <= 11
    ensures EvalCall(ctx, t.call.item, p)
         == Ok(Progress(Replay(map[], p.trace + Preorder(t)), p.trace + Preorder(t)))
    decreases t, 1
  {
    hide Execute, Replay, RanAsRuled, Children;
    var done, all := t.call, p.trace + Preorder(t);
    var next := p.trace + [done];
    assert all[|p.trace|] == done && all[..|p.trace|] == p.trace && all == next + PreorderAll(t.below);
    assert RanAsRuled(ctx, all[|p.trace|].item, World(ctx, all, |p.trace|), all[|p.trace|]);
    OverlayIsReplay(ctx.accounts, p.trace);
    RuledResult(ctx, done.item, p.diff, done);
    NextReplay(p.trace, done);
    ChildrenCount(done);
    forall i | 0 <= i < |t.below|
      ensures t.below[i].call.item == Children(done)[i]
    {
      ChainedByChild(done, i, t.below[i].call.item);
    }
    assert forall k :: 0 <= k < |next| ==> next[k] == all[k];
    TreesRun(ctx, t.below, Children(done), Progress(Write(p.diff, done), next));
  }

  lemma NextReplay(trace: seq<Executed>, done: Executed)
    requires Balanced(trace + [done])
    ensures Balanced(trace)
    ensures |done.output.preStates| == |done.posts|
    ensures Write(Replay(map[], trace), done) == Replay(map[], trace + [done])
  {
    assert (trace + [done])[|trace|] == done && (trace + [done])[..|trace|] == trace;
    assert forall k :: 0 <= k < |trace| ==> (trace + [done])[k] == trace[k];
  }

  lemma {:induction false} TreesRun(ctx: Context, ts: seq<CallTree>, items: seq<WorkItem>, p: Progress)
    requires |ts| == |items| && forall i :: 0 <= i < |ts| ==> ts[i].call.item == items[i] && Grown(ts[i])
    requires Balanced(p.trace) && p.diff == Replay(map[], p.trace)
    requires RuledFrom(ctx, p.trace + PreorderAll(ts), |p.trace|) && |p.trace + PreorderAll(ts)| <= 11
    ensures EvalAll(ctx, items, p)
         == Ok(Progress(Replay(map[], p.trace + PreorderAll(ts)), p.trace + PreorderAll(ts)))
    decreases ts, 0
  {
    hide Execute, Replay, RanAsRuled, Grown;
    if ts == [] {
      assert p.trace + [] == p.trace;
    } else {
      var q := p.trace + Preorder(ts[0]);
      assert p.trace + PreorderAll(ts) == q + PreorderAll(ts[1..]);
      RuledPrefix(ctx, q, PreorderAll(ts[1..]), |p.trace|);
      TreeRuns(ctx, ts[0], p);
      TreesRun(ctx, ts[1..], items[1..], Progress(Replay(map[], q), q));
    }
  }

  // ------------------------------------------------------------------- exactness

  lemma {:induction false} ReplayedAt(accounts: Accounts, trace: seq<Executed>, id: AccountId)
    requires Balanced(trace)
    ensures Lookup(Replay(accounts, trace), id)
         == if id in Replay(map[], trace) then Replay(map[], trace)[id] else Lookup(accounts, id)
  {
    hide Replay;
    OverlayIsReplay(accounts, trace);
  }

  lemma ClaimedExactly(accounts: Accounts, trace: seq<Executed>)
    requires Balanced(trace)
    ensures ModifiedDefaultsClaimed(accounts, Replay(map[], trace))
       <==> NoneLeftUnclaimed(accounts, Replay(accounts, trace))
  {
    hide Replay, Lookup;
    forall id
      ensures Lookup(Replay(accounts, trace), id)
           == if id in Replay(map[], trace) then Replay(map[], trace)[id] else Lookup(accounts, id)
    {
      ReplayedAt(accounts, trace, id);
    }
    if NoneLeftUnclaimed(accounts, Replay(accounts, trace)) {
      forall id | id in Replay(map[], trace)
        ensures Lookup(accounts, id).owner != DEFAULT_PROGRAM_ID || Lookup(accounts, id) == Replay(map[], trace)[id]
          || Replay(map[], trace)[id].owner != DEFAULT_PROGRAM_ID
      {
        assert Lookup(Replay(accounts, trace), id) == Replay(map[], trace)[id];
      }
    }
  }

  /** A tree that succeeds is the one that runs. */
  lemma SuccessRuns(ctx: Context, t: CallTree)
    requires Succeeds(ctx, t)
    ensures RunCalls(ctx) == Ok(Progress(Replay(map[], Preorder(t)), Preorder(t)))
  {
    hide Execute, EvalCall, Replay, RanAsRuled, Grown, NoneLeftUnclaimed, ModifiedDefaultsClaimed;
    assert [] + Preorder(t) == Preorder(t);
    EmptyTrace();
    TreeRuns(ctx, t, Progress(map[], []));
    ClaimedExactly(ctx.accounts, Preorder(t));
  }

  lemma EmptyTrace()
    ensures Balanced([]) && Replay(map[], []) == map[]
  {
  }

  /** A transaction's calls are accepted if and only if there is a tree of at most eleven calls, from its own
      call down, each running as ruled on the accounts left by those before it in preorder, that leaves no
      changed account unclaimed; and then that tree is what ran. */
  lemma AcceptedExactly(ctx: Context)
    ensures RunCalls(ctx).Ok? <==> exists t :: Succeeds(ctx, t)
    ensures forall t {:trigger Succeeds(ctx, t)} :: Succeeds(ctx, t) ==>
      RunCalls(ctx) == Ok(Progress(Replay(map[], Preorder(t)), Preorder(t)))
  {
    hide Execute, EvalCall, RunCalls, Replay, RanAsRuled, Grown, NoneLeftUnclaimed, ModifiedDefaultsClaimed;
    if RunCalls(ctx).Ok? {
      var t := AcceptedTree(ctx);
      assert Succeeds(ctx, t);
    }
    forall t {:trigger Succeeds(ctx, t)} | Succeeds(ctx, t)
      ensures RunCalls(ctx) == Ok(Progress(Replay(map[], Preorder(t)), Preorder(t)))
    {
      SuccessRuns(ctx, t);
    }
  }

  lemma AcceptedTree(ctx: Context) returns (t: CallTree)
    requires RunCalls(ctx).Ok?
    ensures Succeeds(ctx, t)
  {
    hide Execute, EvalCall, Replay, RanAsRuled, Grown, NoneLeftUnclaimed, ModifiedDefaultsClaimed, History;
    var start := Progress(map[], []);
    t := CallGrowsTree(ctx, RootItem(ctx), start);
    EmptyTrace();
    var p := RunCalls(ctx).value;
    assert p.trace == [] + Preorder(t) == Preorder(t);
    AcceptedRunHasHistory(ctx);
    RootHistory(ctx);
    HistoryIsRuled(ctx, p.trace);
    ClaimedExactly(ctx.accounts, p.trace);
  }

  lemma RootHistory(ctx: Context)
    requires RunCalls(ctx).Ok?
    ensures History(ctx, RunCalls(ctx).value.trace)
    ensures RunCalls(ctx).value.diff == Replay(map[], RunCalls(ctx).value.trace)
  {
    hide Execute, EvalCall, ModifiedDefaultsClaimed;
    EmptyTrace();
    EvalCallHistory(ctx, RootItem(ctx), Progress(map[], []));
  }

  lemma HistoryIsRuled(ctx: Context, trace: seq<Executed>)
    requires History(ctx, trace)
    ensures RuledFrom(ctx, trace, 0)
  {
    hide Execute, Replay, RanAsRuled;
    forall k | 0 <= k < |trace|
      ensures RanAsRuled(ctx, trace[k].item, World(ctx, trace, k), trace[k])
    {
      EveryCallRanAsRuled(ctx, trace, k);
    }
  }
}
