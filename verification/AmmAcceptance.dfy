/** When the loop accepts an AMM transaction: the calls the AMM chains do not interfere, so running them one
    after the other succeeds exactly when each would succeed alone on the state the AMM left. */
module AmmAcceptance {
  import opened Core
  import opened Sums
  import opened Execution
  import opened Calls
  import opened CallTrace
  import opened Token
  import opened TokenSupply
  import opened Amm
  import opened AmmPools
  import opened AmmCalls

  // -------------------------------------------------- a call reads only what it names

  /** Two overlays show the same account at `id`. */
  ghost predicate SameAt(ctx: Context, diff: Accounts, other: Accounts, id: AccountId) {
    Lookup(ctx.accounts + diff, id) == Lookup(ctx.accounts + other, id)
  }

  lemma {:induction false} PreStatesAgree(current: Accounts, other: Accounts,
                                          granted: set<AccountId>, pres: seq<AccountWithMetadata>)
    requires forall i :: 0 <= i < |pres| ==> Lookup(current, pres[i].id) == Lookup(other, pres[i].id)
    ensures CheckPreStates(current, granted, pres) == CheckPreStates(other, granted, pres)
  {
    if pres != [] {
      PreStatesAgree(current, other, granted, pres[1..]);
    }
  }

  /** The outcome of a call depends on the overlay only at the accounts its program reports. */
  lemma ExecuteIsLocal(ctx: Context, item: WorkItem, diff: Accounts, other: Accounts)
    requires var ran := ctx.execute(item.call.programId, item.caller.programId, item.call.preStates, item.call.instruction);
      ran.Some? ==> forall i :: 0 <= i < |ran.value.preStates| ==> SameAt(ctx, diff, other, ran.value.preStates[i].id)
    ensures Execute(ctx, item, diff) == Execute(ctx, item, other)
  {
    hide CheckPreStates, ValidateExecution, Granted, ResolveClaims;
    var ran := ctx.execute(item.call.programId, item.caller.programId, item.call.preStates, item.call.instruction);
    if ran.Some? {
      PreStatesAgree(ctx.accounts + diff, ctx.accounts + other, Granted(ctx, item), ran.value.preStates);
    }
  }

  // ------------------------------------------------------ calls on different accounts

  /** A call that names `id`. */
  predicate Names(item: WorkItem, id: AccountId) {
    id in Ids(item.call.preStates)
  }

  ghost predicate Disjoint(items: seq<WorkItem>) {
    forall j, m, id :: 0 <= j < m < |items| && Names(items[j], id) ==> !Names(items[m], id)
  }

  /** A call of a leaf program reports the accounts it was given, and chains nothing. */
  lemma LeafItem(ctx: Context, item: WorkItem, diff: Accounts, leaf: ProgramId)
    requires IsLeaf(ctx, leaf) && item.call.programId == leaf
    requires Execute(ctx, item, diff).Ok?
    ensures var done := Execute(ctx, item, diff).value;
      && done.output.preStates == item.call.preStates && |done.output.preStates| == |done.posts|
      && Children(done) == []
    ensures Distinct(Ids(item.call.preStates))
  {
    hide Execute, Effects, Distinct;
    ExecuteOutput(ctx, item, diff);
    ExecutedIsBalanced(ctx, item, diff);
    AcceptedCallIsLawful(ctx, item, diff);
  }

  /** What an overlay shows after a leaf call: its post-states at the accounts it names, the same elsewhere. */
  lemma LeafWrites(ctx: Context, item: WorkItem, diff: Accounts, base: Accounts, done: Executed, id: AccountId)
    requires done.output.preStates == item.call.preStates && |done.output.preStates| == |done.posts|
    requires Distinct(Ids(item.call.preStates))
    ensures Names(item, id) ==> SameAt(ctx, Write(diff, done), Write(base, done), id)
    ensures !Names(item, id) ==> SameAt(ctx, Write(diff, done), diff, id)
  {
    hide Record, Distinct;
    var ids, after := Ids(done.output.preStates), PostAccounts(done.posts);
    if id in ids {
      var i :| 0 <= i < |ids| && ids[i] == id;
      RecordAt(diff, ids, after, i);
      RecordAt(base, ids, after, i);
    } else {
      RecordElsewhere(diff, ids, after, id);
    }
  }

  /** The overlay after one call by itself on `base`. */
  ghost function Alone(ctx: Context, item: WorkItem, base: Accounts): Accounts {
    match Execute(ctx, item, base)
    case Err(_) => base
    case Ok(done) => if |done.output.preStates| == |done.posts| then Write(base, done) else base
  }

  lemma SameAlone(ctx: Context, item: WorkItem, diff: Accounts, base: Accounts, leaf: ProgramId)
    requires IsLeaf(ctx, leaf) && item.call.programId == leaf
    requires forall id :: Names(item, id) ==> SameAt(ctx, diff, base, id)
    ensures Execute(ctx, item, diff) == Execute(ctx, item, base)
  {
    hide Execute, Effects, SameAt;
    var pres := item.call.preStates;
    forall i | 0 <= i < |pres|
      ensures SameAt(ctx, diff, base, pres[i].id)
    {
      assert Ids(pres)[i] == pres[i].id;
      assert Names(item, pres[i].id);
    }
    ExecuteIsLocal(ctx, item, diff, base);
  }

  /** Running one leaf call: it succeeds as it would on `base`, writes the same there, and nothing elsewhere. */
  lemma OneCall(ctx: Context, item: WorkItem, p: Progress, base: Accounts, leaf: ProgramId) returns (next: Progress)
    requires IsLeaf(ctx, leaf) && item.call.programId == leaf
    requires |p.trace| <= MAX_NUMBER_CHAINED_CALLS
    requires forall id :: Names(item, id) ==> SameAt(ctx, p.diff, base, id)
    ensures EvalCall(ctx, item, p).Ok? <==> Execute(ctx, item, base).Ok?
    ensures EvalCall(ctx, item, p).Ok? ==>
      && EvalCall(ctx, item, p) == Ok(next) && |next.trace| == |p.trace| + 1
      && (forall id :: Names(item, id) ==> SameAt(ctx, next.diff, Alone(ctx, item, base), id))
      && (forall id :: !Names(item, id) ==> SameAt(ctx, next.diff, p.diff, id))
  {
    hide Execute, IsLeaf, SameAt, Names;
    next := p;
    SameAlone(ctx, item, p.diff, base, leaf);
    if Execute(ctx, item, base).Ok? {
      var done := Execute(ctx, item, base).value;
      LeafItem(ctx, item, base, leaf);
      next := Progress(Write(p.diff, done), p.trace + [done]);
      assert EvalAll(ctx, [], next) == Ok(next);
      forall id
        ensures Names(item, id) ==> SameAt(ctx, next.diff, Alone(ctx, item, base), id)
        ensures !Names(item, id) ==> SameAt(ctx, next.diff, p.diff, id)
      {
        LeafWrites(ctx, item, p.diff, base, done, id);
      }
    }
  }

  lemma SameAtTransitive(ctx: Context, x: Accounts, y: Accounts, z: Accounts, id: AccountId)
    requires SameAt(ctx, x, y, id) && SameAt(ctx, y, z, id)
    ensures SameAt(ctx, x, z, id)
  {
  }

  ghost predicate Unnamed(items: seq<WorkItem>, id: AccountId) {
    forall j :: 0 <= j < |items| ==> !Names(items[j], id)
  }

  /** Leaf calls on different accounts, run in order, succeed exactly when each succeeds on `base` by itself;
      the overlay then shows each call's own result where it wrote, and is unchanged elsewhere. */
  lemma {:induction false} CallsAreIndependent(ctx: Context, items: seq<WorkItem>,
                                               p: Progress, base: Accounts, leaf: ProgramId)
    requires IsLeaf(ctx, leaf)
    requires forall j :: 0 <= j < |items| ==> items[j].call.programId == leaf
    requires Disjoint(items) && |p.trace| + |items| <= MAX_NUMBER_CHAINED_CALLS + 1
    requires forall j, id :: 0 <= j < |items| && Names(items[j], id) ==> SameAt(ctx, p.diff, base, id)
    ensures EvalAll(ctx, items, p).Ok? <==> forall j :: 0 <= j < |items| ==> Execute(ctx, items[j], base).Ok?
    ensures EvalAll(ctx, items, p).Ok? ==> var q := EvalAll(ctx, items, p).value;
      && (forall j, id :: 0 <= j < |items| && Names(items[j], id) ==> SameAt(ctx, q.diff, Alone(ctx, items[j], base), id))
      && (forall id :: Unnamed(items, id) ==> SameAt(ctx, q.diff, p.diff, id))
    decreases |items|
  {
    hide Execute, IsLeaf, Names, Alone, EvalCall, Lookup;
    if items != [] {
      hide SameAt;
      var item, rest := items[0], items[1..];
      assert forall j :: 0 <= j < |rest| ==> rest[j] == items[j + 1];
      var next := OneCall(ctx, item, p, base, leaf);
      if EvalCall(ctx, item, p).Ok? {
        forall j, id | 0 <= j < |rest| && Names(rest[j], id)
          ensures SameAt(ctx, next.diff, base, id)
        {
          assert Names(items[j + 1], id) && !Names(item, id);
          SameAtTransitive(ctx, next.diff, p.diff, base, id);
        }
        CallsAreIndependent(ctx, rest, next, base, leaf);
        assert forall j :: 1 <= j < |items| ==> items[j] == rest[j - 1];
        if EvalAll(ctx, rest, next).Ok? {
          var q := EvalAll(ctx, rest, next).value;
          assert EvalAll(ctx, items, p) == Ok(q);
          forall j, id | 0 <= j < |items| && Names(items[j], id)
            ensures SameAt(ctx, q.diff, Alone(ctx, items[j], base), id)
          {
            if j == 0 {
              assert Unnamed(rest, id);
              SameAtTransitive(ctx, q.diff, next.diff, Alone(ctx, item, base), id);
            } else {
              assert Names(rest[j - 1], id);
            }
          }
          forall id | Unnamed(items, id)
            ensures SameAt(ctx, q.diff, p.diff, id)
          {
            assert Unnamed(rest, id) && !Names(items[0], id);
            SameAtTransitive(ctx, q.diff, next.diff, p.diff, id);
          }
        }
      }
    }
  }

  // ------------------------------------------------------------ whole transactions

  /** The account at `id` is as it was, or had an owner, or has one now. */
  ghost predicate SettledAt(ctx: Context, diff: Accounts, id: AccountId) {
    var pre, post := Lookup(ctx.accounts, id), Lookup(ctx.accounts + diff, id);
    pre.owner != DEFAULT_PROGRAM_ID || pre == post || post.owner != DEFAULT_PROGRAM_ID
  }

  lemma ClaimedEverywhere(ctx: Context, diff: Accounts)
    ensures ModifiedDefaultsClaimed(ctx.accounts, diff) <==> forall id :: SettledAt(ctx, diff, id)
  {
    if ModifiedDefaultsClaimed(ctx.accounts, diff) {
      forall id
        ensures SettledAt(ctx, diff, id)
      {
      }
    }
    if forall id :: SettledAt(ctx, diff, id) {
      forall id | id in diff
        ensures Lookup(ctx.accounts, id).owner != DEFAULT_PROGRAM_ID || Lookup(ctx.accounts, id) == diff[id]
             || diff[id].owner != DEFAULT_PROGRAM_ID
      {
        assert SettledAt(ctx, diff, id);
      }
    }
  }

  /** The call by itself is executed and leaves no changed account unclaimed. */
  ghost predicate AcceptedAlone(ctx: Context, item: WorkItem, base: Accounts) {
    Execute(ctx, item, base).Ok? && ModifiedDefaultsClaimed(ctx.accounts, Alone(ctx, item, base))
  }

  /** What the final check sees after all calls is settled exactly when it is after each call alone. */
  lemma SettledTogether(ctx: Context, items: seq<WorkItem>, base: Accounts, all: Accounts, pool: AccountId)
    requires items != []
    requires forall j, id :: 0 <= j < |items| && Names(items[j], id) ==> SameAt(ctx, all, Alone(ctx, items[j], base), id)
    requires forall j, id :: 0 <= j < |items| && !Names(items[j], id) ==> SameAt(ctx, Alone(ctx, items[j], base), base, id)
    requires forall id :: Unnamed(items, id) ==> SameAt(ctx, all, base, id)
    requires forall id :: id != pool ==> Lookup(ctx.accounts + base, id) == Lookup(ctx.accounts, id)
    requires Unnamed(items, pool)
    ensures ModifiedDefaultsClaimed(ctx.accounts, all)
       <==> forall j :: 0 <= j < |items| ==> ModifiedDefaultsClaimed(ctx.accounts, Alone(ctx, items[j], base))
  {
    hide Lookup, Alone, Names, ModifiedDefaultsClaimed;
    ClaimedEverywhere(ctx, all);
    forall j | 0 <= j < |items|
      ensures ModifiedDefaultsClaimed(ctx.accounts, Alone(ctx, items[j], base))
         <==> forall id :: SettledAt(ctx, Alone(ctx, items[j], base), id)
    {
      ClaimedEverywhere(ctx, Alone(ctx, items[j], base));
    }
    if forall id :: SettledAt(ctx, all, id) {
      forall j, id | 0 <= j < |items|
        ensures SettledAt(ctx, Alone(ctx, items[j], base), id)
      {
        assert SettledAt(ctx, all, id);
        if !Names(items[j], id) {
          assert SameAt(ctx, Alone(ctx, items[j], base), base, id);
          assert id == pool ==> SameAt(ctx, all, base, id);
        }
      }
    }
    if forall j :: 0 <= j < |items| ==> ModifiedDefaultsClaimed(ctx.accounts, Alone(ctx, items[j], base)) {
      forall id
        ensures SettledAt(ctx, all, id)
      {
        var j :| 0 <= j < |items| && (Names(items[j], id) || Unnamed(items, id)) by {
          if Unnamed(items, id) {
            assert 0 < |items| && (Names(items[0], id) || Unnamed(items, id));
          }
        }
        assert ModifiedDefaultsClaimed(ctx.accounts, Alone(ctx, items[j], base));
        assert SettledAt(ctx, Alone(ctx, items[j], base), id);
      }
    }
  }

  lemma AloneElsewhere(ctx: Context, item: WorkItem, base: Accounts, leaf: ProgramId, id: AccountId)
    requires IsLeaf(ctx, leaf) && item.call.programId == leaf
    requires !Names(item, id)
    ensures SameAt(ctx, Alone(ctx, item, base), base, id)
  {
    hide Execute, IsLeaf, Names, Write;
    if Execute(ctx, item, base).Ok? {
      LeafItem(ctx, item, base, leaf);
      LeafWrites(ctx, item, base, base, Execute(ctx, item, base).value, id);
    }
  }

  /** What an executed AMM call leaves: calls on different accounts, none of them the pool, and every account
      but the pool as it was. */
  lemma AmmCallLeaves(ctx: Context, item: WorkItem, diff: Accounts,
                      amm: ProgramId, p: Profile, at: Addresses, done: Executed)
      returns (pool: AccountId)
    requires RunsAmm(ctx.execute, amm, p, at) && item.call.programId == amm
    requires Execute(ctx, item, diff) == Ok(done)
    ensures |done.output.preStates| == |done.posts| && 2 <= |done.output.chainedCalls| <= 3
    ensures |item.call.preStates| > 0 && pool == item.call.preStates[0].id
    ensures Disjoint(Children(done)) && Unnamed(Children(done), pool)
    ensures forall id :: id != pool ==> SameAt(ctx, Write(diff, done), diff, id)
  {
    hide Execute, RunsAmm, AmmEffects, PoolChanges, FromSlots, Separate, Lookup, Record, Lawful;
    ExecutedIsBalanced(ctx, item, diff);
    ExecuteOutput(ctx, item, diff);
    AcceptedCallIsLawful(ctx, item, diff);
    var out := AmmExecuted(ctx, ctx.accounts + diff, done, amm, p, at);
    RecordOverlay(ctx.accounts, diff, Ids(done.output.preStates), PostAccounts(done.posts));
    var s := item.call.preStates;
    pool := s[0].id;
    forall id | id != pool
      ensures SameAt(ctx, Write(diff, done), diff, id)
    {
      assert Lookup(Write(ctx.accounts + diff, done), id) == Lookup(ctx.accounts + diff, id);
    }
    var slots := AmmCallsAreSeparate(p, at, s, InstructionOf(done), out);
    SeparateCalls(s, done, slots);
  }

  lemma SeparateCalls(s: seq<AccountWithMetadata>, root: Executed, slots: seq<(nat, nat)>)
    requires |s| > 0 && Distinct(Ids(s))
    requires FromSlots(s, root.output.chainedCalls, slots) && Separate(slots)
    ensures Disjoint(Children(root)) && Unnamed(Children(root), s[0].id) && |slots| == |root.output.chainedCalls|
  {
    hide Uses, Separate, Distinct;
    var items, calls := Children(root), root.output.chainedCalls;
    forall j, id | 0 <= j < |items| && Names(items[j], id)
      ensures |slots| == |calls| && 1 <= slots[j].0 < |s| && 1 <= slots[j].1 < |s|
      ensures id == s[slots[j].0].id || id == s[slots[j].1].id
      ensures id != s[0].id
    {
      NamedSlots(s, calls, slots, j, id);
    }
    forall j, m, id | 0 <= j < m < |items| && Names(items[j], id)
      ensures !Names(items[m], id)
    {
      if Names(items[m], id) {
        SlotIdsDiffer(s, slots, j, m);
      }
    }
  }

  lemma NamedSlots(s: seq<AccountWithMetadata>, calls: seq<ChainedCall>, slots: seq<(nat, nat)>, j: nat, id: AccountId)
    requires |s| > 0 && Distinct(Ids(s))
    requires FromSlots(s, calls, slots) && j < |calls| && id in Ids(calls[j].preStates)
    ensures |slots| == |calls| && 1 <= slots[j].0 < |s| && 1 <= slots[j].1 < |s|
    ensures id == s[slots[j].0].id || id == s[slots[j].1].id
    ensures id != s[0].id
  {
    hide FromSlots;
    SlotUse(s, calls, slots, j);
    var pres := calls[j].preStates;
    var i :| 0 <= i < |pres| && Ids(pres)[i] == id;
    assert i == 0 || i == 1;
    assert Ids(s)[0] != Ids(s)[slots[j].0] && Ids(s)[0] != Ids(s)[slots[j].1];
  }

  /** An executed AMM call, at any point of any transaction, goes through with all it chains exactly when the
      call limit leaves room and every call it chains would be executed by itself right after it: no order,
      and no earlier call, makes a difference. The paying program may be any that chains nothing. */
  lemma AmmSubtreeExactly(ctx: Context, item: WorkItem, p: Progress, amm: ProgramId,
                          leaf: ProgramId, profile: Profile, at: Addresses, done: Executed)
    requires RunsAmm(ctx.execute, amm, profile, at) && IsLeaf(ctx, leaf)
    requires item.call.programId == amm && |p.trace| <= MAX_NUMBER_CHAINED_CALLS
    requires Execute(ctx, item, p.diff) == Ok(done) && ChainsOnly(done, leaf)
    ensures |done.output.preStates| == |done.posts|
    ensures EvalCall(ctx, item, p).Ok? <==>
      && |p.trace| + 1 + |Children(done)| <= MAX_NUMBER_CHAINED_CALLS + 1
      && forall j :: 0 <= j < |Children(done)| ==> Execute(ctx, Children(done)[j], Write(p.diff, done)).Ok?
  {
    hide Execute, RunsAmm, IsLeaf, Lookup, Names, Alone, Write;
    var pool := AmmCallLeaves(ctx, item, p.diff, amm, profile, at, done);
    var items, base := Children(done), Write(p.diff, done);
    var next := Progress(base, p.trace + [done]);
    assert EvalCall(ctx, item, p) == EvalAll(ctx, items, next);
    if |next.trace| + |items| <= MAX_NUMBER_CHAINED_CALLS + 1 {
      CallsAreIndependent(ctx, items, next, base, leaf);
    } else if EvalAll(ctx, items, next).Ok? {
      LeafNeverChains(ctx, leaf);
      LeavesRunInOrder(ctx, items, next, leaf);
    }
  }

  /** An AMM transaction whose call executes is accepted exactly when every call it chains would be
      accepted by itself right after the AMM's. */
  lemma AmmAcceptedExactly(ctx: Context, amm: ProgramId, leaf: ProgramId, p: Profile, at: Addresses, root: Executed)
    requires RunsAmm(ctx.execute, amm, p, at) && IsLeaf(ctx, leaf)
    requires ctx.initialCall.programId == amm
    requires Execute(ctx, RootItem(ctx), map[]) == Ok(root) && ChainsOnly(root, leaf)
    ensures |root.output.preStates| == |root.posts|
    ensures RunCalls(ctx).Ok? <==>
      forall j :: 0 <= j < |Children(root)| ==> AcceptedAlone(ctx, Children(root)[j], Write(map[], root))
  {
    hide Execute, RunsAmm, IsLeaf, Lookup, Names, Alone, ModifiedDefaultsClaimed, Write;
    var pool := AmmCallLeaves(ctx, RootItem(ctx), map[], amm, p, at, root);
    var items, base := Children(root), Write(map[], root);
    var start := Progress(base, [root]);
    assert [] + [root] == [root];
    CallsAreIndependent(ctx, items, start, base, leaf);
    assert EvalCall(ctx, RootItem(ctx), Progress(map[], [])) == EvalAll(ctx, items, start);
    if EvalAll(ctx, items, start).Ok? {
      var q := EvalAll(ctx, items, start).value;
      forall j, id | 0 <= j < |items| && !Names(items[j], id)
        ensures SameAt(ctx, Alone(ctx, items[j], base), base, id)
      {
        AloneElsewhere(ctx, items[j], base, leaf, id);
      }
      forall id | id != pool
        ensures Lookup(ctx.accounts + base, id) == Lookup(ctx.accounts, id)
      {
        assert SameAt(ctx, base, map[], id) && ctx.accounts + map[] == ctx.accounts;
      }
      SettledTogether(ctx, items, base, q.diff, pool);
    }
  }
}
