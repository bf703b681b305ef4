/** Where authorization, ownership, balance and data changes come from, over a whole chain of calls. */
module Authority {
  import opened Core
  import opened Sums
  import opened Execution
  import opened Calls
  import opened CallTrace

  // -------------------------------------------------- authorization provenance

  /** The calls from the transaction's own call down to this one. */
  ghost function Lineage(e: Executed): (line: seq<Executed>)
    ensures line != [] && line[|line| - 1] == e
    decreases e
  {
    (match e.item.parent case None => [] case Some(parent) => Lineage(parent)) + [e]
  }

  /** `callee` was chained by `caller`, which listed a seed of its own whose PDA is `id`. */
  ghost predicate ListedSeed(ctx: Context, caller: Executed, callee: Executed, id: AccountId) {
    && callee.item.call in caller.output.chainedCalls
    && exists seed :: seed in callee.item.call.pdaSeeds && id == ctx.publicPda(caller.item.call.programId, seed)
  }

  /** The account signed, or some caller on the path to this call listed a seed of its own for it. */
  ghost predicate Traceable(ctx: Context, e: Executed, id: AccountId) {
    || id in ctx.signers
    || exists j :: 1 <= j < |Lineage(e)| && ListedSeed(ctx, Lineage(e)[j - 1], Lineage(e)[j], id)
  }

  lemma ParentPosition(ctx: Context, trace: seq<Executed>, k: nat) returns (m: nat)
    requires History(ctx, trace) && k < |trace|
    requires trace[k].item.parent.Some?
    ensures m < k && trace[m] == trace[k].item.parent.value
    ensures trace[k].item in Children(trace[m])
    ensures trace[k].item.call in trace[m].output.chainedCalls
    ensures trace[k].item.caller == CallerData(Some(trace[m].item.call.programId), AuthorizedBelow(trace[m]))
  {
    hide Execute, Replay, AuthorizedBelow;
    assert At(trace, k);
    var parent := trace[k].item.parent.value;
    m :| 0 <= m < |trace[..k]| && trace[..k][m] == parent;
    var c :| 0 <= c < |Children(parent)| && Children(parent)[c] == trace[k].item;
    assert trace[k].item == Child(parent, parent.output.chainedCalls[c]);
  }

  /** Everything a call hands down was granted to it. */
  lemma AuthorizedBelowIsGranted(ctx: Context, trace: seq<Executed>, k: nat)
    requires History(ctx, trace) && k < |trace|
    ensures AuthorizedBelow(trace[k]) <= Granted(ctx, trace[k].item)
  {
    hide Execute, Replay;
    CallEffect(ctx, trace, k);
  }

  lemma {:induction false} GrantedIsTraceable(ctx: Context, trace: seq<Executed>, k: nat, id: AccountId)
    requires History(ctx, trace) && k < |trace|
    requires id in Granted(ctx, trace[k].item)
    ensures Traceable(ctx, trace[k], id)
    decreases k
  {
    hide Execute, Replay, AuthorizedBelow;
    var e := trace[k];
    match e.item.parent
    case None =>
      assert At(trace, k);
    case Some(parent) =>
      var m := ParentPosition(ctx, trace, k);
      var above := Lineage(parent);
      assert Lineage(e) == above + [e];
      if id in AuthorizedPdas(ctx, e.item.caller.programId, e.item.call.pdaSeeds) {
        assert ListedSeed(ctx, Lineage(e)[|above| - 1], Lineage(e)[|above|], id);
      } else {
        AuthorizedBelowIsGranted(ctx, trace, m);
        GrantedIsTraceable(ctx, trace, m, id);
        if id !in ctx.signers {
          var j :| 1 <= j < |above| && ListedSeed(ctx, above[j - 1], above[j], id);
          assert ListedSeed(ctx, Lineage(e)[j - 1], Lineage(e)[j], id);
        }
      }
  }

  /** Authorization provenance: whatever flags the callers wrote into the calls they chained, an account
      a program saw as authorized signed the transaction, or is the PDA of a caller on the path to that
      call for a seed which that caller listed. */
  lemma AuthorizationProvenance(ctx: Context, trace: seq<Executed>, k: nat, i: nat)
    requires History(ctx, trace) && k < |trace|
    requires i < |trace[k].output.preStates|
    requires trace[k].output.preStates[i].isAuthorized
    ensures Traceable(ctx, trace[k], trace[k].output.preStates[i].id)
  {
    hide Execute, Replay, Traceable;
    CallEffect(ctx, trace, k);
    GrantedIsTraceable(ctx, trace, k, trace[k].output.preStates[i].id);
  }

  /** The path to a call consists of executed calls, each chained by the one before it. */
  lemma {:induction false} LineageIsExecuted(ctx: Context, trace: seq<Executed>, k: nat)
    requires History(ctx, trace) && k < |trace|
    ensures var line := Lineage(trace[k]);
      && line[0].item == RootItem(ctx)
      && (forall j :: 0 <= j < |line| ==> line[j] in trace[..k + 1])
      && (forall j :: 1 <= j < |line| ==> line[j].item.parent == Some(line[j - 1]))
      && (forall j :: 1 <= j < |line| ==> line[j].item in Children(line[j - 1]))
    decreases k
  {
    hide Execute, Replay, Children;
    var e := trace[k];
    match e.item.parent
    case None =>
      assert At(trace, k);
    case Some(parent) =>
      var m := ParentPosition(ctx, trace, k);
      LineageIsExecuted(ctx, trace, m);
      forall j | 0 <= j < |Lineage(parent)|
        ensures Lineage(parent)[j] in trace[..k + 1]
      {
        assert Lineage(parent)[j] in trace[..m + 1];
        assert trace[..m + 1] == trace[..k + 1][..m + 1];
      }
      assert e == trace[..k + 1][k];
  }

  /** Down any path the authorized set only grows, and keeps everything an ancestor saw as authorized. */
  lemma {:induction false} AuthorityGrowsDownward(ctx: Context, trace: seq<Executed>, k: nat, a: nat)
    requires History(ctx, trace) && k < |trace|
    requires a < |Lineage(trace[k])| - 1
    ensures var ancestor := Lineage(trace[k])[a];
      && ancestor.item.caller.authorized <= trace[k].item.caller.authorized
      && (forall i :: 0 <= i < |ancestor.output.preStates| && ancestor.output.preStates[i].isAuthorized ==>
            ancestor.output.preStates[i].id in trace[k].item.caller.authorized)
    decreases k
  {
    hide Execute, Replay;
    var m := ParentPosition(ctx, trace, k);
    var above := Lineage(trace[m]);
    assert Lineage(trace[k]) == above + [trace[k]];
    if a < |above| - 1 {
      AuthorityGrowsDownward(ctx, trace, m, a);
    }
  }

  // ---------------------------------------------------------- native balance

  lemma {:induction false} ChainKeepsTotal(ctx: Context, trace: seq<Executed>, n: nat)
    requires History(ctx, trace) && n <= |trace|
    ensures Sum(World(ctx, trace, n), Balance) == Sum(ctx.accounts, Balance)
    decreases n
  {
    hide Execute, Sum, Replay;
    if n > 0 {
      var k := n - 1;
      ChainKeepsTotal(ctx, trace, k);
      CallEffect(ctx, trace, k);
      WorldStep(ctx, trace, k);
      var e := trace[k];
      SumRecord(World(ctx, trace, k), Ids(e.output.preStates), AccountsOf(e.output.preStates),
                PostAccounts(e.posts), Balance);
    } else {
      EmptyReplay(ctx, trace);
    }
  }

  lemma EmptyReplay(ctx: Context, trace: seq<Executed>)
    requires Balanced(trace)
    ensures World(ctx, trace, 0) == ctx.accounts
    ensures World(ctx, trace, |trace|) == Replay(ctx.accounts, trace)
  {
    assert trace[..|trace|] == trace;
  }

  // --------------------------------------------------------------- ownership

  /** A call of the account's new owner claimed it: the account was default, and it was authorized in
      that call or is that program's own PDA for the claimed seed. */
  ghost predicate ClaimedAt(ctx: Context, trace: seq<Executed>, k: nat, id: AccountId)
    requires History(ctx, trace) && k < |trace|
  {
    var e := trace[k];
    && Touches(e, id)
    && |e.output.preStates| == |e.output.postStates|
    && Lookup(World(ctx, trace, k), id) == DEFAULT_ACCOUNT
    && Lookup(World(ctx, trace, k + 1), id).owner == e.item.call.programId
    && ClaimJustified(ctx, e.item.call.programId, e.output.preStates[Slot(e, id)], e.output.postStates[Slot(e, id)].claim)
  }

  /** An owned account keeps its owner from any call to any later one. */
  lemma {:induction false} OwnerIsKept(ctx: Context, trace: seq<Executed>, j: nat, n: nat, id: AccountId)
    requires History(ctx, trace) && j <= n <= |trace|
    requires Lookup(World(ctx, trace, j), id).owner != DEFAULT_PROGRAM_ID
    ensures Lookup(World(ctx, trace, n), id).owner == Lookup(World(ctx, trace, j), id).owner
    decreases n
  {
    hide Execute, Replay;
    if j < n {
      OwnerIsKept(ctx, trace, j, n - 1, id);
      AccountAcrossCall(ctx, trace, n - 1, id);
    }
  }

  /** A new owner appears only through a justified claim in an executed call of that owner. */
  lemma {:induction false} NewOwnerClaimed(ctx: Context, trace: seq<Executed>, n: nat, id: AccountId) returns (k: nat)
    requires History(ctx, trace) && n <= |trace|
    requires Lookup(World(ctx, trace, n), id).owner != Lookup(ctx.accounts, id).owner
    ensures k < n && ClaimedAt(ctx, trace, k, id)
    ensures trace[k].item.call.programId == Lookup(World(ctx, trace, n), id).owner
    decreases n
  {
    hide Execute, Replay;
    EmptyReplay(ctx, trace);
    assert n > 0;
    AccountAcrossCall(ctx, trace, n - 1, id);
    if Lookup(World(ctx, trace, n - 1), id).owner == Lookup(World(ctx, trace, n), id).owner {
      k := NewOwnerClaimed(ctx, trace, n - 1, id);
    } else {
      k := n - 1;
    }
  }

  // ------------------------------------------------ balance and data changes

  /** An account that ends a chain poorer was debited in a call of the program owning it then. */
  lemma {:induction false} DecreaseByOwner(ctx: Context, trace: seq<Executed>, n: nat, id: AccountId) returns (k: nat)
    requires History(ctx, trace) && n <= |trace|
    requires Lookup(World(ctx, trace, n), id).balance < Lookup(ctx.accounts, id).balance
    ensures k < n && Touches(trace[k], id)
    ensures Lookup(World(ctx, trace, k + 1), id).balance < Lookup(World(ctx, trace, k), id).balance
    ensures Lookup(World(ctx, trace, k), id).owner == trace[k].item.call.programId
    decreases n
  {
    hide Execute, Replay;
    EmptyReplay(ctx, trace);
    assert n > 0;
    AccountAcrossCall(ctx, trace, n - 1, id);
    if Lookup(World(ctx, trace, n), id).balance < Lookup(World(ctx, trace, n - 1), id).balance {
      k := n - 1;
    } else {
      k := DecreaseByOwner(ctx, trace, n - 1, id);
    }
  }

  /** Changed data was written in a call of the account's owner, or while the account was default. */
  lemma {:induction false} DataChangeByOwner(ctx: Context, trace: seq<Executed>, n: nat, id: AccountId) returns (k: nat)
    requires History(ctx, trace) && n <= |trace|
    requires Lookup(World(ctx, trace, n), id).data != Lookup(ctx.accounts, id).data
    ensures k < n && Touches(trace[k], id)
    ensures Lookup(World(ctx, trace, k + 1), id).data != Lookup(World(ctx, trace, k), id).data
    ensures || Lookup(World(ctx, trace, k), id).owner == trace[k].item.call.programId
            || Lookup(World(ctx, trace, k), id) == DEFAULT_ACCOUNT
    decreases n
  {
    hide Execute, Replay;
    EmptyReplay(ctx, trace);
    assert n > 0;
    AccountAcrossCall(ctx, trace, n - 1, id);
    if Lookup(World(ctx, trace, n), id).data != Lookup(World(ctx, trace, n - 1), id).data {
      k := n - 1;
    } else {
      k := DataChangeByOwner(ctx, trace, n - 1, id);
    }
  }

  lemma {:induction false} NonceIsKept(ctx: Context, trace: seq<Executed>, n: nat, id: AccountId)
    requires History(ctx, trace) && n <= |trace|
    ensures Lookup(World(ctx, trace, n), id).nonce == Lookup(ctx.accounts, id).nonce
    decreases n
  {
    hide Execute, Replay;
    EmptyReplay(ctx, trace);
    if n > 0 {
      NonceIsKept(ctx, trace, n - 1, id);
      AccountAcrossCall(ctx, trace, n - 1, id);
    }
  }

  // ------------------------------------------- default accounts claimed at once

  /** An account left without an owner but not default is never touched again in the chain. */
  lemma {:induction false} StrandedIsFrozen(ctx: Context, trace: seq<Executed>, j: nat, n: nat, id: AccountId)
    requires History(ctx, trace) && j <= n <= |trace|
    requires Lookup(World(ctx, trace, j), id).owner == DEFAULT_PROGRAM_ID
    requires Lookup(World(ctx, trace, j), id) != DEFAULT_ACCOUNT
    ensures Lookup(World(ctx, trace, n), id) == Lookup(World(ctx, trace, j), id)
    decreases n
  {
    hide Execute, Replay;
    if j < n {
      StrandedIsFrozen(ctx, trace, j, n - 1, id);
      AccountAcrossCall(ctx, trace, n - 1, id);
    }
  }

  lemma {:induction false} WrittenIsInDiff(trace: seq<Executed>, k: nat, id: AccountId)
    requires Balanced(trace) && k < |trace|
    requires Touches(trace[k], id)
    ensures id in Replay(map[], trace)
  {
    var last := |trace| - 1;
    var e := trace[last];
    var ids := Ids(e.output.preStates);
    if k < last {
      WrittenIsInDiff(trace[..last], k, id);
    } else {
      assert ids[Slot(e, id)] == id;
    }
    RecordKeeps(Replay(map[], trace[..last]), ids, PostAccounts(e.posts), id);
  }

  lemma {:induction false} RecordKeeps(accounts: Accounts, ids: seq<AccountId>, written: seq<Account>, id: AccountId)
    requires |ids| == |written|
    requires id in accounts || id in ids
    ensures id in Record(accounts, ids, written)
  {
    if ids != [] {
      var last := |ids| - 1;
      if id != ids[last] {
        assert id in ids ==> id in ids[..last];
        RecordKeeps(accounts, ids[..last], written[..last], id);
      }
    }
  }

  /** In an accepted transaction a call that changes an unowned account claims it in that very call: the
      check made once at the end leaves no room to claim it later. */
  lemma ChangedDefaultIsClaimedAtOnce(ctx: Context, k: nat, id: AccountId)
    requires RunCalls(ctx).Ok?
    requires k < |RunCalls(ctx).value.trace|
    ensures var trace := RunCalls(ctx).value.trace;
      && History(ctx, trace)
      && var before, after := Lookup(World(ctx, trace, k), id), Lookup(World(ctx, trace, k + 1), id);
         before.owner == DEFAULT_PROGRAM_ID && after != before ==>
           ClaimedAt(ctx, trace, k, id) && after.owner != DEFAULT_PROGRAM_ID
  {
    hide Execute, Replay, EvalCall;
    AcceptedRunHasHistory(ctx);
    var p := RunCalls(ctx).value;
    var trace := p.trace;
    var before, after := Lookup(World(ctx, trace, k), id), Lookup(World(ctx, trace, k + 1), id);
    if before.owner == DEFAULT_PROGRAM_ID && after != before {
      AccountAcrossCall(ctx, trace, k, id);
      if after.owner == DEFAULT_PROGRAM_ID {
        StrandedIsFrozen(ctx, trace, k + 1, |trace|, id);
        EmptyReplay(ctx, trace);
        if Lookup(ctx.accounts, id).owner != DEFAULT_PROGRAM_ID {
          OwnerIsKept(ctx, trace, 0, k, id);
        } else if Lookup(ctx.accounts, id) != DEFAULT_ACCOUNT {
          StrandedIsFrozen(ctx, trace, 0, k, id);
        }
        EvalCallHistory(ctx, RootItem(ctx), Progress(map[], []));
        OverlayIsReplay(ctx.accounts, trace);
        WrittenIsInDiff(trace, k, id);
        assert false;
      }
    }
  }
}
