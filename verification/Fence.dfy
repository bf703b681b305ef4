/** Genesis, and the guard that keeps user transactions away from the system accounts. */
module Fence {
  import opened Core
  import opened Sums
  import opened Calls
  import opened Merkle
  import opened Ledger
  import opened LedgerRuns

  datatype System = System(
    clocks: seq<AccountId>,
    faucet: AccountId,
    bridge: AccountId,
    clockProgram: ProgramId,
    transferProgram: ProgramId,
    builtins: set<ProgramId>,
    dummyCommitment: Commitment)

  // ---------------------------------------------------------------- genesis

  function GenesisAccount(sys: System, balance: u128): Account {
    Account(sys.transferProgram, balance, Empty, 0)
  }

  function ClockAccount(sys: System, timestamp: nat): Account {
    Account(sys.clockProgram, 0, OtherData([0, timestamp]), 0)
  }

  function GenesisAccounts(sys: System, initial: seq<(AccountId, u128)>, timestamp: nat): Accounts {
    Record(FundedAccounts(sys, initial), sys.clocks, seq(|sys.clocks|, _ => ClockAccount(sys, timestamp)))
  }

  function InitialIds(initial: seq<(AccountId, u128)>): seq<AccountId> {
    seq(|initial|, i requires 0 <= i < |initial| => initial[i].0)
  }

  function InitialAccounts(sys: System, initial: seq<(AccountId, u128)>): seq<Account> {
    seq(|initial|, i requires 0 <= i < |initial| => GenesisAccount(sys, initial[i].1))
  }

  /** The initial accounts, then the faucet and the bridge. */
  function FundedAccounts(sys: System, initial: seq<(AccountId, u128)>): Accounts {
    Record(map[], InitialIds(initial), InitialAccounts(sys, initial))
      [sys.faucet := GenesisAccount(sys, U128_LIMIT - 1)][sys.bridge := GenesisAccount(sys, 0)]
  }

  lemma GenesisAt(sys: System, initial: seq<(AccountId, u128)>, timestamp: nat, id: AccountId)
    ensures Lookup(GenesisAccounts(sys, initial, timestamp), id) ==
      if id in sys.clocks then ClockAccount(sys, timestamp) else Lookup(FundedAccounts(sys, initial), id)
  {
    hide Record, FundedAccounts;
    var accounts := seq(|sys.clocks|, _ => ClockAccount(sys, timestamp));
    if id in sys.clocks {
      SameRecorded(FundedAccounts(sys, initial), sys.clocks, accounts, ClockAccount(sys, timestamp), id);
    } else {
      RecordElsewhere(FundedAccounts(sys, initial), sys.clocks, accounts, id);
    }
  }

  function Genesis(host: Host, sys: System, initial: seq<(AccountId, u128)>,
                   private: seq<(Commitment, Nullifier)>, timestamp: nat): State
  {
    var empty := State(GenesisAccounts(sys, initial, timestamp), [], map[], {},
        set i | 0 <= i < |private| :: private[i].1, sys.builtins);
    ExtendCommitments(host, ExtendCommitments(host, empty, [sys.dummyCommitment]), GenesisCommitments(private))
  }

  function GenesisCommitments(private: seq<(Commitment, Nullifier)>): seq<Commitment> {
    seq(|private|, i requires 0 <= i < |private| => private[i].0)
  }

  /** The i-th initial account is the last of its id and no system account's. */
  ghost predicate Funds(sys: System, initial: seq<(AccountId, u128)>, i: nat)
    requires i < |initial|
  {
    && (forall j :: i < j < |initial| ==> initial[j].0 != initial[i].0)
    && initial[i].0 !in sys.clocks && initial[i].0 != sys.faucet && initial[i].0 != sys.bridge
  }

  lemma {:induction false} LastRecorded(accounts: Accounts, ids: seq<AccountId>, written: seq<Account>, i: nat)
    requires |ids| == |written| && i < |ids| && forall j :: i < j < |ids| ==> ids[j] != ids[i]
    ensures Lookup(Record(accounts, ids, written), ids[i]) == written[i]
  {
    var last := |ids| - 1;
    if i < last {
      assert ids[last] != ids[i];
      LastRecorded(accounts, ids[..last], written[..last], i);
    }
  }

  lemma {:induction false} SameRecorded(accounts: Accounts, ids: seq<AccountId>,
                                        written: seq<Account>, a: Account, id: AccountId)
    requires |ids| == |written| && id in ids && forall i :: 0 <= i < |ids| ==> written[i] == a
    ensures Lookup(Record(accounts, ids, written), id) == a
  {
    var last := |ids| - 1;
    if id != ids[last] {
      assert ids == ids[..last] + [ids[last]];
      SameRecorded(accounts, ids[..last], written[..last], a, id);
    }
  }

  /** What genesis holds: the initial balances, the last entry of an id counting, under the transfer program; the
      system accounts, whatever the entries say; and nothing else. */
  lemma GenesisHolds(host: Host, sys: System, initial: seq<(AccountId, u128)>,
                     private: seq<(Commitment, Nullifier)>, timestamp: nat)
    ensures var st := Genesis(host, sys, initial, private, timestamp);
      && (forall i :: 0 <= i < |initial| && Funds(sys, initial, i) ==>
            Lookup(st.accounts, initial[i].0) == Account(sys.transferProgram, initial[i].1, Empty, 0))
      && (forall id :: id in sys.clocks ==>
            Lookup(st.accounts, id) == Account(sys.clockProgram, 0, OtherData([0, timestamp]), 0))
      && (sys.bridge !in sys.clocks ==> Lookup(st.accounts, sys.bridge) == Account(sys.transferProgram, 0, Empty, 0))
      && (sys.faucet !in sys.clocks && sys.faucet != sys.bridge ==>
            Lookup(st.accounts, sys.faucet) == Account(sys.transferProgram, U128_LIMIT - 1, Empty, 0))
      && (forall id {:trigger Lookup(st.accounts, id)} :: Lookup(st.accounts, id) != DEFAULT_ACCOUNT ==>
            id in sys.clocks || id == sys.faucet || id == sys.bridge
            || exists i :: 0 <= i < |initial| && initial[i].0 == id)
      && st.programs == sys.builtins
      && st.leaves == [sys.dummyCommitment] + GenesisCommitments(private)
      && (forall n :: n in st.nullifiers <==> exists i :: 0 <= i < |private| && private[i].1 == n)
  {
    hide Record, ExtendIndex, Root;
    var st := Genesis(host, sys, initial, private, timestamp);
    forall i | 0 <= i < |initial| && Funds(sys, initial, i)
      ensures Lookup(st.accounts, initial[i].0) == Account(sys.transferProgram, initial[i].1, Empty, 0)
    {
      GenesisAt(sys, initial, timestamp, initial[i].0);
      LastRecorded(map[], InitialIds(initial), InitialAccounts(sys, initial), i);
    }
    forall id
      ensures Lookup(st.accounts, id) == Lookup(GenesisAccounts(sys, initial, timestamp), id)
    {
    }
    forall id: AccountId | id !in sys.clocks
      ensures Lookup(st.accounts, id) == Lookup(FundedAccounts(sys, initial), id)
    {
      GenesisAt(sys, initial, timestamp, id);
    }
    forall id | id in sys.clocks
      ensures Lookup(st.accounts, id) == Account(sys.clockProgram, 0, OtherData([0, timestamp]), 0)
    {
      GenesisAt(sys, initial, timestamp, id);
    }
    forall id | Lookup(st.accounts, id) != DEFAULT_ACCOUNT
      ensures id in sys.clocks || id == sys.faucet || id == sys.bridge
        || exists i :: 0 <= i < |initial| && initial[i].0 == id
    {
      if id !in InitialIds(initial) {
        RecordElsewhere(map[], InitialIds(initial), InitialAccounts(sys, initial), id);
      }
    }
  }

  /** Genesis knows its root, and its index agrees with its leaves exactly when the initial private
      accounts have different commitments, none of them the dummy one. */
  lemma GenesisCommitmentsAgree(host: Host, sys: System, initial: seq<(AccountId, u128)>,
                                private: seq<(Commitment, Nullifier)>, timestamp: nat)
    ensures var st := Genesis(host, sys, initial, private, timestamp);
      && Root(host.hasher, st.leaves) in st.roots
      && (IndexAgrees(st) <==> Distinct([sys.dummyCommitment] + GenesisCommitments(private)))
  {
    hide Root, GenesisAccounts, ExtendIndex;
    var empty := State(GenesisAccounts(sys, initial, timestamp), [], map[], {},
        set i | 0 <= i < |private| :: private[i].1, sys.builtins);
    var dummy := ExtendCommitments(host, empty, [sys.dummyCommitment]);
    ExtendIndexAgrees(empty, host, [sys.dummyCommitment]);
    ExtendIndexAgrees(dummy, host, GenesisCommitments(private));
    IndexDomain(empty.index, 0, [sys.dummyCommitment]);
    DistinctAppend([sys.dummyCommitment], GenesisCommitments(private));
  }

  // --------------------------------------------------------------- the guard

  predicate ModifiesAccount(st: State, diff: StateDiff, id: AccountId) {
    id in diff.publicDiff && diff.publicDiff[id] != Lookup(st.accounts, id)
  }

  /** Only a public transaction may touch the bridge account, and only to raise its balance. */
  function CheckBridge(sys: System, st: State, tx: Transaction, diff: StateDiff): Check<LeeError> {
    if sys.bridge !in diff.publicDiff then Pass
    else if !tx.Public? then Fail(BridgeAccountModified)
    else
      var pre, post := Lookup(st.accounts, sys.bridge), diff.publicDiff[sys.bridge];
      Ensure(post.(balance := pre.balance) == pre && pre.balance <= post.balance, BridgeAccountModified)
  }

  function ValidateOnState(host: Host, sys: System, st: State, step: Step): Outcome<StateDiff> {
    var diff :- ComputeStateDiff(host, st, step.tx, step.blockId, step.timestamp);
    :- Ensure(forall id :: id in sys.clocks + [sys.faucet] ==> !ModifiesAccount(st, diff, id), RestrictedAccountModified);
    :- CheckBridge(sys, st, step.tx, diff);
    Ok(diff)
  }

  /** The guard admits a valid transaction if and only if it would leave the clock and faucet accounts as they
      are and, where it writes the bridge account at all, is public and only raises its balance. */
  lemma GuardExactly(host: Host, sys: System, st: State, step: Step)
    ensures var computed := ComputeStateDiff(host, st, step.tx, step.blockId, step.timestamp);
      ValidateOnState(host, sys, st, step).Ok? <==>
        && computed.Ok?
        && var posted := st.accounts + computed.value.publicDiff;
           && (forall id :: id in sys.clocks || id == sys.faucet ==> Lookup(posted, id) == Lookup(st.accounts, id))
           && (sys.bridge in computed.value.publicDiff ==>
                 && step.tx.Public?
                 && Lookup(posted, sys.bridge).balance >= Lookup(st.accounts, sys.bridge).balance
                 && Lookup(posted, sys.bridge).owner == Lookup(st.accounts, sys.bridge).owner
                 && Lookup(posted, sys.bridge).data == Lookup(st.accounts, sys.bridge).data
                 && Lookup(posted, sys.bridge).nonce == Lookup(st.accounts, sys.bridge).nonce)
    ensures ValidateOnState(host, sys, st, step).Ok? ==>
      ValidateOnState(host, sys, st, step) == ComputeStateDiff(host, st, step.tx, step.blockId, step.timestamp)
  {
    hide ComputeStateDiff;
    var computed := ComputeStateDiff(host, st, step.tx, step.blockId, step.timestamp);
    if computed.Ok? {
      var diff := computed.value;
      forall id | id in sys.clocks || id == sys.faucet
        ensures id in sys.clocks + [sys.faucet]
        ensures ModifiesAccount(st, diff, id) <==> Lookup(st.accounts + diff.publicDiff, id) != Lookup(st.accounts, id)
      {
      }
    }
  }

  /** A valid public transaction that changes no system account but to raise the bridge's balance is admitted. */
  lemma BridgeDepositAdmitted(host: Host, sys: System, st: State, step: Step)
    requires step.tx.Public? && ComputeStateDiff(host, st, step.tx, step.blockId, step.timestamp).Ok?
    requires SystemKept(sys, st.accounts,
      st.accounts + ComputeStateDiff(host, st, step.tx, step.blockId, step.timestamp).value.publicDiff)
    ensures ValidateOnState(host, sys, st, step).Ok?
  {
    hide ComputeStateDiff, ValidateOnState;
    GuardExactly(host, sys, st, step);
  }

  function AfterUser(host: Host, sys: System, st: State, step: Step): State {
    match ValidateOnState(host, sys, st, step)
    case Err(_) => st
    case Ok(diff) =>
      var next := Apply(host, st, diff);
      if next.Some? then next.value else st
  }

  function UserRun(host: Host, sys: System, st: State, steps: seq<Step>): State {
    if steps == [] then st
    else AfterUser(host, sys, UserRun(host, sys, st, steps[..|steps| - 1]), steps[|steps| - 1])
  }

  /** The transactions of a run that got past the guard. */
  ghost function Admitted(host: Host, sys: System, st: State, steps: seq<Step>): seq<Step> {
    if steps == [] then []
    else
      var init, last := steps[..|steps| - 1], steps[|steps| - 1];
      Admitted(host, sys, st, init)
      + if ValidateOnState(host, sys, UserRun(host, sys, st, init), last).Ok? then [last] else []
  }

  lemma AdmittedIsAccepted(host: Host, sys: System, st: State, step: Step)
    ensures AfterUser(host, sys, st, step) == if ValidateOnState(host, sys, st, step).Ok? then After(host, st, step) else st
  {
    hide ComputeStateDiff, Apply, CheckBridge;
  }

  /** A guarded run is the unguarded run of the admitted transactions, so all that holds over every
      run holds over guarded ones. */
  lemma {:induction false} GuardedRunIsRun(host: Host, sys: System, st: State, steps: seq<Step>)
    ensures UserRun(host, sys, st, steps) == Run(host, st, Admitted(host, sys, st, steps))
  {
    hide ValidateOnState, AfterUser, After;
    if steps != [] {
      var init, last := steps[..|steps| - 1], steps[|steps| - 1];
      GuardedRunIsRun(host, sys, st, init);
      AdmittedIsAccepted(host, sys, UserRun(host, sys, st, init), last);
      var admitted := Admitted(host, sys, st, init);
      assert (admitted + [last])[..|admitted|] == admitted && admitted + [] == admitted;
    }
  }

  ghost predicate IsSystemId(sys: System, id: AccountId) {
    id in sys.clocks || id == sys.faucet || id == sys.bridge
  }

  ghost predicate NoSystemSigner(host: Host, sys: System, steps: seq<Step>) {
    forall i, id :: 0 <= i < |steps| && id in Signers(host, steps[i].tx) ==> !IsSystemId(sys, id)
  }

  /** Clock and faucet accounts as they were, and the bridge account at least as rich, otherwise the same. */
  ghost predicate SystemKept(sys: System, before: Accounts, after: Accounts) {
    && (forall id :: id in sys.clocks || id == sys.faucet ==> Lookup(after, id) == Lookup(before, id))
    && var was, now := Lookup(before, sys.bridge), Lookup(after, sys.bridge);
       now == was.(balance := now.balance) && was.balance <= now.balance
  }

  /** The signatures of one account that a guarded step accepted. */
  ghost function SignedIn(host: Host, sys: System, st: State, step: Step, id: AccountId): nat {
    match ValidateOnState(host, sys, st, step)
    case Err(_) => 0
    case Ok(diff) => if Apply(host, st, diff).Some? then multiset(Signers(host, step.tx))[id] else 0
  }

  ghost function SignedDuring(host: Host, sys: System, st: State, steps: seq<Step>, id: AccountId): nat {
    if steps == [] then 0
    else
      var init, last := steps[..|steps| - 1], steps[|steps| - 1];
      SignedDuring(host, sys, st, init, id) + SignedIn(host, sys, UserRun(host, sys, st, init), last, id)
  }

  /** A system account that made `signed` signatures: its nonce counts them, the bridge may have gained
      balance, and nothing else moved. */
  ghost predicate SystemMoved(sys: System, was: Account, now: Account, id: AccountId, signed: nat) {
    && now == was.(nonce := now.nonce, balance := now.balance)
    && now.nonce == was.nonce + signed
    && was.balance <= now.balance
    && (id in sys.clocks || id == sys.faucet ==> now.balance == was.balance)
  }

  lemma AfterUserSystem(host: Host, sys: System, st: State, step: Step, id: AccountId)
    requires IsSystemId(sys, id)
    ensures SystemMoved(sys, Lookup(st.accounts, id), Lookup(AfterUser(host, sys, st, step).accounts, id), id,
                        SignedIn(host, sys, st, step, id))
  {
    hide ComputeStateDiff, BumpNonces, Root, ExtendIndex;
    var diff := ValidateOnState(host, sys, st, step);
    if diff.Ok? && Apply(host, st, diff.value).Some? {
      AcceptedAccounts(host, st, step);
      BumpEffect(st.accounts + diff.value.publicDiff, diff.value.signers, id);
      assert id in sys.clocks || id == sys.faucet ==> id in sys.clocks + [sys.faucet];
    }
  }

  /** Over any run of guarded transactions of all kinds a clock or faucet account changes by nothing but
      the nonces of its own signatures, and the bridge account besides only by gaining balance. */
  lemma {:induction false} SystemAccountsFenced(host: Host, sys: System, st: State, steps: seq<Step>, id: AccountId)
    requires IsSystemId(sys, id)
    ensures SystemMoved(sys, Lookup(st.accounts, id), Lookup(UserRun(host, sys, st, steps).accounts, id), id,
                        SignedDuring(host, sys, st, steps, id))
  {
    hide AfterUser, SignedIn, Lookup;
    if steps != [] {
      var init, last := steps[..|steps| - 1], steps[|steps| - 1];
      SystemAccountsFenced(host, sys, st, init, id);
      AfterUserSystem(host, sys, UserRun(host, sys, st, init), last, id);
    }
  }

  /** System accounts keep their values over a guarded run, the bridge's balance aside, exactly when no
      accepted transaction carried a system account's signature. */
  lemma SystemKeptExactly(host: Host, sys: System, st: State, steps: seq<Step>)
    ensures SystemKept(sys, st.accounts, UserRun(host, sys, st, steps).accounts)
       <==> forall id :: IsSystemId(sys, id) ==> SignedDuring(host, sys, st, steps, id) == 0
  {
    hide UserRun, SignedDuring, Lookup;
    forall id | IsSystemId(sys, id)
      ensures SystemMoved(sys, Lookup(st.accounts, id), Lookup(UserRun(host, sys, st, steps).accounts, id), id,
                          SignedDuring(host, sys, st, steps, id))
    {
      SystemAccountsFenced(host, sys, st, steps, id);
    }
    assert IsSystemId(sys, sys.bridge);
  }

  /** In particular when no transaction of the run is signed by one. */
  lemma {:induction false} UnsignedKeepsSystem(host: Host, sys: System, st: State, steps: seq<Step>)
    requires NoSystemSigner(host, sys, steps)
    ensures SystemKept(sys, st.accounts, UserRun(host, sys, st, steps).accounts)
  {
    hide UserRun, SignedDuring, SystemKept;
    forall id | IsSystemId(sys, id)
      ensures SignedDuring(host, sys, st, steps, id) == 0
    {
      UnsignedCountsNothing(host, sys, st, steps, id);
    }
    SystemKeptExactly(host, sys, st, steps);
  }

  lemma {:induction false} UnsignedCountsNothing(host: Host, sys: System, st: State, steps: seq<Step>, id: AccountId)
    requires forall i :: 0 <= i < |steps| ==> id !in Signers(host, steps[i].tx)
    ensures SignedDuring(host, sys, st, steps, id) == 0
  {
    hide ValidateOnState, Apply, UserRun, Signers;
    if steps != [] {
      var last := steps[|steps| - 1];
      assert last == steps[|steps| - 1];
      UnsignedCountsNothing(host, sys, st, steps[..|steps| - 1], id);
    }
  }
}
