/** What holds over every run of transactions, whatever the programs do. */
module LedgerRuns {
  import opened Core
  import opened Sums
  import opened Execution
  import opened Calls
  import opened CallTrace
  import opened Authority
  import opened Merkle
  import opened Ledger

  // ------------------------------------------------ one public transaction

  /** An accepted public transaction: its history, and the accounts it leaves before nonces move. */
  lemma PublicHistory(host: Host, st: State, tx: PublicTransaction, blockId: nat, timestamp: nat)
    requires FromPublic(host, st, tx, blockId, timestamp).Ok?
    ensures var ctx := PublicContext(host, st.accounts, st.programs, tx, blockId, timestamp);
      && RunCalls(ctx).Ok?
      && var p, diff := RunCalls(ctx).value, FromPublic(host, st, tx, blockId, timestamp).value;
         && diff == StateDiff(SignerIds(host, tx.witnesses), p.diff, [], [], None)
         && History(ctx, p.trace)
         && ModifiedDefaultsClaimed(st.accounts, p.diff)
         && st.accounts + p.diff == Replay(st.accounts, p.trace) == World(ctx, p.trace, |p.trace|)
  {
    hide RunCalls, CheckPublic;
    var ctx := PublicContext(host, st.accounts, st.programs, tx, blockId, timestamp);
    AcceptedRunHasHistory(ctx);
    EmptyReplay(ctx, RunCalls(ctx).value.trace);
    assert ModifiedDefaultsClaimed(st.accounts, RunCalls(ctx).value.diff) by { AcceptedRunIsClaimed(ctx); }
  }

  lemma AcceptedRunIsClaimed(ctx: Context)
    requires RunCalls(ctx).Ok?
    ensures ModifiedDefaultsClaimed(ctx.accounts, RunCalls(ctx).value.diff)
  {
  }

  // ----------------------------------------------------------------- nonces

  /** A signer's nonce rises once per signature; nothing else changes. */
  lemma {:induction false} BumpEffect(accounts: Accounts, signers: seq<AccountId>, id: AccountId)
    requires BumpNonces(accounts, signers).Some?
    ensures var before, after := Lookup(accounts, id), Lookup(BumpNonces(accounts, signers).value, id);
      && before.nonce + multiset(signers)[id] < U128_LIMIT
      && after == before.(nonce := before.nonce + multiset(signers)[id])
  {
    if signers != [] {
      var init, last := signers[..|signers| - 1], signers[|signers| - 1];
      assert signers == init + [last];
      BumpEffect(accounts, init, id);
    }
  }

  ghost predicate NonceBlind(measure: Account -> nat) {
    forall a: Account, n: u128 :: measure(a.(nonce := n)) == measure(a)
  }

  lemma {:induction false} BumpKeepsSum(accounts: Accounts, signers: seq<AccountId>, measure: Account -> nat)
    requires BumpNonces(accounts, signers).Some?
    requires NonceBlind(measure) && measure(DEFAULT_ACCOUNT) == 0
    ensures Sum(BumpNonces(accounts, signers).value, measure) == Sum(accounts, measure)
  {
    if signers != [] {
      var init, last := signers[..|signers| - 1], signers[|signers| - 1];
      BumpKeepsSum(accounts, init, measure);
      var bumped := BumpNonces(accounts, init).value;
      var account := Lookup(bumped, last);
      SumUpdate(bumped, measure, last, account.(nonce := account.nonce + 1));
    }
  }

  /** Who a transaction's diff bumps and which accounts it writes, by kind. */
  lemma DiffParts(host: Host, st: State, step: Step)
    requires ComputeStateDiff(host, st, step.tx, step.blockId, step.timestamp).Ok?
    ensures var diff := ComputeStateDiff(host, st, step.tx, step.blockId, step.timestamp).value;
      && diff.signers == Signers(host, step.tx)
      && (step.tx.ProgramDeployment? ==> diff.publicDiff == map[])
      && (step.tx.PrivacyPreserving? ==>
            diff.publicDiff == ZipDiff(step.tx.private.message.publicAccountIds, step.tx.private.message.publicPostStates))
  {
    hide RunCalls, CheckPublic, ZipDiff, CheckNullifiers, NUnique, NoncesMatch;
  }

  /** The accounts after an accepted transaction: the diff, then the signers' nonces. */
  lemma AcceptedAccounts(host: Host, st: State, step: Step)
    requires Accept(host, st, step).Some?
    ensures var r := ComputeStateDiff(host, st, step.tx, step.blockId, step.timestamp);
      && r.Ok?
      && r.value.signers == Signers(host, step.tx)
      && var bumped := BumpNonces(st.accounts + r.value.publicDiff, r.value.signers);
         bumped.Some? && After(host, st, step).accounts == bumped.value
    ensures step.tx.ProgramDeployment? ==>
      st.accounts + ComputeStateDiff(host, st, step.tx, step.blockId, step.timestamp).value.publicDiff == st.accounts
  {
    hide ComputeStateDiff, BumpNonces, Root, ExtendIndex;
    DiffParts(host, st, step);
    assert st.accounts + map[] == st.accounts;
  }

  ghost predicate NoPrivate(steps: seq<Step>) {
    forall i :: 0 <= i < |steps| ==> !steps[i].tx.PrivacyPreserving?
  }

  /** A privacy-preserving transaction that is accepted posts its public accounts with the nonces they had,
      as its proof is there to vouch for. */
  ghost predicate PostsKeepNonces(host: Host, st: State, step: Step) {
    step.tx.PrivacyPreserving? && Accept(host, st, step).Some? ==>
      var posted := st.accounts + ZipDiff(step.tx.private.message.publicAccountIds,
          step.tx.private.message.publicPostStates);
      forall id {:trigger Lookup(posted, id)} :: Lookup(posted, id).nonce == Lookup(st.accounts, id).nonce
  }

  ghost predicate ProofsKeepNonces(host: Host, st: State, steps: seq<Step>) {
    forall i :: 0 <= i < |steps| ==> PostsKeepNonces(host, Run(host, st, steps[..i]), steps[i])
  }

  lemma PublicRunsKeepNonces(host: Host, st: State, steps: seq<Step>)
    requires NoPrivate(steps)
    ensures ProofsKeepNonces(host, st, steps)
  {
    hide Run, Accept;
  }

  /** One transaction, seen from one account's nonce. */
  lemma AfterNonce(host: Host, st: State, step: Step, id: AccountId)
    requires PostsKeepNonces(host, st, step)
    ensures Lookup(After(host, st, step).accounts, id).nonce == Lookup(st.accounts, id).nonce
      + if Accept(host, st, step).Some? then multiset(Signers(host, step.tx))[id] else 0
  {
    hide FromPublic, FromPrivate, RunCalls, Replay, Apply, BumpNonces, ZipDiff;
    if Accept(host, st, step).Some? {
      AcceptedAccounts(host, st, step);
      DiffParts(host, st, step);
      var diff := ComputeStateDiff(host, st, step.tx, step.blockId, step.timestamp).value;
      BumpEffect(st.accounts + diff.publicDiff, diff.signers, id);
      match step.tx
      case Public(tx) =>
        PublicHistory(host, st, tx, step.blockId, step.timestamp);
        var ctx := PublicContext(host, st.accounts, st.programs, tx, step.blockId, step.timestamp);
        NonceIsKept(ctx, RunCalls(ctx).value.trace, |RunCalls(ctx).value.trace|, id);
      case PrivacyPreserving(_) =>
      case ProgramDeployment(_) =>
    }
  }

  /** The signatures of one account that were accepted during a run. */
  ghost function SignatureCount(host: Host, st: State, steps: seq<Step>, id: AccountId): nat {
    if steps == [] then 0
    else
      var init, last := steps[..|steps| - 1], steps[|steps| - 1];
      SignatureCount(host, st, init, id)
      + if Accept(host, Run(host, st, init), last).Some? then multiset(Signers(host, last.tx))[id] else 0
  }

  /** Over any run whose accepted proofs keep nonces, every nonce counts accepted signatures. */
  lemma {:induction false} NoncesCountSignatures(host: Host, st: State, steps: seq<Step>, id: AccountId)
    requires ProofsKeepNonces(host, st, steps)
    ensures Lookup(Run(host, st, steps).accounts, id).nonce
         == Lookup(st.accounts, id).nonce + SignatureCount(host, st, steps, id)
  {
    hide Accept, After, PostsKeepNonces;
    if steps != [] {
      var init, last := steps[..|steps| - 1], steps[|steps| - 1];
      forall i | 0 <= i < |init|
        ensures PostsKeepNonces(host, Run(host, st, init[..i]), init[i])
      {
        assert init[..i] == steps[..i];
      }
      NoncesCountSignatures(host, st, init, id);
      AfterNonce(host, Run(host, st, init), last, id);
    }
  }

  lemma AcceptedPublicNonces(host: Host, st: State, tx: PublicTransaction, blockId: nat, timestamp: nat)
    requires Accept(host, st, Step(Public(tx), blockId, timestamp)).Some?
    ensures CheckPublic(host, st.accounts, tx).Pass?
  {
    hide RunCalls;
  }

  lemma WrongNonceRejects(host: Host, st: State, tx: PublicTransaction, blockId: nat, timestamp: nat, other: Accounts)
    requires CheckPublic(host, other, tx).Pass?
    requires tx.witnesses != []
    requires var signer := SignerIds(host, tx.witnesses)[0];
      Lookup(st.accounts, signer).nonce != Lookup(other, signer).nonce
    ensures FromPublic(host, st, tx, blockId, timestamp) == Err(NonceMismatch)
  {
    hide RunCalls;
    var signers := SignerIds(host, tx.witnesses);
    assert Lookup(other, signers[0]).nonce == tx.message.nonces[0];
  }

  /** No signed public transaction is accepted twice: after it was accepted, whatever transactions follow,
      of any kind as long as accepted proofs keep nonces, it is refused for its nonce at any block and time. */
  lemma NoReplay(host: Host, st: State, tx: PublicTransaction, blockId: nat,
                 timestamp: nat, later: seq<Step>, blockId': nat, timestamp': nat)
    requires Accept(host, st, Step(Public(tx), blockId, timestamp)).Some?
    requires tx.witnesses != []
    requires ProofsKeepNonces(host, After(host, st, Step(Public(tx), blockId, timestamp)), later)
    ensures var st' := Run(host, After(host, st, Step(Public(tx), blockId, timestamp)), later);
      FromPublic(host, st', tx, blockId', timestamp') == Err(NonceMismatch)
  {
    hide Accept, After, Run, FromPublic, CheckPublic, ProofsKeepNonces;
    var step := Step(Public(tx), blockId, timestamp);
    var st1 := After(host, st, step);
    var signer := SignerIds(host, tx.witnesses)[0];
    assert signer in SignerIds(host, tx.witnesses);
    AfterNonce(host, st, step, signer);
    NoncesCountSignatures(host, st1, later, signer);
    AcceptedPublicNonces(host, st, tx, blockId, timestamp);
    WrongNonceRejects(host, Run(host, st1, later), tx, blockId', timestamp', st.accounts);
  }

  // --------------------------------------------------------- native balance

  lemma AfterKeepsTotal(host: Host, st: State, step: Step)
    requires !step.tx.PrivacyPreserving?
    ensures Sum(After(host, st, step).accounts, Balance) == Sum(st.accounts, Balance)
  {
    hide FromPublic, RunCalls, Replay, Apply, BumpNonces, Sum;
    if Accept(host, st, step).Some? {
      AcceptedAccounts(host, st, step);
      var diff := ComputeStateDiff(host, st, step.tx, step.blockId, step.timestamp).value;
      BumpKeepsSum(st.accounts + diff.publicDiff, diff.signers, Balance);
      match step.tx
      case Public(tx) =>
        PublicHistory(host, st, tx, step.blockId, step.timestamp);
        var ctx := PublicContext(host, st.accounts, st.programs, tx, step.blockId, step.timestamp);
        ChainKeepsTotal(ctx, RunCalls(ctx).value.trace, |RunCalls(ctx).value.trace|);
      case ProgramDeployment(_) =>
    }
  }

  /** No run of public and deployment transactions creates or destroys native balance. */
  lemma {:induction false} RunKeepsTotalBalance(host: Host, st: State, steps: seq<Step>)
    requires NoPrivate(steps)
    ensures Sum(Run(host, st, steps).accounts, Balance) == Sum(st.accounts, Balance)
  {
    hide Accept, After, Sum;
    if steps != [] {
      var init, last := steps[..|steps| - 1], steps[|steps| - 1];
      RunKeepsTotalBalance(host, st, init);
      AfterKeepsTotal(host, Run(host, st, init), last);
    }
  }

  // -------------------------------------------------------------- ownership

  /** The account was claimed for `owner` by an executed call of `owner` in this transaction. */
  ghost predicate ClaimedIn(host: Host, st: State, step: Step, id: AccountId, owner: ProgramId, k: nat) {
    && step.tx.Public?
    && var ctx := PublicContext(host, st.accounts, st.programs, step.tx.public, step.blockId, step.timestamp);
       && RunCalls(ctx).Ok?
       && History(ctx, RunCalls(ctx).value.trace)
       && k < |RunCalls(ctx).value.trace|
       && RunCalls(ctx).value.trace[k].item.call.programId == owner
       && ClaimedAt(ctx, RunCalls(ctx).value.trace, k, id)
  }

  /** One transaction, seen from one account's owner. */
  lemma AfterOwner(host: Host, st: State, step: Step, id: AccountId) returns (k: nat)
    requires !step.tx.PrivacyPreserving?
    ensures var before, after := Lookup(st.accounts, id), Lookup(After(host, st, step).accounts, id);
      && (before.owner != DEFAULT_PROGRAM_ID ==> after.owner == before.owner)
      && (after.owner != before.owner ==> Accept(host, st, step).Some? && ClaimedIn(host, st, step, id, after.owner, k))
      && (before.owner == DEFAULT_PROGRAM_ID && after.(nonce := before.nonce) != before ==>
          after.owner != DEFAULT_PROGRAM_ID)
  {
    hide FromPublic, RunCalls, Replay, Apply, BumpNonces, ClaimedAt;
    k := 0;
    if Accept(host, st, step).Some? {
      AcceptedAccounts(host, st, step);
      var diff := ComputeStateDiff(host, st, step.tx, step.blockId, step.timestamp).value;
      BumpEffect(st.accounts + diff.publicDiff, diff.signers, id);
      match step.tx
      case Public(tx) =>
        PublicHistory(host, st, tx, step.blockId, step.timestamp);
        var ctx := PublicContext(host, st.accounts, st.programs, tx, step.blockId, step.timestamp);
        var trace := RunCalls(ctx).value.trace;
        EmptyReplay(ctx, trace);
        if Lookup(st.accounts, id).owner != DEFAULT_PROGRAM_ID {
          OwnerIsKept(ctx, trace, 0, |trace|, id);
        } else if Lookup(World(ctx, trace, |trace|), id).owner != DEFAULT_PROGRAM_ID {
          k := NewOwnerClaimed(ctx, trace, |trace|, id);
        }
      case ProgramDeployment(_) =>
    }
  }

  /** Ownership is written once: over any run of public and deployment transactions an owner never
      changes, and a new owner was set by an accepted transaction in which a call of that very program
      claimed the account while it was default. */
  lemma {:induction false} OwnershipWrittenOnce(host: Host, st: State, steps: seq<Step>, id: AccountId)
      returns (i: nat, k: nat)
    requires NoPrivate(steps)
    ensures var before, after := Lookup(st.accounts, id), Lookup(Run(host, st, steps).accounts, id);
      && (before.owner != DEFAULT_PROGRAM_ID ==> after.owner == before.owner)
      && (after.owner != before.owner ==>
            && i < |steps|
            && Accept(host, Run(host, st, steps[..i]), steps[i]).Some?
            && ClaimedIn(host, Run(host, st, steps[..i]), steps[i], id, after.owner, k))
  {
    hide Accept, After, ClaimedIn;
    i, k := 0, 0;
    if steps != [] {
      var init, last := steps[..|steps| - 1], steps[|steps| - 1];
      i, k := OwnershipWrittenOnce(host, st, init, id);
      assert i < |init| ==> steps[..i] == init[..i];
      var here := AfterOwner(host, Run(host, st, init), last, id);
      if Lookup(Run(host, st, init).accounts, id).owner == Lookup(st.accounts, id).owner {
        i, k := |init|, here;
      }
    }
  }

  // ------------------------------------------------- nullifiers and roots

  /** The nullifiers a step spends. */
  ghost function SpentBy(host: Host, st: State, step: Step): seq<Nullifier> {
    match ComputeStateDiff(host, st, step.tx, step.blockId, step.timestamp)
    case Ok(diff) => if Apply(host, st, diff).Some? then diff.newNullifiers else []
    case Err(_) => []
  }

  ghost function SpentDuring(host: Host, st: State, steps: seq<Step>): seq<Nullifier> {
    if steps == [] then []
    else
      var init, last := steps[..|steps| - 1], steps[|steps| - 1];
      SpentDuring(host, st, init) + SpentBy(host, Run(host, st, init), last)
  }

  /** The diff of any accepted transaction is fresh against the state it was validated on. */
  lemma DiffIsFresh(host: Host, st: State, step: Step)
    requires ComputeStateDiff(host, st, step.tx, step.blockId, step.timestamp).Ok?
    ensures var diff := ComputeStateDiff(host, st, step.tx, step.blockId, step.timestamp).value;
      && Distinct(diff.newNullifiers) && Distinct(diff.newCommitments)
      && (forall n :: n in diff.newNullifiers ==> n !in st.nullifiers)
      && (forall c :: c in diff.newCommitments ==> c !in st.index)
  {
    hide FromPublic, RunCalls, CheckPublic;
    match step.tx
    case Public(tx) =>
      PublicHistory(host, st, tx, step.blockId, step.timestamp);
    case PrivacyPreserving(tx) =>
      NUniqueIsDistinct(Fsts(tx.message.newNullifiers));
      NUniqueIsDistinct(tx.message.newCommitments);
      forall n | n in Fsts(tx.message.newNullifiers)
        ensures n !in st.nullifiers
      {
        var i :| 0 <= i < |tx.message.newNullifiers| && Fsts(tx.message.newNullifiers)[i] == n;
        assert tx.message.newNullifiers[i].0 !in st.nullifiers;
      }
    case ProgramDeployment(_) =>
  }

  lemma AfterPrivate(host: Host, st: State, step: Step)
    ensures var st', spent := After(host, st, step), SpentBy(host, st, step);
      && Distinct(spent)
      && (forall n :: n in spent ==> n !in st.nullifiers)
      && st'.nullifiers == st.nullifiers + (set n | n in spent)
      && st.roots <= st'.roots
      && (Root(host.hasher, st.leaves) in st.roots ==> Root(host.hasher, st'.leaves) in st'.roots)
      && st.leaves <= st'.leaves
  {
    hide ComputeStateDiff, BumpNonces, Root, ExtendIndex;
    if ComputeStateDiff(host, st, step.tx, step.blockId, step.timestamp).Ok? {
      DiffIsFresh(host, st, step);
    }
  }

  lemma DistinctAppend<T>(first: seq<T>, second: seq<T>)
    ensures Distinct(first + second)
       <==> Distinct(first) && Distinct(second) && forall x :: x in first ==> x !in second
  {
    var both := first + second;
    if Distinct(both) {
      assert first == both[..|first|] && second == both[|first|..];
      forall x | x in first
        ensures x !in second
      {
        var i :| 0 <= i < |first| && first[i] == x;
        assert forall j :: 0 <= j < |second| ==> both[|first| + j] == second[j] && both[i] != both[|first| + j];
      }
    } else {
      var i, j :| 0 <= i < j < |both| && both[i] == both[j];
      if i < |first| <= j {
        assert first[i] in first && second[j - |first|] in second;
      } else if |first| <= i {
        assert second[i - |first|] == second[j - |first|];
      }
    }
  }

  /** No double spend: over any run of transactions of all kinds no nullifier is accepted twice, within
      one transaction or across several, nor one that was spent before; and the spent set is exact. */
  lemma {:induction false} NoDoubleSpend(host: Host, st: State, steps: seq<Step>)
    ensures Distinct(SpentDuring(host, st, steps))
    ensures forall n :: n in SpentDuring(host, st, steps) ==> n !in st.nullifiers
    ensures Run(host, st, steps).nullifiers == st.nullifiers + (set n | n in SpentDuring(host, st, steps))
  {
    hide SpentBy, After;
    if steps != [] {
      var init, last := steps[..|steps| - 1], steps[|steps| - 1];
      NoDoubleSpend(host, st, init);
      AfterPrivate(host, Run(host, st, init), last);
      DistinctAppend(SpentDuring(host, st, init), SpentBy(host, Run(host, st, init), last));
    }
  }

  /** Roots are never forgotten, and the current root stays acceptable. */
  lemma {:induction false} RootsOnlyGrow(host: Host, st: State, steps: seq<Step>)
    ensures st.roots <= Run(host, st, steps).roots
    ensures st.leaves <= Run(host, st, steps).leaves
    ensures Root(host.hasher, st.leaves) in st.roots ==>
      Root(host.hasher, Run(host, st, steps).leaves) in Run(host, st, steps).roots
  {
    hide After, Root;
    if steps != [] {
      var init, last := steps[..|steps| - 1], steps[|steps| - 1];
      RootsOnlyGrow(host, st, init);
      AfterPrivate(host, Run(host, st, init), last);
    }
  }

  /** A nullifier check that passed once passes after any run exactly as long as none of its nullifiers
      was spent during it: an old root alone never makes it fail. */
  lemma NullifierCheckStaysValid(host: Host, st: State, steps: seq<Step>, pairs: seq<(Nullifier, Digest)>)
    requires CheckNullifiers(st.nullifiers, st.roots, pairs).Pass?
    ensures CheckNullifiers(Run(host, st, steps).nullifiers, Run(host, st, steps).roots, pairs).Pass?
       <==> forall i :: 0 <= i < |pairs| ==> pairs[i].0 !in SpentDuring(host, st, steps)
  {
    hide Run, SpentDuring;
    NoDoubleSpend(host, st, steps);
    RootsOnlyGrow(host, st, steps);
  }

  // ------------------------------------------------------- commitment index

  /** The index maps each leaf's commitment to that leaf, and knows nothing else. */
  ghost predicate IndexAgrees(st: State) {
    && (forall c :: c in st.index ==> st.index[c] < |st.leaves| && st.leaves[st.index[c]] == c)
    && (forall i :: 0 <= i < |st.leaves| ==> st.leaves[i] in st.index && st.index[st.leaves[i]] == i)
  }

  /** Indexing a list keeps the agreement exactly when its commitments are new and different. */
  lemma {:induction false} ExtendIndexAgrees(st: State, host: Host, commitments: seq<Commitment>)
    requires IndexAgrees(st)
    ensures IndexAgrees(ExtendCommitments(host, st, commitments))
       <==> Distinct(commitments) && forall c :: c in commitments ==> c !in st.index
  {
    hide Root;
    var st' := ExtendCommitments(host, st, commitments);
    IndexDomain(st.index, |st.leaves|, commitments);
    if Distinct(commitments) && forall c :: c in commitments ==> c !in st.index {
      IndexOfDistinct(st.index, |st.leaves|, commitments);
    }
    if IndexAgrees(st') {
      assert Distinct(st'.leaves);
      DistinctAppend(st.leaves, commitments);
    }
  }

  lemma {:induction false} IndexDomain(index: map<Commitment, nat>, length: nat, commitments: seq<Commitment>)
    ensures ExtendIndex(index, length, commitments).Keys == index.Keys + (set c | c in commitments)
  {
    if commitments != [] {
      IndexDomain(index, length, commitments[..|commitments| - 1]);
      assert commitments == commitments[..|commitments| - 1] + [commitments[|commitments| - 1]];
    }
  }

  lemma {:induction false} IndexOfDistinct(index: map<Commitment, nat>, length: nat, commitments: seq<Commitment>)
    requires Distinct(commitments)
    requires forall c :: c in commitments ==> c !in index
    ensures var index' := ExtendIndex(index, length, commitments);
      && (forall i :: 0 <= i < |commitments| ==> commitments[i] in index' && index'[commitments[i]] == length + i)
      && (forall c :: c in index ==> c in index' && index'[c] == index[c])
  {
    if commitments != [] {
      IndexOfDistinct(index, length, commitments[..|commitments| - 1]);
    }
  }

  lemma {:induction false} AfterIndex(host: Host, st: State, step: Step)
    requires IndexAgrees(st)
    ensures IndexAgrees(After(host, st, step))
  {
    hide ComputeStateDiff, BumpNonces, Root, ExtendIndex, IndexAgrees;
    var diff := ComputeStateDiff(host, st, step.tx, step.blockId, step.timestamp);
    if Accept(host, st, step).Some? {
      DiffIsFresh(host, st, step);
      var bumped := BumpNonces(st.accounts + diff.value.publicDiff, diff.value.signers).value;
      var moved := st.(accounts := bumped);
      IndexIgnoresAccounts(st, moved);
      ExtendIndexAgrees(moved, host, diff.value.newCommitments);
      IndexIgnoresAccounts(ExtendCommitments(host, moved, diff.value.newCommitments), After(host, st, step));
    }
  }

  lemma IndexIgnoresAccounts(st: State, other: State)
    requires IndexAgrees(st)
    requires other.leaves == st.leaves && other.index == st.index
    ensures IndexAgrees(other)
  {
  }

  /** Over any run the index stays a bijection with the leaves, and an indexed commitment never moves. */
  lemma {:induction false} IndexAgreesOverRun(host: Host, st: State, steps: seq<Step>)
    requires IndexAgrees(st)
    ensures IndexAgrees(Run(host, st, steps))
    ensures forall c :: c in st.index ==> c in Run(host, st, steps).index && Run(host, st, steps).index[c] == st.index[c]
  {
    hide After;
    if steps != [] {
      var init, last := steps[..|steps| - 1], steps[|steps| - 1];
      IndexAgreesOverRun(host, st, init);
      AfterIndex(host, Run(host, st, init), last);
    }
    RootsOnlyGrow(host, st, steps);
    var st' := Run(host, st, steps);
    forall c | c in st.index
      ensures c in st'.index && st'.index[c] == st.index[c]
    {
      assert st'.leaves[st.index[c]] == c;
    }
  }

  // --------------------------------------------------------- private replay

  /** Commitments are never forgotten. */
  lemma {:induction false} CommitmentsOnlyGrow(host: Host, st: State, steps: seq<Step>)
    ensures st.index.Keys <= Run(host, st, steps).index.Keys
  {
    hide After;
    if steps != [] {
      var init, last := steps[..|steps| - 1], steps[|steps| - 1];
      CommitmentsOnlyGrow(host, st, init);
      AfterCommitments(host, Run(host, st, init), last);
    }
  }

  lemma AfterCommitments(host: Host, st: State, step: Step)
    ensures st.index.Keys <= After(host, st, step).index.Keys
    ensures Accept(host, st, step).Some? ==>
      forall c :: c in ComputeStateDiff(host, st, step.tx, step.blockId, step.timestamp).value.newCommitments ==>
        c in After(host, st, step).index
  {
    hide ComputeStateDiff, BumpNonces, Root, ExtendIndex;
    if Accept(host, st, step).Some? {
      var diff := ComputeStateDiff(host, st, step.tx, step.blockId, step.timestamp).value;
      IndexDomain(st.index, |st.leaves|, diff.newCommitments);
    }
  }

  /** A transaction with a commitment or nullifier the state already knows is refused. */
  lemma KnownNoteRejects(host: Host, st: State, tx: PrivateTransaction, blockId: nat, timestamp: nat)
    requires (exists c :: c in tx.message.newCommitments && c in st.index)
          || (exists n :: n in Fsts(tx.message.newNullifiers) && n in st.nullifiers)
    ensures FromPrivate(host, st, tx, blockId, timestamp).Err?
  {
    hide ZipDiff, NUnique, NoncesMatch;
    if n :| n in Fsts(tx.message.newNullifiers) && n in st.nullifiers {
      var i :| 0 <= i < |tx.message.newNullifiers| && Fsts(tx.message.newNullifiers)[i] == n;
      assert tx.message.newNullifiers[i].0 in st.nullifiers;
    }
  }

  lemma AcceptedNotes(host: Host, st: State, tx: PrivateTransaction, blockId: nat, timestamp: nat)
    requires FromPrivate(host, st, tx, blockId, timestamp).Ok?
    ensures var diff := FromPrivate(host, st, tx, blockId, timestamp).value;
      && diff.newCommitments == tx.message.newCommitments && diff.newNullifiers == Fsts(tx.message.newNullifiers)
      && (diff.newCommitments != [] || diff.newNullifiers != [])
  {
    hide ZipDiff, NUnique, NoncesMatch, CheckNullifiers;
  }

  /** No privacy-preserving transaction is ever accepted twice, whatever transactions of any kind come
      between: it always leaves a commitment or a nullifier that the second attempt runs into. */
  lemma NoPrivateReplay(host: Host, st: State, tx: PrivateTransaction, blockId: nat,
                        timestamp: nat, later: seq<Step>, blockId': nat, timestamp': nat)
    requires Accept(host, st, Step(PrivacyPreserving(tx), blockId, timestamp)).Some?
    ensures var st' := Run(host, After(host, st, Step(PrivacyPreserving(tx), blockId, timestamp)), later);
      FromPrivate(host, st', tx, blockId', timestamp').Err?
  {
    hide FromPrivate, Apply, Run, SpentDuring, ExtendIndex;
    var step := Step(PrivacyPreserving(tx), blockId, timestamp);
    var st1 := After(host, st, step);
    var st2 := Run(host, st1, later);
    AcceptedNotes(host, st, tx, blockId, timestamp);
    AfterCommitments(host, st, step);
    AfterPrivate(host, st, step);
    CommitmentsOnlyGrow(host, st1, later);
    NoDoubleSpend(host, st1, later);
    if tx.message.newCommitments != [] {
      assert tx.message.newCommitments[0] in st2.index;
    } else {
      assert Fsts(tx.message.newNullifiers)[0] in st2.nullifiers;
    }
    KnownNoteRejects(host, st2, tx, blockId', timestamp');
  }
}
