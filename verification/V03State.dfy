/** The state object and the methods that change it in place, proved against the functions of `Ledger`
    and `Fence`. */
module V03State {
  import opened Core
  import opened Sums
  import opened Calls
  import opened Deque
  import opened Merkle
  import opened Ledger
  import opened LedgerRuns
  import opened Fence
  import MT = MerkleTree

  class CommitmentSet {
    const tree: MT.MerkleTree
    var commitments: map<Commitment, nat>
    var rootHistory: set<Digest>

    ghost predicate Valid()
      reads this, tree
    {
      tree.Valid()
    }

    constructor WithCapacity(hs: Hasher, capacity: nat)
      ensures Valid() && fresh(tree)
      ensures tree.hs == hs && tree.leaves == [] && commitments == map[] && rootHistory == {}
    {
      tree := new MT.MerkleTree.WithCapacity(hs, capacity);
      commitments, rootHistory := map[], {};
    }

    /** A membership proof, for exactly the commitments in the index whose leaf exists; the proof names
        the indexed leaf and leads from that leaf to the current digest. */
    method GetProofFor(commitment: Commitment) returns (r: Option<(nat, seq<Node>)>)
      requires Valid()
      ensures r.Some? <==> commitment in commitments && commitments[commitment] < |tree.leaves|
      ensures r.Some? ==> r.value.0 == commitments[commitment]
      ensures r.Some? ==>
        DigestForPath(tree.hs, tree.hs.leaf(tree.leaves[r.value.0]), r.value.0, r.value.1) == Root(tree.hs, tree.leaves)
    {
      if commitment !in commitments {
        return None;
      }
      var index := commitments[commitment];
      var path := tree.GetAuthenticationPathFor(index);
      if path.None? {
        return None;
      }
      return Some((index, path.value));
    }

    /** Appends the commitments as leaves, indexes them, and remembers the new root. */
    method Extend(added: seq<Commitment>)
      requires Valid()
      modifies this, tree
      ensures Valid()
      ensures tree.leaves == old(tree.leaves) + added
      ensures commitments == ExtendIndex(old(commitments), |old(tree.leaves)|, added)
      ensures rootHistory == old(rootHistory) + {Root(tree.hs, tree.leaves)}
    {
      for i := 0 to |added|
        invariant Valid()
        invariant tree.leaves == old(tree.leaves) + added[..i]
        invariant commitments == ExtendIndex(old(commitments), |old(tree.leaves)|, added[..i])
        invariant rootHistory == old(rootHistory)
      {
        var index := tree.Insert(added[i]);
        commitments := commitments[added[i] := index];
        assert added[..i + 1][..i] == added[..i];
      }
      assert added[..|added|] == added;
      var digest := tree.RootNode();
      rootHistory := rootHistory + {digest};
    }
  }

  class V03State {
    const host: Host
    const commitmentSet: CommitmentSet
    var publicState: Accounts
    var nullifiers: set<Nullifier>
    var programs: set<ProgramId>

    ghost predicate Valid()
      reads this, commitmentSet, commitmentSet.tree
    {
      commitmentSet.Valid() && commitmentSet.tree.hs == host.hasher
    }

    ghost function Value(): State
      reads this, commitmentSet, commitmentSet.tree
    {
      State(publicState, commitmentSet.tree.leaves, commitmentSet.commitments, commitmentSet.rootHistory,
            nullifiers, programs)
    }

    constructor NewWithGenesisAccounts(host: Host, sys: System, initial: seq<(AccountId, u128)>,
                                       private: seq<(Commitment, Nullifier)>, timestamp: nat)
      ensures Valid() && fresh(commitmentSet) && fresh(commitmentSet.tree)
      ensures Value() == Genesis(host, sys, initial, private, timestamp)
    {
      this.host := host;
      publicState := GenesisAccounts(sys, initial, timestamp);
      commitmentSet := new CommitmentSet.WithCapacity(host.hasher, 32);
      nullifiers := set i | 0 <= i < |private| :: private[i].1;
      programs := sys.builtins;
      new;
      commitmentSet.Extend([sys.dummyCommitment]);
      commitmentSet.Extend(GenesisCommitments(private));
    }

    /** Writes the diff entry by entry, in whatever order the map yields them. */
    method WriteDiff(diff: Accounts)
      modifies this`publicState
      ensures publicState == old(publicState) + diff
    {
      var left := diff.Keys;
      while left != {}
        invariant left <= diff.Keys
        invariant publicState == old(publicState) + (map id | id in diff && id !in left :: diff[id])
      {
        var id :| id in left;
        publicState := publicState[id := diff[id]];
        left := left - {id};
      }
      assert (map id | id in diff && id !in left :: diff[id]) == diff;
    }

    method IncrementNonces(signers: seq<AccountId>) returns (panicked: bool)
      modifies this`publicState
      ensures panicked == BumpNonces(old(publicState), signers).None?
      ensures !panicked ==> BumpNonces(old(publicState), signers) == Some(publicState)
    {
      for i := 0 to |signers|
        invariant BumpNonces(old(publicState), signers[..i]) == Some(publicState)
      {
        var account := Lookup(publicState, signers[i]);
        assert signers[..i + 1][..i] == signers[..i];
        if account.nonce + 1 == U128_LIMIT {
          OverflowIsFinal(old(publicState), signers, i + 1);
          return true;
        }
        publicState := publicState[signers[i] := account.(nonce := account.nonce + 1)];
      }
      assert signers[..|signers|] == signers;
      return false;
    }

    /** Applies a validated diff; `panicked` when a nonce would overflow. */
    method ApplyStateDiff(diff: StateDiff) returns (panicked: bool)
      requires Valid()
      modifies this, commitmentSet, commitmentSet.tree
      ensures Valid()
      ensures panicked == Apply(host, old(Value()), diff).None?
      ensures !panicked ==> Apply(host, old(Value()), diff) == Some(Value())
    {
      WriteDiff(diff.publicDiff);
      panicked := IncrementNonces(diff.signers);
      if panicked {
        return;
      }
      commitmentSet.Extend(diff.newCommitments);
      nullifiers := nullifiers + (set n | n in diff.newNullifiers);
      if diff.program.Some? {
        programs := programs + {diff.program.value};
      }
      assert old(programs) + {} == old(programs);
    }

    /** In a state whose index agrees with its leaves (every state reached from a good genesis), a proof
        is found for exactly the inserted commitments and leads from that commitment to the digest. */
    method GetProofForCommitment(commitment: Commitment) returns (r: Option<(nat, seq<Node>)>)
      requires Valid()
      ensures IndexAgrees(Value()) ==> (r.Some? <==> commitment in Value().leaves)
      ensures IndexAgrees(Value()) && r.Some? ==>
        && r.value.0 < |Value().leaves| && Value().leaves[r.value.0] == commitment
        && DigestForPath(host.hasher, host.hasher.leaf(commitment), r.value.0, r.value.1)
           == Root(host.hasher, Value().leaves)
    {
      r := commitmentSet.GetProofFor(commitment);
    }

    method CheckCommitmentsAreNew(added: seq<Commitment>) returns (ok: bool)
      ensures ok <==> forall c :: c in added ==> c !in commitmentSet.commitments
    {
      for i := 0 to |added|
        invariant forall j :: 0 <= j < i ==> added[j] !in commitmentSet.commitments
      {
        if added[i] in commitmentSet.commitments {
          return false;
        }
      }
      return true;
    }

    method CheckNullifiersAreValid(pairs: seq<(Nullifier, Digest)>) returns (r: Check<LeeError>)
      ensures r == CheckNullifiers(nullifiers, commitmentSet.rootHistory, pairs)
    {
      var roots := commitmentSet.rootHistory;
      for i := 0 to |pairs|
        invariant CheckNullifiers(nullifiers, roots, pairs) == CheckNullifiers(nullifiers, roots, pairs[i..])
      {
        assert pairs[i..][1..] == pairs[i + 1..];
        if pairs[i].0 in nullifiers {
          return Fail(NullifierAlreadySeen);
        }
        if pairs[i].1 !in roots {
          return Fail(UnrecognizedDigest);
        }
      }
      return Pass;
    }

    method CheckNonces(signers: seq<AccountId>, nonces: seq<u128>) returns (ok: bool)
      requires |signers| == |nonces|
      ensures ok == NoncesMatch(publicState, signers, nonces)
    {
      for i := 0 to |signers|
        invariant forall j :: 0 <= j < i ==> Lookup(publicState, signers[j]).nonce == nonces[j]
      {
        if Lookup(publicState, signers[i]).nonce != nonces[i] {
          return false;
        }
      }
      return true;
    }

    /** Validates a public transaction: the deque loop after the checks on ids, signatures and nonces. */
    method FromPublicTransaction(tx: PublicTransaction, blockId: nat, timestamp: nat) returns (r: Outcome<StateDiff>)
      requires Valid()
      ensures r == FromPublic(host, Value(), tx, blockId, timestamp)
    {
      hide RunCalls;
      var m := tx.message;
      if NUnique(m.accountIds) != |m.accountIds| {
        return Err(DuplicateAccountIds);
      }
      if |m.nonces| != |tx.witnesses| {
        return Err(NonceCountMismatch);
      }
      for i := 0 to |tx.witnesses|
        invariant forall j :: 0 <= j < i ==> host.publicSignatureOk(m, tx.witnesses[j])
      {
        if !host.publicSignatureOk(m, tx.witnesses[i]) {
          return Err(InvalidSignature);
        }
      }
      var noncesOk := CheckNonces(SignerIds(host, tx.witnesses), m.nonces);
      if !noncesOk {
        return Err(NonceMismatch);
      }
      var ctx := PublicContext(host, publicState, programs, tx, blockId, timestamp);
      var diff, _ := RunDeque(ctx);
      if diff.Err? {
        return Err(diff.error);
      }
      return Ok(StateDiff(SignerIds(host, tx.witnesses), diff.value, [], [], None));
    }

    method FromPrivacyPreservingTransaction(tx: PrivateTransaction, blockId: nat, timestamp: nat)
      returns (r: Outcome<StateDiff>)
      requires Valid()
      ensures r == FromPrivate(host, Value(), tx, blockId, timestamp)
    {
      var m := tx.message;
      if m.newCommitments == [] && m.newNullifiers == [] {
        return Err(EmptyCommitmentsAndNullifiers);
      }
      if NUnique(m.publicAccountIds) != |m.publicAccountIds| {
        return Err(DuplicateAccountIds);
      }
      if NUnique(Fsts(m.newNullifiers)) != |m.newNullifiers| {
        return Err(DuplicateNullifiers);
      }
      if NUnique(m.newCommitments) != |m.newCommitments| {
        return Err(DuplicateCommitments);
      }
      if |m.nonces| != |tx.witnesses| {
        return Err(NonceCountMismatch);
      }
      if exists i :: 0 <= i < |tx.witnesses| && !host.privateSignatureOk(m, tx.witnesses[i]) {
        return Err(InvalidSignature);
      }
      var signers := SignerIds(host, tx.witnesses);
      var noncesOk := CheckNonces(signers, m.nonces);
      if !noncesOk {
        return Err(NonceMismatch);
      }
      if !(m.blockWindow.Contains(blockId) && m.timestampWindow.Contains(timestamp)) {
        return Err(OutOfValidityWindow);
      }
      var pres := InputPreStates(publicState, m.publicAccountIds, signers);
      if !host.proofOk(tx.proof, CircuitOutput(pres, m)) {
        return Err(InvalidPrivacyPreservingProof);
      }
      var unseen := CheckCommitmentsAreNew(m.newCommitments);
      if !unseen {
        return Err(CommitmentAlreadySeen);
      }
      var unspent := CheckNullifiersAreValid(m.newNullifiers);
      if unspent.Fail? {
        return Err(unspent.error);
      }
      return Ok(StateDiff(signers, ZipDiff(m.publicAccountIds, m.publicPostStates), m.newCommitments,
                          Fsts(m.newNullifiers), None));
    }

    method FromProgramDeploymentTransaction(tx: DeploymentTransaction) returns (r: Outcome<StateDiff>)
      requires Valid()
      ensures r == FromDeployment(host, Value(), tx)
    {
      var id := host.imageId(tx.bytecode);
      if id.None? {
        return Err(InvalidProgramBytecode);
      }
      if id.value in programs {
        return Err(ProgramAlreadyExists);
      }
      return Ok(StateDiff([], map[], [], [], Some(id.value)));
    }

    method ComputeDiff(step: Step) returns (r: Outcome<StateDiff>)
      requires Valid()
      ensures r == ComputeStateDiff(host, Value(), step.tx, step.blockId, step.timestamp)
    {
      match step.tx
      case Public(tx) => r := FromPublicTransaction(tx, step.blockId, step.timestamp);
      case PrivacyPreserving(tx) => r := FromPrivacyPreservingTransaction(tx, step.blockId, step.timestamp);
      case ProgramDeployment(tx) => r := FromProgramDeploymentTransaction(tx);
    }

    /** Validates without the system guard and applies. */
    method Transition(step: Step) returns (accepted: bool, panicked: bool)
      requires Valid()
      modifies this, commitmentSet, commitmentSet.tree
      ensures Valid()
      ensures !panicked ==> Value() == After(host, old(Value()), step)
      ensures !panicked ==> (accepted <==> Accept(host, old(Value()), step).Some?)
    {
      hide ComputeStateDiff, Apply;
      var diff := ComputeDiff(step);
      accepted, panicked := diff.Ok?, false;
      if accepted {
        panicked := ApplyStateDiff(diff.value);
      }
    }

    /** Validates under the system guard and applies; a refused transaction leaves the state unchanged. */
    method ExecuteCheckOnState(sys: System, step: Step) returns (accepted: bool, panicked: bool)
      requires Valid()
      modifies this, commitmentSet, commitmentSet.tree
      ensures Valid()
      ensures !panicked ==> Value() == AfterUser(host, sys, old(Value()), step)
      ensures !panicked ==> (accepted <==> ValidateOnState(host, sys, old(Value()), step).Ok?)
    {
      hide ComputeStateDiff, Apply;
      panicked := false;
      var computed := ComputeDiff(step);
      if computed.Err? {
        return false, false;
      }
      var diff := computed.value;
      var restricted := sys.clocks + [sys.faucet];
      for i := 0 to |restricted|
        invariant forall j :: 0 <= j < i ==> !ModifiesAccount(Value(), diff, restricted[j])
      {
        var id := restricted[i];
        if id in diff.publicDiff && diff.publicDiff[id] != Lookup(publicState, id) {
          assert id in sys.clocks + [sys.faucet] && ModifiesAccount(old(Value()), diff, id);
          return false, false;
        }
      }
      if sys.bridge in diff.publicDiff {
        var pre, post := Lookup(publicState, sys.bridge), diff.publicDiff[sys.bridge];
        var onlyBalanceIncreased := post.(balance := pre.balance) == pre && pre.balance <= post.balance;
        if !step.tx.Public? || !onlyBalanceIncreased {
          return false, false;
        }
      }
      panicked := ApplyStateDiff(diff);
      accepted := true;
    }
  }

  lemma {:induction false} OverflowIsFinal(accounts: Accounts, signers: seq<AccountId>, n: nat)
    requires n <= |signers|
    requires BumpNonces(accounts, signers[..n]).None?
    ensures BumpNonces(accounts, signers).None?
  {
    if n == |signers| {
      assert signers[..n] == signers;
    } else {
      assert signers[..|signers| - 1][..n] == signers[..n];
      OverflowIsFinal(accounts, signers[..|signers| - 1], n);
    }
  }
}
