/** The public and private state of the chain, the three kinds of transaction, and what applying
    one does. */
module Ledger {
  import opened Core
  import opened Sums
  import opened Calls
  import opened Merkle

  type Commitment = Value
  type Digest = Node
  type Nullifier = nat

  /** Everything outside the state machine: programs, hashing, signatures, proofs. All arbitrary. */
  datatype Host = Host(
    execute: (ProgramId, Option<ProgramId>, seq<AccountWithMetadata>, Instruction) -> Option<ProgramOutput>,
    publicPda: (ProgramId, PdaSeed) -> AccountId,
    hasher: Hasher,
    accountOf: nat -> AccountId,
    publicSignatureOk: (PublicMessage, Witness) -> bool,
    privateSignatureOk: (PrivateMessage, Witness) -> bool,
    proofOk: (nat, CircuitOutput) -> bool,
    imageId: seq<nat> -> Option<ProgramId>)

  // ----------------------------------------------------------- transactions

  datatype Witness = Witness(signature: nat, publicKey: nat)

  datatype PublicMessage = PublicMessage(
    programId: ProgramId, accountIds: seq<AccountId>, nonces: seq<u128>, instruction: Instruction)

  datatype PublicTransaction = PublicTransaction(message: PublicMessage, witnesses: seq<Witness>)

  datatype PrivateMessage = PrivateMessage(
    publicAccountIds: seq<AccountId>,
    nonces: seq<u128>,
    publicPostStates: seq<Account>,
    encryptedPostStates: seq<nat>,
    newCommitments: seq<Commitment>,
    newNullifiers: seq<(Nullifier, Digest)>,
    blockWindow: ValidityWindow,
    timestampWindow: ValidityWindow)

  datatype PrivateTransaction = PrivateTransaction(message: PrivateMessage, witnesses: seq<Witness>, proof: nat)

  /** What a privacy-preserving proof is checked against. */
  datatype CircuitOutput = CircuitOutput(publicPreStates: seq<AccountWithMetadata>, message: PrivateMessage)

  datatype DeploymentTransaction = DeploymentTransaction(bytecode: seq<nat>)

  datatype Transaction =
    | Public(public: PublicTransaction)
    | PrivacyPreserving(private: PrivateTransaction)
    | ProgramDeployment(deployment: DeploymentTransaction)

  function SignerIds(host: Host, witnesses: seq<Witness>): seq<AccountId> {
    seq(|witnesses|, i requires 0 <= i < |witnesses| => host.accountOf(witnesses[i].publicKey))
  }

  function Signers(host: Host, tx: Transaction): seq<AccountId> {
    match tx
    case Public(t) => SignerIds(host, t.witnesses)
    case PrivacyPreserving(t) => SignerIds(host, t.witnesses)
    case ProgramDeployment(_) => []
  }

  // ------------------------------------------------------------------ state

  datatype State = State(
    accounts: Accounts,
    leaves: seq<Commitment>,
    index: map<Commitment, nat>,
    roots: set<Digest>,
    nullifiers: set<Nullifier>,
    programs: set<ProgramId>)

  datatype StateDiff = StateDiff(
    signers: seq<AccountId>,
    publicDiff: Accounts,
    newCommitments: seq<Commitment>,
    newNullifiers: seq<Nullifier>,
    program: Option<ProgramId>)

  // ------------------------------------------------------------- validation

  predicate NoncesMatch(accounts: Accounts, signers: seq<AccountId>, nonces: seq<u128>)
    requires |signers| == |nonces|
  {
    forall i :: 0 <= i < |signers| ==> Lookup(accounts, signers[i]).nonce == nonces[i]
  }

  function InputPreStates(accounts: Accounts, ids: seq<AccountId>, signers: seq<AccountId>): seq<AccountWithMetadata> {
    seq(|ids|, i requires 0 <= i < |ids| =>
      AccountWithMetadata(Lookup(accounts, ids[i]), ids[i] in signers, ids[i]))
  }

  function PublicContext(host: Host, accounts: Accounts, programs: set<ProgramId>,
                         tx: PublicTransaction, blockId: nat, timestamp: nat): Context
  {
    var signers := SignerIds(host, tx.witnesses);
    var call := ChainedCall(tx.message.programId, InputPreStates(accounts, tx.message.accountIds, signers),
                            tx.message.instruction, []);
    Context(host.execute, host.publicPda, accounts, programs, (set s | s in signers), call, blockId, timestamp)
  }

  /** The checks before a public transaction's first call. */
  function CheckPublic(host: Host, accounts: Accounts, tx: PublicTransaction): Check<LeeError> {
    var m := tx.message;
    if NUnique(m.accountIds) != |m.accountIds| then Fail(DuplicateAccountIds)
    else if |m.nonces| != |tx.witnesses| then Fail(NonceCountMismatch)
    else if exists i :: 0 <= i < |tx.witnesses| && !host.publicSignatureOk(m, tx.witnesses[i]) then Fail(InvalidSignature)
    else if !NoncesMatch(accounts, SignerIds(host, tx.witnesses), m.nonces) then Fail(NonceMismatch)
    else Pass
  }

  function FromPublic(host: Host, st: State, tx: PublicTransaction, blockId: nat, timestamp: nat): Outcome<StateDiff> {
    var ctx := PublicContext(host, st.accounts, st.programs, tx, blockId, timestamp);
    :- CheckPublic(host, st.accounts, tx);
    var run :- RunCalls(ctx);
    Ok(StateDiff(SignerIds(host, tx.witnesses), run.diff, [], [], None))
  }

  function Fsts(pairs: seq<(Nullifier, Digest)>): seq<Nullifier> {
    seq(|pairs|, i requires 0 <= i < |pairs| => pairs[i].0)
  }

  /** The first new nullifier that was spent before or names an unknown root decides the error. */
  function CheckNullifiers(spent: set<Nullifier>, roots: set<Digest>, pairs: seq<(Nullifier, Digest)>)
      : (r: Check<LeeError>)
    ensures r.Pass? <==> forall i :: 0 <= i < |pairs| ==> pairs[i].0 !in spent && pairs[i].1 in roots
  {
    if pairs == [] then Pass
    else if pairs[0].0 in spent then Fail(NullifierAlreadySeen)
    else if pairs[0].1 !in roots then Fail(UnrecognizedDigest)
    else
      var rest := CheckNullifiers(spent, roots, pairs[1..]);
      assert forall i :: 1 <= i < |pairs| ==> pairs[i] == pairs[1..][i - 1];
      rest
  }

  /** Pairs each listed account with its post-state, as far as both lists go. */
  function ZipDiff(ids: seq<AccountId>, posts: seq<Account>): Accounts {
    var n := if |ids| <= |posts| then |ids| else |posts|;
    Record(map[], ids[..n], posts[..n])
  }

  function FromPrivate(host: Host, st: State, tx: PrivateTransaction,
                       blockId: nat, timestamp: nat): Outcome<StateDiff> {
    var m := tx.message;
    var signers := SignerIds(host, tx.witnesses);
    :- Ensure(m.newCommitments != [] || m.newNullifiers != [], EmptyCommitmentsAndNullifiers);
    :- Ensure(NUnique(m.publicAccountIds) == |m.publicAccountIds|, DuplicateAccountIds);
    :- Ensure(NUnique(Fsts(m.newNullifiers)) == |m.newNullifiers|, DuplicateNullifiers);
    :- Ensure(NUnique(m.newCommitments) == |m.newCommitments|, DuplicateCommitments);
    if |m.nonces| != |tx.witnesses| then Err(NonceCountMismatch) else
    :- Ensure(forall i :: 0 <= i < |tx.witnesses| ==> host.privateSignatureOk(m, tx.witnesses[i]), InvalidSignature);
    :- Ensure(NoncesMatch(st.accounts, signers, m.nonces), NonceMismatch);
    :- Ensure(m.blockWindow.Contains(blockId) && m.timestampWindow.Contains(timestamp), OutOfValidityWindow);
    var pres := InputPreStates(st.accounts, m.publicAccountIds, signers);
    :- Ensure(host.proofOk(tx.proof, CircuitOutput(pres, m)), InvalidPrivacyPreservingProof);
    :- Ensure(forall c :: c in m.newCommitments ==> c !in st.index, CommitmentAlreadySeen);
    :- CheckNullifiers(st.nullifiers, st.roots, m.newNullifiers);
    Ok(StateDiff(signers, ZipDiff(m.publicAccountIds, m.publicPostStates), m.newCommitments, Fsts(m.newNullifiers), None))
  }

  function FromDeployment(host: Host, st: State, tx: DeploymentTransaction): Outcome<StateDiff> {
    var id := host.imageId(tx.bytecode);
    if id.None? then Err(InvalidProgramBytecode)
    else if id.value in st.programs then Err(ProgramAlreadyExists)
    else Ok(StateDiff([], map[], [], [], Some(id.value)))
  }

  function ComputeStateDiff(host: Host, st: State, tx: Transaction, blockId: nat, timestamp: nat): Outcome<StateDiff> {
    match tx
    case Public(t) => FromPublic(host, st, t, blockId, timestamp)
    case PrivacyPreserving(t) => FromPrivate(host, st, t, blockId, timestamp)
    case ProgramDeployment(t) => FromDeployment(host, st, t)
  }

  // ------------------------------------------------------------ application

  /** Increments the nonce of each listed signer, once per listing; `None` when a nonce overflows. */
  function BumpNonces(accounts: Accounts, signers: seq<AccountId>): Option<Accounts> {
    if signers == [] then Some(accounts)
    else
      var init, last := BumpNonces(accounts, signers[..|signers| - 1]), signers[|signers| - 1];
      if init.None? then None
      else
        var account := Lookup(init.value, last);
        if account.nonce + 1 < U128_LIMIT
        then Some(init.value[last := account.(nonce := account.nonce + 1)])
        else None
  }

  function ExtendIndex(index: map<Commitment, nat>, length: nat, commitments: seq<Commitment>): map<Commitment, nat> {
    if commitments == [] then index
    else
      var last := |commitments| - 1;
      ExtendIndex(index, length, commitments[..last])[commitments[last] := length + last]
  }

  function ExtendCommitments(host: Host, st: State, commitments: seq<Commitment>): State {
    var leaves := st.leaves + commitments;
    st.(leaves := leaves,
        index := ExtendIndex(st.index, |st.leaves|, commitments),
        roots := st.roots + {Root(host.hasher, leaves)})
  }

  /** The state after a diff; `None` when incrementing a nonce would overflow, which aborts. */
  function Apply(host: Host, st: State, diff: StateDiff): Option<State> {
    var accounts := BumpNonces(st.accounts + diff.publicDiff, diff.signers);
    if accounts.None? then None
    else
      var extended := ExtendCommitments(host, st.(accounts := accounts.value), diff.newCommitments);
      Some(extended.(
        nullifiers := st.nullifiers + (set n | n in diff.newNullifiers),
        programs := st.programs + (if diff.program.Some? then {diff.program.value} else {})))
  }

  // ------------------------------------------------------------------- runs

  datatype Step = Step(tx: Transaction, blockId: nat, timestamp: nat)

  /** The state an accepted transaction leads to; `None` when it is rejected. */
  function Accept(host: Host, st: State, step: Step): Option<State> {
    match ComputeStateDiff(host, st, step.tx, step.blockId, step.timestamp)
    case Err(_) => None
    case Ok(diff) => Apply(host, st, diff)
  }

  /** Rejected transactions leave the state as it was. */
  function After(host: Host, st: State, step: Step): State {
    var next := Accept(host, st, step);
    if next.Some? then next.value else st
  }

  function Run(host: Host, st: State, steps: seq<Step>): State {
    if steps == [] then st
    else After(host, Run(host, st, steps[..|steps| - 1]), steps[|steps| - 1])
  }
}
