/** Exactly when each kind of transaction is accepted and what state it leaves, and what that says about runs. */
module LedgerRules {
  import opened Core
  import opened Sums
  import opened Calls
  import opened CallRules
  import opened CallTrees
  import opened Merkle
  import opened Ledger
  import opened LedgerRuns

  // ------------------------------------------------------------------- witnesses

  ghost predicate SignedBy(host: Host, witnesses: seq<Witness>, id: AccountId) {
    exists i :: 0 <= i < |witnesses| && host.accountOf(witnesses[i].publicKey) == id
  }

  /** There is one nonce per witness, and it is the signing account's current one. */
  ghost predicate NoncesCurrent(host: Host, accounts: Accounts, witnesses: seq<Witness>, nonces: seq<u128>) {
    && |nonces| == |witnesses|
    && forall i :: 0 <= i < |witnesses| ==> nonces[i] == Lookup(accounts, host.accountOf(witnesses[i].publicKey)).nonce
  }

  /** The listed accounts as they are, in order, flagged exactly when they signed. */
  ghost predicate Prepared(host: Host, accounts: Accounts, ids: seq<AccountId>,
                           witnesses: seq<Witness>, pres: seq<AccountWithMetadata>) {
    && |pres| == |ids|
    && forall i :: 0 <= i < |ids| ==>
         && pres[i].id == ids[i] && pres[i].account == Lookup(accounts, ids[i])
         && (pres[i].isAuthorized <==> SignedBy(host, witnesses, ids[i]))
  }

  /** The signers of a list of witnesses, in order. */
  ghost predicate Sign(host: Host, witnesses: seq<Witness>, signers: seq<AccountId>) {
    && |signers| == |witnesses|
    && forall i :: 0 <= i < |witnesses| ==> signers[i] == host.accountOf(witnesses[i].publicKey)
  }

  lemma SignerIdsExactly(host: Host, witnesses: seq<Witness>, id: AccountId)
    ensures id in SignerIds(host, witnesses) <==> SignedBy(host, witnesses, id)
  {
    if SignedBy(host, witnesses, id) {
      var i :| 0 <= i < |witnesses| && host.accountOf(witnesses[i].publicKey) == id;
      assert SignerIds(host, witnesses)[i] == id;
    }
  }

  lemma NoncesExactly(host: Host, accounts: Accounts, witnesses: seq<Witness>, nonces: seq<u128>)
    requires |nonces| == |witnesses|
    ensures NoncesMatch(accounts, SignerIds(host, witnesses), nonces) <==> NoncesCurrent(host, accounts, witnesses, nonces)
  {
    assert forall i :: 0 <= i < |witnesses| ==>
      SignerIds(host, witnesses)[i] == host.accountOf(witnesses[i].publicKey);
  }

  lemma PreparedExactly(host: Host, accounts: Accounts, ids: seq<AccountId>,
                        witnesses: seq<Witness>, pres: seq<AccountWithMetadata>)
    ensures Prepared(host, accounts, ids, witnesses, pres)
       <==> pres == InputPreStates(accounts, ids, SignerIds(host, witnesses))
  {
    hide SignedBy, SignerIds;
    forall i | 0 <= i < |ids|
      ensures ids[i] in SignerIds(host, witnesses) <==> SignedBy(host, witnesses, ids[i])
    {
      SignerIdsExactly(host, witnesses, ids[i]);
    }
  }

  // --------------------------------------------------------- public transactions

  /** The run a public transaction starts: its call on the listed accounts, on behalf of its signers. */
  ghost predicate StartsFrom(host: Host, st: State, tx: PublicTransaction, blockId: nat, timestamp: nat, ctx: Context) {
    && ctx.execute == host.execute && ctx.publicPda == host.publicPda
    && ctx.accounts == st.accounts && ctx.programs == st.programs
    && (forall id :: id in ctx.signers <==> SignedBy(host, tx.witnesses, id))
    && ctx.initialCall.programId == tx.message.programId && ctx.initialCall.instruction == tx.message.instruction
    && Prepared(host, st.accounts, tx.message.accountIds, tx.witnesses, ctx.initialCall.preStates)
    && ctx.initialCall.pdaSeeds == []
    && ctx.blockId == blockId && ctx.timestamp == timestamp
  }

  lemma StartsExactly(host: Host, st: State, tx: PublicTransaction, blockId: nat, timestamp: nat, ctx: Context)
    ensures StartsFrom(host, st, tx, blockId, timestamp, ctx)
       <==> ctx == PublicContext(host, st.accounts, st.programs, tx, blockId, timestamp)
  {
    hide SignedBy, SignerIds, Prepared, InputPreStates;
    PreparedExactly(host, st.accounts, tx.message.accountIds, tx.witnesses, ctx.initialCall.preStates);
    forall id
      ensures id in SignerIds(host, tx.witnesses) <==> SignedBy(host, tx.witnesses, id)
    {
      SignerIdsExactly(host, tx.witnesses, id);
    }
    var signers := set s | s in SignerIds(host, tx.witnesses);
    if StartsFrom(host, st, tx, blockId, timestamp, ctx) {
      assert ctx.signers == signers;
    }
  }

  /** The checks before the first call: different accounts, a valid signature and the current nonce from every
      signer. */
  ghost predicate PublicRules(host: Host, st: State, tx: PublicTransaction) {
    && Distinct(tx.message.accountIds)
    && NoncesCurrent(host, st.accounts, tx.witnesses, tx.message.nonces)
    && forall i :: 0 <= i < |tx.witnesses| ==> host.publicSignatureOk(tx.message, tx.witnesses[i])
  }

  lemma CheckPublicExactly(host: Host, st: State, tx: PublicTransaction)
    ensures CheckPublic(host, st.accounts, tx).Pass? <==> PublicRules(host, st, tx)
  {
    hide NUnique, Distinct, NoncesMatch, SignerIds;
    NUniqueIsDistinct(tx.message.accountIds);
    if |tx.message.nonces| == |tx.witnesses| {
      NoncesExactly(host, st.accounts, tx.witnesses, tx.message.nonces);
    }
  }

  /** A public transaction is valid if and only if it meets the checks and the run it starts is accepted; its
      diff is what that run wrote. */
  lemma PublicExactly(host: Host, st: State, tx: PublicTransaction, blockId: nat, timestamp: nat, ctx: Context)
    requires StartsFrom(host, st, tx, blockId, timestamp, ctx)
    ensures FromPublic(host, st, tx, blockId, timestamp).Ok? <==> PublicRules(host, st, tx) && RunCalls(ctx).Ok?
    ensures FromPublic(host, st, tx, blockId, timestamp).Ok? ==>
      var diff := FromPublic(host, st, tx, blockId, timestamp).value;
      && Sign(host, tx.witnesses, diff.signers)
      && diff.publicDiff == RunCalls(ctx).value.diff
      && diff.newCommitments == [] && diff.newNullifiers == [] && diff.program.None?
  {
    hide RunCalls, CheckPublic, PublicRules, PublicContext, StartsFrom;
    StartsExactly(host, st, tx, blockId, timestamp, ctx);
    CheckPublicExactly(host, st, tx);
  }

  // -------------------------------------------------------- private transactions

  /** What is asked of a privacy-preserving transaction, its proof checked against the listed accounts as they
      are. */
  ghost predicate PrivateRules(host: Host, st: State, tx: PrivateTransaction, blockId: nat,
                               timestamp: nat, pres: seq<AccountWithMetadata>) {
    var m := tx.message;
    && Prepared(host, st.accounts, m.publicAccountIds, tx.witnesses, pres)
    && host.proofOk(tx.proof, CircuitOutput(pres, m))
    && NoncesCurrent(host, st.accounts, tx.witnesses, m.nonces)
    && (forall i :: 0 <= i < |tx.witnesses| ==> host.privateSignatureOk(m, tx.witnesses[i]))
    && InTime(m.blockWindow, blockId) && InTime(m.timestampWindow, timestamp)
    && Distinct(m.publicAccountIds) && Distinct(m.newCommitments)
    && (forall i, j :: 0 <= i < j < |m.newNullifiers| ==> m.newNullifiers[i].0 != m.newNullifiers[j].0)
    && |m.newCommitments| + |m.newNullifiers| > 0
    && (forall i :: 0 <= i < |m.newCommitments| ==> m.newCommitments[i] !in st.index)
    && (forall i :: 0 <= i < |m.newNullifiers| ==>
          m.newNullifiers[i].0 !in st.nullifiers && m.newNullifiers[i].1 in st.roots)
  }

  /** The listed accounts that have a post-state, each with its own. */
  ghost predicate PostsListed(ids: seq<AccountId>, posts: seq<Account>, diff: Accounts) {
    && (forall id :: id in diff <==> exists i :: 0 <= i < |ids| && i < |posts| && ids[i] == id)
    && forall i :: 0 <= i < |ids| && i < |posts| ==> ids[i] in diff && diff[ids[i]] == posts[i]
  }

  lemma ZipExactly(ids: seq<AccountId>, posts: seq<Account>)
    requires Distinct(ids)
    ensures PostsListed(ids, posts, ZipDiff(ids, posts))
  {
    hide Record;
    var n := if |ids| <= |posts| then |ids| else |posts|;
    var diff := ZipDiff(ids, posts);
    forall i | 0 <= i < n
      ensures ids[i] in diff && diff[ids[i]] == posts[i]
    {
      RecordAt(map[], ids[..n], posts[..n], i);
    }
    forall id | id in diff
      ensures exists i :: 0 <= i < |ids| && i < |posts| && ids[i] == id
    {
      if id !in ids[..n] {
        RecordElsewhere(map[], ids[..n], posts[..n], id);
      }
    }
  }

  lemma FstsExactly(pairs: seq<(Nullifier, Digest)>)
    ensures Distinct(Fsts(pairs)) <==> forall i, j :: 0 <= i < j < |pairs| ==> pairs[i].0 != pairs[j].0
  {
    var firsts := Fsts(pairs);
    assert forall i :: 0 <= i < |pairs| ==> firsts[i] == pairs[i].0;
    if Distinct(firsts) {
      forall i, j | 0 <= i < j < |pairs|
        ensures pairs[i].0 != pairs[j].0
      {
        assert firsts[i] != firsts[j];
      }
    }
  }

  lemma WindowExactly(window: ValidityWindow, now: nat)
    ensures window.Contains(now) <==> InTime(window, now)
  {
  }

  /** A privacy-preserving transaction is valid if and only if it meets the rules, a proof valid for the listed
      accounts as they are among them; its diff gives the i-th listed account the i-th post-state. */
  lemma PrivateExactly(host: Host, st: State, tx: PrivateTransaction, blockId: nat,
                       timestamp: nat, pres: seq<AccountWithMetadata>)
    requires Prepared(host, st.accounts, tx.message.publicAccountIds, tx.witnesses, pres)
    ensures FromPrivate(host, st, tx, blockId, timestamp).Ok? <==> PrivateRules(host, st, tx, blockId, timestamp, pres)
    ensures FromPrivate(host, st, tx, blockId, timestamp).Ok? ==>
      var diff := FromPrivate(host, st, tx, blockId, timestamp).value;
      && Sign(host, tx.witnesses, diff.signers)
      && PostsListed(tx.message.publicAccountIds, tx.message.publicPostStates, diff.publicDiff)
      && diff.newCommitments == tx.message.newCommitments
      && |diff.newNullifiers| == |tx.message.newNullifiers|
      && (forall i :: 0 <= i < |diff.newNullifiers| ==> diff.newNullifiers[i] == tx.message.newNullifiers[i].0)
      && diff.program.None?
  {
    hide NUnique, Distinct, NoncesMatch, NoncesCurrent, Prepared, InputPreStates, ZipDiff, PostsListed;
    var m := tx.message;
    PreparedExactly(host, st.accounts, m.publicAccountIds, tx.witnesses, pres);
    NUniqueIsDistinct(m.publicAccountIds);
    NUniqueIsDistinct(Fsts(m.newNullifiers));
    NUniqueIsDistinct(m.newCommitments);
    FstsExactly(m.newNullifiers);
    WindowExactly(m.blockWindow, blockId);
    WindowExactly(m.timestampWindow, timestamp);
    NoncesCounted(host, st.accounts, tx.witnesses, m.nonces);
    if |m.nonces| == |tx.witnesses| {
      NoncesExactly(host, st.accounts, tx.witnesses, m.nonces);
    }
    if Distinct(m.publicAccountIds) {
      ZipExactly(m.publicAccountIds, m.publicPostStates);
    }
  }

  lemma NoncesCounted(host: Host, accounts: Accounts, witnesses: seq<Witness>, nonces: seq<u128>)
    ensures NoncesCurrent(host, accounts, witnesses, nonces) ==> |nonces| == |witnesses|
  {
  }

  // ----------------------------------------------------------------- deployments

  /** A deployment is valid if and only if its bytecode has an image id that is not known yet; it adds that id. */
  lemma DeploymentExactly(host: Host, st: State, tx: DeploymentTransaction)
    ensures FromDeployment(host, st, tx).Ok? <==>
      host.imageId(tx.bytecode).Some? && host.imageId(tx.bytecode).value !in st.programs
    ensures FromDeployment(host, st, tx).Ok? ==>
      var diff := FromDeployment(host, st, tx).value;
      && diff.program == host.imageId(tx.bytecode)
      && diff.signers == [] && diff.publicDiff == map[] && diff.newCommitments == [] && diff.newNullifiers == []
  {
  }

  // ----------------------------------------------------------------- application

  /** Incrementing nonces succeeds if and only if no signer's nonce runs out. */
  lemma {:induction false} BumpExactly(accounts: Accounts, signers: seq<AccountId>)
    ensures BumpNonces(accounts, signers).Some? <==>
      forall id :: id in signers ==> Lookup(accounts, id).nonce + multiset(signers)[id] < U128_LIMIT
  {
    if signers != [] {
      var init, last := signers[..|signers| - 1], signers[|signers| - 1];
      assert signers == init + [last];
      BumpExactly(accounts, init);
      if BumpNonces(accounts, init).Some? {
        BumpEffect(accounts, init, last);
        if BumpNonces(accounts, signers).Some? {
          forall id | id in signers
            ensures Lookup(accounts, id).nonce + multiset(signers)[id] < U128_LIMIT
          {
            BumpEffect(accounts, signers, id);
          }
        }
      } else {
        var id :| id in init && Lookup(accounts, id).nonce + multiset(init)[id] >= U128_LIMIT;
        assert id in signers && multiset(signers)[id] >= multiset(init)[id];
      }
    }
  }

  /** The account with the diff written over it and its signatures counted. */
  ghost predicate AccountAfter(was: Accounts, diff: StateDiff, id: AccountId, now: Account) {
    var written := if id in diff.publicDiff then diff.publicDiff[id] else Lookup(was, id);
    && now.owner == written.owner && now.balance == written.balance && now.data == written.data
    && now.nonce == written.nonce + multiset(diff.signers)[id]
  }

  /** A diff is applied if and only if no signer's nonce runs out. Then every account is as written with its
      signatures counted, the commitments are appended under a remembered root, the nullifiers spent and the
      program known; nothing else is. */
  lemma ApplyExactly(host: Host, st: State, diff: StateDiff)
    ensures Apply(host, st, diff).Some? <==> forall id :: id in diff.signers ==>
      Lookup(st.accounts + diff.publicDiff, id).nonce + multiset(diff.signers)[id] < U128_LIMIT
    ensures Apply(host, st, diff).Some? ==>
      var after := Apply(host, st, diff).value;
      && (forall id {:trigger Lookup(after.accounts, id)} ::
            AccountAfter(st.accounts, diff, id, Lookup(after.accounts, id)))
      && after.leaves == st.leaves + diff.newCommitments
      && (forall root :: root in after.roots <==> root in st.roots || root == Root(host.hasher, after.leaves))
      && (forall n :: n in after.nullifiers <==> n in st.nullifiers || n in diff.newNullifiers)
      && (forall program :: program in after.programs <==> program in st.programs || diff.program == Some(program))
  {
    hide BumpNonces, Root, ExtendIndex;
    BumpExactly(st.accounts + diff.publicDiff, diff.signers);
    if Apply(host, st, diff).Some? {
      forall id
        ensures AccountAfter(st.accounts, diff, id, Lookup(Apply(host, st, diff).value.accounts, id))
      {
        BumpEffect(st.accounts + diff.publicDiff, diff.signers, id);
      }
    }
  }

  // ------------------------------------------------------------------- acceptance

  /** What is asked of a transaction, whatever its kind, on the state it meets. */
  ghost predicate MeetsRulesOf(host: Host, st: State, step: Step) {
    match step.tx
    case Public(tx) =>
      PublicRules(host, st, tx)
      && exists ctx, t :: StartsFrom(host, st, tx, step.blockId, step.timestamp, ctx) && Succeeds(ctx, t)
    case PrivacyPreserving(tx) => exists pres :: PrivateRules(host, st, tx, step.blockId, step.timestamp, pres)
    case ProgramDeployment(tx) =>
      host.imageId(tx.bytecode).Some? && host.imageId(tx.bytecode).value !in st.programs
  }

  lemma PublicStepExactly(host: Host, st: State, tx: PublicTransaction, blockId: nat, timestamp: nat)
    ensures FromPublic(host, st, tx, blockId, timestamp).Ok?
       <==> MeetsRulesOf(host, st, Step(Public(tx), blockId, timestamp))
  {
    hide FromPublic, PublicRules, RunCalls, Succeeds, StartsFrom, PublicContext;
    var ctx := PublicContext(host, st.accounts, st.programs, tx, blockId, timestamp);
    StartsExactly(host, st, tx, blockId, timestamp, ctx);
    PublicExactly(host, st, tx, blockId, timestamp, ctx);
    AcceptedExactly(ctx);
    if MeetsRulesOf(host, st, Step(Public(tx), blockId, timestamp)) {
      var c, t :| StartsFrom(host, st, tx, blockId, timestamp, c) && Succeeds(c, t);
      StartsExactly(host, st, tx, blockId, timestamp, c);
    }
  }

  lemma PrivateStepExactly(host: Host, st: State, tx: PrivateTransaction, blockId: nat, timestamp: nat)
    ensures FromPrivate(host, st, tx, blockId, timestamp).Ok?
       <==> MeetsRulesOf(host, st, Step(PrivacyPreserving(tx), blockId, timestamp))
  {
    hide FromPrivate, InputPreStates, Prepared;
    var ids := tx.message.publicAccountIds;
    var pres := InputPreStates(st.accounts, ids, SignerIds(host, tx.witnesses));
    PreparedExactly(host, st.accounts, ids, tx.witnesses, pres);
    PrivateExactly(host, st, tx, blockId, timestamp, pres);
    if MeetsRulesOf(host, st, Step(PrivacyPreserving(tx), blockId, timestamp)) {
      var other :| PrivateRules(host, st, tx, blockId, timestamp, other);
      PreparedExactly(host, st.accounts, ids, tx.witnesses, other);
    }
  }

  /** A transaction of any kind is valid if and only if it meets the rules of its kind on the state it meets. */
  lemma ValidIffRules(host: Host, st: State, step: Step)
    ensures ComputeStateDiff(host, st, step.tx, step.blockId, step.timestamp).Ok? <==> MeetsRulesOf(host, st, step)
  {
    hide FromPublic, FromPrivate, FromDeployment, PublicRules, PrivateRules, Succeeds, StartsFrom;
    match step.tx
    case Public(tx) => PublicStepExactly(host, st, tx, step.blockId, step.timestamp);
    case PrivacyPreserving(tx) => PrivateStepExactly(host, st, tx, step.blockId, step.timestamp);
    case ProgramDeployment(tx) => DeploymentExactly(host, st, tx);
  }

  /** Every transaction a run accepts met the rules of its kind on the very state it met: every signature of a
      public one valid, every proof of a private one valid for the accounts of that state. */
  lemma RunMeetsRules(host: Host, st: State, steps: seq<Step>, i: nat)
    requires i < |steps| && Accept(host, Run(host, st, steps[..i]), steps[i]).Some?
    ensures MeetsRulesOf(host, Run(host, st, steps[..i]), steps[i])
  {
    hide Run, Apply, ComputeStateDiff, MeetsRulesOf;
    ValidIffRules(host, Run(host, st, steps[..i]), steps[i]);
  }

  // --------------------------------------------------------- signatures over runs

  ghost predicate SignatureOk(host: Host, tx: Transaction, w: Witness) {
    match tx
    case Public(t) => host.publicSignatureOk(t.message, w)
    case PrivacyPreserving(t) => host.privateSignatureOk(t.message, w)
    case ProgramDeployment(_) => false
  }

  ghost function Witnesses(tx: Transaction): seq<Witness> {
    match tx
    case Public(t) => t.witnesses
    case PrivacyPreserving(t) => t.witnesses
    case ProgramDeployment(_) => []
  }

  /** The valid signatures of one account among some witnesses. */
  ghost function ValidSignatures(host: Host, tx: Transaction, witnesses: seq<Witness>, id: AccountId): nat {
    if witnesses == [] then 0
    else
      var last := witnesses[|witnesses| - 1];
      ValidSignatures(host, tx, witnesses[..|witnesses| - 1], id)
      + if host.accountOf(last.publicKey) == id && SignatureOk(host, tx, last) then 1 else 0
  }

  /** The valid signatures of one account on the transactions a run accepted. */
  ghost function ValidDuring(host: Host, st: State, steps: seq<Step>, id: AccountId): nat {
    if steps == [] then 0
    else
      var init, last := steps[..|steps| - 1], steps[|steps| - 1];
      ValidDuring(host, st, init, id)
      + if Accept(host, Run(host, st, init), last).Some? then ValidSignatures(host, last.tx, Witnesses(last.tx), id) else 0
  }

  lemma {:induction false} AllSignaturesValid(host: Host, tx: Transaction, witnesses: seq<Witness>, id: AccountId)
    requires forall i :: 0 <= i < |witnesses| ==> SignatureOk(host, tx, witnesses[i])
    ensures multiset(SignerIds(host, witnesses))[id] == ValidSignatures(host, tx, witnesses, id)
  {
    hide SignatureOk;
    if witnesses != [] {
      var init, last := witnesses[..|witnesses| - 1], witnesses[|witnesses| - 1];
      AllSignaturesValid(host, tx, init, id);
      assert SignerIds(host, witnesses) == SignerIds(host, init) + [host.accountOf(last.publicKey)];
      assert last == witnesses[|witnesses| - 1];
    }
  }

  lemma AcceptedSignatures(host: Host, st: State, step: Step, id: AccountId)
    requires Accept(host, st, step).Some?
    ensures multiset(Signers(host, step.tx))[id] == ValidSignatures(host, step.tx, Witnesses(step.tx), id)
  {
    hide Apply, ComputeStateDiff, Succeeds, StartsFrom, Prepared, NoncesCurrent, Distinct;
    ValidIffRules(host, st, step);
    match step.tx
    case Public(tx) => AllSignaturesValid(host, step.tx, tx.witnesses, id);
    case PrivacyPreserving(tx) => AllSignaturesValid(host, step.tx, tx.witnesses, id);
    case ProgramDeployment(_) =>
  }

  /** Over any run, every signature a nonce counts is a valid one. */
  lemma {:induction false} SignaturesAreValid(host: Host, st: State, steps: seq<Step>, id: AccountId)
    ensures SignatureCount(host, st, steps, id) == ValidDuring(host, st, steps, id)
  {
    hide Accept, Run, ValidSignatures, Signers;
    if steps != [] {
      var init, last := steps[..|steps| - 1], steps[|steps| - 1];
      SignaturesAreValid(host, st, init, id);
      if Accept(host, Run(host, st, init), last).Some? {
        AcceptedSignatures(host, Run(host, st, init), last, id);
      }
    }
  }

  /** Over any run whose accepted proofs keep nonces, an account's nonce has risen by exactly the valid
      signatures it put on accepted transactions. */
  lemma NoncesCountValidSignatures(host: Host, st: State, steps: seq<Step>, id: AccountId)
    requires ProofsKeepNonces(host, st, steps)
    ensures Lookup(Run(host, st, steps).accounts, id).nonce
         == Lookup(st.accounts, id).nonce + ValidDuring(host, st, steps, id)
  {
    hide Run, ProofsKeepNonces, SignatureCount, ValidDuring;
    NoncesCountSignatures(host, st, steps, id);
    SignaturesAreValid(host, st, steps, id);
  }

  // ------------------------------------------------------------ programs over runs

  ghost predicate Deploys(host: Host, step: Step, program: ProgramId) {
    step.tx.ProgramDeployment? && host.imageId(step.tx.deployment.bytecode) == Some(program)
  }

  lemma AfterPrograms(host: Host, st: State, step: Step, program: ProgramId)
    ensures program in After(host, st, step).programs <==> program in st.programs || Deploys(host, step, program)
  {
    hide FromPublic, FromPrivate, BumpNonces, ExtendIndex, Root, Apply;
    var computed := ComputeStateDiff(host, st, step.tx, step.blockId, step.timestamp);
    if computed.Ok? {
      ApplyExactly(host, st, computed.value);
      OnlyDeploymentsAdd(host, st, step);
    }
  }

  lemma OnlyDeploymentsAdd(host: Host, st: State, step: Step)
    requires ComputeStateDiff(host, st, step.tx, step.blockId, step.timestamp).Ok?
    ensures var diff := ComputeStateDiff(host, st, step.tx, step.blockId, step.timestamp).value;
      && (!step.tx.ProgramDeployment? ==> diff.program.None?)
      && (step.tx.ProgramDeployment? ==> diff.program == host.imageId(step.tx.deployment.bytecode) && diff.signers == [])
  {
    hide RunCalls, CheckPublic, ZipDiff, CheckNullifiers, NUnique, NoncesMatch;
  }

  /** After any run the known programs are the old ones and exactly those the run deployed. */
  lemma {:induction false} ProgramsOverRun(host: Host, st: State, steps: seq<Step>, program: ProgramId)
    ensures program in Run(host, st, steps).programs
       <==> program in st.programs || exists i :: 0 <= i < |steps| && Deploys(host, steps[i], program)
  {
    hide After, Deploys;
    if steps != [] {
      var init, last := steps[..|steps| - 1], steps[|steps| - 1];
      ProgramsOverRun(host, st, init, program);
      AfterPrograms(host, Run(host, st, init), last, program);
      assert forall i :: 0 <= i < |init| ==> init[i] == steps[i];
      assert last == steps[|steps| - 1];
    }
  }
}
