/** Executing one call of a public transaction, and the recursive evaluator that runs a
    call followed by the whole subtree of each call it chains. */
module Calls {
  import opened Core
  import opened Sums
  import opened Execution

  const MAX_NUMBER_CHAINED_CALLS: nat := 10

  datatype LeeError =
    | DuplicateAccountIds
    | NonceCountMismatch
    | InvalidSignature
    | NonceMismatch
    | MaxChainedCallsDepthExceeded
    | UnknownProgram
    | ProgramExecutionFailed
    | InconsistentAccountPreState(id: AccountId)
    | InvalidAccountAuthorization(id: AccountId)
    | AuthorizedAccountMarkedAsNotAuthorized(id: AccountId)
    | MismatchedProgramId
    | MismatchedCallerProgramId
    | ExecutionValidationFailed(reason: ExecutionError)
    | OutOfValidityWindow
    | ClaimedNonDefaultAccount(id: AccountId)
    | ClaimedUnauthorizedAccount(id: AccountId)
    | MismatchedPdaClaim(expected: AccountId, actual: AccountId)
    | DefaultAccountModifiedWithoutClaim
    | EmptyCommitmentsAndNullifiers
    | DuplicateNullifiers
    | DuplicateCommitments
    | InvalidPrivacyPreservingProof
    | CommitmentAlreadySeen
    | NullifierAlreadySeen
    | UnrecognizedDigest
    | InvalidProgramBytecode
    | ProgramAlreadyExists
    | RestrictedAccountModified
    | BridgeAccountModified

  type Outcome<T> = Result<T, LeeError>

  /** What a public transaction runs against. Programs and PDA derivation are arbitrary functions:
      everything proved below holds whatever the programs do. */
  datatype Context = Context(
    execute: (ProgramId, Option<ProgramId>, seq<AccountWithMetadata>, Instruction) -> Option<ProgramOutput>,
    publicPda: (ProgramId, PdaSeed) -> AccountId,
    accounts: Accounts,
    programs: set<ProgramId>,
    signers: set<AccountId>,
    initialCall: ChainedCall,
    blockId: nat,
    timestamp: nat)

  datatype CallerData = CallerData(programId: Option<ProgramId>, authorized: set<AccountId>)

  /** A pending call. `parent` is the executed call that chained it; no check reads it, it only
      records where the call came from. */
  datatype WorkItem = WorkItem(call: ChainedCall, caller: CallerData, parent: Option<Executed>)

  /** An executed call: `posts` are the output's post-states after claims were resolved. */
  datatype Executed = Executed(item: WorkItem, output: ProgramOutput, posts: seq<AccountPostState>)

  // ------------------------------------------------------- one call's checks

  function AuthorizedPdas(ctx: Context, caller: Option<ProgramId>, seeds: seq<PdaSeed>): set<AccountId> {
    if caller.None? then {} else set seed | seed in seeds :: ctx.publicPda(caller.value, seed)
  }

  /** The accounts this call may treat as authorized. */
  function Granted(ctx: Context, item: WorkItem): set<AccountId> {
    AuthorizedPdas(ctx, item.caller.programId, item.call.pdaSeeds) + item.caller.authorized
  }

  function CheckPreState(current: Accounts, granted: set<AccountId>, pre: AccountWithMetadata): Check<LeeError> {
    if pre.account != Lookup(current, pre.id) then Fail(InconsistentAccountPreState(pre.id))
    else if pre.isAuthorized && pre.id !in granted then Fail(InvalidAccountAuthorization(pre.id))
    else if !pre.isAuthorized && pre.id in granted then Fail(AuthorizedAccountMarkedAsNotAuthorized(pre.id))
    else Pass
  }

  function CheckPreStates(current: Accounts, granted: set<AccountId>, pres: seq<AccountWithMetadata>)
      : (r: Check<LeeError>)
    ensures r.Pass? <==> forall i :: 0 <= i < |pres| ==>
      pres[i].account == Lookup(current, pres[i].id) && (pres[i].isAuthorized <==> pres[i].id in granted)
  {
    if pres == [] then Pass
    else if CheckPreState(current, granted, pres[0]).Fail? then CheckPreState(current, granted, pres[0])
    else
      var rest := CheckPreStates(current, granted, pres[1..]);
      assert forall i :: 1 <= i < |pres| ==> pres[i] == pres[1..][i - 1];
      rest
  }

  function ResolveClaim(ctx: Context, program: ProgramId, pre: AccountWithMetadata, post: AccountPostState)
      : Outcome<AccountPostState>
  {
    match post.claim
    case None => Ok(post)
    case Some(claim) =>
      if post.account.owner != DEFAULT_PROGRAM_ID then Err(ClaimedNonDefaultAccount(pre.id))
      else if claim.Authorized? && !pre.isAuthorized then Err(ClaimedUnauthorizedAccount(pre.id))
      else if claim.Pda? && pre.id != ctx.publicPda(program, claim.seed) then
        Err(MismatchedPdaClaim(ctx.publicPda(program, claim.seed), pre.id))
      else Ok(post.(account := post.account.(owner := program)))
  }

  /** Resolves the claims first to last, stopping at the first refusal. */
  function ResolveClaims(ctx: Context, program: ProgramId, pres: seq<AccountWithMetadata>, posts: seq<AccountPostState>)
      : (r: Outcome<seq<AccountPostState>>)
    requires |pres| == |posts|
    ensures r.Ok? <==> forall i :: 0 <= i < |posts| ==> ResolveClaim(ctx, program, pres[i], posts[i]).Ok?
    ensures r.Ok? ==> |r.value| == |posts|
    ensures r.Ok? ==> forall i :: 0 <= i < |posts| ==> ResolveClaim(ctx, program, pres[i], posts[i]) == Ok(r.value[i])
  {
    if posts == [] then Ok([])
    else
      var last := |posts| - 1;
      var init :- ResolveClaims(ctx, program, pres[..last], posts[..last]);
      var claimed :- ResolveClaim(ctx, program, pres[last], posts[last]);
      Ok(init + [claimed])
  }

  /** Runs one call against the accounts as changed so far by the calls before it. */
  function Execute(ctx: Context, item: WorkItem, diff: Accounts): Outcome<Executed> {
    var program := item.call.programId;
    if program !in ctx.programs then Err(UnknownProgram) else
    var ran := ctx.execute(program, item.caller.programId, item.call.preStates, item.call.instruction);
    if ran.None? then Err(ProgramExecutionFailed) else
    var output := ran.value;
    :- CheckPreStates(ctx.accounts + diff, Granted(ctx, item), output.preStates);
    :- Ensure(output.selfProgramId == program, MismatchedProgramId);
    :- Ensure(output.callerProgramId == item.caller.programId, MismatchedCallerProgramId);
    var valid := ValidateExecution(output.preStates, output.postStates, program);
    if valid.Fail? then Err(ExecutionValidationFailed(valid.error)) else
    ValidateExecutionMeaning(output.preStates, output.postStates, program);
    :- Ensure(output.blockWindow.Contains(ctx.blockId) && output.timestampWindow.Contains(ctx.timestamp),
              OutOfValidityWindow);
    var posts :- ResolveClaims(ctx, program, output.preStates, output.postStates);
    Ok(Executed(item, output, posts))
  }

  /** Writes an executed call's post-states. */
  function Write(accounts: Accounts, done: Executed): Accounts
    requires |done.output.preStates| == |done.posts|
  {
    Record(accounts, Ids(done.output.preStates), PostAccounts(done.posts))
  }

  /** The accounts authorized for everything this call chains. */
  function AuthorizedBelow(done: Executed): set<AccountId> {
    done.item.caller.authorized
    + set i | 0 <= i < |done.output.preStates| && done.output.preStates[i].isAuthorized :: done.output.preStates[i].id
  }

  function Child(done: Executed, call: ChainedCall): WorkItem {
    WorkItem(call, CallerData(Some(done.item.call.programId), AuthorizedBelow(done)), Some(done))
  }

  function Children(done: Executed): seq<WorkItem> {
    seq(|done.output.chainedCalls|, i requires 0 <= i < |done.output.chainedCalls| =>
      Child(done, done.output.chainedCalls[i]))
  }

  // ------------------------------------------------------ recursive evaluator

  /** The accumulated diff and the calls executed so far, in order. */
  datatype Progress = Progress(diff: Accounts, trace: seq<Executed>)

  function Remaining(p: Progress): nat {
    if |p.trace| <= MAX_NUMBER_CHAINED_CALLS then MAX_NUMBER_CHAINED_CALLS + 1 - |p.trace| else 0
  }

  /** Runs a call, then the subtree of each call it chained, left to right. */
  function EvalCall(ctx: Context, item: WorkItem, p: Progress): (r: Outcome<Progress>)
    ensures r.Ok? ==> p.trace < r.value.trace && |r.value.trace| <= MAX_NUMBER_CHAINED_CALLS + 1
    decreases Remaining(p), 0
  {
    if |p.trace| > MAX_NUMBER_CHAINED_CALLS then Err(MaxChainedCallsDepthExceeded) else
    var done :- Execute(ctx, item, p.diff);
    var next := Progress(Write(p.diff, done), p.trace + [done]);
    EvalAll(ctx, Children(done), next)
  }

  function EvalAll(ctx: Context, items: seq<WorkItem>, p: Progress): (r: Outcome<Progress>)
    ensures r.Ok? ==> p.trace <= r.value.trace
    ensures r.Ok? && items != [] ==> |r.value.trace| <= MAX_NUMBER_CHAINED_CALLS + 1
    decreases Remaining(p), |items|
  {
    if items == [] then Ok(p)
    else
      var q :- EvalCall(ctx, items[0], p);
      EvalAll(ctx, items[1..], q)
  }

  /** Evaluating two groups of calls one after the other is evaluating them together. */
  lemma {:induction false} EvalAllAppend(ctx: Context, first: seq<WorkItem>, second: seq<WorkItem>, p: Progress)
    ensures EvalAll(ctx, first + second, p) ==
      (match EvalAll(ctx, first, p) case Err(e) => Err(e) case Ok(q) => EvalAll(ctx, second, q))
    decreases |first|
  {
    if first == [] {
      assert first + second == second;
    } else {
      assert (first + second)[1..] == first[1..] + second;
      var q := EvalCall(ctx, first[0], p);
      if q.Ok? {
        EvalAllAppend(ctx, first[1..], second, q.value);
      }
    }
  }

  function RootItem(ctx: Context): WorkItem {
    WorkItem(ctx.initialCall, CallerData(None, ctx.signers), None)
  }

  /** Every changed account that started without an owner has one now. */
  predicate ModifiedDefaultsClaimed(accounts: Accounts, diff: Accounts) {
    forall id :: id in diff ==>
      Lookup(accounts, id).owner != DEFAULT_PROGRAM_ID || Lookup(accounts, id) == diff[id]
      || diff[id].owner != DEFAULT_PROGRAM_ID
  }

  /** The specification of the whole chain of calls of a public transaction. */
  function RunCalls(ctx: Context): Outcome<Progress> {
    var p :- EvalCall(ctx, RootItem(ctx), Progress(map[], []));
    if ModifiedDefaultsClaimed(ctx.accounts, p.diff) then Ok(p) else Err(DefaultAccountModifiedWithoutClaim)
  }
}
