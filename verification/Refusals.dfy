/** Which error a refused transaction gets: the first rule it breaks, in the order they are checked. */
module Refusals {
  import opened Core
  import opened Sums
  import opened Execution
  import opened Calls
  import opened CallTrace
  import opened CallRules
  import opened CallTrees
  import opened Ledger
  import opened LedgerRules

  // ------------------------------------------------------------- execution validation

  /** The rule one account's change breaks, the rules before it being met. */
  ghost predicate AccountFault(pre: AccountWithMetadata, post: Account, executing: ProgramId, reason: ExecutionError) {
    var sameNonce, sameOwner := post.nonce == pre.account.nonce, post.owner == pre.account.owner;
    var keeps := post.balance >= pre.account.balance || pre.account.owner == executing;
    var writes := post.data == pre.account.data || pre.account == DEFAULT_ACCOUNT || pre.account.owner == executing;
    match reason
    case ModifiedNonce(id) => id == pre.id && !sameNonce
    case ModifiedProgramOwner(id) => id == pre.id && sameNonce && !sameOwner
    case UnauthorizedBalanceDecrease(id) => id == pre.id && sameNonce && sameOwner && !keeps
    case UnauthorizedDataModification(id) => id == pre.id && sameNonce && sameOwner && keeps && !writes
    case NonDefaultAccountWithDefaultOwner(id) =>
      id == pre.id && sameNonce && sameOwner && keeps && writes
      && pre.account.owner == DEFAULT_PROGRAM_ID && pre.account != DEFAULT_ACCOUNT
    case _ => false
  }

  ghost predicate AllWellBehaved(pres: seq<AccountWithMetadata>,
                                 posts: seq<AccountPostState>, n: nat, executing: ProgramId)
    requires |pres| == |posts| && n <= |pres|
  {
    forall i :: 0 <= i < n ==> WellBehaved(pres[i].account, posts[i].account, executing)
  }

  ghost predicate ExecutionFault(pres: seq<AccountWithMetadata>, posts: seq<AccountPostState>,
                                 executing: ProgramId, reason: ExecutionError) {
    var before, after := SumSeq(AccountsOf(pres), Balance), SumSeq(PostAccounts(posts), Balance);
    match reason
    case PreStateAccountIdsNotUnique => !Distinct(Ids(pres))
    case MismatchedPreStatePostStateLength(n, m) => Distinct(Ids(pres)) && n == |pres| && m == |posts| && n != m
    case BalanceSumOverflow =>
      && Distinct(Ids(pres)) && |pres| == |posts| && AllWellBehaved(pres, posts, |pres|, executing)
      && (before >= U128_LIMIT * U128_LIMIT || after >= U128_LIMIT * U128_LIMIT)
    case MismatchedTotalBalance =>
      && Distinct(Ids(pres)) && |pres| == |posts| && AllWellBehaved(pres, posts, |pres|, executing)
      && before != after && before < U128_LIMIT * U128_LIMIT && after < U128_LIMIT * U128_LIMIT
    case _ =>
      && Distinct(Ids(pres)) && |pres| == |posts|
      && exists i {:trigger pres[i]} :: 0 <= i < |pres| && AllWellBehaved(pres, posts, i, executing)
           && AccountFault(pres[i], posts[i].account, executing, reason)
  }

  lemma {:induction false} FirstAccountFault(pres: seq<AccountWithMetadata>, posts: seq<AccountPostState>,
                                             executing: ProgramId) returns (i: nat)
    requires |pres| == |posts| && CheckAccounts(pres, posts, executing).Fail?
    ensures i < |pres| && AllWellBehaved(pres, posts, i, executing)
    ensures AccountFault(pres[i], posts[i].account, executing, CheckAccounts(pres, posts, executing).error)
  {
    if CheckAccount(pres[0], posts[0].account, executing).Fail? {
      i := 0;
    } else {
      CheckAccountMeaning(pres[0], posts[0].account, executing);
      var j := FirstAccountFault(pres[1..], posts[1..], executing);
      i := j + 1;
      forall n | 0 <= n < i
        ensures WellBehaved(pres[n].account, posts[n].account, executing)
      {
        assert n == 0 || (pres[n] == pres[1..][n - 1] && posts[n] == posts[1..][n - 1]);
      }
    }
  }

  /** Validation fails with the first rule an output breaks. */
  lemma ExecutionRefused(pres: seq<AccountWithMetadata>, posts: seq<AccountPostState>, executing: ProgramId)
    requires ValidateExecution(pres, posts, executing).Fail?
    ensures ExecutionFault(pres, posts, executing, ValidateExecution(pres, posts, executing).error)
  {
    hide NUnique, Distinct, FromBalances, SumSeq, CheckAccount, CheckAccounts, WellBehaved, AccountFault;
    NUniqueIsDistinct(Ids(pres));
    FromBalancesExact(AccountsOf(pres));
    FromBalancesExact(PostAccounts(posts));
    SumsAgree(FromBalances(AccountsOf(pres)), FromBalances(PostAccounts(posts)));
    if Distinct(Ids(pres)) && |pres| == |posts| {
      if CheckAccounts(pres, posts, executing).Fail? {
        var i := FirstAccountFault(pres, posts, executing);
        AccountFaultKinds(pres[i], posts[i].account, executing, CheckAccounts(pres, posts, executing).error);
      } else {
        forall i | 0 <= i < |pres|
          ensures WellBehaved(pres[i].account, posts[i].account, executing)
        {
          CheckAccountMeaning(pres[i], posts[i].account, executing);
        }
      }
    }
  }

  lemma AccountFaultKinds(pre: AccountWithMetadata, post: Account, executing: ProgramId, reason: ExecutionError)
    requires AccountFault(pre, post, executing, reason)
    ensures !reason.PreStateAccountIdsNotUnique? && !reason.MismatchedPreStatePostStateLength?
    ensures !reason.BalanceSumOverflow? && !reason.MismatchedTotalBalance?
  {
  }

  // -------------------------------------------------------------------------- one call

  /** What is wrong with the report of one account. */
  ghost predicate ReportFault(ctx: Context, item: WorkItem, current: Accounts, pre: AccountWithMetadata, e: LeeError) {
    match e
    case InconsistentAccountPreState(id) => id == pre.id && pre.account != Lookup(current, id)
    case InvalidAccountAuthorization(id) =>
      id == pre.id && pre.account == Lookup(current, id) && pre.isAuthorized && !HandedDown(ctx, item, id)
    case AuthorizedAccountMarkedAsNotAuthorized(id) =>
      id == pre.id && pre.account == Lookup(current, id) && !pre.isAuthorized && HandedDown(ctx, item, id)
    case _ => false
  }

  /** What is wrong with one claim. */
  ghost predicate ClaimFault(ctx: Context, program: ProgramId, pre: AccountWithMetadata,
                             post: AccountPostState, e: LeeError) {
    var unowned := post.account.owner == DEFAULT_PROGRAM_ID;
    match e
    case ClaimedNonDefaultAccount(id) => id == pre.id && post.claim.Some? && !unowned
    case ClaimedUnauthorizedAccount(id) => id == pre.id && post.claim == Some(Authorized) && unowned && !pre.isAuthorized
    case MismatchedPdaClaim(expected, actual) =>
      && actual == pre.id && actual != expected && unowned
      && post.claim.Some? && post.claim.value.Pda? && expected == ctx.publicPda(program, post.claim.value.seed)
    case _ => false
  }

  lemma {:induction false} FirstReportFault(ctx: Context, item: WorkItem, current: Accounts,
                                            pres: seq<AccountWithMetadata>) returns (i: nat)
    requires CheckPreStates(current, Granted(ctx, item), pres).Fail?
    ensures i < |pres| && ReportsTruthfully(ctx, item, current, pres[..i])
    ensures ReportFault(ctx, item, current, pres[i], CheckPreStates(current, Granted(ctx, item), pres).error)
    decreases |pres|
  {
    hide Granted, HandedDown;
    GrantedIsHandedDown(ctx, item, pres[0].id);
    if CheckPreState(current, Granted(ctx, item), pres[0]).Fail? {
      i := 0;
    } else {
      var j := FirstReportFault(ctx, item, current, pres[1..]);
      i := j + 1;
      forall n | 0 <= n < i
        ensures pres[..i][n].account == Lookup(current, pres[..i][n].id)
        ensures pres[..i][n].isAuthorized <==> HandedDown(ctx, item, pres[..i][n].id)
      {
        assert n == 0 || pres[n] == pres[1..][..j][n - 1];
      }
    }
  }

  lemma {:induction false} FirstClaimFault(ctx: Context, program: ProgramId, pres: seq<AccountWithMetadata>,
                                           posts: seq<AccountPostState>) returns (i: nat)
    requires |pres| == |posts| && ResolveClaims(ctx, program, pres, posts).Err?
    ensures i < |pres| && ClaimsWell(ctx, program, pres[..i], posts[..i])
    ensures ClaimFault(ctx, program, pres[i], posts[i], ResolveClaims(ctx, program, pres, posts).error)
    decreases |pres|
  {
    var last := |posts| - 1;
    if ResolveClaims(ctx, program, pres[..last], posts[..last]).Err? {
      i := FirstClaimFault(ctx, program, pres[..last], posts[..last]);
      assert pres[..last][..i] == pres[..i] && posts[..last][..i] == posts[..i];
    } else {
      i := last;
      ClaimsExactly(ctx, program, pres[..last], posts[..last]);
    }
  }

  /** Why a call is refused, the checks before it having passed. */
  ghost predicate CallFault(ctx: Context, item: WorkItem, current: Accounts, e: LeeError) {
    var program := item.call.programId;
    var ran := ctx.execute(program, item.caller.programId, item.call.preStates, item.call.instruction);
    if program !in ctx.programs then e == UnknownProgram
    else if ran.None? then e == ProgramExecutionFailed
    else
      var output := ran.value;
      if !ReportsTruthfully(ctx, item, current, output.preStates) then
        exists i {:trigger output.preStates[i]} :: 0 <= i < |output.preStates|
          && ReportsTruthfully(ctx, item, current, output.preStates[..i])
          && ReportFault(ctx, item, current, output.preStates[i], e)
      else if output.selfProgramId != program then e == MismatchedProgramId
      else if output.callerProgramId != item.caller.programId then e == MismatchedCallerProgramId
      else if !BehavesWell(program, output.preStates, output.postStates) then
        e.ExecutionValidationFailed? && ExecutionFault(output.preStates, output.postStates, program, e.reason)
      else if !InTime(output.blockWindow, ctx.blockId) || !InTime(output.timestampWindow, ctx.timestamp) then
        e == OutOfValidityWindow
      else
        exists i {:trigger output.preStates[i]} :: 0 <= i < |output.preStates|
          && ClaimsWell(ctx, program, output.preStates[..i], output.postStates[..i])
          && ClaimFault(ctx, program, output.preStates[i], output.postStates[i], e)
  }

  /** A refused call gets the error of the first check it fails. */
  lemma CallRefused(ctx: Context, item: WorkItem, diff: Accounts)
    requires Execute(ctx, item, diff).Err?
    ensures CallFault(ctx, item, ctx.accounts + diff, Execute(ctx, item, diff).error)
  {
    hide Granted, CheckPreStates, ReportsTruthfully, ValidateExecution, BehavesWell,
         ResolveClaims, ClaimsWell, ReportFault, ClaimFault, ExecutionFault;
    var program, current := item.call.programId, ctx.accounts + diff;
    var ran := ctx.execute(program, item.caller.programId, item.call.preStates, item.call.instruction);
    if program in ctx.programs && ran.Some? {
      var pres, posts := ran.value.preStates, ran.value.postStates;
      ReportsExactly(ctx, item, current, pres);
      ValidExactly(program, pres, posts);
      WindowExactly(ran.value.blockWindow, ctx.blockId);
      WindowExactly(ran.value.timestampWindow, ctx.timestamp);
      if CheckPreStates(current, Granted(ctx, item), pres).Fail? {
        var i := FirstReportFault(ctx, item, current, pres);
      } else if ValidateExecution(pres, posts, program).Fail? {
        ExecutionRefused(pres, posts, program);
      } else if ResolveClaims(ctx, program, pres, posts).Err? {
        var i := FirstClaimFault(ctx, program, pres, posts);
      }
    }
  }

  // -------------------------------------------------------------------- the whole chain

  /** Calls ran as ruled until `item` came up, the transaction's own call or one that a call before it chained. */
  ghost predicate StoppedAt(ctx: Context, trace: seq<Executed>, item: WorkItem) {
    RuledFrom(ctx, trace, 0) && Rooted(ctx, trace, item)
  }

  /** Why a transaction's calls are refused: a call that fails its checks, a twelfth call, or an account left
      changed and unclaimed at the end. */
  ghost predicate ChainFault(ctx: Context, e: LeeError) {
    || (exists trace, item :: StoppedAt(ctx, trace, item) && |trace| <= 10
          && CallFault(ctx, item, World(ctx, trace, |trace|), e))
    || (e == MaxChainedCallsDepthExceeded && exists trace, item :: StoppedAt(ctx, trace, item) && |trace| == 11)
    || (e == DefaultAccountModifiedWithoutClaim && exists trace ::
          RuledFrom(ctx, trace, 0) && !NoneLeftUnclaimed(ctx.accounts, Replay(ctx.accounts, trace)))
  }

  lemma {:induction false} CallStops(ctx: Context, item: WorkItem,
                                     p: Progress) returns (trace: seq<Executed>, next: WorkItem)
    requires History(ctx, p.trace) && p.diff == Replay(map[], p.trace) && Rooted(ctx, p.trace, item) && |p.trace| <= 11
    requires EvalCall(ctx, item, p).Err?
    ensures History(ctx, trace) && Rooted(ctx, trace, next) && |trace| <= 11
    ensures if |trace| == 11 then EvalCall(ctx, item, p).error == MaxChainedCallsDepthExceeded
            else Execute(ctx, next, Replay(map[], trace)) == Err(EvalCall(ctx, item, p).error)
    decreases Remaining(p), 0
  {
    hide Execute, Replay;
    if |p.trace| == 11 || Execute(ctx, item, p.diff).Err? {
      trace, next := p.trace, item;
    } else {
      var done := Execute(ctx, item, p.diff).value;
      HistoryExtends(ctx, p, item, done);
      trace, next := GroupStops(ctx, Children(done), Progress(Write(p.diff, done), p.trace + [done]));
    }
  }

  lemma {:induction false} GroupStops(ctx: Context, items: seq<WorkItem>, p: Progress)
      returns (trace: seq<Executed>, next: WorkItem)
    requires History(ctx, p.trace) && p.diff == Replay(map[], p.trace) && |p.trace| <= 11
    requires forall item :: item in items ==> Rooted(ctx, p.trace, item)
    requires EvalAll(ctx, items, p).Err?
    ensures History(ctx, trace) && Rooted(ctx, trace, next) && |trace| <= 11
    ensures if |trace| == 11 then EvalAll(ctx, items, p).error == MaxChainedCallsDepthExceeded
            else Execute(ctx, next, Replay(map[], trace)) == Err(EvalAll(ctx, items, p).error)
    decreases Remaining(p), |items|
  {
    hide Execute, Replay;
    if EvalCall(ctx, items[0], p).Err? {
      trace, next := CallStops(ctx, items[0], p);
    } else {
      var q := EvalCall(ctx, items[0], p).value;
      EvalCallHistory(ctx, items[0], p);
      forall item | item in items[1..]
        ensures Rooted(ctx, q.trace, item)
      {
        assert Rooted(ctx, p.trace, item);
      }
      trace, next := GroupStops(ctx, items[1..], q);
    }
  }

  /** A transaction whose calls are refused gets the error of the first thing that went wrong. */
  lemma ChainRefused(ctx: Context)
    requires RunCalls(ctx).Err?
    ensures ChainFault(ctx, RunCalls(ctx).error)
  {
    hide Execute, EvalCall, Replay, RanAsRuled, CallFault, History, NoneLeftUnclaimed, ModifiedDefaultsClaimed;
    var start := Progress(map[], []);
    EmptyTrace();
    EmptyHistory(ctx);
    if EvalCall(ctx, RootItem(ctx), start).Err? {
      var trace, next := CallStops(ctx, RootItem(ctx), start);
      HistoryIsRuled(ctx, trace);
      assert StoppedAt(ctx, trace, next);
      if |trace| < 11 {
        CallRefused(ctx, next, Replay(map[], trace));
        OverlayIsReplay(ctx.accounts, trace);
        assert trace[..|trace|] == trace;
      }
    } else {
      EvalCallHistory(ctx, RootItem(ctx), start);
      var q := EvalCall(ctx, RootItem(ctx), start).value;
      HistoryIsRuled(ctx, q.trace);
      ClaimedExactly(ctx.accounts, q.trace);
    }
  }

  lemma EmptyHistory(ctx: Context)
    ensures History(ctx, []) && Rooted(ctx, [], RootItem(ctx))
  {
  }

  // ------------------------------------------------------------------------ transactions

  /** Why a public transaction is refused before its first call. */
  ghost predicate PublicFault(host: Host, st: State, tx: PublicTransaction, e: LeeError) {
    var m := tx.message;
    if !Distinct(m.accountIds) then e == DuplicateAccountIds
    else if |m.nonces| != |tx.witnesses| then e == NonceCountMismatch
    else if exists i :: 0 <= i < |tx.witnesses| && !host.publicSignatureOk(m, tx.witnesses[i]) then e == InvalidSignature
    else !NoncesCurrent(host, st.accounts, tx.witnesses, m.nonces) && e == NonceMismatch
  }

  lemma PublicRefused(host: Host, st: State, tx: PublicTransaction, blockId: nat, timestamp: nat, ctx: Context)
    requires FromPublic(host, st, tx, blockId, timestamp).Err? && StartsFrom(host, st, tx, blockId, timestamp, ctx)
    ensures var e := FromPublic(host, st, tx, blockId, timestamp).error;
      if PublicRules(host, st, tx) then ChainFault(ctx, e) else PublicFault(host, st, tx, e)
  {
    hide NUnique, Distinct, NoncesMatch, NoncesCurrent, SignerIds, RunCalls, ChainFault, StartsFrom, PublicContext;
    NUniqueIsDistinct(tx.message.accountIds);
    StartsExactly(host, st, tx, blockId, timestamp, ctx);
    CheckPublicExactly(host, st, tx);
    NoncesCounted(host, st.accounts, tx.witnesses, tx.message.nonces);
    if |tx.message.nonces| == |tx.witnesses| {
      NoncesExactly(host, st.accounts, tx.witnesses, tx.message.nonces);
    }
    if CheckPublic(host, st.accounts, tx).Pass? {
      ChainRefused(ctx);
    }
  }

  /** Why a privacy-preserving transaction is refused. */
  ghost predicate PrivateFault(host: Host, st: State, tx: PrivateTransaction, blockId: nat,
                               timestamp: nat, pres: seq<AccountWithMetadata>, e: LeeError) {
    var m := tx.message;
    if m.newCommitments == [] && m.newNullifiers == [] then e == EmptyCommitmentsAndNullifiers
    else if !Distinct(m.publicAccountIds) then e == DuplicateAccountIds
    else if exists i, j :: 0 <= i < j < |m.newNullifiers| && m.newNullifiers[i].0 == m.newNullifiers[j].0 then
      e == DuplicateNullifiers
    else if !Distinct(m.newCommitments) then e == DuplicateCommitments
    else if |m.nonces| != |tx.witnesses| then e == NonceCountMismatch
    else if exists i :: 0 <= i < |tx.witnesses| && !host.privateSignatureOk(m, tx.witnesses[i]) then e == InvalidSignature
    else if !NoncesCurrent(host, st.accounts, tx.witnesses, m.nonces) then e == NonceMismatch
    else if !InTime(m.blockWindow, blockId) || !InTime(m.timestampWindow, timestamp) then e == OutOfValidityWindow
    else if !host.proofOk(tx.proof, CircuitOutput(pres, m)) then e == InvalidPrivacyPreservingProof
    else if exists c :: c in m.newCommitments && c in st.index then e == CommitmentAlreadySeen
    else NullifierFault(st, m.newNullifiers, e)
  }

  /** The first new nullifier that was spent before or names an unknown root. */
  ghost predicate NullifierFault(st: State, pairs: seq<(Nullifier, Digest)>, e: LeeError) {
    exists i :: 0 <= i < |pairs|
      && (forall j :: 0 <= j < i ==> pairs[j].0 !in st.nullifiers && pairs[j].1 in st.roots)
      && if pairs[i].0 in st.nullifiers then e == NullifierAlreadySeen
         else pairs[i].1 !in st.roots && e == UnrecognizedDigest
  }

  lemma {:induction false} FirstNullifierFault(st: State, pairs: seq<(Nullifier, Digest)>) returns (i: nat)
    requires CheckNullifiers(st.nullifiers, st.roots, pairs).Fail?
    ensures i < |pairs| && forall j :: 0 <= j < i ==> pairs[j].0 !in st.nullifiers && pairs[j].1 in st.roots
    ensures var e := CheckNullifiers(st.nullifiers, st.roots, pairs).error;
      if pairs[i].0 in st.nullifiers then e == NullifierAlreadySeen else pairs[i].1 !in st.roots && e == UnrecognizedDigest
  {
    if pairs[0].0 in st.nullifiers || pairs[0].1 !in st.roots {
      i := 0;
    } else {
      var n := FirstNullifierFault(st, pairs[1..]);
      i := n + 1;
      assert forall j :: 1 <= j < i ==> pairs[j] == pairs[1..][j - 1];
    }
  }

  lemma PrivateRefused(host: Host, st: State, tx: PrivateTransaction, blockId: nat,
                       timestamp: nat, pres: seq<AccountWithMetadata>)
    requires Prepared(host, st.accounts, tx.message.publicAccountIds, tx.witnesses, pres)
    requires FromPrivate(host, st, tx, blockId, timestamp).Err?
    ensures PrivateFault(host, st, tx, blockId, timestamp, pres, FromPrivate(host, st, tx, blockId, timestamp).error)
  {
    hide NUnique, Distinct, NoncesMatch, NoncesCurrent, Prepared, InputPreStates, ZipDiff, CheckNullifiers;
    var m := tx.message;
    PreparedExactly(host, st.accounts, m.publicAccountIds, tx.witnesses, pres);
    NUniqueIsDistinct(m.publicAccountIds);
    NUniqueIsDistinct(Fsts(m.newNullifiers));
    NUniqueIsDistinct(m.newCommitments);
    FstsExactly(m.newNullifiers);
    WindowExactly(m.blockWindow, blockId);
    WindowExactly(m.timestampWindow, timestamp);
    if |m.nonces| == |tx.witnesses| {
      NoncesExactly(host, st.accounts, tx.witnesses, m.nonces);
    }
    if CheckNullifiers(st.nullifiers, st.roots, m.newNullifiers).Fail? {
      var i := FirstNullifierFault(st, m.newNullifiers);
    }
  }
}
