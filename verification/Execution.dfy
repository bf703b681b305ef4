/** The rules a program's output must obey: which fields of which accounts one
    execution may change, and that it creates and destroys no balance. */
module Execution {
  import opened Core
  import opened Sums

  datatype ExecutionError =
    | PreStateAccountIdsNotUnique
    | MismatchedPreStatePostStateLength(preLength: nat, postLength: nat)
    | ModifiedNonce(id: AccountId)
    | ModifiedProgramOwner(id: AccountId)
    | UnauthorizedBalanceDecrease(id: AccountId)
    | UnauthorizedDataModification(id: AccountId)
    | NonDefaultAccountWithDefaultOwner(id: AccountId)
    | BalanceSumOverflow
    | MismatchedTotalBalance

  const Balance: Account -> nat := (a: Account) => a.balance

  function AccountsOf(states: seq<AccountWithMetadata>): seq<Account> {
    seq(|states|, i requires 0 <= i < |states| => states[i].account)
  }

  function PostAccounts(states: seq<AccountPostState>): seq<Account> {
    seq(|states|, i requires 0 <= i < |states| => states[i].account)
  }

  // ------------------------------------------------- sums beyond 128 bits

  /** A number written as `lo + hi * 2^128`. */
  datatype WrappedBalanceSum = WrappedBalanceSum(lo: u128, hi: u128) {
    function Value(): nat {
      lo + hi * U128_LIMIT
    }
  }

  /** Adds one balance with carry; `None` when the carry itself overflows. */
  function AddWrapped(sum: WrappedBalanceSum, balance: u128): Option<WrappedBalanceSum> {
    var lo := (sum.lo + balance) % U128_LIMIT;
    if sum.lo + balance < U128_LIMIT then Some(WrappedBalanceSum(lo, sum.hi))
    else if sum.hi + 1 < U128_LIMIT then Some(WrappedBalanceSum(lo, sum.hi + 1))
    else None
  }

  function FromBalances(accounts: seq<Account>): Option<WrappedBalanceSum> {
    if accounts == [] then Some(WrappedBalanceSum(0, 0))
    else
      var sum := FromBalances(accounts[..|accounts| - 1]);
      if sum.None? then None else AddWrapped(sum.value, accounts[|accounts| - 1].balance)
  }

  /** The two-word sum is the exact total, and is refused exactly when the total reaches 2^256. */
  lemma {:induction false} FromBalancesExact(accounts: seq<Account>)
    ensures FromBalances(accounts).Some? <==> SumSeq(accounts, Balance) < U128_LIMIT * U128_LIMIT
    ensures FromBalances(accounts).Some? ==> FromBalances(accounts).value.Value() == SumSeq(accounts, Balance)
  {
    if accounts != [] {
      FromBalancesExact(accounts[..|accounts| - 1]);
    }
  }

  // ------------------------------------------------------------ validation

  /** Rules 3 to 7, for one account. */
  function CheckAccount(pre: AccountWithMetadata, post: Account, executing: ProgramId): Check<ExecutionError> {
    if pre.account.nonce != post.nonce then Fail(ModifiedNonce(pre.id))
    else if pre.account.owner != post.owner then Fail(ModifiedProgramOwner(pre.id))
    else if post.balance < pre.account.balance && pre.account.owner != executing then
      Fail(UnauthorizedBalanceDecrease(pre.id))
    else if pre.account.data != post.data && pre.account != DEFAULT_ACCOUNT && pre.account.owner != executing then
      Fail(UnauthorizedDataModification(pre.id))
    else if post.owner == DEFAULT_PROGRAM_ID && pre.account != DEFAULT_ACCOUNT then
      Fail(NonDefaultAccountWithDefaultOwner(pre.id))
    else Pass
  }

  function CheckAccounts(pres: seq<AccountWithMetadata>, posts: seq<AccountPostState>, executing: ProgramId)
      : (r: Check<ExecutionError>)
    requires |pres| == |posts|
    ensures r.Pass? <==> forall i :: 0 <= i < |pres| ==> CheckAccount(pres[i], posts[i].account, executing).Pass?
  {
    if pres == [] then Pass
    else if CheckAccount(pres[0], posts[0].account, executing).Fail? then
      CheckAccount(pres[0], posts[0].account, executing)
    else
      var rest := CheckAccounts(pres[1..], posts[1..], executing);
      assert forall i :: 1 <= i < |pres| ==> pres[i] == pres[1..][i - 1] && posts[i] == posts[1..][i - 1];
      rest
  }

  function ValidateExecution(pres: seq<AccountWithMetadata>, posts: seq<AccountPostState>, executing: ProgramId)
      : Check<ExecutionError>
  {
    if NUnique(Ids(pres)) != |pres| then Fail(PreStateAccountIdsNotUnique)
    else if |pres| != |posts| then Fail(MismatchedPreStatePostStateLength(|pres|, |posts|))
    else if CheckAccounts(pres, posts, executing).Fail? then CheckAccounts(pres, posts, executing)
    else
      var before, after := FromBalances(AccountsOf(pres)), FromBalances(PostAccounts(posts));
      if before.None? || after.None? then Fail(BalanceSumOverflow)
      else if before != after then Fail(MismatchedTotalBalance)
      else Pass
  }

  /** What one execution of `executing` may do to one account, before claims. */
  ghost predicate WellBehaved(pre: Account, post: Account, executing: ProgramId) {
    && post.nonce == pre.nonce
    && post.owner == pre.owner
    && (post.balance < pre.balance ==> pre.owner == executing)
    && (post.data != pre.data ==> pre.owner == executing || pre == DEFAULT_ACCOUNT)
    && (pre.owner == DEFAULT_PROGRAM_ID ==> pre == DEFAULT_ACCOUNT)
  }

  /** Validation accepts exactly the well-behaved outputs that keep the total balance. */
  lemma ValidateExecutionMeaning(pres: seq<AccountWithMetadata>, posts: seq<AccountPostState>, executing: ProgramId)
    ensures ValidateExecution(pres, posts, executing).Pass? <==>
      && |pres| == |posts|
      && Distinct(Ids(pres))
      && (forall i :: 0 <= i < |pres| ==> WellBehaved(pres[i].account, posts[i].account, executing))
      && SumSeq(AccountsOf(pres), Balance) == SumSeq(PostAccounts(posts), Balance) < U128_LIMIT * U128_LIMIT
  {
    hide NUnique, Distinct, FromBalances, SumSeq, CheckAccount, WellBehaved;
    NUniqueIsDistinct(Ids(pres));
    FromBalancesExact(AccountsOf(pres));
    FromBalancesExact(PostAccounts(posts));
    SumsAgree(FromBalances(AccountsOf(pres)), FromBalances(PostAccounts(posts)));
    if |pres| == |posts| {
      forall i | 0 <= i < |pres|
        ensures CheckAccount(pres[i], posts[i].account, executing).Pass?
           <==> WellBehaved(pres[i].account, posts[i].account, executing)
      {
        CheckAccountMeaning(pres[i], posts[i].account, executing);
      }
    }
  }

  lemma CheckAccountMeaning(pre: AccountWithMetadata, post: Account, executing: ProgramId)
    ensures CheckAccount(pre, post, executing).Pass? <==> WellBehaved(pre.account, post, executing)
  {
  }

  /** Two-word sums are equal exactly when the numbers are. */
  lemma SumsAgree(x: Option<WrappedBalanceSum>, y: Option<WrappedBalanceSum>)
    ensures x.Some? && y.Some? ==> (x == y <==> x.value.Value() == y.value.Value())
  {
  }
}
