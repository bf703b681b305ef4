/** Transactions that transfer tokens: exactly when the chain accepts one, and what it does to the accounts. */
module TokenTransfers {
  import opened Core
  import opened Sums
  import opened Execution
  import opened Calls
  import opened CallTrace
  import opened CallRules
  import opened CallTrees
  import opened Ledger
  import opened LedgerRules
  import opened Token
  import opened TokenSupply
  import opened TokenRules

  /** The transaction's own call transfers `amount` from `x` to `y`. */
  ghost predicate Transfers(ctx: Context, token: ProgramId, x: AccountWithMetadata,
                            y: AccountWithMetadata, amount: u128) {
    && ctx.initialCall.programId == token && ctx.initialCall.preStates == [x, y]
    && ctx.initialCall.instruction == TokenCall(Transfer(amount))
  }

  /** The account is given as it is, flagged exactly when it signed. */
  ghost predicate GivenTruly(ctx: Context, x: AccountWithMetadata) {
    x.account == Lookup(ctx.accounts, x.id) && (x.isAuthorized <==> x.id in ctx.signers)
  }

  /** The token program may write the amount here: the account is its own, or nothing changes. */
  ghost predicate MayWrite(token: ProgramId, a: Account, amount: u128) {
    a.owner != DEFAULT_PROGRAM_ID && (amount > 0 ==> a.owner == token)
  }

  /** A transfer the chain accepts: two different accounts given truly, a transfer the token program can make, and
      accounts it may write; an unused recipient has to sign. */
  ghost predicate Transferable(ctx: Context, token: ProgramId, x: AccountWithMetadata,
                               y: AccountWithMetadata, amount: u128) {
    && token in ctx.programs
    && x.id != y.id && GivenTruly(ctx, x) && GivenTruly(ctx, y)
    && CanTransfer(x, y, amount)
    && MayWrite(token, x.account, amount)
    && if y.account == DEFAULT_ACCOUNT then y.isAuthorized else MayWrite(token, y.account, amount)
  }

  /** The accounts after it: the amount moved, a new recipient now the token program's, all others as before. */
  ghost predicate Transferred(ctx: Context, token: ProgramId, x: AccountWithMetadata,
                              y: AccountWithMetadata, amount: u128, after: Accounts)
    requires x.account.data.HoldingData?
  {
    && amount <= Held(x.account.data) && Held(y.account.data) + amount < U128_LIMIT
    && var h := x.account.data.holding;
       var more := HoldingData(WithUnits(h, Held(y.account.data) + amount));
       && Lookup(after, x.id) == x.account.(data := HoldingData(WithUnits(h, Held(x.account.data) - amount)))
       && Lookup(after, y.id) == y.account.(
            data := more, owner := if y.account == DEFAULT_ACCOUNT then token else y.account.owner)
       && forall id {:trigger Lookup(after, id)} :: id != x.id && id != y.id ==>
            Lookup(after, id) == Lookup(ctx.accounts, id)
  }

  // ------------------------------------------------------------------- one call

  lemma RootHandsDown(ctx: Context, id: AccountId)
    ensures HandedDown(ctx, RootItem(ctx), id) <==> id in ctx.signers
  {
  }

  lemma PairReports(ctx: Context, x: AccountWithMetadata, y: AccountWithMetadata)
    ensures ReportsTruthfully(ctx, RootItem(ctx), ctx.accounts, [x, y]) <==> GivenTruly(ctx, x) && GivenTruly(ctx, y)
  {
    hide HandedDown;
    var pres := [x, y];
    RootHandsDown(ctx, x.id);
    RootHandsDown(ctx, y.id);
    assert pres[0] == x && pres[1] == y;
  }

  /** Two accounts whose balances stay as they were. */
  lemma PairBehaves(token: ProgramId, x: AccountWithMetadata, y: AccountWithMetadata, posts: seq<AccountPostState>)
    requires |posts| == 2
    requires posts[0].account.balance == x.account.balance && posts[1].account.balance == y.account.balance
    ensures BehavesWell(token, [x, y], posts) <==>
      x.id != y.id && WellBehaved(x.account, posts[0].account, token) && WellBehaved(y.account, posts[1].account, token)
  {
    hide SumSeq, WellBehaved;
    var pres := [x, y];
    assert pres[0] == x && pres[1] == y;
    assert Ids(pres) == [x.id, y.id];
    assert Ids(pres)[0] == x.id && Ids(pres)[1] == y.id;
    SumSeqShort(AccountsOf(pres), Balance);
    SumSeqShort(PostAccounts(posts), Balance);
  }

  lemma TransferMeetsRules(ctx: Context, token: ProgramId, x: AccountWithMetadata,
                           y: AccountWithMetadata, amount: u128, output: ProgramOutput)
    requires token != DEFAULT_PROGRAM_ID && Transfers(ctx, token, x, y, amount)
    requires CanTransfer(x, y, amount) && TransferEffect(x, y, amount).Ok?
    requires output == ProgramOutput(token, None, [x, y], TransferEffect(x, y, amount).value, [], UNBOUNDED, UNBOUNDED)
    requires token in ctx.programs
    ensures MeetsRules(ctx, RootItem(ctx), ctx.accounts, output) <==> Transferable(ctx, token, x, y, amount)
  {
    hide ReportsTruthfully, BehavesWell, TransferEffect, HandedDown, CanTransfer;
    var posts := output.postStates;
    TransferExactly(x, y, amount);
    PairReports(ctx, x, y);
    PairBehaves(token, x, y, posts);
    TransferWrites(token, x, y, amount, posts);
  }

  /** Which accounts the program may write, and which claims it has to justify. */
  lemma TransferWrites(token: ProgramId, x: AccountWithMetadata, y: AccountWithMetadata,
                       amount: u128, posts: seq<AccountPostState>)
    requires token != DEFAULT_PROGRAM_ID && CanTransfer(x, y, amount) && TransferEffect(x, y, amount) == Ok(posts)
    ensures |posts| == 2 && posts[0].claim.None?
    ensures WellBehaved(x.account, posts[0].account, token) <==> MayWrite(token, x.account, amount)
    ensures y.account != DEFAULT_ACCOUNT ==>
      (WellBehaved(y.account, posts[1].account, token) <==> MayWrite(token, y.account, amount))
      && (MayWrite(token, y.account, amount) ==> posts[1].claim.None?)
    ensures y.account == DEFAULT_ACCOUNT ==>
      WellBehaved(y.account, posts[1].account, token) && posts[1].claim == Some(Authorized)
      && posts[1].account.owner == DEFAULT_PROGRAM_ID
  {
  }

  // ------------------------------------------------------------ the transaction

  /** A transaction whose own call chains nothing is that call and the final check. */
  lemma LoneCall(ctx: Context)
    requires Execute(ctx, RootItem(ctx), map[]).Ok? ==> Execute(ctx, RootItem(ctx), map[]).value.output.chainedCalls == []
    ensures RunCalls(ctx).Ok? ==> Execute(ctx, RootItem(ctx), map[]).Ok?
    ensures Execute(ctx, RootItem(ctx), map[]).Ok? ==>
      var done := Execute(ctx, RootItem(ctx), map[]).value;
      && |done.output.preStates| == |done.posts|
      && (RunCalls(ctx).Ok? <==> NoneLeftUnclaimed(ctx.accounts, Write(ctx.accounts, done)))
      && (RunCalls(ctx).Ok? ==> ctx.accounts + RunCalls(ctx).value.diff == Write(ctx.accounts, done))
  {
    hide Execute, NoneLeftUnclaimed, Record, ModifiedDefaultsClaimed;
    if Execute(ctx, RootItem(ctx), map[]).Ok? {
      var done := Execute(ctx, RootItem(ctx), map[]).value;
      ExecutedIsBalanced(ctx, RootItem(ctx), map[]);
      assert Children(done) == [];
      EmptyTrace();
      assert [] + [done] == [done];
      NextReplay([], done);
      SingleReplay(ctx.accounts, done);
      ClaimedExactly(ctx.accounts, [done]);
      OverlayIsReplay(ctx.accounts, [done]);
    }
  }

  lemma SingleReplay(accounts: Accounts, done: Executed)
    requires |done.output.preStates| == |done.posts|
    ensures Replay(accounts, [done]) == Write(accounts, done)
  {
    assert [done][..0] == [];
  }

  lemma PairWritten(accounts: Accounts, done: Executed, x: AccountWithMetadata, y: AccountWithMetadata)
    requires done.output.preStates == [x, y] && |done.posts| == 2 && x.id != y.id
    ensures var after := Write(accounts, done);
      && Lookup(after, x.id) == done.posts[0].account && Lookup(after, y.id) == done.posts[1].account
      && forall id {:trigger Lookup(after, id)} :: id != x.id && id != y.id ==> Lookup(after, id) == Lookup(accounts, id)
  {
    hide Record;
    var ids, written := Ids(done.output.preStates), PostAccounts(done.posts);
    assert ids == [x.id, y.id];
    assert ids[0] == x.id && ids[1] == y.id;
    RecordAt(accounts, ids, written, 0);
    RecordAt(accounts, ids, written, 1);
    forall id | id != x.id && id != y.id
      ensures Lookup(Record(accounts, ids, written), id) == Lookup(accounts, id)
    {
      RecordElsewhere(accounts, ids, written, id);
    }
  }

  /** A transaction that transfers tokens is accepted if and only if it is transferable, and then it does exactly
      that. */
  lemma TransferAcceptedExactly(ctx: Context, token: ProgramId, x: AccountWithMetadata,
                                y: AccountWithMetadata, amount: u128)
    requires RunsToken(ctx.execute, token) && token != DEFAULT_PROGRAM_ID && Transfers(ctx, token, x, y, amount)
    ensures RunCalls(ctx).Ok? <==> Transferable(ctx, token, x, y, amount)
    ensures RunCalls(ctx).Ok? ==>
      x.account.data.HoldingData? && Transferred(ctx, token, x, y, amount, ctx.accounts + RunCalls(ctx).value.diff)
  {
    hide RunCalls, Execute, TransferEffect, CanTransfer, MeetsRules, Settled, NoneLeftUnclaimed;
    var item := RootItem(ctx);
    ExecuteExactly(ctx, item, map[]);
    assert ctx.accounts + map[] == ctx.accounts;
    TransferExactly(x, y, amount);
    if CanTransfer(x, y, amount) && token in ctx.programs {
      var output := ProgramOutput(token, None, [x, y], TransferEffect(x, y, amount).value, [], UNBOUNDED, UNBOUNDED);
      TransferMeetsRules(ctx, token, x, y, amount, output);
    }
    LoneCall(ctx);
    if Execute(ctx, item, map[]).Ok? {
      TransferDone(ctx, token, x, y, amount, Execute(ctx, item, map[]).value);
    }
  }

  lemma TransferDone(ctx: Context, token: ProgramId, x: AccountWithMetadata,
                     y: AccountWithMetadata, amount: u128, done: Executed)
    requires token != DEFAULT_PROGRAM_ID && Transferable(ctx, token, x, y, amount)
    requires done.output.preStates == [x, y] && TransferEffect(x, y, amount) == Ok(done.output.postStates)
    requires Settled(token, done.output.postStates, done.posts)
    ensures |done.posts| == 2 && x.account.data.HoldingData?
    ensures var after := Write(ctx.accounts, done);
      Transferred(ctx, token, x, y, amount, after) && NoneLeftUnclaimed(ctx.accounts, after)
  {
    hide TransferEffect, Record;
    TransferExactly(x, y, amount);
    PairWritten(ctx.accounts, done, x, y);
  }

  // -------------------------------------------------------------- coins always move

  /** A fungible holding of one definition, owned by the token program. */
  ghost predicate Coins(token: ProgramId, a: Account, d: AccountId) {
    a.owner == token && a.data.HoldingData? && a.data.holding.Fungible? && a.data.holding.definitionId == d
  }

  /** In a backed state a signed transfer of at most what the sender holds, between two of the token program's
      holdings of one fungible token, is never refused. */
  lemma CoinsAlwaysMove(ctx: Context, token: ProgramId, x: AccountWithMetadata,
                        y: AccountWithMetadata, amount: u128, d: AccountId)
    requires RunsToken(ctx.execute, token) && token != DEFAULT_PROGRAM_ID && Transfers(ctx, token, x, y, amount)
    requires Backed(token, ctx.accounts) && token in ctx.programs
    requires x.id != y.id && GivenTruly(ctx, x) && GivenTruly(ctx, y) && x.isAuthorized
    requires Coins(token, x.account, d) && Coins(token, y.account, d) && amount <= Held(x.account.data)
    ensures RunCalls(ctx).Ok? && Transferred(ctx, token, x, y, amount, ctx.accounts + RunCalls(ctx).value.diff)
  {
    hide RunCalls, Sum, Transferred;
    TransferAcceptedExactly(ctx, token, x, y, amount);
    TransferExactly(x, y, amount);
    TransferNeverOverflows(token, ctx.accounts, x, y, amount);
  }

  /** The same for a whole transaction: signed by the sender with the current nonce, it is valid, and its diff is
      the transfer. */
  lemma SignedTransferIsValid(host: Host, st: State, tx: PublicTransaction, blockId: nat, timestamp: nat,
                              token: ProgramId, from: AccountId, to: AccountId, amount: u128, d: AccountId)
    requires RunsToken(host.execute, token) && token != DEFAULT_PROGRAM_ID && token in st.programs
    requires tx.message.programId == token && tx.message.instruction == TokenCall(Transfer(amount))
    requires tx.message.accountIds == [from, to] && from != to
    requires PublicRules(host, st, tx) && SignedBy(host, tx.witnesses, from)
    requires Backed(token, st.accounts)
    requires Coins(token, Lookup(st.accounts, from), d) && Coins(token, Lookup(st.accounts, to), d)
    requires amount <= Held(Lookup(st.accounts, from).data)
    ensures FromPublic(host, st, tx, blockId, timestamp).Ok?
    ensures var after := st.accounts + FromPublic(host, st, tx, blockId, timestamp).value.publicDiff;
      && Lookup(after, from).data == HoldingData(Fungible(d, Held(Lookup(st.accounts, from).data) - amount))
      && Held(Lookup(st.accounts, to).data) + amount < U128_LIMIT
      && Lookup(after, to).data == HoldingData(Fungible(d, Held(Lookup(st.accounts, to).data) + amount))
      && forall id {:trigger Lookup(after, id)} :: id != from && id != to ==> Lookup(after, id) == Lookup(st.accounts, id)
  {
    hide RunCalls, FromPublic, Backed, PublicRules, SignedBy;
    var ctx := PublicContext(host, st.accounts, st.programs, tx, blockId, timestamp);
    StartsExactly(host, st, tx, blockId, timestamp, ctx);
    PublicExactly(host, st, tx, blockId, timestamp, ctx);
    var pres := ctx.initialCall.preStates;
    assert pres == [pres[0], pres[1]];
    CoinsAlwaysMove(ctx, token, pres[0], pres[1], amount, d);
  }
}
