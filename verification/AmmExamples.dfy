/** Two transactions written out in full, after which a vault is short of what its pool counts. */
module AmmExamples {
  import opened Core
  import opened Calls
  import opened CallTrace
  import opened Authority
  import opened Token
  import opened TokenSupply
  import opened Amm
  import opened AmmMath
  import opened AmmPools
  import opened AmmCalls
  import opened AmmSolvency
  import opened AmmPayment
  import opened AmmProgress

  // ------------------------------------------------------------- one withdrawal, written out

  const TOKEN: ProgramId := 1
  const AMM: ProgramId := 2
  const POOL := AccountId(100)
  const VAULT_A := AccountId(1001)
  const VAULT_B := AccountId(1002)
  const LP := AccountId(1000)

  function ExamplePda(program: ProgramId, seed: PdaSeed): AccountId {
    AccountId(seed.value)
  }

  function ExampleSeed(x: AccountId, y: AccountId): PdaSeed {
    PdaSeed(10 * x.value + y.value)
  }

  function ExampleAddresses(): Addresses {
    Addresses(ExamplePda, ExampleSeed)
  }

  function ExampleExecute(program: ProgramId, caller: Option<ProgramId>,
                          pres: seq<AccountWithMetadata>, instruction: Instruction)
      : Option<ProgramOutput>
  {
    if program == TOKEN then TokenProgram(TOKEN, caller, pres, instruction)
    else if program == AMM then AmmProgram(Wrapping, ExampleAddresses(), AMM, caller, pres, instruction)
    else None
  }

  function ExamplePool(): PoolDefinition {
    PoolDefinition(AccountId(1), AccountId(2), VAULT_A, VAULT_B, LP, 0x1_0000_0000_0000_0000,
                   0x4000_0000_0000_0000, 0x4_0000_0000_0000_0001, 0, true)
  }

  function TokenAccount(data: Data): Account {
    Account(TOKEN, 0, data, 0)
  }

  /** A sound pool whose vault A holds twice its reserve. */
  function ExampleStates(): seq<AccountWithMetadata> {
    [AccountWithMetadata(Account(AMM, 0, PoolData(ExamplePool()), 0), false, POOL),
     AccountWithMetadata(TokenAccount(HoldingData(Fungible(AccountId(1), 0x8000_0000_0000_0000))), false, VAULT_A),
     AccountWithMetadata(TokenAccount(HoldingData(Fungible(AccountId(2), 0x4_0000_0000_0000_0001))), false, VAULT_B),
     AccountWithMetadata(TokenAccount(DefinitionData(FungibleDefinition("LP Token", 0x1_0000_0000_0000_0000, None))),
         false, LP),
     AccountWithMetadata(TokenAccount(HoldingData(Fungible(AccountId(1), 0))), false, AccountId(11)),
     AccountWithMetadata(TokenAccount(HoldingData(Fungible(AccountId(2), 0))), false, AccountId(12)),
     AccountWithMetadata(TokenAccount(HoldingData(Fungible(LP, 0x1_0000_0000_0000_0000))), true, AccountId(13))]
  }

  function ExampleContext(): Context {
    var s := ExampleStates();
    Context(ExampleExecute, ExamplePda,
            map[POOL := s[0].account, VAULT_A := s[1].account, VAULT_B := s[2].account, LP := s[3].account,
                AccountId(11) := s[4].account, AccountId(12) := s[5].account, AccountId(13) := s[6].account],
            {TOKEN, AMM}, {AccountId(13)},
            ChainedCall(AMM, s, AmmCall(RemoveLiquidity(0x2_0000_0000_0000_0000, 1, 1)), []), 0, 0)
  }

  lemma ExamplePrepared()
    ensures WellPrepared(ExampleContext(), AMM, TOKEN)
  {
    assert Distinct(Ids(ExampleStates())) by {
      assert Ids(ExampleStates()) == [POOL, VAULT_A, VAULT_B, LP, AccountId(11), AccountId(12), AccountId(13)];
    }
    hide Distinct;
  }

  lemma ExampleOutput() returns (out: AmmOutput)
    ensures AmmEffects(Wrapping, ExampleAddresses(), ExampleStates(),
                       RemoveLiquidity(0x2_0000_0000_0000_0000, 1, 1)) == Ok(out)
    ensures var s := ExampleStates();
      out.calls == [
        ChainedCall(TOKEN, [Authorize(s[3]), s[6]], TokenCall(Burn(0)), [PdaSeed(1000)]),
        ChainedCall(TOKEN, [Authorize(s[2]), s[5]], TokenCall(Transfer(2)), [PdaSeed(1002)]),
        ChainedCall(TOKEN, [Authorize(s[1]), s[4]], TokenCall(Transfer(0x8000_0000_0000_0000)), [PdaSeed(1001)])]
  {
    hide RemoveAmounts, PoolAfterRemove;
    WrappingRemovalOverpays(ExamplePool());
    out := AmmEffects(Wrapping, ExampleAddresses(), ExampleStates(), RemoveLiquidity(0x2_0000_0000_0000_0000, 1, 1)).value;
  }

  lemma ExampleCallsAcceptable(calls: seq<ChainedCall>)
    requires var s := ExampleStates();
      calls == [
        ChainedCall(TOKEN, [Authorize(s[3]), s[6]], TokenCall(Burn(0)), [PdaSeed(1000)]),
        ChainedCall(TOKEN, [Authorize(s[2]), s[5]], TokenCall(Transfer(2)), [PdaSeed(1002)]),
        ChainedCall(TOKEN, [Authorize(s[1]), s[4]], TokenCall(Transfer(0x8000_0000_0000_0000)), [PdaSeed(1001)])]
    ensures forall j :: 0 <= j < |calls| ==> Acceptable(ExampleContext(), AMM, TOKEN, calls[j])
  {
    hide *;
    var ctx, s := ExampleContext(), ExampleStates();
    ExampleEffects();
    ExampleFlags();
    OneSeedFlagged(ctx, AMM, calls[0], Authorize(s[3]), s[6], PdaSeed(1000));
    OneSeedFlagged(ctx, AMM, calls[1], Authorize(s[2]), s[5], PdaSeed(1002));
    OneSeedFlagged(ctx, AMM, calls[2], Authorize(s[1]), s[4], PdaSeed(1001));
    TokenAcceptable(ctx, AMM, TOKEN, calls[0]);
    TokenAcceptable(ctx, AMM, TOKEN, calls[1]);
    TokenAcceptable(ctx, AMM, TOKEN, calls[2]);
  }

  lemma ExampleEffects()
    ensures |ExampleStates()| == 7
    ensures var s := ExampleStates();
      && Effects([Authorize(s[3]), s[6]], Burn(0)).Ok?
      && Effects([Authorize(s[2]), s[5]], Transfer(2)).Ok?
      && Effects([Authorize(s[1]), s[4]], Transfer(0x8000_0000_0000_0000)).Ok?
      && (forall i :: 1 <= i < 7 ==> s[i].account.owner == Authorize(s[i]).account.owner == TOKEN)
    ensures RunsToken(ExampleContext().execute, TOKEN) && TOKEN != DEFAULT_PROGRAM_ID
  {
  }

  lemma ExampleFlags()
    ensures |ExampleStates()| == 7
    ensures var ctx, s := ExampleContext(), ExampleStates();
      && Flagged(ctx, AMM, Authorize(s[3]), s[6], PdaSeed(1000))
      && Flagged(ctx, AMM, Authorize(s[2]), s[5], PdaSeed(1002))
      && Flagged(ctx, AMM, Authorize(s[1]), s[4], PdaSeed(1001))
  {
  }

  /** In a wrapping build this withdrawal is accepted although it does not pay within reserve A, and leaves the
      vault short of what the pool counts. */
  lemma WrappingRemovalInsolvent()
    ensures var ctx := ExampleContext();
      && RunsAmm(ctx.execute, AMM, Wrapping, ExampleAddresses()) && RunsToken(ctx.execute, TOKEN)
      && PoolOk(ExamplePool()) && Surplus(ctx.accounts, POOL, VAULT_A) > 0
      && RunCalls(ctx).Ok?
      && Surplus(ctx.accounts + RunCalls(ctx).value.diff, POOL, VAULT_A)
         == Surplus(ctx.accounts, POOL, VAULT_A) - U128_LIMIT
  {
    hide RunCalls, AmmEffects, AmmProgram, TokenProgram, WellPrepared, Acceptable, PaysWithin, RemoveAmounts;
    ExampleAccepted();
    ExampleRun(ExampleContext());
    WrappingRemovalOverpays(ExamplePool());
  }

  lemma ExampleAccepted()
    ensures RunCalls(ExampleContext()).Ok?
  {
    hide RunCalls, AmmEffects, AmmProgram, TokenProgram, WellPrepared, Acceptable;
    var ctx := ExampleContext();
    ExamplePrepared();
    var out := ExampleOutput();
    ExampleCallsAcceptable(out.calls);
    TokenIsLeaf(ctx, TOKEN);
    AmmGoesThrough(ctx, AMM, TOKEN, Wrapping, ExampleAddresses(), out);
  }

  lemma ExampleRun(ctx: Context)
    requires ctx == ExampleContext() && RunCalls(ctx).Ok?
    ensures Surplus(ctx.accounts + RunCalls(ctx).value.diff, POOL, VAULT_A)
         == Surplus(ctx.accounts, POOL, VAULT_A) - U128_LIMIT
  {
    hide RunCalls, AmmEffects, AmmProgram, TokenProgram, PaysWithin, History, Surplus, SurplusLp;
    AcceptedRunHasHistory(ctx);
    TransactionSolvent(ctx, AMM, TOKEN, Wrapping, ExampleAddresses());
    WrappingRemovalOverpays(ExamplePool());
  }

  // ------------------------------------------------------- one swap paid in nothing, written out

  const IDLE: ProgramId := 3

  /** A program that returns its accounts as they are. */
  function IdleProgram(caller: Option<ProgramId>, pres: seq<AccountWithMetadata>): ProgramOutput {
    ProgramOutput(IDLE, caller, pres, seq(|pres|, i requires 0 <= i < |pres| => Unclaimed(pres[i].account)), [], UNBOUNDED,
                  UNBOUNDED)
  }

  function UnpaidExecute(program: ProgramId, caller: Option<ProgramId>,
                         pres: seq<AccountWithMetadata>, instruction: Instruction)
      : Option<ProgramOutput>
  {
    if program == TOKEN then TokenProgram(TOKEN, caller, pres, instruction)
    else if program == AMM then AmmProgram(Checked, ExampleAddresses(), AMM, caller, pres, instruction)
    else if program == IDLE then Some(IdleProgram(caller, pres))
    else None
  }

  function UnpaidPool(): PoolDefinition {
    PoolDefinition(AccountId(1), AccountId(2), VAULT_A, VAULT_B, LP, 10, 10, 10, 0, true)
  }

  /** A sound pool with exactly its reserves in the vaults, and a payer of the idle program. */
  function UnpaidStates(): seq<AccountWithMetadata> {
    [AccountWithMetadata(Account(AMM, 0, PoolData(UnpaidPool()), 0), false, POOL),
     AccountWithMetadata(TokenAccount(HoldingData(Fungible(AccountId(1), 10))), false, VAULT_A),
     AccountWithMetadata(TokenAccount(HoldingData(Fungible(AccountId(2), 10))), false, VAULT_B),
     AccountWithMetadata(Account(IDLE, 0, Empty, 0), false, AccountId(11)),
     AccountWithMetadata(TokenAccount(HoldingData(Fungible(AccountId(2), 0))), false, AccountId(12))]
  }

  function UnpaidContext(): Context {
    var s := UnpaidStates();
    Context(UnpaidExecute, ExamplePda,
            map[POOL := s[0].account, VAULT_A := s[1].account, VAULT_B := s[2].account,
                AccountId(11) := s[3].account, AccountId(12) := s[4].account],
            {TOKEN, AMM, IDLE}, {}, ChainedCall(AMM, s, AmmCall(SwapExactInput(10, 1, AccountId(1))), []), 0, 0)
  }

  lemma UnpaidPrepared()
    ensures WellPrepared(UnpaidContext(), AMM, IDLE)
  {
    assert Distinct(Ids(UnpaidStates())) by {
      assert Ids(UnpaidStates()) == [POOL, VAULT_A, VAULT_B, AccountId(11), AccountId(12)];
    }
    hide Distinct;
  }

  lemma UnpaidOutput() returns (out: AmmOutput)
    ensures AmmEffects(Checked, ExampleAddresses(), UnpaidStates(), SwapExactInput(10, 1, AccountId(1))) == Ok(out)
    ensures |out.posts| == 5
    ensures out.posts[0].account.data == PoolData(UnpaidPool().(reserveA := 20, reserveB := 5))
    ensures var s := UnpaidStates();
      out.calls == [
        ChainedCall(IDLE, [s[3], s[1]], TokenCall(Transfer(10)), []),
        ChainedCall(IDLE, [Authorize(s[2]), s[4]], TokenCall(Transfer(5)), [PdaSeed(1002)])]
  {
    out := AmmEffects(Checked, ExampleAddresses(), UnpaidStates(), SwapExactInput(10, 1, AccountId(1))).value;
  }

  /** A program that returns its accounts as they are answers every well flagged call. */
  lemma IdleAcceptable(ctx: Context, call: ChainedCall)
    requires ctx.execute(IDLE, Some(AMM), call.preStates, call.instruction) == Some(IdleProgram(Some(AMM), call.preStates))
    requires call.programId == IDLE && WellFlagged(ctx, AMM, call)
    ensures Acceptable(ctx, AMM, IDLE, call)
  {
    hide WellFlagged;
  }

  lemma UnpaidCallsAcceptable(calls: seq<ChainedCall>)
    requires var s := UnpaidStates();
      calls == [
        ChainedCall(IDLE, [s[3], s[1]], TokenCall(Transfer(10)), []),
        ChainedCall(IDLE, [Authorize(s[2]), s[4]], TokenCall(Transfer(5)), [PdaSeed(1002)])]
    ensures forall j :: 0 <= j < |calls| ==> Acceptable(UnpaidContext(), AMM, IDLE, calls[j])
  {
    hide Acceptable, TokenProgram, AmmProgram, IdleProgram;
    var ctx, s := UnpaidContext(), UnpaidStates();
    assert AuthorizedPdas(ctx, Some(AMM), []) == {};
    OneSeedFlagged(ctx, AMM, calls[1], Authorize(s[2]), s[4], PdaSeed(1002));
    IdleAcceptable(ctx, calls[0]);
    IdleAcceptable(ctx, calls[1]);
  }

  /** In a checked build too, a swap paid in a holding of a program that moves nothing is accepted, and leaves
      the vault short by the amount that was never paid in. */
  lemma UnpaidSwapInsolvent()
    ensures var ctx := UnpaidContext();
      && RunsAmm(ctx.execute, AMM, Checked, ExampleAddresses()) && RunsToken(ctx.execute, TOKEN)
      && PoolOk(UnpaidPool()) && Surplus(ctx.accounts, POOL, VAULT_A) == 0
      && RunCalls(ctx).Ok?
      && Surplus(ctx.accounts + RunCalls(ctx).value.diff, POOL, VAULT_A) == -10
  {
    hide RunCalls, AmmEffects, AmmProgram, TokenProgram, IdleProgram, WellPrepared, Acceptable, History, Replay;
    var ctx := UnpaidContext();
    UnpaidPrepared();
    var out := UnpaidOutput();
    UnpaidCallsAcceptable(out.calls);
    IdleIsLeaf();
    AmmGoesThrough(ctx, AMM, IDLE, Checked, ExampleAddresses(), out);
    UnpaidRun(ctx, out);
  }

  lemma IdleIsLeaf()
    ensures IsLeaf(UnpaidContext(), IDLE) && NeverChains(UnpaidContext(), IDLE)
  {
    hide TokenProgram, AmmProgram;
  }

  lemma UnpaidRun(ctx: Context, out: AmmOutput)
    requires ctx == UnpaidContext() && RunCalls(ctx).Ok?
    requires AmmEffects(Checked, ExampleAddresses(), UnpaidStates(), SwapExactInput(10, 1, AccountId(1))) == Ok(out)
    requires |out.posts| == 5 && out.posts[0].account.data == PoolData(UnpaidPool().(reserveA := 20, reserveB := 5))
    ensures Surplus(ctx.accounts + RunCalls(ctx).value.diff, POOL, VAULT_A) == -10
  {
    hide RunCalls, AmmEffects, AmmProgram, TokenProgram, IdleProgram, History, Replay, NeverChains, ChildrenFollow;
    var trace := RunCalls(ctx).value.trace;
    IdleIsLeaf();
    AcceptedRunHasHistory(ctx);
    BalancedHistory(ctx, trace);
    EmptyReplay(ctx, trace);
    AmmChildrenFollow(ctx, 0, AMM, IDLE, Checked, ExampleAddresses());
    OwnerIsKept(ctx, trace, 0, 1, POOL);
    var same := UnpaidBlock(ctx, trace, 0, AMM, TOKEN, Checked, ExampleAddresses(), VAULT_A);
    AmmCallsOneProgram(Checked, ExampleAddresses(), UnpaidStates(), SwapExactInput(10, 1, AccountId(1)), out);
    var seen := AmmCallAt(ctx, trace, 0, AMM, Checked, ExampleAddresses());
    FlatTransaction(ctx, IDLE);
  }
}
