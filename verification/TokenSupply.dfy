/** Token supply is conserved over every run of public transactions in which one program is the token
    program and all the others are arbitrary. */
module TokenSupply {
  import opened Core
  import opened Sums
  import opened Execution
  import opened Calls
  import opened CallTrace
  import opened Authority
  import opened Ledger
  import opened LedgerRuns
  import opened Fence
  import opened Token

  datatype Kind = Coin | Nft

  /** Units of one definition in one account: a fungible balance, a master's print balance, or an owned copy. */
  function Units(token: ProgramId, kind: Kind, definition: AccountId, a: Account): nat {
    if a.owner != token || !a.data.HoldingData? || a.data.holding.definitionId != definition then 0
    else match a.data.holding
    case Fungible(_, balance) => if kind.Coin? then balance else 0
    case NftMaster(_, left) => if kind.Nft? then left else 0
    case NftPrintedCopy(_, owned) => if kind.Nft? && owned then 1 else 0
  }

  /** One for a master holding that can still print or be printed from. */
  function Masters(token: ProgramId, definition: AccountId, a: Account): nat {
    if a.owner == token && a.data.HoldingData? && a.data.holding.NftMaster?
       && a.data.holding.definitionId == definition && a.data.holding.printBalance != 0 then 1 else 0
  }

  /** The supply a definition account declares. */
  function Supply(token: ProgramId, kind: Kind, a: Account): nat {
    if a.owner != token || !a.data.DefinitionData? then 0
    else match a.data.definition
    case FungibleDefinition(_, supply, _) => if kind.Coin? then supply else 0
    case NonFungibleDefinition(_, supply, _) => if kind.Nft? then supply else 0
  }

  function UnitsOf(token: ProgramId, kind: Kind, definition: AccountId): Account -> nat {
    (a: Account) => Units(token, kind, definition, a)
  }

  function MastersOf(token: ProgramId, definition: AccountId): Account -> nat {
    (a: Account) => Masters(token, definition, a)
  }

  /** Every definition's declared supply is the sum over all its holdings; an id that is no definition
      has no units outstanding. At most one master per definition is alive. */
  ghost predicate Backed(token: ProgramId, accounts: Accounts) {
    && (forall kind, d {:trigger UnitsOf(token, kind, d)} ::
          Sum(accounts, UnitsOf(token, kind, d)) == Supply(token, kind, Lookup(accounts, d)))
    && (forall d {:trigger MastersOf(token, d)} :: Sum(accounts, MastersOf(token, d)) <= 1)
  }

  /** The program installed as `token` is the token program. */
  ghost predicate RunsToken(
    execute: (ProgramId, Option<ProgramId>, seq<AccountWithMetadata>, Instruction) -> Option<ProgramOutput>,
        token: ProgramId)
  {
    forall caller, pres, instruction {:trigger execute(token, caller, pres, instruction)} ::
      execute(token, caller, pres, instruction) == TokenProgram(token, caller, pres, instruction)
  }

  // -------------------------------------------------------- foreign programs

  /** Reads only the data of accounts the token program owns. */
  ghost predicate Local(token: ProgramId, measure: Account -> nat) {
    && (forall a: Account :: a.owner != token ==> measure(a) == 0)
    && (forall a: Account, b: Account :: a.owner == b.owner && a.data == b.data ==> measure(a) == measure(b))
  }

  lemma MeasuresAreLocal(token: ProgramId, kind: Kind, d: AccountId)
    ensures Local(token, UnitsOf(token, kind, d)) && Local(token, MastersOf(token, d))
  {
  }

  /** A call of another program changes no token measure. */
  lemma ForeignCallKeepsMeasure(ctx: Context, world: Accounts, e: Executed, token: ProgramId, measure: Account -> nat)
    requires Lawful(ctx, world, e)
    requires e.item.call.programId != token && token != DEFAULT_PROGRAM_ID
    requires Local(token, measure)
    ensures Sum(Write(world, e), measure) == Sum(world, measure)
  {
    hide Sum, Granted, ResolveClaim;
    var pres := e.output.preStates;
    var before, after := AccountsOf(pres), PostAccounts(e.posts);
    forall i | 0 <= i < |pres|
      ensures measure(before[i]) == measure(after[i])
    {
      assert Permitted(ctx, e.item.call.programId, pres[i], e.output.postStates[i].claim, e.posts[i].account);
    }
    SumSeqPointwise(before, after, measure);
    assert measure(DEFAULT_ACCOUNT) == 0;
    SumRecord(world, Ids(pres), before, after, measure);
  }

  lemma ForeignCallKeepsSupply(ctx: Context, world: Accounts, e: Executed, token: ProgramId, kind: Kind, d: AccountId)
    requires Lawful(ctx, world, e)
    requires e.item.call.programId != token && token != DEFAULT_PROGRAM_ID
    ensures Supply(token, kind, Lookup(Write(world, e), d)) == Supply(token, kind, Lookup(world, d))
  {
    hide Granted, ResolveClaim;
    var ids := Ids(e.output.preStates);
    if d in ids {
      var i :| 0 <= i < |ids| && ids[i] == d;
      RecordAt(world, ids, PostAccounts(e.posts), i);
      assert Permitted(ctx, e.item.call.programId, e.output.preStates[i], e.output.postStates[i].claim, e.posts[i].account);
    } else {
      RecordElsewhere(world, ids, PostAccounts(e.posts), d);
    }
  }

  lemma ForeignCallKeepsBacked(ctx: Context, world: Accounts, e: Executed, token: ProgramId)
    requires Lawful(ctx, world, e)
    requires e.item.call.programId != token && token != DEFAULT_PROGRAM_ID
    requires Backed(token, world)
    ensures Backed(token, Write(world, e))
  {
    hide Lawful, Sum, Supply;
    assert |e.output.preStates| == |e.posts| by { LawfulIsBalanced(ctx, world, e); }
    forall kind, d {:trigger UnitsOf(token, kind, d)}
      ensures Sum(Write(world, e), UnitsOf(token, kind, d)) == Supply(token, kind, Lookup(Write(world, e), d))
    {
      MeasuresAreLocal(token, kind, d);
      ForeignCallKeepsMeasure(ctx, world, e, token, UnitsOf(token, kind, d));
      ForeignCallKeepsSupply(ctx, world, e, token, kind, d);
    }
    forall d {:trigger MastersOf(token, d)}
      ensures Sum(Write(world, e), MastersOf(token, d)) <= 1
    {
      MeasuresAreLocal(token, Coin, d);
      ForeignCallKeepsMeasure(ctx, world, e, token, MastersOf(token, d));
    }
  }

  lemma LawfulIsBalanced(ctx: Context, world: Accounts, e: Executed)
    requires Lawful(ctx, world, e)
    ensures |e.output.preStates| == |e.posts|
  {
  }

  // --------------------------------------------------------- token program

  /** How a call of the token program may leave one account, given the post-state it output. */
  ghost predicate Settles(token: ProgramId, pre: AccountWithMetadata, post: AccountPostState, after: Account) {
    && after == post.account.(owner := if post.claim.Some? then token else pre.account.owner)
    && (post.claim.Some? ==> pre.account == DEFAULT_ACCOUNT)
    && post.account.owner == pre.account.owner
    && (after.data != pre.account.data ==> pre.account.owner == token || pre.account == DEFAULT_ACCOUNT)
    && (pre.account.owner == DEFAULT_PROGRAM_ID ==> pre.account == DEFAULT_ACCOUNT)
  }

  /** Change of the declared supply of `d` when the account with this id is replaced. */
  function SupplyAt(token: ProgramId, kind: Kind, d: AccountId, id: AccountId, a: Account): nat {
    if id == d then Supply(token, kind, a) else 0
  }

  /** Units gained by two accounts equal supply gained, for one definition and kind. */
  ghost predicate Matched(token: ProgramId, kind: Kind, d: AccountId, x: AccountWithMetadata,
                          x': Account, y: AccountWithMetadata, y': Account)
  {
    Units(token, kind, d, x') + Units(token, kind, d, y')
    + SupplyAt(token, kind, d, x.id, x.account) + SupplyAt(token, kind, d, y.id, y.account)
    == Units(token, kind, d, x.account) + Units(token, kind, d, y.account)
    + SupplyAt(token, kind, d, x.id, x') + SupplyAt(token, kind, d, y.id, y')
  }

  ghost predicate NoNewMaster(token: ProgramId, d: AccountId, x: AccountWithMetadata,
                              x': Account, y: AccountWithMetadata, y': Account)
  {
    Masters(token, d, x') + Masters(token, d, y') <= Masters(token, d, x.account) + Masters(token, d, y.account)
  }

  lemma TransferMatched(token: ProgramId, kind: Kind, d: AccountId, x: AccountWithMetadata,
                        y: AccountWithMetadata, amount: u128, x': Account, y': Account)
    requires token != DEFAULT_PROGRAM_ID && x.id != y.id
    requires TransferEffect(x, y, amount).Ok?
    requires Settles(token, x, TransferEffect(x, y, amount).value[0], x')
        && Settles(token, y, TransferEffect(x, y, amount).value[1], y')
    ensures Matched(token, kind, d, x, x', y, y')
    ensures NoNewMaster(token, d, x, x', y, y')
  {
  }

  lemma BurnMatched(token: ProgramId, kind: Kind, d: AccountId, x: AccountWithMetadata,
                    y: AccountWithMetadata, amount: u128, x': Account, y': Account)
    requires token != DEFAULT_PROGRAM_ID && x.id != y.id
    requires BurnEffect(x, y, amount).Ok?
    requires Settles(token, x, BurnEffect(x, y, amount).value[0], x')
        && Settles(token, y, BurnEffect(x, y, amount).value[1], y')
    ensures Matched(token, kind, d, x, x', y, y')
    ensures NoNewMaster(token, d, x, x', y, y')
  {
  }

  lemma MintMatched(token: ProgramId, kind: Kind, d: AccountId, x: AccountWithMetadata,
                    y: AccountWithMetadata, amount: u128, x': Account, y': Account)
    requires token != DEFAULT_PROGRAM_ID && x.id != y.id
    requires MintEffect(x, y, amount).Ok?
    requires Settles(token, x, MintEffect(x, y, amount).value[0], x')
        && Settles(token, y, MintEffect(x, y, amount).value[1], y')
    ensures Matched(token, kind, d, x, x', y, y')
    ensures NoNewMaster(token, d, x, x', y, y')
  {
  }

  lemma PrintMatched(token: ProgramId, kind: Kind, d: AccountId, x: AccountWithMetadata,
                     y: AccountWithMetadata, x': Account, y': Account)
    requires token != DEFAULT_PROGRAM_ID && x.id != y.id
    requires PrintEffect(x, y).Ok?
    requires Settles(token, x, PrintEffect(x, y).value[0], x') && Settles(token, y, PrintEffect(x, y).value[1], y')
    ensures Matched(token, kind, d, x, x', y, y')
    ensures NoNewMaster(token, d, x, x', y, y')
  {
  }

  lemma InitializeMatched(token: ProgramId, kind: Kind, d: AccountId, x: AccountWithMetadata,
                          y: AccountWithMetadata, x': Account, y': Account)
    requires token != DEFAULT_PROGRAM_ID && x.id != y.id
    requires InitializeEffect(x, y).Ok?
    requires Settles(token, x, InitializeEffect(x, y).value[0], x') && Settles(token, y, InitializeEffect(x, y).value[1], y')
    ensures Matched(token, kind, d, x, x', y, y')
    ensures NoNewMaster(token, d, x, x', y, y')
  {
  }

  lemma NewFungibleMatched(token: ProgramId, kind: Kind, d: AccountId, x: AccountWithMetadata,
                           y: AccountWithMetadata, name: string, supply: u128, x': Account, y': Account)
    requires token != DEFAULT_PROGRAM_ID && x.id != y.id
    requires NewFungibleEffect(x, y, name, supply).Ok?
    requires Settles(token, x, NewFungibleEffect(x, y, name, supply).value[0], x')
        && Settles(token, y, NewFungibleEffect(x, y, name, supply).value[1], y')
    ensures Matched(token, kind, d, x, x', y, y')
    ensures NoNewMaster(token, d, x, x', y, y')
  {
  }

  lemma NewWithMetadataMatched(token: ProgramId, kind: Kind, d: AccountId, x: AccountWithMetadata,
                               y: AccountWithMetadata, z: AccountWithMetadata, requested: NewTokenDefinition,
                               details: NewTokenMetadata, x': Account, y': Account, z': Account)
    requires token != DEFAULT_PROGRAM_ID && x.id != y.id
    requires NewWithMetadataEffect(x, y, z, requested, details).Ok?
    requires var posts := NewWithMetadataEffect(x, y, z, requested, details).value;
      Settles(token, x, posts[0], x') && Settles(token, y, posts[1], y') && Settles(token, z, posts[2], z')
    ensures Matched(token, kind, d, x, x', y, y')
    ensures Masters(token, d, x') + Masters(token, d, y') <= if d == x.id then 1 else 0
    ensures x.account == y.account == z.account == DEFAULT_ACCOUNT
    ensures Units(token, kind, d, z') == Masters(token, d, z') == Supply(token, kind, z') == 0
  {
  }

  /** Every instruction keeps units and supply matched; only a new definition brings a master alive. */
  lemma EffectsMatched(token: ProgramId, kind: Kind, d: AccountId, pres: seq<AccountWithMetadata>,
                       instruction: TokenInstruction, after: seq<Account>)
    requires token != DEFAULT_PROGRAM_ID
    requires Effects(pres, instruction).Ok?
    requires var posts := Effects(pres, instruction).value;
      |posts| == |pres| == |after| && forall i :: 0 <= i < |pres| ==> Settles(token, pres[i], posts[i], after[i])
    requires Distinct(Ids(pres))
    ensures |pres| == 2 || |pres| == 3
    ensures Matched(token, kind, d, pres[0], after[0], pres[1], after[1])
    ensures |pres| == 2 ==> NoNewMaster(token, d, pres[0], after[0], pres[1], after[1])
    ensures |pres| == 3 ==>
      && pres[0].account == pres[1].account == pres[2].account == DEFAULT_ACCOUNT
      && Masters(token, d, after[0]) + Masters(token, d, after[1]) <= (if d == pres[0].id then 1 else 0)
      && Units(token, kind, d, after[2]) == Masters(token, d, after[2]) == Supply(token, kind, after[2]) == 0
  {
    hide TransferEffect, BurnEffect, MintEffect, PrintEffect, InitializeEffect, NewFungibleEffect,
         NewWithMetadataEffect, Settles, Matched, NoNewMaster, Units, Masters, Supply;
    assert Ids(pres)[0] != Ids(pres)[1];
    var x, y, x', y' := pres[0], pres[1], after[0], after[1];
    match instruction
    case Transfer(amount) => TransferMatched(token, kind, d, x, y, amount, x', y');
    case NewFungibleDefinition(name, supply) => NewFungibleMatched(token, kind, d, x, y, name, supply, x', y');
    case NewDefinitionWithMetadata(r, m) => NewWithMetadataMatched(token, kind, d, x, y, pres[2], r, m, x', y', after[2]);
    case InitializeAccount => InitializeMatched(token, kind, d, x, y, x', y');
    case Burn(amount) => BurnMatched(token, kind, d, x, y, amount, x', y');
    case Mint(amount) => MintMatched(token, kind, d, x, y, amount, x', y');
    case PrintNft => PrintMatched(token, kind, d, x, y, x', y');
  }

  lemma SumSeqShort(s: seq<Account>, measure: Account -> nat)
    ensures |s| == 2 ==> SumSeq(s, measure) == measure(s[0]) + measure(s[1])
    ensures |s| == 3 ==> SumSeq(s, measure) == measure(s[0]) + measure(s[1]) + measure(s[2])
  {
    if |s| == 2 || |s| == 3 {
      var init := s[..|s| - 1];
      assert SumSeq(init, measure) == SumSeq(init[..|init| - 1], measure) + measure(init[|init| - 1]);
      if |s| == 3 {
        assert SumSeq(init[..1], measure) == SumSeq(init[..1][..0], measure) + measure(init[..1][0]);
      }
    }
  }

  lemma LawfulSettles(ctx: Context, world: Accounts, e: Executed, i: nat)
    requires Lawful(ctx, world, e)
    requires i < |e.output.preStates|
    ensures Settles(e.item.call.programId, e.output.preStates[i], e.output.postStates[i], e.posts[i].account)
  {
    hide Granted, SumSeq;
    assert Permitted(ctx, e.item.call.programId, e.output.preStates[i], e.output.postStates[i].claim, e.posts[i].account);
  }

  /** Replacing up to three distinct accounts: what each measure and each definition's account become. */
  lemma ReplacedAccounts(world: Accounts, pres: seq<AccountWithMetadata>,
                         after: seq<Account>, measure: Account -> nat, d: AccountId)
    requires |pres| == |after| && (|pres| == 2 || |pres| == 3)
    requires Distinct(Ids(pres))
    requires forall i :: 0 <= i < |pres| ==> pres[i].account == Lookup(world, pres[i].id)
    requires measure(DEFAULT_ACCOUNT) == 0
    ensures var world' := Record(world, Ids(pres), after);
      && Sum(world', measure) + measure(pres[0].account) + measure(pres[1].account)
         + (if |pres| == 3 then measure(pres[2].account) else 0)
         == Sum(world, measure) + measure(after[0]) + measure(after[1]) + (if |pres| == 3 then measure(after[2]) else 0)
      && (forall i :: 0 <= i < |pres| && pres[i].id == d ==> Lookup(world', d) == after[i])
      && ((forall i :: 0 <= i < |pres| ==> pres[i].id != d) ==> Lookup(world', d) == Lookup(world, d))
  {
    hide Sum, Record;
    var ids := Ids(pres);
    SumRecord(world, ids, AccountsOf(pres), after, measure);
    SumSeqShort(AccountsOf(pres), measure);
    SumSeqShort(after, measure);
    forall i | 0 <= i < |pres| && pres[i].id == d
      ensures Lookup(Record(world, ids, after), d) == after[i]
    {
      RecordAt(world, ids, after, i);
    }
    if forall i :: 0 <= i < |pres| ==> pres[i].id != d {
      RecordElsewhere(world, ids, after, d);
    }
  }

  lemma TokenCallKeepsUnits(ctx: Context, world: Accounts, e: Executed, token: ProgramId,
                            instruction: TokenInstruction, kind: Kind, d: AccountId)
    requires Lawful(ctx, world, e)
    requires e.item.call.programId == token != DEFAULT_PROGRAM_ID
    requires Effects(e.output.preStates, instruction) == Ok(e.output.postStates)
    requires Sum(world, UnitsOf(token, kind, d)) == Supply(token, kind, Lookup(world, d))
    ensures Sum(Write(world, e), UnitsOf(token, kind, d)) == Supply(token, kind, Lookup(Write(world, e), d))
  {
    hide Sum, Record, Effects, Units, Supply, Masters, Permitted,
         ResolveClaim, Granted, Settles, NoNewMaster, SumSeq, WellBehaved;
    var pres, after := e.output.preStates, PostAccounts(e.posts);
    forall i | 0 <= i < |pres|
      ensures Settles(token, pres[i], e.output.postStates[i], after[i])
    {
      LawfulSettles(ctx, world, e, i);
    }
    EffectsMatched(token, kind, d, pres, instruction, after);
    assert Units(token, kind, d, DEFAULT_ACCOUNT) == 0 && Supply(token, kind, DEFAULT_ACCOUNT) == 0 by {
      DefaultHasNothing(token, kind, d);
    }
    ReplacedAccounts(world, pres, after, UnitsOf(token, kind, d), d);
    assert Ids(pres)[0] != Ids(pres)[1];
    if pres[0].id == d {
    } else if pres[1].id == d {
    } else if |pres| == 3 && pres[2].id == d {
    } else {
      assert forall i :: 0 <= i < |pres| ==> pres[i].id != d;
    }
  }

  lemma DefaultHasNothing(token: ProgramId, kind: Kind, d: AccountId)
    ensures Units(token, kind, d, DEFAULT_ACCOUNT) == Supply(token, kind, DEFAULT_ACCOUNT) == 0
    ensures Masters(token, d, DEFAULT_ACCOUNT) == 0
  {
  }

  lemma TokenCallKeepsMasters(ctx: Context, world: Accounts, e: Executed, token: ProgramId,
                              instruction: TokenInstruction, d: AccountId)
    requires Lawful(ctx, world, e)
    requires e.item.call.programId == token != DEFAULT_PROGRAM_ID
    requires Effects(e.output.preStates, instruction) == Ok(e.output.postStates)
    requires Sum(world, UnitsOf(token, Nft, d)) == Supply(token, Nft, Lookup(world, d))
    requires Sum(world, MastersOf(token, d)) <= 1
    ensures Sum(Write(world, e), MastersOf(token, d)) <= 1
  {
    hide Sum, Record, Effects, Units, Supply, Masters, Permitted,
         ResolveClaim, Granted, Settles, Matched, SumSeq, WellBehaved;
    var pres, after := e.output.preStates, PostAccounts(e.posts);
    forall i | 0 <= i < |pres|
      ensures Settles(token, pres[i], e.output.postStates[i], after[i])
    {
      LawfulSettles(ctx, world, e, i);
    }
    EffectsMatched(token, Nft, d, pres, instruction, after);
    DefaultHasNothing(token, Nft, d);
    ReplacedAccounts(world, pres, after, MastersOf(token, d), d);
    if |pres| == 3 && d == pres[0].id {
      assert Sum(world, MastersOf(token, d)) <= Sum(world, UnitsOf(token, Nft, d)) by {
        MasterIsAUnit(token, d);
        SumMonotone(world, MastersOf(token, d), UnitsOf(token, Nft, d));
      }
    }
  }

  lemma MasterIsAUnit(token: ProgramId, d: AccountId)
    ensures forall a :: MastersOf(token, d)(a) <= UnitsOf(token, Nft, d)(a)
  {
  }

  lemma TokenCallKeepsBacked(ctx: Context, world: Accounts, e: Executed, token: ProgramId)
    requires Lawful(ctx, world, e)
    requires e.item.call.programId == token != DEFAULT_PROGRAM_ID
    requires e.item.call.instruction.TokenCall?
    requires Effects(e.output.preStates, e.item.call.instruction.token) == Ok(e.output.postStates)
    requires Backed(token, world)
    ensures |e.output.preStates| == |e.posts| && Backed(token, Write(world, e))
  {
    hide Lawful, Sum, Supply, Effects;
    LawfulIsBalanced(ctx, world, e);
    forall kind, d {:trigger UnitsOf(token, kind, d)}
      ensures Sum(Write(world, e), UnitsOf(token, kind, d)) == Supply(token, kind, Lookup(Write(world, e), d))
    {
      TokenCallKeepsUnits(ctx, world, e, token, e.item.call.instruction.token, kind, d);
    }
    forall d {:trigger MastersOf(token, d)}
      ensures Sum(Write(world, e), MastersOf(token, d)) <= 1
    {
      assert Sum(world, UnitsOf(token, Nft, d)) == Supply(token, Nft, Lookup(world, d));
      TokenCallKeepsMasters(ctx, world, e, token, e.item.call.instruction.token, d);
    }
  }

  // ------------------------------------------------------------ whole chains

  /** The k-th call of a history output what its program computes from what it was given. */
  lemma CallOutput(ctx: Context, trace: seq<Executed>, k: nat)
    requires History(ctx, trace) && k < |trace|
    ensures ctx.execute(trace[k].item.call.programId, trace[k].item.caller.programId, trace[k].item.call.preStates,
                        trace[k].item.call.instruction) == Some(trace[k].output)
  {
    assert At(trace, k);
    ExecuteOutput(ctx, trace[k].item, Replay(map[], trace[..k]));
  }

  lemma ExecuteOutput(ctx: Context, item: WorkItem, diff: Accounts)
    requires Execute(ctx, item, diff).Ok?
    ensures ctx.execute(item.call.programId, item.caller.programId, item.call.preStates, item.call.instruction)
         == Some(Execute(ctx, item, diff).value.output)
  {
  }

  lemma {:induction false} ChainKeepsBacked(ctx: Context, trace: seq<Executed>, n: nat, token: ProgramId)
    requires History(ctx, trace) && n <= |trace|
    requires RunsToken(ctx.execute, token) && token != DEFAULT_PROGRAM_ID
    requires Backed(token, ctx.accounts)
    ensures Backed(token, World(ctx, trace, n))
    decreases n
  {
    hide Execute, Replay, Backed, Lawful, Effects;
    EmptyReplay(ctx, trace);
    if n > 0 {
      var k := n - 1;
      ChainKeepsBacked(ctx, trace, k, token);
      CallEffect(ctx, trace, k);
      CallOutput(ctx, trace, k);
      WorldStep(ctx, trace, k);
      if trace[k].item.call.programId == token {
        TokenCallKeepsBacked(ctx, World(ctx, trace, k), trace[k], token);
      } else {
        ForeignCallKeepsBacked(ctx, World(ctx, trace, k), trace[k], token);
      }
    }
  }

  // -------------------------------------------------------------- whole runs

  lemma BumpKeepsBacked(token: ProgramId, accounts: Accounts, signers: seq<AccountId>)
    requires Backed(token, accounts)
    requires BumpNonces(accounts, signers).Some?
    ensures Backed(token, BumpNonces(accounts, signers).value)
  {
    hide Sum, BumpNonces;
    var bumped := BumpNonces(accounts, signers).value;
    forall kind, d {:trigger UnitsOf(token, kind, d)}
      ensures Sum(bumped, UnitsOf(token, kind, d)) == Supply(token, kind, Lookup(bumped, d))
    {
      BumpKeepsSum(accounts, signers, UnitsOf(token, kind, d));
      BumpEffect(accounts, signers, d);
    }
    forall d {:trigger MastersOf(token, d)}
      ensures Sum(bumped, MastersOf(token, d)) <= 1
    {
      BumpKeepsSum(accounts, signers, MastersOf(token, d));
    }
  }

  lemma AfterKeepsBacked(host: Host, st: State, step: Step, token: ProgramId)
    requires !step.tx.PrivacyPreserving?
    requires RunsToken(host.execute, token) && token != DEFAULT_PROGRAM_ID
    requires Backed(token, st.accounts)
    ensures Backed(token, After(host, st, step).accounts)
  {
    hide FromPublic, RunCalls, Replay, Apply, BumpNonces, Backed;
    if Accept(host, st, step).Some? {
      AcceptedAccounts(host, st, step);
      var diff := ComputeStateDiff(host, st, step.tx, step.blockId, step.timestamp).value;
      if step.tx.Public? {
        PublicHistory(host, st, step.tx.public, step.blockId, step.timestamp);
        var ctx := PublicContext(host, st.accounts, st.programs, step.tx.public, step.blockId, step.timestamp);
        ChainKeepsBacked(ctx, RunCalls(ctx).value.trace, |RunCalls(ctx).value.trace|, token);
      }
      BumpKeepsBacked(token, st.accounts + diff.publicDiff, diff.signers);
    }
  }

  /** Over any run of public and deployment transactions, with every other program arbitrary: each
      fungible definition's total supply is the sum of the balances of its holdings, each NFT's printable
      supply is its masters' print balances plus its owned copies, and at most one master is alive. */
  lemma {:induction false} SupplyConservedOverRun(host: Host, st: State, steps: seq<Step>, token: ProgramId)
    requires NoPrivate(steps)
    requires RunsToken(host.execute, token) && token != DEFAULT_PROGRAM_ID
    requires Backed(token, st.accounts)
    ensures Backed(token, Run(host, st, steps).accounts)
  {
    hide After, Backed;
    if steps != [] {
      var init, last := steps[..|steps| - 1], steps[|steps| - 1];
      SupplyConservedOverRun(host, st, init, token);
      AfterKeepsBacked(host, Run(host, st, init), last, token);
    }
  }

  // ----------------------------------------------------------------- genesis

  ghost predicate NoneOwnedBy(accounts: Accounts, program: ProgramId) {
    forall id :: id in accounts ==> accounts[id].owner != program
  }

  lemma {:induction false} RecordNoneOwned(accounts: Accounts, ids: seq<AccountId>,
                                           written: seq<Account>, program: ProgramId)
    requires |ids| == |written|
    requires NoneOwnedBy(accounts, program)
    requires forall i :: 0 <= i < |written| ==> written[i].owner != program
    ensures NoneOwnedBy(Record(accounts, ids, written), program)
  {
    if ids != [] {
      RecordNoneOwned(accounts, ids[..|ids| - 1], written[..|ids| - 1], program);
    }
  }

  lemma {:induction false} SumOfForeign(token: ProgramId, accounts: Accounts, measure: Account -> nat)
    requires NoneOwnedBy(accounts, token) && Local(token, measure)
    ensures Sum(accounts, measure) == 0
    decreases |accounts|
  {
    if accounts != map[] {
      var id :| id in accounts;
      SumSplit(accounts, measure, id);
      SumOfForeign(token, accounts - {id}, measure);
    }
  }

  /** Genesis accounts belong to the transfer and clock programs. */
  lemma GenesisOwners(host: Host, sys: System, initial: seq<(AccountId, u128)>,
                      private: seq<(Commitment, Nullifier)>, timestamp: nat, program: ProgramId)
    requires program != sys.transferProgram && program != sys.clockProgram
    ensures NoneOwnedBy(Genesis(host, sys, initial, private, timestamp).accounts, program)
  {
    hide Record, ExtendIndex;
    RecordNoneOwned(map[], InitialIds(initial), InitialAccounts(sys, initial), program);
    RecordNoneOwned(FundedAccounts(sys, initial), sys.clocks, seq(|sys.clocks|, _ => ClockAccount(sys, timestamp)), program);
  }

  /** Genesis starts with no tokens: the invariant holds there. */
  lemma GenesisIsBacked(host: Host, sys: System, initial: seq<(AccountId, u128)>,
                        private: seq<(Commitment, Nullifier)>, timestamp: nat, token: ProgramId)
    requires token != DEFAULT_PROGRAM_ID && token != sys.transferProgram && token != sys.clockProgram
    ensures Backed(token, Genesis(host, sys, initial, private, timestamp).accounts)
  {
    hide Sum, Record, ExtendIndex;
    GenesisOwners(host, sys, initial, private, timestamp, token);
    var accounts := Genesis(host, sys, initial, private, timestamp).accounts;
    forall kind, d {:trigger UnitsOf(token, kind, d)}
      ensures Sum(accounts, UnitsOf(token, kind, d)) == Supply(token, kind, Lookup(accounts, d))
    {
      MeasuresAreLocal(token, kind, d);
      SumOfForeign(token, accounts, UnitsOf(token, kind, d));
    }
    forall d {:trigger MastersOf(token, d)}
      ensures Sum(accounts, MastersOf(token, d)) <= 1
    {
      MeasuresAreLocal(token, Nft, d);
      SumOfForeign(token, accounts, MastersOf(token, d));
    }
  }

  // ------------------------------------------------------- dead error branches

  ghost predicate Current(accounts: Accounts, pre: AccountWithMetadata) {
    pre.account == Lookup(accounts, pre.id)
  }

  /** Neither the token program's nor untouched. Such an account may carry token-shaped data. */
  predicate Foreign(token: ProgramId, a: Account) {
    a.owner != token && a != DEFAULT_ACCOUNT
  }

  /** In a backed state a transfer overflows the recipient only when one of the accounts is foreign. */
  lemma TransferNeverOverflows(token: ProgramId, accounts: Accounts, sender: AccountWithMetadata,
                               recipient: AccountWithMetadata, amount: u128)
    requires Backed(token, accounts)
    requires Current(accounts, sender) && Current(accounts, recipient) && sender.id != recipient.id
    ensures TransferEffect(sender, recipient, amount) == Err(RecipientBalanceOverflow) ==>
      Foreign(token, sender.account) || Foreign(token, recipient.account)
  {
    hide Sum;
    if sender.account.data.HoldingData? {
      var d := sender.account.data.holding.definitionId;
      SumBoundsTwo(accounts, UnitsOf(token, Coin, d), sender.id, recipient.id);
    }
  }

  /** Burning underflows the total supply only when one of the accounts is foreign, and the printable supply
      besides only for a master whose own balance is short too. */
  lemma BurnNeverUnderflows(token: ProgramId, accounts: Accounts, definition: AccountWithMetadata,
                            holder: AccountWithMetadata, amount: u128)
    requires Backed(token, accounts)
    requires Current(accounts, definition) && Current(accounts, holder)
    ensures BurnEffect(definition, holder, amount) == Err(TotalSupplyUnderflow) ==>
      Foreign(token, definition.account) || Foreign(token, holder.account)
    ensures BurnEffect(definition, holder, amount) == Err(PrintableSupplyUnderflow) ==>
      || Foreign(token, definition.account) || Foreign(token, holder.account)
      || (holder.account.data.HoldingData? && holder.account.data.holding.NftMaster?
          && holder.account.data.holding.printBalance < amount)
  {
    hide Sum;
    if holder.account.data.HoldingData? {
      SumBoundsEach(accounts, UnitsOf(token, Coin, definition.id), holder.id);
      SumBoundsEach(accounts, UnitsOf(token, Nft, definition.id), holder.id);
    }
  }

  /** Minting overflows a holding only when the total supply would overflow too, or an account is foreign. */
  lemma MintOverflowsOnlyWithSupply(token: ProgramId, accounts: Accounts, definition: AccountWithMetadata,
                                    holder: AccountWithMetadata, amount: u128)
    requires Backed(token, accounts)
    requires Current(accounts, definition) && Current(accounts, holder)
    ensures MintEffect(definition, holder, amount) == Err(BalanceOverflow) ==>
      || Foreign(token, definition.account) || Foreign(token, holder.account)
      || Declared(definition.account.data) + amount >= U128_LIMIT
  {
    hide Sum;
    SumBoundsEach(accounts, UnitsOf(token, Coin, definition.id), holder.id);
  }

  /** A backed state in which a foreign account with token-shaped data reaches the overflow branch. */
  lemma ForeignRecipientOverflows(token: ProgramId, foreign: ProgramId)
    requires token != foreign && token != DEFAULT_PROGRAM_ID && foreign != DEFAULT_PROGRAM_ID
    ensures var coin := AccountId(9);
      var supply := Account(token, 0, DefinitionData(FungibleDefinition("coin", 1, None)), 0);
      var purse := Account(token, 0, HoldingData(Fungible(coin, 1)), 0);
      var bogus := Account(foreign, 0, HoldingData(Fungible(coin, U128_LIMIT - 1)), 0);
      && Backed(token, map[coin := supply, AccountId(1) := purse, AccountId(2) := bogus])
      && TransferEffect(AccountWithMetadata(purse, true, AccountId(1)), AccountWithMetadata(bogus, false, AccountId(2)), 1)
         == Err(RecipientBalanceOverflow)
  {
    hide Sum;
    var coin := AccountId(9);
    var supply := Account(token, 0, DefinitionData(FungibleDefinition("coin", 1, None)), 0);
    var purse := Account(token, 0, HoldingData(Fungible(coin, 1)), 0);
    var bogus := Account(foreign, 0, HoldingData(Fungible(coin, U128_LIMIT - 1)), 0);
    var accounts := map[coin := supply, AccountId(1) := purse, AccountId(2) := bogus];
    forall measure: Account -> nat | measure(DEFAULT_ACCOUNT) == 0
      ensures Sum(accounts, measure) == measure(supply) + measure(purse) + measure(bogus)
    {
      SumOfThree(coin, supply, AccountId(1), purse, AccountId(2), bogus, measure);
    }
    assert forall kind, d {:trigger UnitsOf(token, kind, d)} :: UnitsOf(token, kind, d)(DEFAULT_ACCOUNT) == 0;
    assert forall d {:trigger MastersOf(token, d)} :: MastersOf(token, d)(DEFAULT_ACCOUNT) == 0;
  }

  lemma SumOfThree(x: AccountId, a: Account, y: AccountId, b: Account,
                   z: AccountId, c: Account, measure: Account -> nat)
    requires x != y && x != z && y != z && measure(DEFAULT_ACCOUNT) == 0
    ensures Sum(map[x := a, y := b, z := c], measure) == measure(a) + measure(b) + measure(c)
  {
    var none: Accounts := map[];
    SumUpdate(none, measure, x, a);
    SumUpdate(none[x := a], measure, y, b);
    SumUpdate(none[x := a][y := b], measure, z, c);
    assert none[x := a][y := b][z := c] == map[x := a, y := b, z := c];
  }

  /** Whatever its numbers, a token call that moves units at a foreign account fails execution validation. */
  lemma ForeignTokenCallRefused(token: ProgramId, pres: seq<AccountWithMetadata>,
                                instruction: TokenInstruction, posts: seq<AccountPostState>, i: nat)
    requires instruction.Transfer? || instruction.Burn? || instruction.Mint?
    requires instruction.amount > 0 && Effects(pres, instruction) == Ok(posts)
    requires i < |pres| && Foreign(token, pres[i].account)
    ensures ValidateExecution(pres, posts, token).Fail?
  {
    hide ValidateExecution, SumSeq, WellBehaved, Effects;
    ForeignMoves(token, pres, instruction, posts, i);
    ValidateExecutionMeaning(pres, posts, token);
  }

  lemma ForeignMoves(token: ProgramId, pres: seq<AccountWithMetadata>,
                     instruction: TokenInstruction, posts: seq<AccountPostState>, i: nat)
    requires instruction.Transfer? || instruction.Burn? || instruction.Mint?
    requires instruction.amount > 0 && Effects(pres, instruction) == Ok(posts)
    requires i < |pres| && Foreign(token, pres[i].account)
    ensures |posts| == |pres| && !WellBehaved(pres[i].account, posts[i].account, token)
  {
  }
}
