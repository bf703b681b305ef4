/** The AMM's calls in the transaction loop: the token calls an executed AMM call chains follow it directly,
    each on accounts of its own. */
module AmmCalls {
  import opened Core
  import opened Sums
  import opened Execution
  import opened Calls
  import opened CallTrace
  import opened Token
  import opened TokenSupply
  import opened Amm
  import opened AmmMath
  import opened AmmPools

  // ----------------------------------------------- calls that chain nothing

  ghost predicate NeverChains(ctx: Context, program: ProgramId) {
    forall caller, pres, instruction {:trigger ctx.execute(program, caller, pres, instruction)} ::
      ctx.execute(program, caller, pres, instruction).Some? ==>
        ctx.execute(program, caller, pres, instruction).value.chainedCalls == []
  }

  /** The program reports the accounts it was given and chains nothing. */
  ghost predicate IsLeaf(ctx: Context, program: ProgramId) {
    forall caller, pres, instruction {:trigger ctx.execute(program, caller, pres, instruction)} ::
      ctx.execute(program, caller, pres, instruction).Some? ==>
        && ctx.execute(program, caller, pres, instruction).value.preStates == pres
        && ctx.execute(program, caller, pres, instruction).value.chainedCalls == []
  }

  lemma LeafNeverChains(ctx: Context, program: ProgramId)
    requires IsLeaf(ctx, program)
    ensures NeverChains(ctx, program)
  {
  }

  lemma {:induction false} LeavesRunInOrder(ctx: Context, items: seq<WorkItem>, p: Progress, program: ProgramId)
    requires NeverChains(ctx, program)
    requires forall i :: 0 <= i < |items| ==> items[i].call.programId == program
    requires EvalAll(ctx, items, p).Ok?
    ensures var trace := EvalAll(ctx, items, p).value.trace;
      && |trace| == |p.trace| + |items| && trace[..|p.trace|] == p.trace
      && forall i :: 0 <= i < |items| ==> trace[|p.trace| + i].item == items[i]
    decreases |items|
  {
    hide Execute;
    if items != [] {
      var item := items[0];
      assert item.call.programId == program;
      ExecuteOutput(ctx, item, p.diff);
      ExecutedIsBalanced(ctx, item, p.diff);
      var done := Execute(ctx, item, p.diff).value;
      assert Children(done) == [];
      var next := Progress(Write(p.diff, done), p.trace + [done]);
      assert EvalAll(ctx, [], next) == Ok(next);
      assert EvalCall(ctx, item, p) == Ok(next);
      var q := EvalCall(ctx, item, p).value;
      assert q.trace == p.trace + [done];
      LeavesRunInOrder(ctx, items[1..], q, program);
    }
  }

  /** The calls chained at position `k` are the ones executed next, in their order. */
  ghost predicate ChildrenFollow(trace: seq<Executed>, k: nat)
    requires k < |trace|
  {
    var items := Children(trace[k]);
    k + |items| < |trace| && forall i :: 0 <= i < |items| ==> trace[k + 1 + i].item == items[i]
  }

  lemma ChildAt(trace: seq<Executed>, k: nat, i: nat)
    requires k < |trace| && ChildrenFollow(trace, k) && i < |trace[k].output.chainedCalls|
    ensures k + 1 + i < |trace| && trace[k + 1 + i].item.call == trace[k].output.chainedCalls[i]
  {
    assert trace[k + 1 + i].item == Children(trace[k])[i];
  }

  ghost predicate ChainsOnly(e: Executed, program: ProgramId) {
    forall i :: 0 <= i < |e.output.chainedCalls| ==> e.output.chainedCalls[i].programId == program
  }

  /** In the subtree of any call, wherever a call chains only to a program that never chains. */
  lemma {:induction false} FollowInSubtree(ctx: Context, item: WorkItem, p: Progress, k: nat, program: ProgramId)
    requires NeverChains(ctx, program)
    requires EvalCall(ctx, item, p).Ok?
    requires |p.trace| <= k < |EvalCall(ctx, item, p).value.trace|
    requires ChainsOnly(EvalCall(ctx, item, p).value.trace[k], program)
    ensures ChildrenFollow(EvalCall(ctx, item, p).value.trace, k)
    decreases Remaining(p), 0
  {
    hide Execute, NeverChains, Write;
    var done := Execute(ctx, item, p.diff).value;
    ExecutedIsBalanced(ctx, item, p.diff);
    var next := Progress(Write(p.diff, done), p.trace + [done]);
    var trace := EvalAll(ctx, Children(done), next).value.trace;
    assert next.trace <= trace;
    if k == |p.trace| {
      assert trace[k] == next.trace[k] == done;
      LeavesRunInOrder(ctx, Children(done), next, program);
    } else {
      FollowInGroup(ctx, Children(done), next, k, program);
    }
  }

  lemma {:induction false} FollowInGroup(ctx: Context, items: seq<WorkItem>, p: Progress, k: nat, program: ProgramId)
    requires NeverChains(ctx, program)
    requires EvalAll(ctx, items, p).Ok?
    requires |p.trace| <= k < |EvalAll(ctx, items, p).value.trace|
    requires ChainsOnly(EvalAll(ctx, items, p).value.trace[k], program)
    ensures ChildrenFollow(EvalAll(ctx, items, p).value.trace, k)
    decreases Remaining(p), |items|
  {
    hide Execute, NeverChains;
    if items != [] {
      var q := EvalCall(ctx, items[0], p).value;
      assert q.trace <= EvalAll(ctx, items, p).value.trace;
      if k < |q.trace| {
        FollowInSubtree(ctx, items[0], p, k, program);
      } else {
        FollowInGroup(ctx, items[1..], q, k, program);
      }
    }
  }

  lemma TokenIsLeaf(ctx: Context, token: ProgramId)
    requires RunsToken(ctx.execute, token)
    ensures IsLeaf(ctx, token) && NeverChains(ctx, token)
  {
    hide Effects;
  }

  // -------------------------------------------------------- one token call

  /** A token call on two accounts: it saw them as they are, and replaced just those two. */
  lemma TokenLeaf(ctx: Context, trace: seq<Executed>, k: nat, token: ProgramId,
                  x: AccountWithMetadata, y: AccountWithMetadata, instruction: TokenInstruction)
    requires History(ctx, trace) && k < |trace|
    requires RunsToken(ctx.execute, token)
    requires trace[k].item.call.programId == token
    requires trace[k].item.call.preStates == [x, y] && trace[k].item.call.instruction == TokenCall(instruction)
    ensures x.id != y.id
    ensures x.account == Lookup(World(ctx, trace, k), x.id) && y.account == Lookup(World(ctx, trace, k), y.id)
    ensures var r := Effects([x, y], instruction);
      && r.Ok? && |r.value| == 2
      && Settles(token, x, r.value[0], Lookup(World(ctx, trace, k + 1), x.id))
      && Settles(token, y, r.value[1], Lookup(World(ctx, trace, k + 1), y.id))
    ensures forall id {:trigger Lookup(World(ctx, trace, k + 1), id)} :: id != x.id && id != y.id ==>
      Lookup(World(ctx, trace, k + 1), id) == Lookup(World(ctx, trace, k), id)
  {
    hide Execute, Replay, Effects, Settles, Permitted, WellBehaved, ResolveClaim, Granted, SumSeq, Record;
    CallOutput(ctx, trace, k);
    CallEffect(ctx, trace, k);
    WorldStep(ctx, trace, k);
    var e := trace[k];
    var world, ids, after := World(ctx, trace, k), Ids(e.output.preStates), PostAccounts(e.posts);
    assert e.output.preStates == [x, y];
    assert ids == [x.id, y.id] && ids[0] != ids[1];
    RecordAt(world, ids, after, 0);
    RecordAt(world, ids, after, 1);
    LawfulSettles(ctx, world, e, 0);
    LawfulSettles(ctx, world, e, 1);
    forall id {:trigger Lookup(World(ctx, trace, k + 1), id)} | id != x.id && id != y.id
      ensures Lookup(World(ctx, trace, k + 1), id) == Lookup(world, id)
    {
      RecordElsewhere(world, ids, after, id);
    }
  }

  lemma TransferMovesUnits(token: ProgramId, x: AccountWithMetadata,
                           y: AccountWithMetadata, amount: u128, x': Account, y': Account)
    requires TransferEffect(x, y, amount).Ok?
    requires Settles(token, x, TransferEffect(x, y, amount).value[0], x')
    requires Settles(token, y, TransferEffect(x, y, amount).value[1], y')
    ensures Held(x'.data) == Held(x.account.data) - amount
    ensures Held(y'.data) == Held(y.account.data) + amount
    ensures y'.data.HoldingData? && y'.data.holding.Fungible? ==> Held(y.account.data) + amount < U128_LIMIT
    ensures y.account.data.HoldingData? && y.account.data.holding.Fungible? ==> Held(y.account.data) + amount < U128_LIMIT
  {
  }

  lemma MintAndBurnMoveSupply(token: ProgramId, x: AccountWithMetadata, y: AccountWithMetadata,
                              instruction: TokenInstruction, x': Account, y': Account)
    requires instruction.Mint? || instruction.Burn? || instruction.NewFungibleDefinition?
    requires Effects([x, y], instruction).Ok?
    requires Settles(token, x, Effects([x, y], instruction).value[0], x')
    requires Settles(token, y, Effects([x, y], instruction).value[1], y')
    ensures Declared(x'.data) == match instruction
      case Mint(amount) => Declared(x.account.data) + amount
      case Burn(amount) => Declared(x.account.data) - amount
      case NewFungibleDefinition(_, supply) => supply
    ensures Held(y'.data) == match instruction
      case Mint(amount) => Held(y.account.data) + amount
      case Burn(amount) => Held(y.account.data) - amount
      case NewFungibleDefinition(_, supply) => Held(y.account.data) + supply
    ensures instruction.NewFungibleDefinition? ==> Declared(x.account.data) == 0
    ensures instruction.Burn? ==> instruction.amount <= Held(y.account.data)
  {
  }

  // ------------------------------------------------------------ the AMM call

  /** The instruction of an executed AMM call. */
  function InstructionOf(e: Executed): AmmInstruction
    requires e.item.call.instruction.AmmCall?
  {
    e.item.call.instruction.amm
  }

  /** An executed AMM call, whoever chained it: it saw its accounts as they are, different ones, and wrote the
      pool and nothing else. */
  lemma AmmExecuted(ctx: Context, world: Accounts, e: Executed, amm: ProgramId, p: Profile, at: Addresses)
      returns (out: AmmOutput)
    requires Lawful(ctx, world, e)
    requires RunsAmm(ctx.execute, amm, p, at) && e.item.call.programId == amm
    requires ctx.execute(amm, e.item.caller.programId, e.item.call.preStates, e.item.call.instruction) == Some(e.output)
    ensures e.item.call.instruction.AmmCall? && e.output.preStates == e.item.call.preStates
    ensures |e.output.preStates| == |e.posts|
    ensures var s := e.item.call.preStates;
      && AmmEffects(p, at, s, InstructionOf(e)) == Ok(out)
      && e.output.chainedCalls == out.calls
      && WritesOnlyPool(p, s, InstructionOf(e), out)
      && Distinct(Ids(s))
      && (forall i :: 0 <= i < |s| ==> s[i].account == Lookup(world, s[i].id))
      && Lookup(Write(world, e), s[0].id).data == out.posts[0].account.data
      && (forall id {:trigger Lookup(Write(world, e), id)} :: id != s[0].id ==>
          Lookup(Write(world, e), id) == Lookup(world, id))
  {
    hide AmmEffects, PoolChanges, Permitted, WellBehaved, Granted, SumSeq, Record;
    var s := e.item.call.preStates;
    out := AmmEffects(p, at, s, InstructionOf(e)).value;
    InstructionWritesOnlyPool(p, at, s, InstructionOf(e), out);
    var ids, after := Ids(s), PostAccounts(e.posts);
    RecordAt(world, ids, after, 0);
    LawfulSettles(ctx, world, e, 0);
    forall id {:trigger Lookup(Write(world, e), id)} | id != s[0].id
      ensures Lookup(Write(world, e), id) == Lookup(world, id)
    {
      if id in ids {
        var i :| 0 <= i < |ids| && ids[i] == id;
        RecordAt(world, ids, after, i);
        LawfulSettles(ctx, world, e, i);
      } else {
        RecordElsewhere(world, ids, after, id);
      }
    }
  }

  /** The same at any position of a history. */
  lemma AmmCallAt(ctx: Context, trace: seq<Executed>, k: nat, amm: ProgramId, p: Profile, at: Addresses)
      returns (out: AmmOutput)
    requires History(ctx, trace) && k < |trace|
    requires RunsAmm(ctx.execute, amm, p, at) && trace[k].item.call.programId == amm
    ensures trace[k].item.call.instruction.AmmCall? && trace[k].output.preStates == trace[k].item.call.preStates
    ensures var s := trace[k].item.call.preStates;
      && AmmEffects(p, at, s, InstructionOf(trace[k])) == Ok(out)
      && trace[k].output.chainedCalls == out.calls
      && WritesOnlyPool(p, s, InstructionOf(trace[k]), out)
      && Distinct(Ids(s))
      && (forall i :: 0 <= i < |s| ==> s[i].account == Lookup(World(ctx, trace, k), s[i].id))
      && Lookup(World(ctx, trace, k + 1), s[0].id).data == out.posts[0].account.data
      && (forall id {:trigger Lookup(World(ctx, trace, k + 1), id)} :: id != s[0].id ==>
            Lookup(World(ctx, trace, k + 1), id) == Lookup(World(ctx, trace, k), id))
  {
    hide Execute, Replay, AmmEffects, Lawful, RunsAmm, PoolChanges, Distinct, Lookup, Write;
    CallOutput(ctx, trace, k);
    CallEffect(ctx, trace, k);
    WorldStep(ctx, trace, k);
    out := AmmExecuted(ctx, World(ctx, trace, k), trace[k], amm, p, at);
    forall id {:trigger Lookup(World(ctx, trace, k + 1), id)} | id != trace[k].item.call.preStates[0].id
      ensures Lookup(World(ctx, trace, k + 1), id) == Lookup(World(ctx, trace, k), id)
    {
      assert Lookup(Write(World(ctx, trace, k), trace[k]), id) == Lookup(World(ctx, trace, k), id);
    }
  }

  /** The holding whose owner the AMM takes to be the token program. */
  function PayingHolding(s: seq<AccountWithMetadata>, instruction: AmmInstruction): AccountWithMetadata
    requires |s| >= 5
  {
    if (instruction.SwapExactInput? || instruction.SwapExactOutput?)
       && s[0].account.data.PoolData? && instruction.tokenIn == s[0].account.data.pool.tokenA then s[3]
    else s[4]
  }

  /** The AMM call moves tokens by calls to `program`. */
  ghost predicate PaysThrough(e: Executed, program: ProgramId) {
    && e.item.call.instruction.AmmCall? && |e.item.call.preStates| >= 5
    && PayingHolding(e.item.call.preStates, InstructionOf(e)).account.owner == program
  }

  /** A transfer call, seen on every account. */
  lemma TransferLeaf(ctx: Context, trace: seq<Executed>, k: nat, token: ProgramId,
                     x: AccountWithMetadata, y: AccountWithMetadata, amount: u128, seeds: seq<PdaSeed>)
    requires History(ctx, trace) && k < |trace|
    requires RunsToken(ctx.execute, token)
    requires trace[k].item.call == TokenTransfer(token, x, y, amount, seeds)
    ensures x.id != y.id
    ensures x.account == Lookup(World(ctx, trace, k), x.id) && y.account == Lookup(World(ctx, trace, k), y.id)
    ensures Held(Lookup(World(ctx, trace, k + 1), x.id).data) == Held(x.account.data) - amount
    ensures Held(Lookup(World(ctx, trace, k + 1), y.id).data) == Held(y.account.data) + amount
    ensures y.account.data.HoldingData? && y.account.data.holding.Fungible? ==> Held(y.account.data) + amount < U128_LIMIT
    ensures forall id {:trigger Lookup(World(ctx, trace, k + 1), id)} :: id != x.id && id != y.id ==>
      Lookup(World(ctx, trace, k + 1), id) == Lookup(World(ctx, trace, k), id)
  {
    hide Replay, Settles, TransferEffect;
    TokenLeaf(ctx, trace, k, token, x, y, Transfer(amount));
    TransferMovesUnits(token, x, y, amount, Lookup(World(ctx, trace, k + 1), x.id), Lookup(World(ctx, trace, k + 1), y.id));
  }

  /** A mint, burn or definition call on the liquidity token, seen on every account. */
  lemma SupplyLeaf(ctx: Context, trace: seq<Executed>, k: nat, token: ProgramId, x: AccountWithMetadata,
                   y: AccountWithMetadata, instruction: TokenInstruction, seeds: seq<PdaSeed>)
    requires History(ctx, trace) && k < |trace|
    requires RunsToken(ctx.execute, token)
    requires instruction.Mint? || instruction.Burn? || instruction.NewFungibleDefinition?
    requires trace[k].item.call == ChainedCall(token, [x, y], TokenCall(instruction), seeds)
    ensures x.id != y.id && x.account == Lookup(World(ctx, trace, k), x.id)
        && y.account == Lookup(World(ctx, trace, k), y.id)
    ensures Declared(Lookup(World(ctx, trace, k + 1), x.id).data) == match instruction
      case Mint(amount) => Declared(x.account.data) + amount
      case Burn(amount) => Declared(x.account.data) - amount
      case NewFungibleDefinition(_, supply) => supply
    ensures Held(Lookup(World(ctx, trace, k + 1), y.id).data) == match instruction
      case Mint(amount) => Held(y.account.data) + amount
      case Burn(amount) => Held(y.account.data) - amount
      case NewFungibleDefinition(_, supply) => Held(y.account.data) + supply
    ensures instruction.NewFungibleDefinition? ==> Declared(x.account.data) == 0
    ensures instruction.Burn? ==> instruction.amount <= Held(y.account.data)
    ensures forall id {:trigger Lookup(World(ctx, trace, k + 1), id)} :: id != x.id && id != y.id ==>
      Lookup(World(ctx, trace, k + 1), id) == Lookup(World(ctx, trace, k), id)
  {
    hide Replay, Settles, Effects;
    TokenLeaf(ctx, trace, k, token, x, y, instruction);
    MintAndBurnMoveSupply(token, x, y, instruction,
                          Lookup(World(ctx, trace, k + 1), x.id), Lookup(World(ctx, trace, k + 1), y.id));
  }

  lemma BalancedHistory(ctx: Context, trace: seq<Executed>)
    requires History(ctx, trace)
    ensures Balanced(trace)
  {
  }

  // -------------------------------------------------------- what each one chains

  /** The two transfers of a swap and the reserves it writes, in the direction of the token paid in. */
  lemma SwapShape(p: Profile, at: Addresses, s: seq<AccountWithMetadata>, instruction: AmmInstruction, out: AmmOutput)
      returns (i: u128, o: u128, seeds: seq<PdaSeed>)
    requires instruction.SwapExactInput? || instruction.SwapExactOutput?
    requires AmmEffects(p, at, s, instruction) == Ok(out)
    ensures |s| == 5 && s[0].account.data.PoolData?
    ensures s[1].id == s[0].account.data.pool.vaultA && s[2].id == s[0].account.data.pool.vaultB
    ensures var pool := s[0].account.data.pool; var aToB := instruction.tokenIn == pool.tokenA;
      var x, y := if aToB then pool.reserveA else pool.reserveB, if aToB then pool.reserveB else pool.reserveA;
      var payer, vaultIn := if aToB then s[3] else s[4], if aToB then s[1] else s[2];
      var vaultOut, receiver := if aToB then s[2] else s[1], if aToB then s[4] else s[3];
      var exactInput := instruction.SwapExactInput?;
      var amount, limit := if exactInput then instruction.amountIn else instruction.amountOut,
          if exactInput then instruction.minOut else instruction.maxIn;
      && pool.active
      && SwapAmounts(p, x, y, exactInput, amount, limit) == Ok((i, o))
      && FungibleBalance(vaultIn.account.data).Ok? && x <= FungibleBalance(vaultIn.account.data).value
      && out.calls ==
           [TokenTransfer(payer.account.owner, payer, vaultIn, i, []),
            TokenTransfer(payer.account.owner, Authorize(vaultOut), receiver, o, seeds)]
      && |out.posts| == 5 && out.posts[0].account.data.PoolData?
      && PoolSwap(p, pool, aToB, exactInput, amount, limit) == Ok(out.posts[0].account.data.pool)
  {
    hide SwapAmounts, PoolAfterSwap, ValidateSwapSetup;
    SwapSetupMeans(s[0], s[1], s[2]);
    var pool := s[0].account.data.pool;
    var aToB := instruction.tokenIn == pool.tokenA;
    var x, y := if aToB then pool.reserveA else pool.reserveB, if aToB then pool.reserveB else pool.reserveA;
    var exactInput := instruction.SwapExactInput?;
    var amount, limit := if exactInput then instruction.amountIn else instruction.amountOut,
        if exactInput then instruction.minOut else instruction.maxIn;
    var amounts := SwapAmounts(p, x, y, exactInput, amount, limit).value;
    i, o := amounts.0, amounts.1;
    seeds := out.calls[1].pdaSeeds;
  }

  lemma SevenDistinct(s: seq<AccountWithMetadata>)
    requires Distinct(Ids(s)) && |s| == 7
    ensures forall i, j :: 0 <= i < j < 7 ==> s[i].id != s[j].id
  {
    forall i, j | 0 <= i < j < 7
      ensures s[i].id != s[j].id
    {
      assert Ids(s)[i] != Ids(s)[j];
    }
  }

  /** The three token calls of a liquidity instruction, given in the order they run. */
  datatype LiquidityCalls = LiquidityCalls(lp: TokenInstruction, into: bool, a: u128, b: u128)

  /** The instruction chains its liquidity-token call, then token B's transfer, then token A's. */
  ghost predicate ChainsLiquidity(s: seq<AccountWithMetadata>, program: ProgramId,
                                  calls: seq<ChainedCall>, c: LiquidityCalls) {
    && |s| == 7 && |calls| == 3
    && calls[0] == ChainedCall(program, [Authorize(s[3]), s[6]], TokenCall(c.lp), calls[0].pdaSeeds)
    && IsTransfer(calls[1], program, if c.into then s[5] else Authorize(s[2]), if c.into then s[2] else s[5], c.b)
    && IsTransfer(calls[2], program, if c.into then s[4] else Authorize(s[1]), if c.into then s[1] else s[4], c.a)
  }

  /** A transfer from `x` as it stands to the account `y`, whatever authorization flag the recipient got. */
  ghost predicate IsTransfer(call: ChainedCall, program: ProgramId, x: AccountWithMetadata,
                             y: AccountWithMetadata, amount: u128) {
    && |call.preStates| == 2
    && call == TokenTransfer(program, x, call.preStates[1], amount, call.pdaSeeds)
    && call.preStates[1].id == y.id && call.preStates[1].account == y.account
  }

  /** The accounts given as vaults and liquidity token are the ones the pool records. */
  predicate OwnVaults(s: seq<AccountWithMetadata>, pool: PoolDefinition)
    requires |s| == 7
  {
    s[1].id == pool.vaultA && s[2].id == pool.vaultB && s[3].id == pool.lpDefinition
  }

  lemma AddShape(p: Profile, at: Addresses, s: seq<AccountWithMetadata>,
                 min: u128, maxA: u128, maxB: u128, out: AmmOutput)
    requires AmmEffects(p, at, s, AddLiquidity(min, maxA, maxB)) == Ok(out)
    ensures |s| == 7 && s[0].account.data.PoolData? && OwnVaults(s, s[0].account.data.pool)
    ensures var pool := s[0].account.data.pool;
      && |out.posts| == 7 && out.posts[0].account.data.PoolData?
      && pool.reserveA > 0 && pool.reserveB > 0
      && AddAmounts(p, pool, min, maxA, maxB).Ok?
      && var d := AddAmounts(p, pool, min, maxA, maxB).value;
         && FungibleBalance(s[1].account.data).Ok? && pool.reserveA <= Held(s[1].account.data)
         && FungibleBalance(s[2].account.data).Ok? && pool.reserveB <= Held(s[2].account.data)
         && ChainsLiquidity(s, s[4].account.owner, out.calls, LiquidityCalls(Mint(d.liquidity), true, d.a, d.b))
         && PoolAfterAdd(p, pool, d) == Ok(out.posts[0].account.data.pool)
  {
    hide AddAmounts, PoolAfterAdd;
  }

  lemma RemoveShape(p: Profile, at: Addresses, s: seq<AccountWithMetadata>,
                    amount: u128, minA: u128, minB: u128, out: AmmOutput)
    requires AmmEffects(p, at, s, RemoveLiquidity(amount, minA, minB)) == Ok(out)
    ensures |s| == 7 && s[0].account.data.PoolData? && OwnVaults(s, s[0].account.data.pool)
    ensures var pool := s[0].account.data.pool;
      && |out.posts| == 7 && out.posts[0].account.data.PoolData?
      && pool.active
      && RemoveAmounts(p, pool, amount, minA, minB).Ok?
      && var w := RemoveAmounts(p, pool, amount, minA, minB).value;
         && ChainsLiquidity(s, s[4].account.owner, out.calls, LiquidityCalls(Burn(w.liquidity), false, w.a, w.b))
         && PoolAfterRemove(p, pool, w) == Ok(out.posts[0].account.data.pool)
         && Held(s[6].account.data) <= pool.lpSupply
  {
    hide RemoveAmounts, PoolAfterRemove;
  }

  lemma NewShape(p: Profile, at: Addresses, s: seq<AccountWithMetadata>,
                 a: u128, b: u128, amm: ProgramId, out: AmmOutput)
    requires AmmEffects(p, at, s, NewPool(a, b, amm)) == Ok(out)
    ensures |s| == 7
    ensures |out.posts| == 7 && out.posts[0].account.data.PoolData?
    ensures
      && InitialLiquidity(p, a, b).Ok?
      && var liquidity := InitialLiquidity(p, a, b).value;
         var lp := if s[0].account == DEFAULT_ACCOUNT then NewFungibleDefinition("LP Token", liquidity) else Mint(liquidity);
         && ChainsLiquidity(s, s[4].account.owner, out.calls, LiquidityCalls(lp, true, a, b))
         && (var after := out.posts[0].account.data.pool;
             OwnVaults(s, after) && after.reserveA == a && after.reserveB == b && after.lpSupply == liquidity)
    ensures (s[0].account == DEFAULT_ACCOUNT || (s[0].account.data.PoolData? && !s[0].account.data.pool.active))
  {
    hide InitialLiquidity;
  }

  // --------------------------------------------------- snapshots stay current

  /** A token call on two of the accounts the AMM was given, as it was given them: those at the positions
      of `slot`, neither of them the pool's. */
  ghost predicate Uses(s: seq<AccountWithMetadata>, call: ChainedCall, slot: (nat, nat)) {
    && 1 <= slot.0 < |s| && 1 <= slot.1 < |s| && slot.0 != slot.1
    && call.instruction.TokenCall? && |call.preStates| == 2
    && SameAccount(call.preStates[0], s[slot.0]) && SameAccount(call.preStates[1], s[slot.1])
  }

  ghost predicate FromSlots(s: seq<AccountWithMetadata>, calls: seq<ChainedCall>, slots: seq<(nat, nat)>) {
    |slots| == |calls| && forall j :: 0 <= j < |calls| ==> Uses(s, calls[j], slots[j])
  }

  predicate SameAccount(x: AccountWithMetadata, y: AccountWithMetadata) {
    x.id == y.id && x.account == y.account
  }

  predicate Apart(x: (nat, nat), y: (nat, nat)) {
    x.0 != y.0 && x.0 != y.1 && x.1 != y.0 && x.1 != y.1
  }

  /** No two calls share a position. */
  predicate Separate(slots: seq<(nat, nat)>) {
    forall j, m :: 0 <= j < m < |slots| ==> Apart(slots[j], slots[m])
  }

  /** The calls an instruction chains concern different accounts, none of them the pool. */
  lemma AmmCallsAreSeparate(p: Profile, at: Addresses, s: seq<AccountWithMetadata>,
                            instruction: AmmInstruction, out: AmmOutput)
      returns (slots: seq<(nat, nat)>)
    requires AmmEffects(p, at, s, instruction) == Ok(out)
    ensures FromSlots(s, out.calls, slots) && Separate(slots) && 2 <= |slots| <= 3
  {
    hide *;
    match instruction
    case NewPool(a, b, amm) =>
      NewShape(p, at, s, a, b, amm, out);
      slots := LiquiditySlots(s, out.calls);
    case AddLiquidity(min, maxA, maxB) =>
      AddShape(p, at, s, min, maxA, maxB, out);
      slots := LiquiditySlots(s, out.calls);
    case RemoveLiquidity(amount, minA, minB) =>
      RemoveShape(p, at, s, amount, minA, minB, out);
      slots := LiquiditySlots(s, out.calls);
    case SwapExactInput(_, _, tokenIn) =>
      var i, o, seeds := SwapShape(p, at, s, instruction, out);
      var aToB := tokenIn == s[0].account.data.pool.tokenA;
      slots := SwapSlots(s, out.calls, aToB, if aToB then s[3].account.owner else s[4].account.owner, i, o, seeds);
    case SwapExactOutput(_, _, tokenIn) =>
      var i, o, seeds := SwapShape(p, at, s, instruction, out);
      var aToB := tokenIn == s[0].account.data.pool.tokenA;
      slots := SwapSlots(s, out.calls, aToB, if aToB then s[3].account.owner else s[4].account.owner, i, o, seeds);
  }

  lemma LiquiditySlots(s: seq<AccountWithMetadata>, calls: seq<ChainedCall>) returns (slots: seq<(nat, nat)>)
    requires exists program, c :: ChainsLiquidity(s, program, calls, c)
    ensures FromSlots(s, calls, slots) && Separate(slots) && 2 <= |slots| <= 3
  {
    hide FromSlots, Separate, IsTransfer;
    var program, c :| ChainsLiquidity(s, program, calls, c);
    var b, a := if c.into then (5, 2) else (2, 5), if c.into then (4, 1) else (1, 4);
    TransferUses(s, calls[1], program, if c.into then s[5] else Authorize(s[2]), b, c.b);
    TransferUses(s, calls[2], program, if c.into then s[4] else Authorize(s[1]), a, c.a);
    slots := ThreeSlots(s, calls, (3, 6), b, a);
  }

  lemma TransferUses(s: seq<AccountWithMetadata>, call: ChainedCall, program: ProgramId,
                     from: AccountWithMetadata, slot: (nat, nat), amount: u128)
    requires 1 <= slot.0 < |s| && 1 <= slot.1 < |s| && slot.0 != slot.1
    requires SameAccount(from, s[slot.0]) && IsTransfer(call, program, from, s[slot.1], amount)
    ensures Uses(s, call, slot)
  {
  }

  lemma ThreeSlots(s: seq<AccountWithMetadata>, calls: seq<ChainedCall>, x: (nat, nat), y: (nat, nat), z: (nat, nat))
      returns (slots: seq<(nat, nat)>)
    requires |calls| == 3 && Uses(s, calls[0], x) && Uses(s, calls[1], y) && Uses(s, calls[2], z)
    requires Apart(x, y) && Apart(x, z) && Apart(y, z)
    ensures FromSlots(s, calls, slots) && Separate(slots) && 2 <= |slots| <= 3
  {
    hide Uses, Apart;
    slots := [x, y, z];
  }

  lemma SwapSlots(s: seq<AccountWithMetadata>, calls: seq<ChainedCall>, aToB: bool, program: ProgramId,
                  i: u128, o: u128, seeds: seq<PdaSeed>) returns (slots: seq<(nat, nat)>)
    requires |s| == 5
    requires var payer, vaultIn := if aToB then s[3] else s[4], if aToB then s[1] else s[2];
      var vaultOut, receiver := if aToB then s[2] else s[1], if aToB then s[4] else s[3];
      calls == [TokenTransfer(program, payer, vaultIn, i, []),
                TokenTransfer(program, Authorize(vaultOut), receiver, o, seeds)]
    ensures FromSlots(s, calls, slots) && Separate(slots) && 2 <= |slots| <= 3
  {
    hide FromSlots, Separate;
    slots := TwoSlots(s, calls, if aToB then (3, 1) else (4, 2), if aToB then (2, 4) else (1, 3));
  }

  lemma TwoSlots(s: seq<AccountWithMetadata>, calls: seq<ChainedCall>,
                 x: (nat, nat), y: (nat, nat)) returns (slots: seq<(nat, nat)>)
    requires |calls| == 2 && Uses(s, calls[0], x) && Uses(s, calls[1], y) && Apart(x, y)
    ensures FromSlots(s, calls, slots) && Separate(slots) && 2 <= |slots| <= 3
  {
    hide Uses, Apart;
    slots := [x, y];
  }

  /** The calls after position `k`, up to `n`, are the first calls the AMM chained there, all to the token program. */
  ghost predicate RanFirst(trace: seq<Executed>, k: nat, n: nat, token: ProgramId)
    requires k < n <= |trace|
  {
    && n - k - 1 <= |trace[k].output.chainedCalls|
    && forall m {:trigger trace[m]} :: k < m < n ==>
         trace[m].item.call == trace[k].output.chainedCalls[m - k - 1] && trace[m].item.call.programId == token
  }

  /** When each call chained by an executed AMM call comes up, the accounts the AMM handed it are still as the
      AMM saw them, so the loop's consistency check never turns it away for a stale snapshot. */
  lemma SnapshotsStayCurrent(ctx: Context, trace: seq<Executed>, k: nat, n: nat, amm: ProgramId,
                             token: ProgramId, p: Profile, at: Addresses, j: nat)
    requires History(ctx, trace) && k < n <= |trace| && trace[k].item.call.programId == amm
    requires RunsAmm(ctx.execute, amm, p, at) && RunsToken(ctx.execute, token)
    requires RanFirst(trace, k, n, token)
    requires n - k - 1 <= j < |trace[k].output.chainedCalls|
    ensures forall x :: x in trace[k].output.chainedCalls[j].preStates ==> x.account == Lookup(World(ctx, trace, n), x.id)
  {
    hide Replay, History, RunsAmm, RunsToken, AmmEffects, PoolChanges, FromSlots, Separate, World, Lookup, RanFirst;
    BalancedHistory(ctx, trace);
    var out := AmmCallAt(ctx, trace, k, amm, p, at);
    var s := trace[k].item.call.preStates;
    var slots := AmmCallsAreSeparate(p, at, s, InstructionOf(trace[k]), out);
    forall i | 1 <= i < |s|
      ensures s[i].account == Lookup(World(ctx, trace, k + 1), s[i].id)
    {
      assert Ids(s)[0] != Ids(s)[i];
    }
    SlotUse(s, out.calls, slots, j);
    SlotsStayCurrent(ctx, trace, k, n, token, s, slots, j);
    var pres := out.calls[j].preStates;
    assert pres == [pres[0], pres[1]];
  }

  lemma {:induction false} SlotsStayCurrent(ctx: Context, trace: seq<Executed>, k: nat, n: nat, token: ProgramId,
                                            s: seq<AccountWithMetadata>, slots: seq<(nat, nat)>, j: nat)
    requires History(ctx, trace) && k < n <= |trace|
    requires RunsToken(ctx.execute, token) && RanFirst(trace, k, n, token)
    requires Distinct(Ids(s)) && FromSlots(s, trace[k].output.chainedCalls, slots) && Separate(slots)
    requires forall i :: 1 <= i < |s| ==> s[i].account == Lookup(World(ctx, trace, k + 1), s[i].id)
    requires n - k - 1 <= j < |trace[k].output.chainedCalls|
    ensures 1 <= slots[j].0 < |s| && s[slots[j].0].account == Lookup(World(ctx, trace, n), s[slots[j].0].id)
    ensures 1 <= slots[j].1 < |s| && s[slots[j].1].account == Lookup(World(ctx, trace, n), s[slots[j].1].id)
    decreases n
  {
    hide Replay, History, RunsToken, FromSlots, Separate, World, Lookup, Effects, Settles, Distinct;
    var calls := trace[k].output.chainedCalls;
    SlotUse(s, calls, slots, j);
    if n > k + 1 {
      SlotsStayCurrent(ctx, trace, k, n - 1, token, s, slots, j);
      var m := n - k - 2;
      var call := calls[m];
      assert trace[n - 1].item.call == call;
      SlotUse(s, calls, slots, m);
      assert call.preStates == [call.preStates[0], call.preStates[1]];
      TokenLeaf(ctx, trace, n - 1, token, call.preStates[0], call.preStates[1], call.instruction.token);
      SlotIdsDiffer(s, slots, m, j);
    }
  }

  lemma SlotUse(s: seq<AccountWithMetadata>, calls: seq<ChainedCall>, slots: seq<(nat, nat)>, j: nat)
    requires FromSlots(s, calls, slots) && j < |calls|
    ensures |slots| == |calls| && Uses(s, calls[j], slots[j])
  {
  }

  lemma SlotIdsDiffer(s: seq<AccountWithMetadata>, slots: seq<(nat, nat)>, m: nat, j: nat)
    requires Separate(slots) && m < j < |slots| && Distinct(Ids(s))
    requires slots[m].0 < |s| && slots[m].1 < |s| && slots[j].0 < |s| && slots[j].1 < |s|
    ensures s[slots[m].0].id != s[slots[j].0].id && s[slots[m].0].id != s[slots[j].1].id
    ensures s[slots[m].1].id != s[slots[j].0].id && s[slots[m].1].id != s[slots[j].1].id
  {
    var ids := Ids(s);
    assert ids[slots[m].0] != ids[slots[j].0] && ids[slots[m].0] != ids[slots[j].1];
    assert ids[slots[m].1] != ids[slots[j].0] && ids[slots[m].1] != ids[slots[j].1];
  }

  // ----------------------------------------------------- every executed AMM call

  lemma CallsToOneProgram(s: seq<AccountWithMetadata>, program: ProgramId, calls: seq<ChainedCall>, c: LiquidityCalls)
    requires ChainsLiquidity(s, program, calls, c)
    ensures forall i :: 0 <= i < |calls| ==> calls[i].programId == program
  {
  }

  /** Everything an instruction chains goes to the owner of the paying holding. */
  lemma AmmCallsOneProgram(p: Profile, at: Addresses, s: seq<AccountWithMetadata>,
                           instruction: AmmInstruction, out: AmmOutput)
    requires AmmEffects(p, at, s, instruction) == Ok(out)
    ensures |s| >= 5
    ensures forall i :: 0 <= i < |out.calls| ==> out.calls[i].programId == PayingHolding(s, instruction).account.owner
  {
    hide AmmEffects, ChainsLiquidity, SwapAmounts, PoolSwap, AddAmounts,
         RemoveAmounts, InitialLiquidity, PoolAfterAdd, PoolAfterRemove;
    match instruction
    case NewPool(a, b, amm) =>
      NewShape(p, at, s, a, b, amm, out);
      OneProgram(s, s[4].account.owner, out.calls);
    case AddLiquidity(min, maxA, maxB) =>
      AddShape(p, at, s, min, maxA, maxB, out);
      OneProgram(s, s[4].account.owner, out.calls);
    case RemoveLiquidity(amount, minA, minB) =>
      RemoveShape(p, at, s, amount, minA, minB, out);
      OneProgram(s, s[4].account.owner, out.calls);
    case SwapExactInput(_, _, _) =>
      var i, o, seeds := SwapShape(p, at, s, instruction, out);
    case SwapExactOutput(_, _, _) =>
      var i, o, seeds := SwapShape(p, at, s, instruction, out);
  }

  lemma OneProgram(s: seq<AccountWithMetadata>, program: ProgramId, calls: seq<ChainedCall>)
    requires exists c :: ChainsLiquidity(s, program, calls, c)
    ensures forall i :: 0 <= i < |calls| ==> calls[i].programId == program
  {
    var c :| ChainsLiquidity(s, program, calls, c);
    CallsToOneProgram(s, program, calls, c);
  }

  /** In every accepted transaction the calls chained by an executed AMM call, at whatever depth, follow it
      directly and in order, if the paying program chains nothing itself. */
  lemma AmmChildrenFollow(ctx: Context, k: nat, amm: ProgramId, paying: ProgramId, p: Profile, at: Addresses)
    requires RunCalls(ctx).Ok? && k < |RunCalls(ctx).value.trace|
    requires RunsAmm(ctx.execute, amm, p, at) && NeverChains(ctx, paying)
    requires RunCalls(ctx).value.trace[k].item.call.programId == amm
    requires PaysThrough(RunCalls(ctx).value.trace[k], paying)
    ensures History(ctx, RunCalls(ctx).value.trace) && ChildrenFollow(RunCalls(ctx).value.trace, k)
  {
    hide EvalCall, History, RunsAmm, NeverChains, AmmEffects,
         WritesOnlyPool, World, Lookup, Children, ModifiedDefaultsClaimed;
    var trace := RunCalls(ctx).value.trace;
    AcceptedRunHasHistory(ctx);
    BalancedHistory(ctx, trace);
    var out := AmmCallAt(ctx, trace, k, amm, p, at);
    AmmCallsOneProgram(p, at, trace[k].item.call.preStates, InstructionOf(trace[k]), out);
    FollowInSubtree(ctx, RootItem(ctx), Progress(map[], []), k, paying);
  }
}
