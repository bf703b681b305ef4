/** What the pool arithmetic guarantees: optimal swaps, no dilution, and the pool invariant, with the
    exact conditions under which a wrapping build keeps it. */
module AmmMath {
  import opened Core
  import opened Arithmetic
  import opened Amm

  // ------------------------------------------------------------------- swaps

  /** Paying `i` and taking `o` does not decrease the product of the reserves. */
  predicate KeepsProduct(reserveIn: nat, reserveOut: nat, i: nat, o: nat) {
    o <= reserveOut && reserveIn * reserveOut <= (reserveIn + i) * (reserveOut - o)
  }

  lemma KeepsProductIff(x: nat, y: nat, i: nat, o: nat)
    requires o <= y
    ensures KeepsProduct(x, y, i, o) <==> o * (x + i) <= y * i
    ensures KeepsProduct(x, y, i, o) <==> x * o <= i * (y - o)
  {
    assert (x + i) * (y - o) == x * y + i * y - o * (x + i);
    assert i * (y - o) == i * y - i * o;
    assert o * (x + i) == x * o + i * o;
  }

  /** The largest output and the smallest input, by division. */
  function BestOut(x: nat, y: nat, i: nat): nat
    requires x + i > 0
  {
    y * i / (x + i)
  }

  function LeastIn(x: nat, y: nat, o: nat): nat
    requires o < y
  {
    CeilDiv(x * o, y - o)
  }

  lemma BestOutIsBest(x: nat, y: nat, i: nat, o: nat)
    requires x + i > 0 && o <= y
    ensures o <= BestOut(x, y, i) <==> KeepsProduct(x, y, i, o)
    ensures BestOut(x, y, i) <= y
  {
    hide KeepsProduct;
    KeepsProductIff(x, y, i, o);
    DivIsLargest(y * i, x + i, o);
    DivIsLargest(y * i, x + i, BestOut(x, y, i));
    QuotientWithin(BestOut(x, y, i), x + i, y, i);
  }

  lemma QuotientWithin(q: nat, n: nat, y: nat, i: nat)
    requires n > 0 && i <= n
    requires q * n <= y * i
    ensures q <= y
  {
    MulLe(i, n, y);
    CancelLe(q, y, n);
  }

  lemma LeastInIsLeast(x: nat, y: nat, i: nat, o: nat)
    requires o < y
    ensures LeastIn(x, y, o) <= i <==> KeepsProduct(x, y, i, o)
  {
    KeepsProductIff(x, y, i, o);
    CeilIsSmallest(x * o, y - o, i);
  }

  /** The two swaps are dual: one pays at least `o` for `i` exactly when the other charges at most `i` for `o`. */
  lemma SwapDuality(x: nat, y: nat, i: nat, o: nat)
    requires x + i > 0 && o < y
    ensures LeastIn(x, y, o) <= i <==> o <= BestOut(x, y, i)
  {
    LeastInIsLeast(x, y, i, o);
    BestOutIsBest(x, y, i, o);
  }

  /** Exact-input pays the largest output that keeps the product. */
  lemma SwapInputOptimal(p: Profile, x: u128, y: u128, i: u128, minOut: u128)
    requires SwapInputAmount(p, x, y, i, minOut).Ok?
    requires x + i < U128_LIMIT
    ensures var out := SwapInputAmount(p, x, y, i, minOut).value;
      && x + i > 0
      && out == BestOut(x, y, i)
      && 0 < out && minOut <= out
      && forall o: nat :: KeepsProduct(x, y, i, o) <==> o <= out
  {
    var out := SwapInputAmount(p, x, y, i, minOut).value;
    assert out == BestOut(x, y, i);
    BestOutIsBest(x, y, i, 0);
    forall o: nat
      ensures KeepsProduct(x, y, i, o) <==> o <= out
    {
      if o <= y {
        BestOutIsBest(x, y, i, o);
      }
    }
  }

  /** Exact-output charges the smallest input that keeps the product. */
  lemma SwapOutputOptimal(x: u128, y: u128, o: u128, maxIn: u128)
    requires SwapOutputAmount(x, y, o, maxIn).Ok?
    ensures var deposit := SwapOutputAmount(x, y, o, maxIn).value;
      && 0 < o < y
      && deposit == LeastIn(x, y, o) <= maxIn
      && forall i: nat :: KeepsProduct(x, y, i, o) <==> deposit <= i
  {
    var deposit := SwapOutputAmount(x, y, o, maxIn).value;
    forall i: nat
      ensures KeepsProduct(x, y, i, o) <==> deposit <= i
    {
      LeastInIsLeast(x, y, i, o);
    }
  }

  /** A swap that keeps the product never empties a reserve. */
  lemma NotDrained(x: nat, y: nat, i: nat, o: nat)
    requires x > 0 && y > 0
    requires KeepsProduct(x, y, i, o)
    ensures o < y
  {
    MulLt(0, x, y);
    assert (x + i) * 0 == 0;
  }

  /** Feeding an exact-input result to exact-output charges at most what was paid, and that charge buys
      exactly the same output again: going back and forth gains nothing. */
  lemma SwapsAgree(p: Profile, x: u128, y: u128, i: u128, minOut: u128)
    requires x > 0
    requires SwapInputAmount(p, x, y, i, minOut).Ok?
    requires x + i < U128_LIMIT
    ensures var out := SwapInputAmount(p, x, y, i, minOut).value;
      && out < y
      && LeastIn(x, y, out) <= i
      && BestOut(x, y, LeastIn(x, y, out)) == out
  {
    hide SwapInputAmount, LeastIn;
    SwapInputOptimal(p, x, y, i, minOut);
    var out := SwapInputAmount(p, x, y, i, minOut).value;
    BestOutIsBest(x, y, i, 0);
    NotDrained(x, y, i, out);
    var least := LeastIn(x, y, out);
    SwapDuality(x, y, i, out);
    SwapDuality(x, y, least, out);
    BestOutMonotone(x, y, least, i);
  }

  /** The same, run through the two swap computations: the charge is at most what was paid, and paying
      it by exact-input is accepted and yields that output. */
  lemma SwapPrograms(p: Profile, x: u128, y: u128, i: u128, minOut: u128, maxIn: u128)
    requires x > 0 && x + i < U128_LIMIT
    requires SwapInputAmount(p, x, y, i, minOut).Ok?
    ensures var out := SwapInputAmount(p, x, y, i, minOut).value;
      SwapOutputAmount(x, y, out, maxIn).Ok? ==>
        && SwapOutputAmount(x, y, out, maxIn).value <= i
        && SwapInputAmount(p, x, y, SwapOutputAmount(x, y, out, maxIn).value, minOut) == Ok(out)
  {
    SwapInputOptimal(p, x, y, i, minOut);
    SwapsAgree(p, x, y, i, minOut);
    var out := SwapInputAmount(p, x, y, i, minOut).value;
    if SwapOutputAmount(x, y, out, maxIn).Ok? {
      SwapOutputOptimal(x, y, out, maxIn);
      var deposit := SwapOutputAmount(x, y, out, maxIn).value;
      MulLe(deposit, i, y);
    }
  }

  lemma BestOutMonotone(x: nat, y: nat, i: nat, j: nat)
    requires x > 0 && i <= j
    ensures BestOut(x, y, i) <= BestOut(x, y, j)
  {
    var o := BestOut(x, y, i);
    BestOutIsBest(x, y, i, 0);
    BestOutIsBest(x, y, i, o);
    MulLe(x + i, x + j, y - o);
    BestOutIsBest(x, y, j, o);
  }

  /** Swapping there and back returns no more than was put in. */
  lemma ThereAndBackNeverGains(p: Profile, q: Profile, x: u128, y: u128, i: u128, minOut: u128, minBack: u128)
    requires x > 0 && x + i < U128_LIMIT
    requires SwapInputAmount(p, x, y, i, minOut).Ok?
    ensures var out := SwapInputAmount(p, x, y, i, minOut).value;
      && out < y
      && (SwapInputAmount(q, y - out, x + i, out, minBack).Ok? ==>
            SwapInputAmount(q, y - out, x + i, out, minBack).value <= i)
  {
    hide SwapInputAmount;
    SwapsAgree(p, x, y, i, minOut);
    SwapInputOptimal(p, x, y, i, minOut);
    var out := SwapInputAmount(p, x, y, i, minOut).value;
    var returned := SwapInputAmount(q, y - out, x + i, out, minBack);
    if returned.Ok? {
      SwapInputOptimal(q, y - out, x + i, out, minBack);
      BackWithin(x, y, i, out, returned.value);
    }
  }

  lemma BackWithin(x: nat, y: nat, i: nat, o: nat, back: nat)
    requires y > 0 && o <= y
    requires KeepsProduct(x, y, i, o) && KeepsProduct(y - o, x + i, o, back)
    ensures back <= i
  {
    assert (y - o) * (x + i) == (x + i) * (y - o);
    assert (y - o + o) * (x + i - back) == (x + i - back) * y;
    CancelLe(x, x + i - back, y);
  }

  // ----------------------------------------------------------- split trades

  function Total(amounts: seq<u128>): nat {
    if amounts == [] then 0 else Total(amounts[..|amounts| - 1]) + amounts[|amounts| - 1]
  }

  /** A sequence of exact-input swaps in one direction: reserves and total output after each succeeds. */
  function SwapAll(p: Profile, x: u128, y: u128, amounts: seq<u128>): Result<(u128, u128, nat), AmmError> {
    if amounts == [] then Ok((x, y, 0))
    else
      var before :- SwapAll(p, x, y, amounts[..|amounts| - 1]);
      var i := amounts[|amounts| - 1];
      var out :- SwapInputAmount(p, before.0, before.1, i, 0);
      var raised :- Moved(p, before.0, i, 0);
      var lowered :- Moved(p, before.1, 0, out);
      Ok((raised, lowered, before.2 + out))
  }

  lemma {:induction false} SwapAllKeepsProduct(p: Profile, x: u128, y: u128, amounts: seq<u128>)
    requires x > 0 && y > 0
    requires x + Total(amounts) < U128_LIMIT
    requires SwapAll(p, x, y, amounts).Ok?
    ensures var r := SwapAll(p, x, y, amounts).value;
      && r.0 == x + Total(amounts) && r.2 < y && r.1 == y - r.2
      && x * y <= r.0 * r.1
  {
    if amounts != [] {
      var init, i := amounts[..|amounts| - 1], amounts[|amounts| - 1];
      SwapAllKeepsProduct(p, x, y, init);
      var b := SwapAll(p, x, y, init).value;
      SwapInputOptimal(p, b.0, b.1, i, 0);
      var out := SwapInputAmount(p, b.0, b.1, i, 0).value;
      SwapsAgree(p, b.0, b.1, i, 0);
      assert KeepsProduct(b.0, b.1, i, out);
    }
  }

  /** Splitting a trade into any sequence of swaps never pays more in total than one swap. */
  lemma SplittingNeverPays(p: Profile, x: u128, y: u128, amounts: seq<u128>)
    requires x > 0 && y > 0
    requires x + Total(amounts) < U128_LIMIT
    requires SwapAll(p, x, y, amounts).Ok?
    ensures SwapAll(p, x, y, amounts).value.2 <= BestOut(x, y, Total(amounts))
    ensures SwapInputAmount(p, x, y, Total(amounts), 0).Ok? ==>
      SwapAll(p, x, y, amounts).value.2 <= SwapInputAmount(p, x, y, Total(amounts), 0).value
  {
    hide SwapInputAmount, SwapAll;
    SwapAllKeepsProduct(p, x, y, amounts);
    BestOutIsBest(x, y, Total(amounts), SwapAll(p, x, y, amounts).value.2);
    if SwapInputAmount(p, x, y, Total(amounts), 0).Ok? {
      SwapInputOptimal(p, x, y, Total(amounts), 0);
    }
  }

  // --------------------------------------------------------- pool invariant

  /** An active pool has reserves and supply, and its supply squared is within the product of the
      reserves; an inactive one is empty. */
  predicate PoolOk(pool: PoolDefinition) {
    if pool.active then
      && pool.reserveA > 0 && pool.reserveB > 0 && pool.lpSupply > 0
      && pool.lpSupply * pool.lpSupply <= pool.reserveA * pool.reserveB
    else pool.reserveA == 0 && pool.reserveB == 0 && pool.lpSupply == 0
  }

  /** No share is worth less than before, in either token. */
  predicate NotDiluted(before: PoolDefinition, after: PoolDefinition) {
    && before.reserveA * after.lpSupply <= after.reserveA * before.lpSupply
    && before.reserveB * after.lpSupply <= after.reserveB * before.lpSupply
  }

  lemma ShareBound(s: nat, t: nat, a: nat, b: nat, a': nat, b': nat)
    requires a * t <= a' * s && b * t <= b' * s
    ensures (a * b) * (t * t) <= (a' * b') * (s * s)
  {
    MulBoth(a * t, a' * s, b * t, b' * s);
    assert (a * t) * (b * t) == (a * b) * (t * t);
    assert (a' * s) * (b' * s) == (a' * b') * (s * s);
  }

  lemma SupplyWithinProduct(s: nat, t: nat, a: nat, b: nat, a': nat, b': nat)
    requires a * t <= a' * s && b * t <= b' * s
    requires a > 0 && b > 0 && s * s <= a * b
    ensures t * t <= a' * b'
  {
    ShareBound(s, t, a, b, a', b');
    MulLe(s * s, a * b, a' * b');
    assert a * b > 0 by { MulLt(0, a, b); }
    assert (t * t) * (a * b) <= (a' * b') * (a * b);
    CancelLe(t * t, a' * b', a * b);
  }

  lemma UMulAtMost(p: Profile, a: u128, b: u128)
    requires UMul(p, a, b).Ok?
    ensures UMul(p, a, b).value <= a * b
    ensures a * b < U128_LIMIT ==> UMul(p, a, b).value == a * b
    ensures a * b >= U128_LIMIT ==> p.Wrapping? && UMul(p, a, b).value < a * b
  {
  }

  /** A created pool satisfies the invariant exactly when the product of the deposits, reduced to 128
      bits, is not zero. */
  lemma NewPoolOk(p: Profile, pool: PoolDefinition)
    requires pool.active && pool.reserveA > 0 && pool.reserveB > 0
    requires InitialLiquidity(p, pool.reserveA, pool.reserveB) == Ok(pool.lpSupply)
    ensures PoolOk(pool) <==> (pool.reserveA * pool.reserveB) % U128_LIMIT != 0
    ensures p.Checked? ==> PoolOk(pool)
  {
    hide Isqrt, UMul;
    var a, b := pool.reserveA, pool.reserveB;
    MulLt(0, a, b);
    UMulAtMost(p, a, b);
    var m := UMul(p, a, b).value;
    assert Isqrt(m) == pool.lpSupply;
    RootPositive(m, pool.lpSupply);
    assert m == (a * b) % U128_LIMIT by { UMulIsResidue(p, a, b); }
  }

  lemma UMulIsResidue(p: Profile, a: u128, b: u128)
    requires UMul(p, a, b).Ok?
    ensures UMul(p, a, b).value == (a * b) % U128_LIMIT
  {
  }

  lemma RootPositive(m: nat, r: nat)
    requires r * r <= m < (r + 1) * (r + 1)
    ensures r > 0 <==> m > 0
  {
    if r > 0 {
      MulLe(1, r, r);
    }
  }

  /** A wrapping build can create an active pool with no liquidity tokens. */
  lemma WrappingCreatesEmptyPool()
    ensures InitialLiquidity(Wrapping, 0x1_0000_0000_0000_0000, 0x1_0000_0000_0000_0000) == Ok(0)
    ensures InitialLiquidity(Checked, 0x1_0000_0000_0000_0000, 0x1_0000_0000_0000_0000).Err?
  {
    assert 0x1_0000_0000_0000_0000 * 0x1_0000_0000_0000_0000 == U128_LIMIT;
    assert Isqrt(0) == 0;
  }

  /** A swap moves between the two sides without losing product. */
  lemma SwapSides(p: Profile, x: u128, y: u128, exactInput: bool, amount: u128, limit: u128)
    requires x > 0 && y > 0
    requires SwapAmounts(p, x, y, exactInput, amount, limit).Ok?
    requires x + SwapAmounts(p, x, y, exactInput, amount, limit).value.0 < U128_LIMIT
    ensures var (i, o) := SwapAmounts(p, x, y, exactInput, amount, limit).value;
      && 0 < o < y && KeepsProduct(x, y, i, o)
      && Moved(p, x, i, 0) == Ok(x + i) && Moved(p, y, 0, o) == Ok(y - o)
  {
    if exactInput {
      SwapInputOptimal(p, x, y, amount, limit);
      SwapsAgree(p, x, y, amount, limit);
    } else {
      SwapOutputOptimal(x, y, amount, limit);
    }
  }

  lemma SwapKeepsPool(p: Profile, pool: PoolDefinition, aToB: bool, exactInput: bool, amount: u128, limit: u128)
    requires PoolOk(pool) && pool.active
    requires PoolSwap(p, pool, aToB, exactInput, amount, limit).Ok?
    requires SwapFits(p, pool, aToB, exactInput, amount, limit)
    ensures var after := PoolSwap(p, pool, aToB, exactInput, amount, limit).value;
      && PoolOk(after) && after.active && after.lpSupply == pool.lpSupply
      && pool.reserveA * pool.reserveB <= after.reserveA * after.reserveB
  {
    hide SwapAmounts, Moved;
    var x, y := if aToB then pool.reserveA else pool.reserveB, if aToB then pool.reserveB else pool.reserveA;
    SwapSides(p, x, y, exactInput, amount, limit);
    var (i, o) := SwapAmounts(p, x, y, exactInput, amount, limit).value;
    assert (x + i) * (y - o) == (y - o) * (x + i) && x * y == y * x;
  }

  /** What a swap does to the pool's numbers. */
  function PoolSwap(p: Profile, pool: PoolDefinition, aToB: bool, exactInput: bool, amount: u128, limit: u128)
      : Result<PoolDefinition, AmmError>
  {
    if aToB then
      var amounts :- SwapAmounts(p, pool.reserveA, pool.reserveB, exactInput, amount, limit);
      PoolAfterSwap(p, pool, amounts.0, 0, 0, amounts.1)
    else
      var amounts :- SwapAmounts(p, pool.reserveB, pool.reserveA, exactInput, amount, limit);
      PoolAfterSwap(p, pool, 0, amounts.1, amounts.0, 0)
  }

  /** The deposit fits on top of the reserve it is added to. */
  predicate SwapFits(p: Profile, pool: PoolDefinition, aToB: bool, exactInput: bool, amount: u128, limit: u128) {
    var x, y := if aToB then pool.reserveA else pool.reserveB, if aToB then pool.reserveB else pool.reserveA;
    SwapAmounts(p, x, y, exactInput, amount, limit).Ok? ==>
      x + SwapAmounts(p, x, y, exactInput, amount, limit).value.0 < U128_LIMIT
  }

  /** However the products wrap, a deposit never mints more than its share of either token. */
  lemma MintWithinShare(p: Profile, pool: PoolDefinition, minLiquidity: u128, maxA: u128, maxB: u128)
    requires pool.reserveA > 0 && pool.reserveB > 0
    requires AddAmounts(p, pool, minLiquidity, maxA, maxB).Ok?
    ensures var d := AddAmounts(p, pool, minLiquidity, maxA, maxB).value;
      && 0 < d.a <= maxA && 0 < d.b <= maxB && 0 < d.liquidity && minLiquidity <= d.liquidity
      && d.liquidity * pool.reserveA <= pool.lpSupply * d.a
      && d.liquidity * pool.reserveB <= pool.lpSupply * d.b
  {
    var d := AddAmounts(p, pool, minLiquidity, maxA, maxB).value;
    UMulAtMost(p, pool.lpSupply, d.a);
    UMulAtMost(p, pool.lpSupply, d.b);
    var shareA, shareB := UMul(p, pool.lpSupply, d.a).value, UMul(p, pool.lpSupply, d.b).value;
    DivIsLargest(shareA, pool.reserveA, d.liquidity);
    DivIsLargest(shareB, pool.reserveB, d.liquidity);
  }

  /** Adding liquidity keeps the invariant and dilutes nobody, in both builds, whenever the deposits fit
      on top of the reserves; the new supply then fits by itself. */
  lemma AddKeepsPool(p: Profile, pool: PoolDefinition, minLiquidity: u128, maxA: u128, maxB: u128)
    requires PoolOk(pool)
    requires pool.reserveA > 0 && pool.reserveB > 0
    requires AddAmounts(p, pool, minLiquidity, maxA, maxB).Ok?
    requires var d := AddAmounts(p, pool, minLiquidity, maxA, maxB).value;
      pool.reserveA + d.a < U128_LIMIT && pool.reserveB + d.b < U128_LIMIT
    ensures var d := AddAmounts(p, pool, minLiquidity, maxA, maxB).value;
      && pool.active
      && pool.lpSupply + d.liquidity < U128_LIMIT
      && var after := pool.(lpSupply := pool.lpSupply + d.liquidity, reserveA := pool.reserveA + d.a,
          reserveB := pool.reserveB + d.b);
         && PoolAfterAdd(p, pool, d) == Ok(after)
         && PoolOk(after) && NotDiluted(pool, after)
  {
    hide AddAmounts;
    MintWithinShare(p, pool, minLiquidity, maxA, maxB);
    var d := AddAmounts(p, pool, minLiquidity, maxA, maxB).value;
    GrownShare(pool.lpSupply, d.liquidity, pool.reserveA, d.a);
    GrownShare(pool.lpSupply, d.liquidity, pool.reserveB, d.b);
    SupplyWithinProduct(pool.lpSupply, pool.lpSupply + d.liquidity, pool.reserveA, pool.reserveB,
                        pool.reserveA + d.a, pool.reserveB + d.b);
    RootBelow(pool.lpSupply + d.liquidity, pool.reserveA + d.a, pool.reserveB + d.b, U128_LIMIT);
  }

  lemma GrownShare(s: nat, minted: nat, reserve: nat, deposit: nat)
    requires minted * reserve <= s * deposit
    ensures reserve * (s + minted) <= (reserve + deposit) * s
  {
    assert reserve * (s + minted) == reserve * s + minted * reserve;
    assert (reserve + deposit) * s == reserve * s + s * deposit;
  }

  lemma RootBelow(t: nat, a: nat, b: nat, limit: nat)
    requires t * t <= a * b && a < limit && b < limit
    ensures t < limit
  {
    MulBoth(a, limit - 1, b, limit - 1);
    SquareLe(t, limit - 1);
  }

  /** A withdrawal never exceeds its share, however the products wrap. */
  lemma WithdrawalWithinShare(p: Profile, pool: PoolDefinition, amount: u128, minA: u128, minB: u128)
    requires RemoveAmounts(p, pool, amount, minA, minB).Ok?
    ensures var w := RemoveAmounts(p, pool, amount, minA, minB).value;
      && pool.lpSupply > 0
      && w.a * pool.lpSupply <= pool.reserveA * amount
      && w.b * pool.lpSupply <= pool.reserveB * amount
      && w.liquidity <= amount
      && (w.liquidity == amount <==> pool.lpSupply * amount < U128_LIMIT)
  {
    var w := RemoveAmounts(p, pool, amount, minA, minB).value;
    hide UMul;
    UMulAtMost(p, pool.reserveA, amount);
    UMulAtMost(p, pool.reserveB, amount);
    DivIsLargest(UMul(p, pool.reserveA, amount).value, pool.lpSupply, w.a);
    DivIsLargest(UMul(p, pool.reserveB, amount).value, pool.lpSupply, w.b);
    BurntLiquidity(p, pool.lpSupply, amount, w.liquidity);
  }

  /** A payout is within its reserve exactly when the product, reduced to 128 bits, is. */
  lemma PayoutWithinReserve(p: Profile, pool: PoolDefinition, amount: u128, minA: u128, minB: u128)
    requires RemoveAmounts(p, pool, amount, minA, minB).Ok?
    ensures var w := RemoveAmounts(p, pool, amount, minA, minB).value;
      && (w.a <= pool.reserveA <==> PaysWithin(pool.reserveA, pool.lpSupply, amount))
      && (w.b <= pool.reserveB <==> PaysWithin(pool.reserveB, pool.lpSupply, amount))
  {
    hide UMul;
    UMulIsResidue(p, pool.reserveA, amount);
    UMulIsResidue(p, pool.reserveB, amount);
    DivIsLargest((pool.reserveA * amount) % U128_LIMIT, pool.lpSupply, pool.reserveA + 1);
    DivIsLargest((pool.reserveB * amount) % U128_LIMIT, pool.lpSupply, pool.reserveB + 1);
  }

  /** Withdrawing `amount` of `supply` liquidity tokens pays at most `reserve`. */
  predicate PaysWithin(reserve: u128, supply: u128, amount: u128) {
    (reserve * amount) % U128_LIMIT < (reserve + 1) * supply
  }

  /** A wrapping build can pay out twice a reserve for no liquidity tokens at all. */
  lemma WrappingRemovalOverpays(pool: PoolDefinition)
    requires pool.active && pool.lpSupply == 0x1_0000_0000_0000_0000
    requires pool.reserveA == 0x4000_0000_0000_0000 && pool.reserveB == 0x4_0000_0000_0000_0001
    ensures PoolOk(pool)
    ensures RemoveAmounts(Wrapping, pool, 0x2_0000_0000_0000_0000, 1, 1) == Ok(Withdrawal(2 * pool.reserveA, 2, 0))
    ensures var r := PoolAfterRemove(Wrapping, pool, Withdrawal(2 * pool.reserveA, 2, 0));
      r.Ok? && r.value.reserveA == U128_LIMIT - pool.reserveA && r.value.reserveB == pool.reserveB - 2
        && r.value.lpSupply == pool.lpSupply
    ensures !PaysWithin(pool.reserveA, pool.lpSupply, 0x2_0000_0000_0000_0000)
    ensures RemoveAmounts(Checked, pool, 0x2_0000_0000_0000_0000, 1, 1).Err?
  {
  }

  /** A withdrawal that does not fit can leave a sound pool all the same. */
  lemma RemoveFitsNotNecessary(pool: PoolDefinition)
    requires pool.active && pool.lpSupply == 0x1_0000_0000_0000_0000
    requires pool.reserveA == 0x4000_0000_0000_0000 && pool.reserveB == 0x4_0000_0000_0000_0001
    ensures PoolOk(pool) && !Fits(Wrapping, pool, RemoveLiquidity(0x2_0000_0000_0000_0000, 1, 1))
    ensures var r := PoolStep(Wrapping, pool, RemoveLiquidity(0x2_0000_0000_0000_0000, 1, 1)); r.Ok? && PoolOk(r.value)
  {
    WrappingRemovalOverpays(pool);
  }

  lemma BurntLiquidity(p: Profile, supply: u128, amount: u128, burnt: u128)
    requires supply > 0 && UMul(p, supply, amount).Ok? && burnt == UMul(p, supply, amount).value / supply
    ensures burnt <= amount
    ensures burnt == amount <==> supply * amount < U128_LIMIT
  {
    UMulAtMost(p, supply, amount);
    var m := UMul(p, supply, amount).value;
    DivExact(amount, supply);
    assert supply * amount == amount * supply;
    DivIsLargest(m, supply, burnt);
    CancelLe(burnt, amount, supply);
    DivIsLargest(m, supply, amount);
  }

  /** Full removal empties a reserve exactly when its product with the supply fits. */
  lemma FullWithdrawal(p: Profile, reserve: u128, supply: u128)
    requires supply > 0
    requires UMul(p, reserve, supply).Ok?
    ensures UMul(p, reserve, supply).value / supply == reserve <==> reserve * supply < U128_LIMIT
  {
    UMulAtMost(p, reserve, supply);
    var m := UMul(p, reserve, supply).value;
    DivExact(reserve, supply);
    assert supply * reserve == reserve * supply;
    DivIsLargest(m, supply, reserve);
  }

  /** The part of the withdrawn liquidity is within the supply and its product with the supply fits. */
  predicate RemoveFits(pool: PoolDefinition, amount: u128) {
    amount <= pool.lpSupply && pool.lpSupply * amount < U128_LIMIT
  }

  /** Removing liquidity dilutes nobody, and keeps the invariant exactly when something is left or both
      reserves come out whole. */
  lemma RemoveKeepsPool(p: Profile, pool: PoolDefinition, amount: u128, minA: u128, minB: u128)
    requires PoolOk(pool) && pool.active
    requires RemoveAmounts(p, pool, amount, minA, minB).Ok?
    requires RemoveFits(pool, amount)
    ensures var w := RemoveAmounts(p, pool, amount, minA, minB).value;
      && w.liquidity == amount && w.a <= pool.reserveA && w.b <= pool.reserveB
      && var after := pool.(lpSupply := pool.lpSupply - amount, reserveA := pool.reserveA - w.a,
                            reserveB := pool.reserveB - w.b, active := amount != pool.lpSupply);
         && PoolAfterRemove(p, pool, w) == Ok(after)
         && NotDiluted(pool, after)
         && (PoolOk(after) <==>
               || amount < pool.lpSupply
               || (pool.reserveA * pool.lpSupply < U128_LIMIT && pool.reserveB * pool.lpSupply < U128_LIMIT))
  {
    WithdrawalWithinShare(p, pool, amount, minA, minB);
    var w := RemoveAmounts(p, pool, amount, minA, minB).value;
    var s, a, b := pool.lpSupply, pool.reserveA, pool.reserveB;
    ShareLeft(s, a, amount, w.a);
    ShareLeft(s, b, amount, w.b);
    if amount < s {
      SupplyWithinProduct(s, s - amount, a, b, a - w.a, b - w.b);
    } else {
      FullWithdrawal(p, a, s);
      FullWithdrawal(p, b, s);
    }
  }

  /** A withdrawal burns exactly the liquidity asked for and leaves a sound pool exactly when it fits. */
  lemma RemoveIsExact(p: Profile, pool: PoolDefinition, amount: u128, minA: u128, minB: u128)
    requires PoolOk(pool) && pool.active
    requires RemoveAmounts(p, pool, amount, minA, minB).Ok?
    ensures var w := RemoveAmounts(p, pool, amount, minA, minB).value; var r := PoolAfterRemove(p, pool, w);
      (w.liquidity == amount && r.Ok? && r.value.lpSupply + amount == pool.lpSupply && PoolOk(r.value))
      <==> Fits(p, pool, RemoveLiquidity(amount, minA, minB))
  {
    hide RemoveAmounts, PoolOk;
    WithdrawalWithinShare(p, pool, amount, minA, minB);
    if RemoveFits(pool, amount) {
      RemoveKeepsPool(p, pool, amount, minA, minB);
    }
  }

  /** A swap that pays out no more than the reserve keeps the product from falling exactly when its deposit
      fits; an exact-output swap always does, an exact-input one unless the wrapped divisor is too small. */
  lemma SwapProductExactly(p: Profile, pool: PoolDefinition, aToB: bool, exactInput: bool, amount: u128, limit: u128)
    requires PoolOk(pool) && pool.active
    requires PoolSwap(p, pool, aToB, exactInput, amount, limit).Ok?
    ensures var x, y := if aToB then pool.reserveA else pool.reserveB, if aToB then pool.reserveB else pool.reserveA;
      && SwapAmounts(p, x, y, exactInput, amount, limit).Ok?
      && var (i, o) := SwapAmounts(p, x, y, exactInput, amount, limit).value;
         var after := PoolSwap(p, pool, aToB, exactInput, amount, limit).value;
         && (!exactInput ==> o < y)
         && (exactInput ==> (o <= y <==> y * i < (y + 1) * ((x + i) % U128_LIMIT)))
         && (o <= y ==>
               (pool.reserveA * pool.reserveB <= after.reserveA * after.reserveB
                <==> SwapFits(p, pool, aToB, exactInput, amount, limit)))
  {
    hide SwapAmounts, Moved;
    var x, y := if aToB then pool.reserveA else pool.reserveB, if aToB then pool.reserveB else pool.reserveA;
    PayoutWithin(p, x, y, exactInput, amount, limit);
    var (i, o) := SwapAmounts(p, x, y, exactInput, amount, limit).value;
    if SwapFits(p, pool, aToB, exactInput, amount, limit) {
      SwapKeepsPool(p, pool, aToB, exactInput, amount, limit);
    } else if o <= y {
      WrappedSides(p, x, y, i, o);
      assert y * x == x * y && (y - o) * (x + i - U128_LIMIT) == (x + i - U128_LIMIT) * (y - o);
    }
  }

  lemma PayoutWithin(p: Profile, x: u128, y: u128, exactInput: bool, amount: u128, limit: u128)
    requires SwapAmounts(p, x, y, exactInput, amount, limit).Ok?
    ensures var (i, o) := SwapAmounts(p, x, y, exactInput, amount, limit).value;
      && (!exactInput ==> o < y)
      && (exactInput ==> (o <= y <==> y * i < (y + 1) * ((x + i) % U128_LIMIT)))
  {
    if exactInput {
      InputPayout(p, x, y, amount, limit);
    }
  }

  lemma InputPayout(p: Profile, x: u128, y: u128, i: u128, minOut: u128)
    requires SwapInputAmount(p, x, y, i, minOut).Ok?
    ensures SwapInputAmount(p, x, y, i, minOut).value <= y <==> y * i < (y + 1) * ((x + i) % U128_LIMIT)
  {
    var divisor := (x + i) % U128_LIMIT;
    assert UAdd(p, x, i) == Ok(divisor);
    DivIsLargest(y * i, divisor, y + 1);
  }

  /** A deposit that wraps leaves its side smaller, so the product falls. */
  lemma WrappedSides(p: Profile, x: u128, y: u128, i: u128, o: u128)
    requires x > 0 && y > 0 && x + i >= U128_LIMIT && o <= y
    requires Moved(p, x, i, 0).Ok?
    ensures Moved(p, x, i, 0) == Ok(x + i - U128_LIMIT) && Moved(p, y, 0, o) == Ok(y - o)
    ensures (x + i - U128_LIMIT) * (y - o) < x * y
  {
    var x', y' := x + i - U128_LIMIT, y - o;
    MulLe(y', y, x');
    MulLt(x', x, y);
    assert x' * y' == y' * x' && x' * y == y * x';
  }

  /** A swap that does not fit can leave a sound pool all the same: fitting is sufficient, not necessary. */
  lemma SwapFitsNotNecessary(pool: PoolDefinition)
    requires pool.active && pool.lpSupply == 1 && pool.reserveA == U128_LIMIT - 1 && pool.reserveB == 2
    ensures PoolOk(pool) && !SwapFits(Wrapping, pool, true, true, 3, 1)
    ensures var r := PoolSwap(Wrapping, pool, true, true, 3, 1); r.Ok? && PoolOk(r.value)
  {
  }

  /** A wrapping build can break the invariant by a swap whose deposit does not fit. */
  lemma WrappingSwapBreaksPool(pool: PoolDefinition)
    requires pool.active && pool.lpSupply == 0x1_0000_0000_0000_0000
    requires pool.reserveA == U128_LIMIT - 1 && pool.reserveB == 0x4000_0000_0000_0000_0000_0000_0000_0000
    ensures PoolOk(pool)
    ensures var r := PoolSwap(Wrapping, pool, true, true, 2, 1); r.Ok? && !PoolOk(r.value)
    ensures PoolSwap(Checked, pool, true, true, 2, 1).Err?
  {
  }

  /** A deposit whose minted liquidity fits on top of the supply dilutes nobody exactly when it fits on top
      of both reserves. */
  lemma AddDilutesExactly(p: Profile, pool: PoolDefinition, minLiquidity: u128, maxA: u128, maxB: u128)
    requires PoolOk(pool) && pool.reserveA > 0 && pool.reserveB > 0
    requires AddAmounts(p, pool, minLiquidity, maxA, maxB).Ok?
    requires PoolAfterAdd(p, pool, AddAmounts(p, pool, minLiquidity, maxA, maxB).value).Ok?
    ensures var d := AddAmounts(p, pool, minLiquidity, maxA, maxB).value;
      pool.lpSupply + d.liquidity < U128_LIMIT ==>
        (NotDiluted(pool, PoolAfterAdd(p, pool, d).value) <==> Fits(p, pool, AddLiquidity(minLiquidity, maxA, maxB)))
  {
    hide AddAmounts, NotDiluted, PoolOk, PoolAfterAdd;
    var d := AddAmounts(p, pool, minLiquidity, maxA, maxB).value;
    if Fits(p, pool, AddLiquidity(minLiquidity, maxA, maxB)) {
      AddKeepsPool(p, pool, minLiquidity, maxA, maxB);
    } else if pool.lpSupply + d.liquidity < U128_LIMIT {
      assert pool.lpSupply > 0 by { StockedPool(pool); }
      WrappedReserve(p, pool, d);
      SmallerReserveDilutes(pool, PoolAfterAdd(p, pool, d).value);
    }
  }

  lemma StockedPool(pool: PoolDefinition)
    requires PoolOk(pool) && pool.reserveA > 0
    ensures pool.lpSupply > 0
  {
  }

  lemma WrappedReserve(p: Profile, pool: PoolDefinition, d: Deposit)
    requires PoolAfterAdd(p, pool, d).Ok? && pool.lpSupply + d.liquidity < U128_LIMIT
    requires pool.reserveA + d.a >= U128_LIMIT || pool.reserveB + d.b >= U128_LIMIT
    ensures var after := PoolAfterAdd(p, pool, d).value;
      && pool.lpSupply <= after.lpSupply
      && (after.reserveA < pool.reserveA || after.reserveB < pool.reserveB)
  {
  }

  lemma SmallerReserveDilutes(before: PoolDefinition, after: PoolDefinition)
    requires 0 < before.lpSupply <= after.lpSupply
    requires after.reserveA < before.reserveA || after.reserveB < before.reserveB
    ensures !NotDiluted(before, after)
  {
    MulLe(before.lpSupply, after.lpSupply, before.reserveA);
    MulLe(before.lpSupply, after.lpSupply, before.reserveB);
    if after.reserveA < before.reserveA {
      MulLt(after.reserveA, before.reserveA, before.lpSupply);
    } else {
      MulLt(after.reserveB, before.reserveB, before.lpSupply);
    }
  }

  /** A deposit that does not fit can leave a sound pool all the same. */
  lemma AddFitsNotNecessary(pool: PoolDefinition)
    requires pool.active && pool.lpSupply == 1 && pool.reserveA == U128_LIMIT - 1 && pool.reserveB == 1
    ensures PoolOk(pool)
    ensures AddAmounts(Wrapping, pool, 1, U128_LIMIT - 1, 1) == Ok(Deposit(U128_LIMIT - 1, 1, 1))
    ensures !Fits(Wrapping, pool, AddLiquidity(1, U128_LIMIT - 1, 1))
    ensures var r := PoolAfterAdd(Wrapping, pool, Deposit(U128_LIMIT - 1, 1, 1)); r.Ok? && PoolOk(r.value)
  {
  }

  /** A wrapping build can break the invariant by a deposit that does not fit. */
  lemma WrappingDepositBreaksPool(pool: PoolDefinition)
    requires pool.active && pool.lpSupply == pool.reserveA == pool.reserveB == U128_LIMIT - 1
    ensures PoolOk(pool)
    ensures AddAmounts(Wrapping, pool, 1, 1, 1) == Ok(Deposit(1, 1, 1)) == AddAmounts(Checked, pool, 1, 1, 1)
    ensures var r := PoolAfterAdd(Wrapping, pool, Deposit(1, 1, 1)); r.Ok? && !PoolOk(r.value)
    ensures PoolAfterAdd(Checked, pool, Deposit(1, 1, 1)).Err?
  {
  }

  /** A wrapping build can leave an active pool without reserve by a withdrawal that does not fit. */
  lemma WrappingRemovalBreaksPool(pool: PoolDefinition)
    requires pool.active && pool.lpSupply == 0x1_0000_0000_0000_0000
    requires pool.reserveA == 0x8000_0000_0000_0000 && pool.reserveB == 0x2_0000_0000_0000_0001
    ensures PoolOk(pool)
    ensures RemoveAmounts(Wrapping, pool, pool.lpSupply, 1, 1) == Ok(Withdrawal(pool.reserveA, 1, 0))
    ensures var r := PoolAfterRemove(Wrapping, pool, Withdrawal(pool.reserveA, 1, 0)); r.Ok? && !PoolOk(r.value)
    ensures RemoveAmounts(Checked, pool, pool.lpSupply, 1, 1).Err?
  {
  }

  lemma ShareLeft(s: nat, a: nat, amount: nat, w: nat)
    requires 0 < s && 0 < a && amount <= s
    requires w * s <= a * amount
    ensures w <= a
    ensures a * (s - amount) <= (a - w) * s
    ensures amount < s ==> w < a
  {
    MulLe(amount, s, a);
    assert a * amount <= a * s;
    CancelLe(w, a, s);
    assert a * (s - amount) == a * s - a * amount;
    assert (a - w) * s == a * s - w * s;
    if amount < s {
      MulLt(amount, s, a);
      assert w * s < a * s;
      assert w != a;
    }
  }

  /** Adding liquidity and then removing the minted tokens returns no more than was deposited, even if
      the two steps run in different builds. */
  lemma AddThenRemoveNeverGains(p: Profile, q: Profile, pool: PoolDefinition, minLiquidity: u128,
                                maxA: u128, maxB: u128, after: PoolDefinition, minA: u128, minB: u128)
    requires PoolOk(pool) && pool.reserveA > 0 && pool.reserveB > 0
    requires AddAmounts(p, pool, minLiquidity, maxA, maxB).Ok?
    requires var d := AddAmounts(p, pool, minLiquidity, maxA, maxB).value;
      && pool.reserveA + d.a < U128_LIMIT && pool.reserveB + d.b < U128_LIMIT
      && PoolAfterAdd(p, pool, d) == Ok(after)
      && RemoveAmounts(q, after, d.liquidity, minA, minB).Ok?
    ensures var d := AddAmounts(p, pool, minLiquidity, maxA, maxB).value;
      var w := RemoveAmounts(q, after, d.liquidity, minA, minB).value;
      w.a <= d.a && w.b <= d.b
  {
    hide AddAmounts, RemoveAmounts;
    MintWithinShare(p, pool, minLiquidity, maxA, maxB);
    AddKeepsPool(p, pool, minLiquidity, maxA, maxB);
    var d := AddAmounts(p, pool, minLiquidity, maxA, maxB).value;
    WithdrawalWithinShare(q, after, d.liquidity, minA, minB);
    var w := RemoveAmounts(q, after, d.liquidity, minA, minB).value;
    BackAtMost(pool.lpSupply, d.liquidity, pool.reserveA, d.a, w.a);
    BackAtMost(pool.lpSupply, d.liquidity, pool.reserveB, d.b, w.b);
  }

  lemma BackAtMost(s: nat, minted: nat, reserve: nat, deposit: nat, w: nat)
    requires s + minted > 0
    requires minted * reserve <= s * deposit
    requires w * (s + minted) <= (reserve + deposit) * minted
    ensures w <= deposit
  {
    assert (reserve + deposit) * minted == minted * reserve + deposit * minted;
    assert deposit * (s + minted) == s * deposit + deposit * minted;
    CancelLe(w, deposit, s + minted);
  }

  // ------------------------------------------------------- sequences of steps

  /** One instruction's effect on an existing pool's numbers. */
  function PoolStep(p: Profile, pool: PoolDefinition, instruction: AmmInstruction): Result<PoolDefinition, AmmError> {
    match instruction
    case NewPool(a, b, _) =>
      if pool.active then Err(ActivePool) else
      var liquidity :- InitialLiquidity(p, a, b);
      Ok(pool.(lpSupply := liquidity, reserveA := a, reserveB := b, active := true))
    case AddLiquidity(min, maxA, maxB) =>
      if pool.reserveA == 0 || pool.reserveB == 0 then Err(ZeroReserves) else
      var deposit :- AddAmounts(p, pool, min, maxA, maxB);
      PoolAfterAdd(p, pool, deposit)
    case RemoveLiquidity(amount, minA, minB) =>
      if !pool.active then Err(InactivePool) else
      var w :- RemoveAmounts(p, pool, amount, minA, minB);
      PoolAfterRemove(p, pool, w)
    case SwapExactInput(amount, min, tokenIn) =>
      if !pool.active then Err(InactivePool) else PoolSwap(p, pool, tokenIn == pool.tokenA, true, amount, min)
    case SwapExactOutput(amount, max, tokenIn) =>
      if !pool.active then Err(InactivePool) else PoolSwap(p, pool, tokenIn == pool.tokenA, false, amount, max)
  }

  /** Every unchecked operation of the instruction stays within 128 bits. */
  predicate NoWrap(pool: PoolDefinition, instruction: AmmInstruction) {
    var s, ra, rb := pool.lpSupply, pool.reserveA, pool.reserveB;
    match instruction
    case NewPool(a, b, _) => a * b < U128_LIMIT
    case AddLiquidity(_, maxA, maxB) =>
      && ra * maxB < U128_LIMIT && rb * maxA < U128_LIMIT
      && (ra > 0 && rb > 0 ==> AddNoWrap(s, ra, rb, Min(Quotient(ra * maxB, rb), maxA), Min(Quotient(rb * maxA, ra), maxB)))
    case RemoveLiquidity(amount, _, _) =>
      ra * amount < U128_LIMIT && rb * amount < U128_LIMIT && s * amount < U128_LIMIT && amount <= s
    case SwapExactInput(amount, _, tokenIn) => (if tokenIn == pool.tokenA then ra else rb) + amount < U128_LIMIT
    case SwapExactOutput(amount, _, tokenIn) =>
      var x, y := if tokenIn == pool.tokenA then ra else rb, if tokenIn == pool.tokenA then rb else ra;
      amount < y ==> x + LeastIn(x, y, amount) < U128_LIMIT
  }

  function Quotient(a: u128, b: u128): u128
    requires b > 0
  {
    DivAtMost(a, b);
    a / b
  }

  /** The second half of a deposit: shares, new supply and new reserves. */
  predicate AddNoWrap(s: u128, ra: u128, rb: u128, a: u128, b: u128)
    requires ra > 0 && rb > 0
  {
    && s * a < U128_LIMIT && s * b < U128_LIMIT
    && s + Min(Quotient(s * a, ra), Quotient(s * b, rb)) < U128_LIMIT
    && ra + a < U128_LIMIT && rb + b < U128_LIMIT
  }

  /** A checked build accepts exactly what a wrapping one accepts without wrapping, with the same result. */
  lemma BuildsAgreeExactly(pool: PoolDefinition, instruction: AmmInstruction, after: PoolDefinition)
    ensures PoolStep(Checked, pool, instruction) == Ok(after)
       <==> PoolStep(Wrapping, pool, instruction) == Ok(after) && NoWrap(pool, instruction)
  {
    match instruction
    case NewPool(a, b, _) =>
    case AddLiquidity(min, maxA, maxB) => AddBuildsAgree(pool, min, maxA, maxB, after);
    case RemoveLiquidity(amount, minA, minB) => RemoveBuildsAgree(pool, amount, minA, minB, after);
    case SwapExactInput(amount, min, tokenIn) => SwapBuildsAgree(pool, tokenIn, true, amount, min, after);
    case SwapExactOutput(amount, max, tokenIn) => SwapBuildsAgree(pool, tokenIn, false, amount, max, after);
  }

  lemma AddBuildsAgree(pool: PoolDefinition, min: u128, maxA: u128, maxB: u128, after: PoolDefinition)
    ensures PoolStep(Checked, pool, AddLiquidity(min, maxA, maxB)) == Ok(after)
       <==> PoolStep(Wrapping, pool, AddLiquidity(min, maxA, maxB)) == Ok(after)
            && NoWrap(pool, AddLiquidity(min, maxA, maxB))
  {
  }

  lemma RemoveBuildsAgree(pool: PoolDefinition, amount: u128, minA: u128, minB: u128, after: PoolDefinition)
    ensures PoolStep(Checked, pool, RemoveLiquidity(amount, minA, minB)) == Ok(after)
       <==> PoolStep(Wrapping, pool, RemoveLiquidity(amount, minA, minB)) == Ok(after)
            && NoWrap(pool, RemoveLiquidity(amount, minA, minB))
  {
    hide RemoveAmounts;
    RemoveAmountsAgree(pool, amount, minA, minB);
    var r := RemoveAmounts(Wrapping, pool, amount, minA, minB);
    if r.Ok? && pool.lpSupply * amount < U128_LIMIT {
      WithdrawalWithinShare(Wrapping, pool, amount, minA, minB);
      if amount <= pool.lpSupply {
        PaidWithin(pool.lpSupply, pool.reserveA, amount, r.value.a);
        PaidWithin(pool.lpSupply, pool.reserveB, amount, r.value.b);
      }
    }
  }

  lemma RemoveAmountsAgree(pool: PoolDefinition, amount: u128, minA: u128, minB: u128)
    ensures var checked := RemoveAmounts(Checked, pool, amount, minA, minB);
      var wrapping := RemoveAmounts(Wrapping, pool, amount, minA, minB);
      && (checked.Ok? <==> && wrapping.Ok? && pool.reserveA * amount < U128_LIMIT && pool.reserveB * amount < U128_LIMIT
                           && pool.lpSupply * amount < U128_LIMIT)
      && (checked.Ok? ==> checked == wrapping)
  {
    hide UDiv;
  }

  lemma PaidWithin(supply: nat, reserve: nat, amount: nat, paid: nat)
    requires 0 < supply && amount <= supply && paid * supply <= reserve * amount
    ensures paid <= reserve
  {
    MulLe(amount, supply, reserve);
    CancelLe(paid, reserve, supply);
  }

  lemma SwapBuildsAgree(pool: PoolDefinition, tokenIn: AccountId, exactInput: bool,
                        amount: u128, limit: u128, after: PoolDefinition)
    ensures var instruction := if exactInput then SwapExactInput(amount, limit, tokenIn)
                            else SwapExactOutput(amount, limit, tokenIn);
      PoolStep(Checked, pool, instruction) == Ok(after)
      <==> PoolStep(Wrapping, pool, instruction) == Ok(after) && NoWrap(pool, instruction)
  {
    hide SwapAmounts, Moved, LeastIn;
    var aToB := tokenIn == pool.tokenA;
    var x, y := if aToB then pool.reserveA else pool.reserveB, if aToB then pool.reserveB else pool.reserveA;
    SwapAmountsAgree(x, y, exactInput, amount, limit);
    var r := SwapAmounts(Wrapping, x, y, exactInput, amount, limit);
    if r.Ok? {
      MovedAgree(x, r.value.0);
      if r.value.1 <= y {
        PaidOut(y, r.value.1);
      }
    }
  }

  lemma MovedAgree(x: u128, i: u128)
    ensures Moved(Checked, x, i, 0) == if x + i < U128_LIMIT then Ok(x + i) else Err(ArithmeticOverflow)
    ensures x + i < U128_LIMIT ==> Moved(Wrapping, x, i, 0) == Ok(x + i)
  {
  }

  lemma PaidOut(y: u128, o: u128)
    requires o <= y
    ensures Moved(Checked, y, 0, o) == Moved(Wrapping, y, 0, o) == Ok(y - o)
  {
  }

  /** Without a wrapped divisor both builds compute the same amounts, paying at most the reserve. */
  lemma SwapAmountsAgree(x: u128, y: u128, exactInput: bool, amount: u128, limit: u128)
    ensures var checked := SwapAmounts(Checked, x, y, exactInput, amount, limit);
      var wrapping := SwapAmounts(Wrapping, x, y, exactInput, amount, limit);
      && (checked.Ok? <==> wrapping.Ok? && (exactInput ==> x + amount < U128_LIMIT))
      && (checked.Ok? ==> checked == wrapping && checked.value.1 <= y)
      && (wrapping.Ok? && exactInput ==> wrapping.value.0 == amount)
      && (wrapping.Ok? && !exactInput ==> amount < y && wrapping.value.0 == LeastIn(x, y, amount))
  {
    hide UDiv, DivCeil;
    if exactInput {
      InputAmountsAgree(x, y, amount, limit);
    } else if SwapOutputAmount(x, y, amount, limit).Ok? {
      hide SwapOutputAmount;
      SwapOutputOptimal(x, y, amount, limit);
    }
  }

  lemma InputAmountsAgree(x: u128, y: u128, i: u128, minOut: u128)
    ensures var checked, wrapping := SwapInputAmount(Checked, x, y, i, minOut), SwapInputAmount(Wrapping, x, y, i, minOut);
      && (checked.Ok? <==> wrapping.Ok? && x + i < U128_LIMIT)
      && (checked.Ok? ==> checked == wrapping && checked.value <= y)
  {
    if SwapInputAmount(Checked, x, y, i, minOut).Ok? {
      BestOutIsBest(x, y, i, 0);
      SwapInputOptimal(Checked, x, y, i, minOut);
    }
  }

  /** A condition, computable from the pool and the arguments, under which an accepted instruction keeps the
      pool invariant in either build. It is weaker than `NoWrap`: it asks only for what the invariant needs. */
  predicate Fits(p: Profile, pool: PoolDefinition, instruction: AmmInstruction) {
    match instruction
    case NewPool(a, b, _) => a > 0 && b > 0 && (a * b) % U128_LIMIT != 0
    case AddLiquidity(min, maxA, maxB) =>
      AddAmounts(p, pool, min, maxA, maxB).Ok? ==>
        var d := AddAmounts(p, pool, min, maxA, maxB).value;
        pool.reserveA + d.a < U128_LIMIT && pool.reserveB + d.b < U128_LIMIT
    case RemoveLiquidity(amount, _, _) =>
      && RemoveFits(pool, amount)
      && (amount < pool.lpSupply
          || (pool.reserveA * pool.lpSupply < U128_LIMIT && pool.reserveB * pool.lpSupply < U128_LIMIT))
    case SwapExactInput(amount, min, tokenIn) => SwapFits(p, pool, tokenIn == pool.tokenA, true, amount, min)
    case SwapExactOutput(amount, max, tokenIn) => SwapFits(p, pool, tokenIn == pool.tokenA, false, amount, max)
  }

  /** In a checked build every accepted step fits. */
  lemma CheckedStepFits(pool: PoolDefinition, instruction: AmmInstruction)
    requires PoolStep(Checked, pool, instruction).Ok?
    requires PoolOk(pool)
    requires instruction.NewPool? ==> instruction.amountA > 0 && instruction.amountB > 0
    ensures Fits(Checked, pool, instruction)
  {
    match instruction
    case NewPool(a, b, _) =>
      MulLt(0, a, b);
    case AddLiquidity(min, maxA, maxB) =>
      hide AddAmounts;
    case RemoveLiquidity(amount, minA, minB) =>
      WithdrawalWithinShare(Checked, pool, amount, minA, minB);
    case SwapExactInput(amount, min, tokenIn) =>
      hide SwapAmounts;
    case SwapExactOutput(amount, max, tokenIn) =>
      hide SwapAmounts;
  }

  /** Every accepted step that fits keeps the pool invariant. */
  lemma StepKeepsPool(p: Profile, pool: PoolDefinition, instruction: AmmInstruction)
    requires PoolOk(pool)
    requires PoolStep(p, pool, instruction).Ok? && Fits(p, pool, instruction)
    ensures PoolOk(PoolStep(p, pool, instruction).value)
  {
    hide AddAmounts, RemoveAmounts, SwapAmounts, PoolSwap, SwapFits, InitialLiquidity, PoolAfterAdd, PoolAfterRemove;
    match instruction
    case NewPool(a, b, _) => NewPoolOk(p, PoolStep(p, pool, instruction).value);
    case AddLiquidity(min, maxA, maxB) => AddKeepsPool(p, pool, min, maxA, maxB);
    case RemoveLiquidity(amount, minA, minB) => RemoveKeepsPool(p, pool, amount, minA, minB);
    case SwapExactInput(amount, min, tokenIn) => SwapKeepsPool(p, pool, tokenIn == pool.tokenA, true, amount, min);
    case SwapExactOutput(amount, max, tokenIn) => SwapKeepsPool(p, pool, tokenIn == pool.tokenA, false, amount, max);
  }

  /** The product of the reserves per squared share has not fallen. */
  predicate NotPoorer(before: PoolDefinition, after: PoolDefinition) {
    (before.reserveA * before.reserveB) * (after.lpSupply * after.lpSupply)
    <= (after.reserveA * after.reserveB) * (before.lpSupply * before.lpSupply)
  }

  lemma StepNotPoorer(p: Profile, pool: PoolDefinition, instruction: AmmInstruction)
    requires PoolOk(pool)
    requires !instruction.NewPool?
    requires PoolStep(p, pool, instruction).Ok? && Fits(p, pool, instruction)
    ensures NotPoorer(pool, PoolStep(p, pool, instruction).value)
  {
    hide AddAmounts, RemoveAmounts, SwapAmounts, PoolSwap, SwapFits,
         PoolAfterAdd, PoolAfterRemove, NotPoorer, NotDiluted;
    var after := PoolStep(p, pool, instruction).value;
    match instruction
    case AddLiquidity(min, maxA, maxB) =>
      AddKeepsPool(p, pool, min, maxA, maxB);
      UndilutedNotPoorer(pool, after);
    case RemoveLiquidity(amount, minA, minB) =>
      RemoveKeepsPool(p, pool, amount, minA, minB);
      UndilutedNotPoorer(pool, after);
    case SwapExactInput(amount, min, tokenIn) =>
      SwapKeepsPool(p, pool, tokenIn == pool.tokenA, true, amount, min);
      LargerProductNotPoorer(pool, after);
    case SwapExactOutput(amount, max, tokenIn) =>
      SwapKeepsPool(p, pool, tokenIn == pool.tokenA, false, amount, max);
      LargerProductNotPoorer(pool, after);
  }

  lemma UndilutedNotPoorer(before: PoolDefinition, after: PoolDefinition)
    requires NotDiluted(before, after)
    ensures NotPoorer(before, after)
  {
    ShareBound(before.lpSupply, after.lpSupply, before.reserveA, before.reserveB, after.reserveA, after.reserveB);
  }

  lemma LargerProductNotPoorer(before: PoolDefinition, after: PoolDefinition)
    requires after.lpSupply == before.lpSupply
    requires before.reserveA * before.reserveB <= after.reserveA * after.reserveB
    ensures NotPoorer(before, after)
  {
    MulLe(before.reserveA * before.reserveB, after.reserveA * after.reserveB, before.lpSupply * before.lpSupply);
  }

  lemma NotPoorerTransitive(x: PoolDefinition, y: PoolDefinition, z: PoolDefinition)
    requires NotPoorer(x, y) && NotPoorer(y, z)
    requires y.lpSupply > 0
    ensures NotPoorer(x, z)
  {
    Chain(x.reserveA * x.reserveB, x.lpSupply * x.lpSupply, y.reserveA * y.reserveB, y.lpSupply * y.lpSupply,
          z.reserveA * z.reserveB, z.lpSupply * z.lpSupply) by { MulLt(0, y.lpSupply, y.lpSupply); }
  }

  lemma Chain(k: nat, s: nat, k': nat, s': nat, k'': nat, s'': nat)
    requires s' > 0
    requires k * s' <= k' * s && k' * s'' <= k'' * s'
    ensures k * s'' <= k'' * s
  {
    MulLe(k * s', k' * s, s'');
    MulLe(k' * s'', k'' * s', s);
    assert (k * s') * s'' == (k * s'') * s';
    assert (k' * s) * s'' == (k' * s'') * s;
    assert (k'' * s') * s == (k'' * s) * s';
    CancelLe(k * s'', k'' * s, s');
  }

  /** A pool taken through a sequence of instructions. */
  function PoolRun(p: Profile, pool: PoolDefinition,
                   instructions: seq<AmmInstruction>): Result<PoolDefinition, AmmError> {
    if instructions == [] then Ok(pool)
    else
      var before :- PoolRun(p, pool, instructions[..|instructions| - 1]);
      PoolStep(p, before, instructions[|instructions| - 1])
  }

  /** Every step of the sequence fits the pool it finds. */
  ghost predicate RunFits(p: Profile, pool: PoolDefinition, instructions: seq<AmmInstruction>) {
    forall i :: 0 <= i < |instructions| && PoolRun(p, pool, instructions[..i]).Ok? ==>
      Fits(p, PoolRun(p, pool, instructions[..i]).value, instructions[i])
  }

  /** Whatever deposits, withdrawals and swaps follow each other, the invariant holds throughout and the
      liquidity left in the pool is worth no less per share than it was: k per squared share never falls. In
      a checked build always, in a wrapping one as long as the steps fit. */
  lemma {:induction false} RunNotPoorer(p: Profile, pool: PoolDefinition, instructions: seq<AmmInstruction>)
    requires PoolOk(pool)
    requires forall i :: 0 <= i < |instructions| ==> !instructions[i].NewPool?
    requires PoolRun(p, pool, instructions).Ok?
    requires p.Checked? || RunFits(p, pool, instructions)
    ensures PoolOk(PoolRun(p, pool, instructions).value)
    ensures NotPoorer(pool, PoolRun(p, pool, instructions).value)
  {
    hide PoolStep, Fits, PoolOk, NotPoorer;
    if instructions == [] {
      assert NotPoorer(pool, pool) by { SamePool(pool); }
    } else {
      var init, last := instructions[..|instructions| - 1], instructions[|instructions| - 1];
      if p.Wrapping? {
        forall i | 0 <= i < |init| && PoolRun(p, pool, init[..i]).Ok?
          ensures Fits(p, PoolRun(p, pool, init[..i]).value, init[i])
        {
          assert init[..i] == instructions[..i];
        }
      }
      RunNotPoorer(p, pool, init);
      var before := PoolRun(p, pool, init).value;
      if p.Checked? {
        CheckedStepFits(before, last);
      }
      StepKeepsPool(p, before, last);
      StepNotPoorer(p, before, last);
      StepNeedsSupply(p, before, last);
      NotPoorerTransitive(pool, before, PoolRun(p, pool, instructions).value);
    }
  }

  lemma SamePool(pool: PoolDefinition)
    ensures NotPoorer(pool, pool)
  {
  }

  /** An empty pool accepts nothing but creation. */
  lemma StepNeedsSupply(p: Profile, pool: PoolDefinition, instruction: AmmInstruction)
    requires PoolOk(pool)
    requires !instruction.NewPool?
    requires PoolStep(p, pool, instruction).Ok?
    ensures pool.active && pool.lpSupply > 0
  {
    hide AddAmounts, RemoveAmounts, PoolSwap;
  }
}
