/** Exactly which amounts the AMM trades, pays and mints: each is the largest, or the smallest, with a stated property. */
module AmmAmounts {
  import opened Core
  import opened Arithmetic
  import opened Amm
  import opened AmmMath

  predicate Covered(n: nat, unit: nat, total: nat) {
    n * unit <= total
  }

  /** `q` is the largest number of units that `total` covers. */
  ghost predicate Largest(q: nat, unit: nat, total: nat) {
    forall n: nat :: Covered(n, unit, total) <==> n <= q
  }

  /** `q` is the smallest number of units that covers `total`. */
  ghost predicate Smallest(q: nat, unit: nat, total: nat) {
    forall n: nat :: Reached(n, unit, total) <==> q <= n
  }

  predicate Reached(n: nat, unit: nat, total: nat) {
    total <= n * unit
  }

  /** A checked build stops where a product does not fit; a wrapping one goes on with its last 128 bits. */
  predicate Allows(p: Profile, x: u128, y: u128) {
    p.Checked? ==> x * y < U128_LIMIT
  }

  function Low(x: u128, y: u128): u128 {
    (x * y) % U128_LIMIT
  }

  lemma LowIsWhole(x: u128, y: u128)
    ensures x * y < U128_LIMIT ==> Low(x, y) == x * y
  {
  }

  lemma LargestExactly(q: nat, unit: nat, total: nat)
    ensures Largest(q, unit, total) <==> unit > 0 && q == total / unit
  {
    if unit > 0 {
      forall n: nat
        ensures Covered(n, unit, total) <==> n <= total / unit
      {
        DivIsLargest(total, unit, n);
      }
      if Largest(q, unit, total) {
        assert Covered(q, unit, total) && Covered(total / unit, unit, total);
      }
    } else {
      assert Covered(q + 1, unit, total);
    }
  }

  lemma SmallestExactly(q: nat, unit: nat, total: nat)
    requires unit > 0
    ensures Smallest(q, unit, total) <==> q == CeilDiv(total, unit)
  {
    forall n: nat
      ensures Reached(n, unit, total) <==> CeilDiv(total, unit) <= n
    {
      CeilIsSmallest(total, unit, n);
    }
    if Smallest(q, unit, total) {
      assert Reached(q, unit, total) && Reached(CeilDiv(total, unit), unit, total);
    }
  }

  /** The quotient of a product, in either build. */
  lemma ShareExactly(p: Profile, x: u128, y: u128, unit: u128)
    ensures UMul(p, x, y).Ok? <==> Allows(p, x, y)
    ensures UMul(p, x, y).Ok? ==> UMul(p, x, y).value == Low(x, y)
    ensures UDiv(Low(x, y), unit).Ok? <==> unit > 0
    ensures forall q: u128 {:trigger Largest(q, unit, Low(x, y))} ::
      Largest(q, unit, Low(x, y)) <==> UDiv(Low(x, y), unit) == Ok(q)
  {
    hide Largest;
    if UMul(p, x, y).Ok? {
      UMulIsResidue(p, x, y);
    }
    forall q: u128
      ensures Largest(q, unit, Low(x, y)) <==> UDiv(Low(x, y), unit) == Ok(q)
    {
      QuotientExactly(q, unit, Low(x, y));
    }
  }

  lemma QuotientExactly(q: u128, unit: u128, total: u128)
    ensures Largest(q, unit, total) <==> UDiv(total, unit) == Ok(q)
  {
    hide Largest;
    LargestExactly(q, unit, total);
  }

  // ----------------------------------------------------------------- withdrawals

  /** Each payout is the most the tokens asked for are worth, and no less than the user's minimum. */
  ghost predicate IsWithdrawal(p: Profile, pool: PoolDefinition, amount: u128, minA: u128, minB: u128, w: Withdrawal) {
    && Allows(p, pool.reserveA, amount) && Allows(p, pool.reserveB, amount) && Allows(p, pool.lpSupply, amount)
    && Largest(w.a, pool.lpSupply, Low(pool.reserveA, amount)) && minA <= w.a
    && Largest(w.b, pool.lpSupply, Low(pool.reserveB, amount)) && minB <= w.b
    && Largest(w.liquidity, pool.lpSupply, Low(pool.lpSupply, amount))
  }

  lemma WithdrawalExactly(p: Profile, pool: PoolDefinition, amount: u128, minA: u128, minB: u128, w: Withdrawal)
    ensures RemoveAmounts(p, pool, amount, minA, minB) == Ok(w) <==> IsWithdrawal(p, pool, amount, minA, minB, w)
  {
    hide UMul, UDiv, Largest, Low, Allows;
    ShareExactly(p, pool.reserveA, amount, pool.lpSupply);
    ShareExactly(p, pool.reserveB, amount, pool.lpSupply);
    ShareExactly(p, pool.lpSupply, amount, pool.lpSupply);
  }

  /** A withdrawal is computed if and only if there is liquidity, no product stops the build, and what the tokens
      are worth covers both minimums. */
  lemma WithdrawalAccepted(p: Profile, pool: PoolDefinition, amount: u128, minA: u128, minB: u128)
    ensures RemoveAmounts(p, pool, amount, minA, minB).Ok? <==>
      && pool.lpSupply > 0
      && Allows(p, pool.reserveA, amount) && Allows(p, pool.reserveB, amount) && Allows(p, pool.lpSupply, amount)
      && Covered(minA, pool.lpSupply, Low(pool.reserveA, amount))
      && Covered(minB, pool.lpSupply, Low(pool.reserveB, amount))
  {
    hide UMul, Low, Allows;
    ShareExactly(p, pool.reserveA, amount, pool.lpSupply);
    ShareExactly(p, pool.reserveB, amount, pool.lpSupply);
    ShareExactly(p, pool.lpSupply, amount, pool.lpSupply);
    if pool.lpSupply > 0 {
      DivIsLargest(Low(pool.reserveA, amount), pool.lpSupply, minA);
      DivIsLargest(Low(pool.reserveB, amount), pool.lpSupply, minB);
    }
  }

  /** Where nothing wraps, exactly the tokens asked for are burnt, for the most they are worth. */
  lemma UnwrappedWithdrawal(p: Profile, pool: PoolDefinition, amount: u128, minA: u128, minB: u128, w: Withdrawal)
    requires RemoveAmounts(p, pool, amount, minA, minB) == Ok(w)
    requires NoWrap(pool, RemoveLiquidity(amount, minA, minB))
    ensures Largest(w.a, pool.lpSupply, pool.reserveA * amount) && Largest(w.b, pool.lpSupply, pool.reserveB * amount)
    ensures minA <= w.a && minB <= w.b && w.liquidity == amount
  {
    hide Largest, RemoveAmounts, Low;
    WithdrawalExactly(p, pool, amount, minA, minB, w);
    WithdrawalWithinShare(p, pool, amount, minA, minB);
    LowIsWhole(pool.reserveA, amount);
    LowIsWhole(pool.reserveB, amount);
  }

  // -------------------------------------------------------------------- deposits

  /** The most of one token, within the user's limit, that the other side of the deposit calls for. */
  ghost predicate Matches(q: u128, limit: u128, reserve: u128, other: u128, otherLimit: u128) {
    forall n: nat :: (n <= limit && Covered(n, other, Low(reserve, otherLimit))) <==> n <= q
  }

  lemma MatchesExactly(q: u128, limit: u128, reserve: u128, other: u128, otherLimit: u128)
    requires other > 0
    ensures Matches(q, limit, reserve, other, otherLimit) <==> q == Min(Low(reserve, otherLimit) / other, limit)
  {
    hide Low;
    var ideal := Low(reserve, otherLimit) / other;
    LargestExactly(ideal, other, Low(reserve, otherLimit));
    if Matches(q, limit, reserve, other, otherLimit) {
      assert q <= q && Covered(q, other, Low(reserve, otherLimit));
      assert Covered(Min(ideal, limit), other, Low(reserve, otherLimit));
    }
  }

  /** Each side gives the most that fits the other, and the tokens minted are the most both sides are worth. */
  ghost predicate IsDeposit(p: Profile, pool: PoolDefinition, minLiquidity: u128, maxA: u128, maxB: u128, d: Deposit) {
    && pool.reserveA > 0 && pool.reserveB > 0
    && Allows(p, pool.reserveA, maxB) && Allows(p, pool.reserveB, maxA)
    && Matches(d.a, maxA, pool.reserveA, pool.reserveB, maxB) && d.a > 0
    && Matches(d.b, maxB, pool.reserveB, pool.reserveA, maxA) && d.b > 0
    && Allows(p, pool.lpSupply, d.a) && Allows(p, pool.lpSupply, d.b)
    && (forall n: nat :: n <= d.liquidity <==>
          Covered(n, pool.reserveA, Low(pool.lpSupply, d.a)) && Covered(n, pool.reserveB, Low(pool.lpSupply, d.b)))
    && d.liquidity > 0 && d.liquidity >= minLiquidity
  }

  lemma DepositExactly(p: Profile, pool: PoolDefinition, minLiquidity: u128, maxA: u128, maxB: u128, d: Deposit)
    ensures AddAmounts(p, pool, minLiquidity, maxA, maxB) == Ok(d) <==> IsDeposit(p, pool, minLiquidity, maxA, maxB, d)
  {
    hide UMul, Largest, Low, Allows, Matches, Covered;
    var rA, rB, s := pool.reserveA, pool.reserveB, pool.lpSupply;
    ShareExactly(p, rA, maxB, rB);
    ShareExactly(p, rB, maxA, rA);
    if rA > 0 && rB > 0 {
      ShareExactly(p, s, d.a, rA);
      ShareExactly(p, s, d.b, rB);
      MatchesExactly(d.a, maxA, rA, rB, maxB);
      MatchesExactly(d.b, maxB, rB, rA, maxA);
      MintedExactly(d.liquidity, rA, Low(s, d.a), rB, Low(s, d.b));
    }
  }

  lemma MintedExactly(q: u128, rA: u128, shareA: u128, rB: u128, shareB: u128)
    requires rA > 0 && rB > 0
    ensures (forall n: nat :: n <= q <==> Covered(n, rA, shareA) && Covered(n, rB, shareB))
       <==> UDiv(shareA, rA).Ok? && UDiv(shareB, rB).Ok? && q == Min(UDiv(shareA, rA).value, UDiv(shareB, rB).value)
  {
    var a, b := shareA / rA, shareB / rB;
    LargestExactly(a, rA, shareA);
    LargestExactly(b, rB, shareB);
    if forall n: nat :: n <= q <==> Covered(n, rA, shareA) && Covered(n, rB, shareB) {
      assert Covered(q, rA, shareA) && Covered(q, rB, shareB);
      assert Covered(Min(a, b), rA, shareA) && Covered(Min(a, b), rB, shareB);
    }
  }

  /** The liquidity of a new pool is the integer square root of the product of its reserves. */
  predicate IsInitial(p: Profile, a: u128, b: u128, liquidity: u128) {
    Allows(p, a, b) && liquidity * liquidity <= Low(a, b) < (liquidity + 1) * (liquidity + 1)
  }

  lemma InitialExactly(p: Profile, a: u128, b: u128, liquidity: u128)
    ensures InitialLiquidity(p, a, b) == Ok(liquidity) <==> IsInitial(p, a, b, liquidity)
  {
    hide UMul, Low;
    ShareExactly(p, a, b, 1);
    if Allows(p, a, b) {
      RootIsUnique(Low(a, b), Isqrt(Low(a, b)), liquidity);
    }
  }

  lemma RootIsUnique(n: nat, r: nat, q: nat)
    requires r * r <= n < (r + 1) * (r + 1)
    ensures q * q <= n < (q + 1) * (q + 1) <==> q == r
  {
    if q < r {
      SquareMono(q + 1, r);
    } else if r < q {
      SquareMono(r + 1, q);
    }
  }

  lemma SquareMono(x: nat, y: nat)
    requires x <= y
    ensures x * x <= y * y
  {
    MulBoth(x, y, x, y);
  }

  // ----------------------------------------------------------------------- swaps

  /** What is paid for what: a given input buys the most the product allows, a given output costs the least. */
  ghost predicate IsSwap(p: Profile, x: u128, y: u128, exactInput: bool, amount: u128, limit: u128, i: u128, o: u128) {
    if exactInput then
      && i == amount && y * i < U128_LIMIT && (p.Checked? ==> x + i < U128_LIMIT)
      && Largest(o, (x + i) % U128_LIMIT, y * i) && 0 < o && limit <= o
    else
      && o == amount && 0 < o < y && x * o < U128_LIMIT
      && Smallest(i, y - o, x * o) && i <= limit
  }

  lemma SwapExactly(p: Profile, x: u128, y: u128, exactInput: bool, amount: u128, limit: u128, i: u128, o: u128)
    ensures SwapAmounts(p, x, y, exactInput, amount, limit) == Ok((i, o))
       <==> IsSwap(p, x, y, exactInput, amount, limit, i, o)
  {
    if exactInput {
      SwapInputExactly(p, x, y, amount, limit, o);
    } else {
      SwapOutputExactly(x, y, amount, limit, i);
    }
  }

  lemma SwapInputExactly(p: Profile, x: u128, y: u128, i: u128, minOut: u128, o: u128)
    ensures SwapInputAmount(p, x, y, i, minOut) == Ok(o) <==>
      && y * i < U128_LIMIT && (p.Checked? ==> x + i < U128_LIMIT)
      && Largest(o, (x + i) % U128_LIMIT, y * i) && 0 < o && minOut <= o
  {
    hide Largest, UAdd, UDiv;
    var divisor := (x + i) % U128_LIMIT;
    SumExactly(p, x, i);
    if y * i < U128_LIMIT {
      QuotientExactly(o, divisor, y * i);
    }
  }

  lemma SumExactly(p: Profile, x: u128, y: u128)
    ensures UAdd(p, x, y).Ok? <==> (p.Checked? ==> x + y < U128_LIMIT)
    ensures UAdd(p, x, y).Ok? ==> UAdd(p, x, y).value == (x + y) % U128_LIMIT
  {
  }

  lemma SwapOutputExactly(x: u128, y: u128, o: u128, maxIn: u128, i: u128)
    ensures SwapOutputAmount(x, y, o, maxIn) == Ok(i) <==>
      0 < o < y && x * o < U128_LIMIT && Smallest(i, y - o, x * o) && i <= maxIn
  {
    hide Smallest;
    if o < y {
      SmallestExactly(i, y - o, x * o);
    }
  }
}
