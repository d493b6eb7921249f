/** The deposits of the repository's test, tests/anchor-dex.ts, on
    9-decimal tokens, and a few concrete swaps. */
module Scenarios {
  import opened Runtime
  import opened Math
  import opened State
  import opened Liquidity
  import opened Swap

  /** One token with 9 decimals, in base units. */
  const UNIT: nat := 1_000_000_000

  /** First deposit of 50 and 50 tokens into an empty pool by a user
      holding 100 of each: both amounts are taken and 50 LP tokens are
      minted, as many as the pool's count. */
  lemma FirstDepositOfFifty()
    ensures DepositQuote(0, 0, 0, 100 * UNIT, 100 * UNIT, 50 * UNIT, 50 * UNIT)
         == Ok(Deposit(50 * UNIT, 50 * UNIT, 50 * UNIT))
  {
    var x := 50 * UNIT;
    var minted := FirstDeposit(x, x).value.minted;
    assert (x + 1) * (x + 1) == x * x + 2 * x + 1;
    FloorSqrtUnique(x * x, x);
    FloorSqrtUnique(x * x, minted);
  }

  /** Second deposit of 50 and 50 by another user, into the pool the first
      one left (50 minted, 50 in each vault): the rate is 1, the share of
      vault 1 is 1, and 50 more LP tokens are minted; the count becomes 100
      and each vault holds 100. */
  lemma SecondDepositOfFifty()
    ensures DepositQuote(50 * UNIT, 50 * UNIT, 50 * UNIT, 100 * UNIT, 100 * UNIT, 50 * UNIT, 50 * UNIT)
         == Ok(Deposit(50 * UNIT, 50 * UNIT, 50 * UNIT))
  {
    var x := 50 * UNIT;
    DivModUnique(x, x, 1, 0);
    assert x * (x / x) == x;
  }

  /** The pool's LP count and the balances of its two vaults. */
  ghost predicate PoolHolds(c: Chain, pool: Key, count: nat, reserve0: nat, reserve1: nat)
  {
    && pool in c.pools && c.pools[pool].totalAmountMinted == count
    && Vault0Address(pool) in c.accounts && c.accounts[Vault0Address(pool)].amount == reserve0
    && Vault1Address(pool) in c.accounts && c.accounts[Vault1Address(pool)].amount == reserve1
  }

  /** The balance of one token account. */
  ghost predicate Holds(c: Chain, account: Key, amount: nat)
  {
    account in c.accounts && c.accounts[account].amount == amount
  }

  /** The first deposit of the test on the chain: a user holding 100 of each
      token and no LP tokens, with accounts set up as the test sets them up
      (they pass the checks, user0 holds vault 0's mint and is not user1),
      puts 50 and 50 into the fresh pool. The deposit goes through; afterwards
      the count is 50, each vault holds 50, and the user's LP balance is 50,
      equal to the count. */
  lemma FirstDepositOnChain(c: Chain, pool: Key, user0: Key, user1: Key, userPoolAta: Key, owner: Key)
    requires ValidChain(c) && owner.Wallet?
    requires PoolHolds(c, pool, 0, 0, 0)
    requires Holds(c, user0, 100 * UNIT) && Holds(c, user1, 100 * UNIT) && Holds(c, userPoolAta, 0)
    requires CheckLiquidityAccounts(c, pool, user0, user1, userPoolAta, owner).Ok?
    requires user0 != user1 && c.accounts[user0].mint == c.accounts[Vault0Address(pool)].mint
    ensures AddLiquidityEffect(c, pool, user0, user1, userPoolAta, owner, 50 * UNIT, 50 * UNIT).Ok?
    ensures var c' := AddLiquidityEffect(c, pool, user0, user1, userPoolAta, owner, 50 * UNIT, 50 * UNIT).value;
      && PoolHolds(c', pool, 50 * UNIT, 50 * UNIT, 50 * UNIT)
      && Holds(c', userPoolAta, c'.pools[pool].totalAmountMinted)
  {
    FirstDepositOfFifty();
    AddLiquiditySettleOutcome(c, pool, user0, user1, userPoolAta, owner, 50 * UNIT, 50 * UNIT);
    AddLiquiditySucceeded(c, pool, user0, user1, userPoolAta, owner, 50 * UNIT, 50 * UNIT);
    AddLiquidityMovesVaults(c, pool, user0, user1, userPoolAta, owner, 50 * UNIT, 50 * UNIT);
  }

  /** The second deposit of the test on the chain: another user, with 100 of
      each token, no LP tokens and accounts set up the same way, puts 50 and
      50 into the pool the first deposit left. The deposit goes through;
      afterwards the count is 100, each vault holds 100, and
      this user's LP balance is 50. */
  lemma SecondDepositOnChain(c: Chain, pool: Key, user0: Key, user1: Key, userPoolAta: Key, owner: Key)
    requires ValidChain(c) && owner.Wallet?
    requires PoolHolds(c, pool, 50 * UNIT, 50 * UNIT, 50 * UNIT)
    requires Holds(c, user0, 100 * UNIT) && Holds(c, user1, 100 * UNIT) && Holds(c, userPoolAta, 0)
    requires CheckLiquidityAccounts(c, pool, user0, user1, userPoolAta, owner).Ok?
    requires user0 != user1 && c.accounts[user0].mint == c.accounts[Vault0Address(pool)].mint
    ensures AddLiquidityEffect(c, pool, user0, user1, userPoolAta, owner, 50 * UNIT, 50 * UNIT).Ok?
    ensures var c' := AddLiquidityEffect(c, pool, user0, user1, userPoolAta, owner, 50 * UNIT, 50 * UNIT).value;
      && PoolHolds(c', pool, 100 * UNIT, 100 * UNIT, 100 * UNIT)
      && Holds(c', userPoolAta, 50 * UNIT)
  {
    SecondDepositOfFifty();
    AddLiquiditySettleOutcome(c, pool, user0, user1, userPoolAta, owner, 50 * UNIT, 50 * UNIT);
    AddLiquiditySucceeded(c, pool, user0, user1, userPoolAta, owner, 50 * UNIT, 50 * UNIT);
    AddLiquidityMovesVaults(c, pool, user0, user1, userPoolAta, owner, 50 * UNIT, 50 * UNIT);
  }

  /** A second depositor who brings 49 of token 0 gets nothing: the rate
      49 * 1 falls short of vault 1, so the share rounds to zero. */
  lemma SecondDepositOfFortyNine()
    ensures DepositQuote(50 * UNIT, 50 * UNIT, 50 * UNIT, 100 * UNIT, 100 * UNIT, 49 * UNIT, 50 * UNIT)
         == Err(NoPoolMintOutput)
  {
    var x := 50 * UNIT;
    DivModUnique(x, x, 1, 0);
    DepositBelowVaultMintsNothing(x, x, x, 49 * UNIT, x);
  }

  /** The square roots the loop must get right without iterating: 0 and 1. */
  lemma RootsOfZeroAndOne()
    ensures FloorSqrt(0) == 0 && FloorSqrt(1) == 1
  {
  }

  /** One unit in against one unit in each vault buys the whole out-vault. */
  lemma SwapOneForOne()
    ensures SwapOutput(1, 1, 1) == 1
  {
  }

  /** 10 tokens into a pool of 100 and 100 buy 9.090909091 tokens: the exact
      price 9.0909090909... rounded up in the last unit. */
  lemma SwapTenIntoHundred()
    ensures SwapOutput(100 * UNIT, 100 * UNIT, 10 * UNIT) == 9_090_909_091
  {
    var k := (100 * UNIT) * (100 * UNIT);
    var d := 110 * UNIT;
    DivModUnique(k, d, 90_909_090_909, k - d * 90_909_090_909);
  }
}
