/** `add_liquidity` and `remove_liquidity`, with the `LiquidityOperation`
    account constraints. The mint amount is the program's own formula:
    the integer square root of the product on an empty pool, and a
    whole-number exchange rate otherwise. */
module Liquidity {
  import opened Runtime
  import opened Token
  import opened Math
  import opened State

  /** What a deposit takes from the user and how many LP tokens it mints. */
  datatype Deposit = Deposit(amount0: u64, amount1: u64, minted: u64)

  /** The deposit into a pool that has never minted: both amounts are
      taken and the LP amount is floor(sqrt(amount0 * amount1)), refused
      when it is zero. */
  function FirstDeposit(amount0: u64, amount1: u64): (r: Result<Deposit>)
    ensures r.Ok? <==> amount0 > 0 && amount1 > 0
    ensures r.Err? ==> r.error == NoPoolMintOutput
    ensures r.Ok? ==>
      && r.value.amount0 == amount0 && r.value.amount1 == amount1
      && r.value.minted * r.value.minted <= amount0 * amount1 < (r.value.minted + 1) * (r.value.minted + 1)
  {
    U64ProductFitsSqrt(amount0, amount1);
    var minted := FloorSqrt(amount0 * amount1);
    assert amount0 * amount1 == 0 <==> amount0 == 0 || amount1 == 0 by {
      if amount0 > 0 && amount1 > 0 { MulMonotone(amount0, 1, amount1); }
    }
    if minted == 0 then Err(NoPoolMintOutput) else Ok(Deposit(amount0, amount1, minted))
  }

  /** The deposit into a pool that has minted: the amount of token 1 taken
      is amount0 times the whole-number rate vault1 / vault0, and the LP
      amount is the whole number of vault-1 balances deposited times the
      supply. Each division by zero and each u64 overflow panics. */
  function LaterDeposit(total: u64, vault0: u64, vault1: u64, amount0: u64, amount1: u64): (r: Result<Deposit>)
    requires total > 0
    ensures r.Ok? ==>
      && vault0 > 0 && vault1 > 0
      && r.value.amount0 == amount0 && r.value.amount1 <= amount1 && r.value.minted > 0
      && r.value.amount1 == amount0 * (vault1 / vault0)
      && r.value.minted == (r.value.amount1 / vault1) * total
  {
    if vault0 == 0 then Err(Panic)
    else
      QuotientIsNat(vault1, vault0);
      var rate: nat := vault1 / vault0;
      MulMonotone(amount0, 0, rate);
      if amount0 * rate >= U64_LIMIT then Err(Panic)
      else
        var deposit1: u64 := amount0 * rate;
        if deposit1 > amount1 then Err(NotEnoughBalance)
        else if vault1 == 0 then Err(Panic)
        else
          QuotientIsNat(deposit1, vault1);
          var ratio: nat := deposit1 / vault1;
          MulMonotone(total, 0, ratio);
          if ratio * total >= U64_LIMIT then Err(Panic)
          else
            var minted: u64 := ratio * total;
            if minted == 0 then Err(NoPoolMintOutput) else Ok(Deposit(amount0, deposit1, minted))
  }

  /** How a deposit into a pool that has minted fails, and when it does
      not: an empty vault panics on the division (vault 1 empty gives a zero
      rate and reaches the second division), an overflowing amount of
      token 1 panics, one beyond what the user offered is refused, an
      overflowing LP amount panics and a zero one is refused; it succeeds
      exactly when none of these happens. */
  lemma LaterDepositErrors(total: u64, vault0: u64, vault1: u64, amount0: u64, amount1: u64)
    requires total > 0
    ensures vault0 == 0 || vault1 == 0 ==> LaterDeposit(total, vault0, vault1, amount0, amount1) == Err(Panic)
    ensures vault0 > 0 && amount0 * (vault1 / vault0) >= U64_LIMIT ==> LaterDeposit(total, vault0, vault1, amount0, amount1) == Err(Panic)
    ensures vault0 > 0 && amount1 < amount0 * (vault1 / vault0) < U64_LIMIT ==>
      LaterDeposit(total, vault0, vault1, amount0, amount1) == Err(NotEnoughBalance)
    ensures (vault0 > 0 && vault1 > 0 && amount0 * (vault1 / vault0) <= amount1
             && ((amount0 * (vault1 / vault0)) / vault1) * total >= U64_LIMIT) ==>
      LaterDeposit(total, vault0, vault1, amount0, amount1) == Err(Panic)
    ensures (vault0 > 0 && vault1 > 0 && amount0 * (vault1 / vault0) <= amount1
             && ((amount0 * (vault1 / vault0)) / vault1) * total == 0) ==>
      LaterDeposit(total, vault0, vault1, amount0, amount1) == Err(NoPoolMintOutput)
    ensures LaterDeposit(total, vault0, vault1, amount0, amount1).Ok? <==>
      && vault0 > 0 && vault1 > 0 && amount0 * (vault1 / vault0) <= amount1
      && 0 < ((amount0 * (vault1 / vault0)) / vault1) * total < U64_LIMIT
  {
    if vault0 > 0 && vault1 == 0 {
      assert vault1 / vault0 == 0;
      assert amount0 * (vault1 / vault0) == 0;
    }
  }

  /** The arithmetic of `add_liquidity`, from the balance checks to the
      refusal to mint zero. */
  function DepositQuote(total: u64, vault0: u64, vault1: u64, balance0: u64, balance1: u64, amount0: u64, amount1: u64)
    : (r: Result<Deposit>)
    ensures amount0 > balance0 || amount1 > balance1 ==> r == Err(NotEnoughBalance)
    ensures r.Ok? ==> r.value.amount0 == amount0 && r.value.amount1 <= amount1 && r.value.minted > 0
  {
    if amount0 > balance0 || amount1 > balance1 then Err(NotEnoughBalance)
    else if total == 0 then FirstDeposit(amount0, amount1)
    else LaterDeposit(total, vault0, vault1, amount0, amount1)
  }

  /** On a pool that has minted, a deposit whose token-1 part does not
      reach the whole of vault 1 mints nothing and is refused. */
  lemma DepositBelowVaultMintsNothing(total: u64, vault0: u64, vault1: u64, amount0: u64, amount1: u64)
    requires total > 0 && vault0 > 0
    requires amount0 * (vault1 / vault0) <= amount1
    requires amount0 * (vault1 / vault0) < vault1
    ensures LaterDeposit(total, vault0, vault1, amount0, amount1) == Err(NoPoolMintOutput)
  {
    QuotientIsNat(vault1, vault0);
    var rate: nat := vault1 / vault0;
    MulMonotone(amount0, 0, rate);
    var deposit1: nat := amount0 * rate;
    DivModUnique(deposit1, vault1, 0, deposit1);
    assert (deposit1 / vault1) * total == 0;
  }

  /** On a pool that has minted, the LP amount is a whole multiple of the
      supply, at least the supply itself, and the token-1 deposit covers at
      least the whole of vault 1. */
  lemma MintIsMultipleOfSupply(total: u64, vault0: u64, vault1: u64, amount0: u64, amount1: u64)
    requires total > 0
    requires LaterDeposit(total, vault0, vault1, amount0, amount1).Ok?
    ensures var d := LaterDeposit(total, vault0, vault1, amount0, amount1).value;
      d.minted % total == 0 && d.minted >= total && d.amount1 >= vault1
  {
    var d := LaterDeposit(total, vault0, vault1, amount0, amount1).value;
    var ratio := d.amount1 / vault1;
    assert d.minted == ratio * total;
    assert ratio >= 1;
    MulMonotone(total, 1, ratio);
    DivModUnique(ratio * total, total, ratio, 0);
    assert d.amount1 >= ratio * vault1 by { assert d.amount1 == ratio * vault1 + d.amount1 % vault1; }
    MulMonotone(vault1, 1, ratio);
  }

  /** Rounding never favours the depositor: the share of the supply minted
      is at most the share of each vault deposited. */
  lemma DepositDoesNotDilute(total: u64, vault0: u64, vault1: u64, amount0: u64, amount1: u64)
    requires total > 0
    requires LaterDeposit(total, vault0, vault1, amount0, amount1).Ok?
    ensures var d := LaterDeposit(total, vault0, vault1, amount0, amount1).value;
      d.minted * vault1 <= d.amount1 * total && d.minted * vault0 <= d.amount0 * total
  {
    var d := LaterDeposit(total, vault0, vault1, amount0, amount1).value;
    ShareBound(total, vault0, vault1, amount0, d.amount1, d.minted);
  }

  /** The arithmetic of `DepositDoesNotDilute` on plain numbers. */
  lemma ShareBound(total: nat, vault0: nat, vault1: nat, amount0: nat, deposit1: nat, minted: nat)
    requires vault0 > 0 && vault1 > 0
    requires deposit1 == amount0 * (vault1 / vault0)
    requires minted == (deposit1 / vault1) * total
    ensures minted * vault1 <= deposit1 * total && minted * vault0 <= amount0 * total
  {
    ShareOfVault1(total, vault1, deposit1, minted);
    DepositAtRate(amount0, vault0, vault1, deposit1);
    DiluteStep(minted, vault0, vault1, deposit1, amount0, total);
  }

  /** minted = floor(deposit1 / vault1) * total is at most deposit1 / vault1 of total. */
  lemma ShareOfVault1(total: nat, vault1: nat, deposit1: nat, minted: nat)
    requires vault1 > 0
    requires minted == (deposit1 / vault1) * total
    ensures minted * vault1 <= deposit1 * total
  {
    QuotientIsNat(deposit1, vault1);
    var ratio: nat := deposit1 / vault1;
    FloorDivBounds(deposit1, vault1);
    MulMonotone(total, ratio * vault1, deposit1);
    Reassociate(ratio, total, vault1);
  }

  /** amount0 * floor(vault1 / vault0) is at most amount0 * vault1 / vault0. */
  lemma DepositAtRate(amount0: nat, vault0: nat, vault1: nat, deposit1: nat)
    requires vault0 > 0
    requires deposit1 == amount0 * (vault1 / vault0)
    ensures deposit1 * vault0 <= amount0 * vault1
  {
    QuotientIsNat(vault1, vault0);
    var rate: nat := vault1 / vault0;
    FloorDivBounds(vault1, vault0);
    MulMonotone(amount0, rate * vault0, vault1);
    Reassociate(amount0, rate, vault0);
  }

  /** From m * v1 <= a1 * t and a1 * v0 <= a0 * v1 (v1 > 0) follows m * v0 <= a0 * t. */
  lemma DiluteStep(m: nat, v0: nat, v1: nat, a1: nat, a0: nat, t: nat)
    requires v1 > 0
    requires m * v1 <= a1 * t
    requires a1 * v0 <= a0 * v1
    ensures m * v0 <= a0 * t
  {
    MulMonotone(v0, m * v1, a1 * t);
    MulMonotone(t, a1 * v0, a0 * v1);
    Reassociate(m, v0, v1);
    Reassociate(a1, t, v0);
    Reassociate(a0, t, v1);
    assert (m * v0) * v1 <= (a0 * t) * v1;
    MulCancel(v1, m * v0, a0 * t);
  }

  /** The framework's checks of the `LiquidityOperation` accounts, in the
      order it makes them. The constraint written on vault0 compares vault1
      with user1, the same as the one on vault1, so vault0's mint is never
      compared with user0's. */
  function CheckLiquidityAccounts(c: Chain, pool: Key, user0: Key, user1: Key, userPoolAta: Key, owner: Key)
    : (r: Result<()>)
    ensures r.Ok? <==>
      && pool in c.pools && PoolMintAddress(pool) in c.mints
      && Vault0Address(pool) in c.accounts && Vault1Address(pool) in c.accounts
      && user0 in c.accounts && user1 in c.accounts && userPoolAta in c.accounts
      && c.accounts[Vault1Address(pool)].mint == c.accounts[user1].mint
      && c.accounts[userPoolAta].mint == PoolMintAddress(pool)
      && c.accounts[user0].owner == owner && c.accounts[user1].owner == owner
      && c.accounts[userPoolAta].owner == owner
    ensures !(&& pool in c.pools && PoolMintAddress(pool) in c.mints
              && Vault0Address(pool) in c.accounts && Vault1Address(pool) in c.accounts
              && user0 in c.accounts && user1 in c.accounts && userPoolAta in c.accounts)
      ==> r == Err(AccountNotInitialized)
    ensures (&& pool in c.pools && PoolMintAddress(pool) in c.mints
             && Vault0Address(pool) in c.accounts && Vault1Address(pool) in c.accounts
             && user0 in c.accounts && user1 in c.accounts && userPoolAta in c.accounts
             && (c.accounts[Vault1Address(pool)].mint != c.accounts[user1].mint
                 || c.accounts[userPoolAta].mint != PoolMintAddress(pool)))
      ==> r == Err(ConstraintRaw)
    ensures (&& pool in c.pools && PoolMintAddress(pool) in c.mints
             && Vault0Address(pool) in c.accounts && Vault1Address(pool) in c.accounts
             && user0 in c.accounts && user1 in c.accounts && userPoolAta in c.accounts
             && c.accounts[Vault1Address(pool)].mint == c.accounts[user1].mint
             && c.accounts[userPoolAta].mint == PoolMintAddress(pool) && r.Err?)
      ==> r == Err(ConstraintHasOne)
    ensures r.Err? ==> r.error in {AccountNotInitialized, ConstraintRaw, ConstraintHasOne}
  {
    if pool !in c.pools || Vault0Address(pool) !in c.accounts || Vault1Address(pool) !in c.accounts
      || PoolMintAddress(pool) !in c.mints || user0 !in c.accounts || user1 !in c.accounts
      || userPoolAta !in c.accounts then
      Err(AccountNotInitialized)
    else if c.accounts[Vault1Address(pool)].mint != c.accounts[user1].mint then Err(ConstraintRaw)
    else if c.accounts[userPoolAta].mint != PoolMintAddress(pool) then Err(ConstraintRaw)
    else if c.accounts[user0].owner != owner || c.accounts[user1].owner != owner
      || c.accounts[userPoolAta].owner != owner then
      Err(ConstraintHasOne)
    else Ok(())
  }

  /** The account checks never look at the mint of user0: giving it any
      other mint leaves their outcome as it was. */
  lemma User0MintUnchecked(c: Chain, pool: Key, user0: Key, user1: Key, userPoolAta: Key, owner: Key, mint: Key)
    requires user0 in c.accounts
    requires user0 != user1 && user0 != userPoolAta && user0 != Vault1Address(pool)
    ensures CheckLiquidityAccounts(c.(accounts := c.accounts[user0 := c.accounts[user0].(mint := mint)]), pool, user0, user1, userPoolAta, owner)
         == CheckLiquidityAccounts(c, pool, user0, user1, userPoolAta, owner)
  {
  }

  /** The deposit `add_liquidity` computes from the chain it runs on. */
  function QuoteOn(c: Chain, pool: Key, user0: Key, user1: Key, amount0: u64, amount1: u64): Result<Deposit>
    requires pool in c.pools && user0 in c.accounts && user1 in c.accounts
    requires Vault0Address(pool) in c.accounts && Vault1Address(pool) in c.accounts
  {
    DepositQuote(c.pools[pool].totalAmountMinted, c.accounts[Vault0Address(pool)].amount, c.accounts[Vault1Address(pool)].amount,
                 c.accounts[user0].amount, c.accounts[user1].amount, amount0, amount1)
  }

  /** `add_liquidity` as a function of the chain: account checks, the
      deposit arithmetic, the `+=` on the pool's count, then `mint_to` of
      the LP tokens and the two transfers into the vaults. */
  function AddLiquidityEffect(c: Chain, pool: Key, user0: Key, user1: Key, userPoolAta: Key, owner: Key, amount0: u64, amount1: u64)
    : (e: Result<Chain>)
    ensures CheckLiquidityAccounts(c, pool, user0, user1, userPoolAta, owner).Err? ==>
      e == Err(CheckLiquidityAccounts(c, pool, user0, user1, userPoolAta, owner).error)
    ensures (CheckLiquidityAccounts(c, pool, user0, user1, userPoolAta, owner).Ok?
             && QuoteOn(c, pool, user0, user1, amount0, amount1).Err?) ==>
      e == Err(QuoteOn(c, pool, user0, user1, amount0, amount1).error)
    ensures e.Ok? ==> CheckLiquidityAccounts(c, pool, user0, user1, userPoolAta, owner).Ok?
  {
    var checked :- CheckLiquidityAccounts(c, pool, user0, user1, userPoolAta, owner);
    var deposit :- QuoteOn(c, pool, user0, user1, amount0, amount1);
    Settle(c, pool, user0, user1, userPoolAta, owner, deposit)
  }

  /** The second half of `add_liquidity`, once the deposit is known: the
      `+=` on the pool's count, then the token-program calls. */
  function Settle(c: Chain, pool: Key, user0: Key, user1: Key, userPoolAta: Key, owner: Key, deposit: Deposit): (e: Result<Chain>)
    requires pool in c.pools
    ensures e.Ok? ==> e.value.pools.Keys == c.pools.Keys && e.value.mints.Keys == c.mints.Keys && e.value.accounts.Keys == c.accounts.Keys
  {
    var total := c.pools[pool].totalAmountMinted;
    if total + deposit.minted >= U64_LIMIT then Err(Panic)
    else
      var paid :- Pay(c.mints, c.accounts, pool, user0, user1, userPoolAta, owner, deposit);
      Ok(Chain(c.pools[pool := c.pools[pool].(totalAmountMinted := total + deposit.minted)], paid.1, paid.0))
  }

  /** The token-program calls of `add_liquidity`: `mint_to` of the LP
      tokens into the user's LP account, signed by the pool authority, then
      the transfers of the two deposits into the vaults, signed by the user. */
  function Pay(mints: map<Key, Mint>, accounts: map<Key, Account>, pool: Key, user0: Key, user1: Key, userPoolAta: Key, owner: Key,
               deposit: Deposit): (r: Result<(map<Key, Mint>, map<Key, Account>)>)
    ensures r.Ok? ==> r.value.0.Keys == mints.Keys && r.value.1.Keys == accounts.Keys
  {
    var minted :- MintTo(mints, accounts, PoolMintAddress(pool), userPoolAta, AuthorityAddress(pool), deposit.minted);
    var paid0 :- Transfer(minted.1, user0, Vault0Address(pool), owner, deposit.amount0);
    var paid1 :- Transfer(paid0, user1, Vault1Address(pool), owner, deposit.amount1);
    Ok((minted.0, paid1))
  }

  /** What the token-program calls of a deposit do when they go through:
      each user account holds the mint of the vault it pays into, the LP
      supply rises by the minted amount, the user's LP account gains it and
      the two deposits move into the vaults; nothing else changes. */
  lemma PayMoves(mints: map<Key, Mint>, accounts: map<Key, Account>, pool: Key, user0: Key, user1: Key, userPoolAta: Key,
                 owner: Key, deposit: Deposit)
    requires Pay(mints, accounts, pool, user0, user1, userPoolAta, owner, deposit).Ok?
    ensures var r := Pay(mints, accounts, pool, user0, user1, userPoolAta, owner, deposit);
      && user0 in accounts && Vault0Address(pool) in accounts && accounts[user0].mint == accounts[Vault0Address(pool)].mint
      && user1 in accounts && Vault1Address(pool) in accounts && accounts[user1].mint == accounts[Vault1Address(pool)].mint
    ensures var r := Pay(mints, accounts, pool, user0, user1, userPoolAta, owner, deposit);
      forall m {:trigger r.value.0[m]} :: m in mints ==>
      && r.value.0[m].authority == mints[m].authority && r.value.0[m].decimals == mints[m].decimals
      && r.value.0[m].supply == mints[m].supply + (if m == PoolMintAddress(pool) then deposit.minted else 0)
    ensures var r := Pay(mints, accounts, pool, user0, user1, userPoolAta, owner, deposit);
      forall k {:trigger r.value.1[k]} :: k in accounts ==>
      && r.value.1[k].mint == accounts[k].mint && r.value.1[k].owner == accounts[k].owner
      && r.value.1[k].amount == accounts[k].amount + (if k == userPoolAta then deposit.minted else 0)
           + Moved(k, user0, Vault0Address(pool), deposit.amount0) + Moved(k, user1, Vault1Address(pool), deposit.amount1)
  {
  }

  /** A successful deposit raises the pool's count and the LP supply by the
      minted amount, credits the LP tokens to the user's LP account and
      moves the two deposits from the user's accounts into the vaults;
      nothing else changes. */
  lemma AddLiquiditySucceeded(c: Chain, pool: Key, user0: Key, user1: Key, userPoolAta: Key, owner: Key, amount0: u64, amount1: u64)
    requires AddLiquidityEffect(c, pool, user0, user1, userPoolAta, owner, amount0, amount1).Ok?
    ensures CheckLiquidityAccounts(c, pool, user0, user1, userPoolAta, owner).Ok?
    ensures QuoteOn(c, pool, user0, user1, amount0, amount1).Ok?
    ensures
      var c' := AddLiquidityEffect(c, pool, user0, user1, userPoolAta, owner, amount0, amount1).value;
      var d := QuoteOn(c, pool, user0, user1, amount0, amount1).value;
      && d.amount0 == amount0 && d.amount1 <= amount1 && d.minted > 0
      && c.accounts[user0].mint == c.accounts[Vault0Address(pool)].mint
      && c.accounts[user1].mint == c.accounts[Vault1Address(pool)].mint
      && c'.pools.Keys == c.pools.Keys
      && c'.pools[pool] == c.pools[pool].(totalAmountMinted := c.pools[pool].totalAmountMinted + d.minted)
      && (forall p :: p in c.pools && p != pool ==> c'.pools[p] == c.pools[p])
      && c'.mints.Keys == c.mints.Keys
      && (forall m :: m in c.mints ==>
            && c'.mints[m].authority == c.mints[m].authority && c'.mints[m].decimals == c.mints[m].decimals
            && c'.mints[m].supply == c.mints[m].supply + (if m == PoolMintAddress(pool) then d.minted else 0))
      && c'.accounts.Keys == c.accounts.Keys
      && (forall k :: k in c.accounts ==>
            && c'.accounts[k].mint == c.accounts[k].mint && c'.accounts[k].owner == c.accounts[k].owner
            && c'.accounts[k].amount == c.accounts[k].amount + (if k == userPoolAta then d.minted else 0)
                 + Moved(k, user0, Vault0Address(pool), d.amount0) + Moved(k, user1, Vault1Address(pool), d.amount1))
  {
    var d := QuoteOn(c, pool, user0, user1, amount0, amount1).value;
    assert AddLiquidityEffect(c, pool, user0, user1, userPoolAta, owner, amount0, amount1)
        == Settle(c, pool, user0, user1, userPoolAta, owner, d);
    var paid := Pay(c.mints, c.accounts, pool, user0, user1, userPoolAta, owner, d).value;
    SettlePays(c, pool, user0, user1, userPoolAta, owner, d, paid);
    PayMoves(c.mints, c.accounts, pool, user0, user1, userPoolAta, owner, d);
  }

  /** With the pool's accounts in place and a wallet as signer, the user's
      accounts are not the vaults, and (the transfers demanding matching
      mints, and no vault holding the LP token) not the user's LP account
      either: vault 0 grows by exactly `amount0`, vault 1 by the computed
      token-1 deposit, and the user's LP account by the minted amount. */
  lemma AddLiquidityMovesVaults(c: Chain, pool: Key, user0: Key, user1: Key, userPoolAta: Key, owner: Key, amount0: u64, amount1: u64)
    requires ValidChain(c) && owner.Wallet?
    requires AddLiquidityEffect(c, pool, user0, user1, userPoolAta, owner, amount0, amount1).Ok?
    ensures QuoteOn(c, pool, user0, user1, amount0, amount1).Ok?
    ensures
      var c' := AddLiquidityEffect(c, pool, user0, user1, userPoolAta, owner, amount0, amount1).value;
      var d := QuoteOn(c, pool, user0, user1, amount0, amount1).value;
      && c'.accounts[Vault0Address(pool)].amount == c.accounts[Vault0Address(pool)].amount + amount0
      && c'.accounts[Vault1Address(pool)].amount == c.accounts[Vault1Address(pool)].amount + d.amount1
      && c'.accounts[userPoolAta].amount == c.accounts[userPoolAta].amount + d.minted
  {
    AddLiquiditySucceeded(c, pool, user0, user1, userPoolAta, owner, amount0, amount1);
    var c' := AddLiquidityEffect(c, pool, user0, user1, userPoolAta, owner, amount0, amount1).value;
    var d := QuoteOn(c, pool, user0, user1, amount0, amount1).value;
    var v0, v1 := Vault0Address(pool), Vault1Address(pool);
    assert PoolAccountsValid(c, pool);
    // The vaults belong to the derived authority, the user's accounts to a wallet.
    assert c.accounts[v0].owner.Derived? && c.accounts[v1].owner.Derived?;
    assert user0 != v0 && user0 != v1 && user1 != v0 && user1 != v1 && userPoolAta != v0 && userPoolAta != v1;
    assert v0 != v1 by { DerivedAddressesDistinct(pool, pool); }
    assert c'.accounts[v0].amount == c.accounts[v0].amount + Moved(v0, user0, v0, d.amount0) + Moved(v0, user1, v1, d.amount1);
    assert c'.accounts[v1].amount == c.accounts[v1].amount + Moved(v1, user0, v0, d.amount0) + Moved(v1, user1, v1, d.amount1);
    // The user's token accounts hold the vaults' mints, which are not the LP mint.
    assert user0 != userPoolAta && user1 != userPoolAta;
    assert c'.accounts[userPoolAta].amount == c.accounts[userPoolAta].amount + d.minted
      + Moved(userPoolAta, user0, v0, d.amount0) + Moved(userPoolAta, user1, v1, d.amount1);
  }
  /** What decides a deposit once the accounts pass and the quote is made:
      the `+=` on the count panics on overflow, `mint_to` fails only when
      the user's LP balance would overflow, the first transfer fails with
      `MintMismatch` when user0 does not hold vault 0's mint (the account
      checks never compare the two), and either transfer fails only when
      its vault would overflow. With a wallet as signer and two different
      user accounts, the deposit goes through exactly when none of these
      happens. */
  lemma AddLiquiditySettleOutcome(c: Chain, pool: Key, user0: Key, user1: Key, userPoolAta: Key, owner: Key,
                                  amount0: u64, amount1: u64)
    requires ValidChain(c) && owner.Wallet? && user0 != user1
    requires CheckLiquidityAccounts(c, pool, user0, user1, userPoolAta, owner).Ok?
    requires QuoteOn(c, pool, user0, user1, amount0, amount1).Ok?
    ensures
      var d := QuoteOn(c, pool, user0, user1, amount0, amount1).value;
      c.pools[pool].totalAmountMinted + d.minted >= U64_LIMIT ==>
        AddLiquidityEffect(c, pool, user0, user1, userPoolAta, owner, amount0, amount1) == Err(Panic)
    ensures
      var d := QuoteOn(c, pool, user0, user1, amount0, amount1).value;
      (&& c.pools[pool].totalAmountMinted + d.minted < U64_LIMIT
       && c.accounts[userPoolAta].amount + d.minted < U64_LIMIT
       && c.accounts[user0].mint != c.accounts[Vault0Address(pool)].mint) ==>
        AddLiquidityEffect(c, pool, user0, user1, userPoolAta, owner, amount0, amount1) == Err(MintMismatch)
    ensures
      var e := AddLiquidityEffect(c, pool, user0, user1, userPoolAta, owner, amount0, amount1);
      e.Err? ==> e.error in {Panic, Overflow, MintMismatch}
    ensures
      var d := QuoteOn(c, pool, user0, user1, amount0, amount1).value;
      AddLiquidityEffect(c, pool, user0, user1, userPoolAta, owner, amount0, amount1).Ok? <==>
        && c.pools[pool].totalAmountMinted + d.minted < U64_LIMIT
        && c.accounts[userPoolAta].amount + d.minted < U64_LIMIT
        && c.accounts[user0].mint == c.accounts[Vault0Address(pool)].mint
        && c.accounts[Vault0Address(pool)].amount + amount0 < U64_LIMIT
        && c.accounts[Vault1Address(pool)].amount + d.amount1 < U64_LIMIT
  {
    var d := QuoteOn(c, pool, user0, user1, amount0, amount1).value;
    var v0, v1 := Vault0Address(pool), Vault1Address(pool);
    assert PoolAccountsValid(c, pool);
    DerivedAddressesDistinct(pool, pool);
    // The vaults belong to the derived authority, the user's accounts to a wallet.
    assert c.accounts[v0].owner.Derived? && c.accounts[v1].owner.Derived?;
    assert user0 != v0 && user0 != v1 && user1 != v0 && user1 != v1 && userPoolAta != v0 && userPoolAta != v1;
    assert AddLiquidityEffect(c, pool, user0, user1, userPoolAta, owner, amount0, amount1)
        == Settle(c, pool, user0, user1, userPoolAta, owner, d);
    if c.pools[pool].totalAmountMinted + d.minted < U64_LIMIT {
      PayOutcome(c.mints, c.accounts, pool, user0, user1, userPoolAta, owner, d);
    }
  }

  /** The token calls of a deposit whose accounts passed: `mint_to` fails
      only when the user's LP balance would overflow, the first transfer
      with `MintMismatch` when user0 does not hold vault 0's mint, and
      either transfer otherwise only when its vault would overflow. */
  lemma PayOutcome(mints: map<Key, Mint>, accounts: map<Key, Account>, pool: Key, user0: Key, user1: Key, userPoolAta: Key,
                   owner: Key, deposit: Deposit)
    requires PoolMintAddress(pool) in mints && mints[PoolMintAddress(pool)].authority == AuthorityAddress(pool)
    requires mints[PoolMintAddress(pool)].supply + deposit.minted < U64_LIMIT
    requires && user0 in accounts && user1 in accounts && userPoolAta in accounts
             && Vault0Address(pool) in accounts && Vault1Address(pool) in accounts
    requires accounts[userPoolAta].mint == PoolMintAddress(pool)
    requires accounts[user1].mint == accounts[Vault1Address(pool)].mint
    requires accounts[Vault1Address(pool)].mint != PoolMintAddress(pool)
    requires accounts[user0].owner == owner && accounts[user1].owner == owner
    requires deposit.amount0 <= accounts[user0].amount && deposit.amount1 <= accounts[user1].amount
    requires && user0 != user1 && Vault0Address(pool) != Vault1Address(pool)
             && user0 != Vault0Address(pool) && user0 != Vault1Address(pool)
             && user1 != Vault0Address(pool) && user1 != Vault1Address(pool)
             && userPoolAta != Vault0Address(pool) && userPoolAta != Vault1Address(pool)
    ensures
      (accounts[userPoolAta].amount + deposit.minted < U64_LIMIT
       && accounts[user0].mint != accounts[Vault0Address(pool)].mint) ==>
        Pay(mints, accounts, pool, user0, user1, userPoolAta, owner, deposit) == Err(MintMismatch)
    ensures
      var r := Pay(mints, accounts, pool, user0, user1, userPoolAta, owner, deposit);
      r.Err? ==> r.error in {Overflow, MintMismatch}
    ensures Pay(mints, accounts, pool, user0, user1, userPoolAta, owner, deposit).Ok? <==>
      && accounts[userPoolAta].amount + deposit.minted < U64_LIMIT
      && accounts[user0].mint == accounts[Vault0Address(pool)].mint
      && accounts[Vault0Address(pool)].amount + deposit.amount0 < U64_LIMIT
      && accounts[Vault1Address(pool)].amount + deposit.amount1 < U64_LIMIT
  {
    var v0, v1 := Vault0Address(pool), Vault1Address(pool);
    var minted := MintTo(mints, accounts, PoolMintAddress(pool), userPoolAta, AuthorityAddress(pool), deposit.minted);
    if minted.Ok? {
      var after := minted.value.1;
      assert after[user0].amount >= accounts[user0].amount;
      assert after[user0].mint == accounts[user0].mint && after[v0] == accounts[v0];
      var paid0 := Transfer(after, user0, v0, owner, deposit.amount0);
      if paid0.Ok? {
        assert after[user1] == accounts[user1] && after[v1] == accounts[v1];
        assert paid0.value[user1] == accounts[user1] by {
          assert paid0.value[user1].amount == after[user1].amount + Moved(user1, user0, v0, deposit.amount0);
        }
        assert paid0.value[v1] == accounts[v1] by {
          assert paid0.value[v1].amount == after[v1].amount + Moved(v1, user0, v0, deposit.amount0);
        }
      }
    }
  }



  lemma AddLiquidityPreservesValid(c: Chain, pool: Key, user0: Key, user1: Key, userPoolAta: Key, owner: Key, amount0: u64, amount1: u64)
    requires ValidChain(c)
    ensures AddLiquidityEffect(c, pool, user0, user1, userPoolAta, owner, amount0, amount1).Ok? ==>
      ValidChain(AddLiquidityEffect(c, pool, user0, user1, userPoolAta, owner, amount0, amount1).value)
  {
    var e := AddLiquidityEffect(c, pool, user0, user1, userPoolAta, owner, amount0, amount1);
    if e.Ok? {
      AddLiquiditySucceeded(c, pool, user0, user1, userPoolAta, owner, amount0, amount1);
      forall p | p in e.value.pools
        ensures PoolAccountsValid(e.value, p)
      {
        assert PoolAccountsValid(c, p);
      }
    }
  }

  /** The arithmetic of `add_liquidity` as the handler runs it: the balance
      checks, then on an empty pool the Newton square root of the product,
      otherwise the exchange rate and the share of vault 1, with each
      checked step panicking on overflow or division by zero. */
  method ComputeDeposit(total: u64, vault0: u64, vault1: u64, balance0: u64, balance1: u64, amount0: u64, amount1: u64)
    returns (r: Result<Deposit>)
    ensures r == DepositQuote(total, vault0, vault1, balance0, balance1, amount0, amount1)
  {
    if amount0 > balance0 {
      return Err(NotEnoughBalance);
    }
    if amount1 > balance1 {
      return Err(NotEnoughBalance);
    }
    var deposit0 := amount0;
    var deposit1: u64;
    var amountToMint: u64;
    if total == 0 {
      deposit1 := amount1;
      U64ProductFitsSqrt(deposit0, deposit1);
      amountToMint := Sqrt(deposit0 * deposit1);
      assert DepositQuote(total, vault0, vault1, balance0, balance1, amount0, amount1) == FirstDeposit(amount0, amount1);
    } else {
      assert DepositQuote(total, vault0, vault1, balance0, balance1, amount0, amount1)
          == LaterDeposit(total, vault0, vault1, amount0, amount1);
      if vault0 == 0 {
        return Err(Panic);
      }
      QuotientIsNat(vault1, vault0);
      var exchange10 := vault1 / vault0;
      MulMonotone(deposit0, 0, exchange10);
      if deposit0 * exchange10 >= U64_LIMIT {
        return Err(Panic);
      }
      var amountDeposit1: u64 := deposit0 * exchange10;
      if amountDeposit1 > amount1 {
        return Err(NotEnoughBalance);
      }
      deposit1 := amountDeposit1;
      if vault1 == 0 {
        return Err(Panic);
      }
      QuotientIsNat(deposit1, vault1);
      var ratio := deposit1 / vault1;
      MulMonotone(total, 0, ratio);
      if ratio * total >= U64_LIMIT {
        return Err(Panic);
      }
      amountToMint := ratio * total;
    }
    if amountToMint == 0 {
      return Err(NoPoolMintOutput);
    }
    r := Ok(Deposit(deposit0, deposit1, amountToMint));
  }

  /** `Settle` once the token-program calls have gone through. */
  lemma SettlePays(c: Chain, pool: Key, user0: Key, user1: Key, userPoolAta: Key, owner: Key, deposit: Deposit,
                   paid: (map<Key, Mint>, map<Key, Account>))
    requires pool in c.pools && c.pools[pool].totalAmountMinted + deposit.minted < U64_LIMIT
    requires Pay(c.mints, c.accounts, pool, user0, user1, userPoolAta, owner, deposit) == Ok(paid)
    ensures Settle(c, pool, user0, user1, userPoolAta, owner, deposit)
         == Ok(Chain(c.pools[pool := c.pools[pool].(totalAmountMinted := c.pools[pool].totalAmountMinted + deposit.minted)], paid.1, paid.0))
  {
  }

  /** The second half of `add_liquidity` on the ledger. */
  method SettleDeposit(ledger: Ledger, pool: Key, user0: Key, user1: Key, userPoolAta: Key, owner: Key, deposit: Deposit)
    returns (r: Result<()>)
    requires pool in ledger.pools
    modifies ledger
    ensures r == Status(Settle(old(ledger.Snapshot()), pool, user0, user1, userPoolAta, owner, deposit))
    ensures ledger.Snapshot() == Commit(old(ledger.Snapshot()), Settle(old(ledger.Snapshot()), pool, user0, user1, userPoolAta, owner, deposit))
  {
    ghost var c := ledger.Snapshot();
    var total := ledger.pools[pool].totalAmountMinted;
    if total + deposit.minted >= U64_LIMIT {
      return Err(Panic);
    }
    var poolState := ledger.pools[pool].(totalAmountMinted := total + deposit.minted);
    var paid :- Pay(ledger.mints, ledger.accounts, pool, user0, user1, userPoolAta, owner, deposit);
    SettlePays(c, pool, user0, user1, userPoolAta, owner, deposit, paid);
    assert poolState == c.pools[pool].(totalAmountMinted := c.pools[pool].totalAmountMinted + deposit.minted);
    ledger.pools := ledger.pools[pool := poolState];
    ledger.mints := paid.0;
    ledger.accounts := paid.1;
    assert ledger.Snapshot() == Chain(c.pools[pool := poolState], paid.1, paid.0);
    r := Ok(());
  }

  /** `add_liquidity`. */
  method AddLiquidity(ledger: Ledger, pool: Key, user0: Key, user1: Key, userPoolAta: Key, owner: Key, amountLiq0: u64, amountLiq1: u64)
    returns (r: Result<()>)
    requires ledger.Valid()
    modifies ledger
    ensures ledger.Valid()
    ensures r == Status(AddLiquidityEffect(old(ledger.Snapshot()), pool, user0, user1, userPoolAta, owner, amountLiq0, amountLiq1))
    ensures ledger.Snapshot()
         == Commit(old(ledger.Snapshot()), AddLiquidityEffect(old(ledger.Snapshot()), pool, user0, user1, userPoolAta, owner, amountLiq0, amountLiq1))
  {
    ghost var c := ledger.Snapshot();
    AddLiquidityPreservesValid(c, pool, user0, user1, userPoolAta, owner, amountLiq0, amountLiq1);
    var checked :- CheckLiquidityAccounts(ledger.Snapshot(), pool, user0, user1, userPoolAta, owner);
    var total := ledger.pools[pool].totalAmountMinted;
    var deposit :- ComputeDeposit(total, ledger.accounts[Vault0Address(pool)].amount, ledger.accounts[Vault1Address(pool)].amount,
                                  ledger.accounts[user0].amount, ledger.accounts[user1].amount, amountLiq0, amountLiq1);
    assert deposit == QuoteOn(c, pool, user0, user1, amountLiq0, amountLiq1).value;
    assert AddLiquidityEffect(c, pool, user0, user1, userPoolAta, owner, amountLiq0, amountLiq1)
        == Settle(c, pool, user0, user1, userPoolAta, owner, deposit);
    r := SettleDeposit(ledger, pool, user0, user1, userPoolAta, owner, deposit);
  }

  /** `remove_liquidity`: after the account checks, it refuses to burn more
      than the user holds or more than the pool has minted, and otherwise
      succeeds. It burns nothing and pays nothing out, so the ledger is
      left as it was whatever the outcome. */
  method RemoveLiquidity(ledger: Ledger, pool: Key, user0: Key, user1: Key, userPoolAta: Key, owner: Key, burnAmount: u64)
    returns (r: Result<()>)
    ensures CheckLiquidityAccounts(ledger.Snapshot(), pool, user0, user1, userPoolAta, owner).Err? ==>
      r == Err(CheckLiquidityAccounts(ledger.Snapshot(), pool, user0, user1, userPoolAta, owner).error)
    ensures CheckLiquidityAccounts(ledger.Snapshot(), pool, user0, user1, userPoolAta, owner).Ok? ==>
      && (r == Err(NotEnoughBalance) <==> burnAmount > ledger.accounts[userPoolAta].amount)
      && (r == Err(BurnTooMuch) <==>
            burnAmount <= ledger.accounts[userPoolAta].amount && burnAmount > ledger.pools[pool].totalAmountMinted)
      && (r.Ok? <==>
            burnAmount <= ledger.accounts[userPoolAta].amount && burnAmount <= ledger.pools[pool].totalAmountMinted)
  {
    var checked :- CheckLiquidityAccounts(ledger.Snapshot(), pool, user0, user1, userPoolAta, owner);
    var poolMintBalance := ledger.accounts[userPoolAta].amount;
    if burnAmount > poolMintBalance {
      return Err(NotEnoughBalance);
    }
    var poolState := ledger.pools[pool];
    if poolState.totalAmountMinted < burnAmount {
      return Err(BurnTooMuch);
    }
    r := Ok(());
  }
}
