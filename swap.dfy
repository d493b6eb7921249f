/** `swap`: trade `amount_in` of one token for the other against two vault
    accounts of a pool, priced by the product of the vault balances. There
    is no fee, and the output is rounded UP (see `SwapOutputIsCeiling`). */
module Swap {
  import opened Runtime
  import opened Token
  import opened Math
  import opened State

  /** The amount paid out: the out-vault balance less the whole part of
      k / (vaultIn + amountIn), with k = vaultIn * vaultOut, in u128. */
  function SwapOutput(vaultIn: u64, vaultOut: u64, amountIn: u64): (out: u64)
    requires vaultIn + amountIn > 0
    ensures out <= vaultOut
  {
    var d := vaultIn + amountIn;
    var q := (vaultIn * vaultOut) / d;
    QuotientBelowOut(vaultIn, vaultOut, d);
    vaultOut - q
  }

  /** What is left in the out-vault, vaultOut - out, is the largest amount
      whose product with the new in-vault balance stays within k. */
  lemma SwapOutputBounds(vaultIn: u64, vaultOut: u64, amountIn: u64)
    requires vaultIn + amountIn > 0
    ensures var out := SwapOutput(vaultIn, vaultOut, amountIn);
      && (vaultIn + amountIn) * (vaultOut - out) <= vaultIn * vaultOut
      && vaultIn * vaultOut < (vaultIn + amountIn) * (vaultOut - out + 1)
  {
    var d := vaultIn + amountIn;
    QuotientBelowOut(vaultIn, vaultOut, d);
    FloorDivBounds(vaultIn * vaultOut, d);
  }

  /** k / (vaultIn + amountIn) never exceeds vaultOut, so `checked_sub`
      cannot fail. */
  lemma QuotientBelowOut(vaultIn: nat, vaultOut: nat, d: nat)
    requires d > 0 && vaultIn <= d
    ensures 0 <= (vaultIn * vaultOut) / d <= vaultOut
  {
    var k := vaultIn * vaultOut;
    var q := k / d;
    MulMonotone(vaultOut, vaultIn, d);
    FloorDivBounds(k, d);
    if q > vaultOut {
      MulMonotone(d, vaultOut + 1, q);
    }
  }

  /** The arithmetic of `swap`: the user's balance, then the out-vault
      against the minimum, then the division (which panics only when both
      the in-vault and the amount are zero), then the minimum output. */
  function SwapQuote(userBalance: u64, vaultIn: u64, vaultOut: u64, amountIn: u64, minAmountOut: u64): (r: Result<u64>)
    ensures r.Ok? <==>
      && amountIn <= userBalance && minAmountOut <= vaultOut && vaultIn + amountIn > 0
      && minAmountOut <= SwapOutput(vaultIn, vaultOut, amountIn)
    ensures amountIn > userBalance ==> r == Err(NotEnoughBalance)
    ensures amountIn <= userBalance && vaultOut < minAmountOut ==> r == Err(NotEnoughBalance)
    ensures amountIn <= userBalance && minAmountOut <= vaultOut && vaultIn + amountIn == 0 ==> r == Err(Panic)
    ensures amountIn <= userBalance && minAmountOut <= vaultOut && vaultIn + amountIn > 0 ==>
      (SwapOutput(vaultIn, vaultOut, amountIn) < minAmountOut <==> r == Err(NotEnoughOut))
    ensures r.Err? ==> r.error in {NotEnoughBalance, Panic, NotEnoughOut}
    ensures r.Ok? ==> r.value == SwapOutput(vaultIn, vaultOut, amountIn) && minAmountOut <= r.value <= vaultOut
  {
    if amountIn > userBalance then Err(NotEnoughBalance)
    else if vaultOut < minAmountOut then Err(NotEnoughBalance)
    else if vaultIn + amountIn == 0 then Err(Panic)
    else
      var out := SwapOutput(vaultIn, vaultOut, amountIn);
      if out < minAmountOut then Err(NotEnoughOut) else Ok(out)
  }

  /** The output is the exact proportional amount amountIn * vaultOut /
      (vaultIn + amountIn) rounded up: the trader never gets less than the
      exact price, and less than one unit more. */
  lemma SwapOutputIsCeiling(vaultIn: u64, vaultOut: u64, amountIn: u64)
    requires vaultIn + amountIn > 0
    ensures var out := SwapOutput(vaultIn, vaultOut, amountIn);
      amountIn * vaultOut <= out * (vaultIn + amountIn) < amountIn * vaultOut + (vaultIn + amountIn)
  {
    var out := SwapOutput(vaultIn, vaultOut, amountIn);
    var d := vaultIn + amountIn;
    var rest := vaultOut - out;
    SwapOutputBounds(vaultIn, vaultOut, amountIn);
    assert d * rest <= vaultIn * vaultOut < d * (rest + 1);
    assert d * vaultOut == d * rest + d * out;
    assert d * vaultOut == vaultIn * vaultOut + amountIn * vaultOut;
  }

  /** Because of the rounding, the product of the vault balances after a
      swap (the constant of the pool) goes DOWN, by less than the new
      in-vault balance. */
  lemma SwapShrinksProduct(vaultIn: u64, vaultOut: u64, amountIn: u64)
    requires vaultIn + amountIn > 0
    ensures var out := SwapOutput(vaultIn, vaultOut, amountIn);
      && (vaultIn + amountIn) * (vaultOut - out) <= vaultIn * vaultOut
      && vaultIn * vaultOut < (vaultIn + amountIn) * (vaultOut - out) + (vaultIn + amountIn)
  {
    var out := SwapOutput(vaultIn, vaultOut, amountIn);
    var d := vaultIn + amountIn;
    SwapOutputBounds(vaultIn, vaultOut, amountIn);
    assert d * (vaultOut - out + 1) == d * (vaultOut - out) + d;
  }

  /** Paying more in never pays less out. */
  lemma SwapOutputMonotone(vaultIn: u64, vaultOut: u64, amountIn: u64, amountIn': u64)
    requires vaultIn + amountIn > 0 && amountIn <= amountIn'
    ensures SwapOutput(vaultIn, vaultOut, amountIn) <= SwapOutput(vaultIn, vaultOut, amountIn')
  {
    var k := vaultIn * vaultOut;
    var d, d' := vaultIn + amountIn, vaultIn + amountIn';
    DivAntitone(k, d, d');
  }

  /** Nothing in, nothing out (on a non-empty in-vault). */
  lemma SwapNothingIn(vaultIn: u64, vaultOut: u64)
    requires vaultIn > 0
    ensures SwapOutput(vaultIn, vaultOut, 0) == 0
  {
    DivModUnique(vaultIn * vaultOut, vaultIn, vaultOut, 0);
  }

  /** On an empty in-vault any positive amount buys the whole out-vault. */
  lemma SwapEmptyInVaultPaysAll(vaultOut: u64, amountIn: u64)
    requires amountIn > 0
    ensures SwapOutput(0, vaultOut, amountIn) == vaultOut
  {
  }

  /** The framework's checks of the `Swap` accounts: every account must
      exist, both user accounts must belong to the signer, and each vault
      must hold the mint of the user account on its side and belong to the
      pool authority. Nothing ties the vaults to the pool's own vaults or
      to each other. */
  function CheckSwapAccounts(c: Chain, pool: Key, userIn: Key, userOut: Key, vaultIn: Key, vaultOut: Key, owner: Key)
    : (r: Result<()>)
    ensures r.Ok? <==>
      && pool in c.pools
      && userIn in c.accounts && userOut in c.accounts && vaultIn in c.accounts && vaultOut in c.accounts
      && c.accounts[userIn].owner == owner && c.accounts[userOut].owner == owner
      && c.accounts[vaultIn].mint == c.accounts[userIn].mint
      && c.accounts[vaultIn].owner == AuthorityAddress(pool)
      && c.accounts[vaultOut].mint == c.accounts[userOut].mint
      && c.accounts[vaultOut].owner == AuthorityAddress(pool)
    ensures !(pool in c.pools && userIn in c.accounts && userOut in c.accounts && vaultIn in c.accounts && vaultOut in c.accounts)
      ==> r == Err(AccountNotInitialized)
    ensures (&& pool in c.pools && userIn in c.accounts && userOut in c.accounts
             && vaultIn in c.accounts && vaultOut in c.accounts
             && (c.accounts[userIn].owner != owner || c.accounts[userOut].owner != owner))
      ==> r == Err(ConstraintHasOne)
    ensures (&& pool in c.pools && userIn in c.accounts && userOut in c.accounts
             && vaultIn in c.accounts && vaultOut in c.accounts
             && c.accounts[userIn].owner == owner && c.accounts[userOut].owner == owner && r.Err?)
      ==> r == Err(ConstraintRaw)
    ensures r.Err? ==> r.error in {AccountNotInitialized, ConstraintHasOne, ConstraintRaw}
  {
    if pool !in c.pools || userIn !in c.accounts || userOut !in c.accounts
      || vaultIn !in c.accounts || vaultOut !in c.accounts then
      Err(AccountNotInitialized)
    else if c.accounts[userIn].owner != owner || c.accounts[userOut].owner != owner then Err(ConstraintHasOne)
    else if c.accounts[vaultIn].mint != c.accounts[userIn].mint then Err(ConstraintRaw)
    else if c.accounts[vaultIn].owner != AuthorityAddress(pool) then Err(ConstraintRaw)
    else if c.accounts[vaultOut].mint != c.accounts[userOut].mint then Err(ConstraintRaw)
    else if c.accounts[vaultOut].owner != AuthorityAddress(pool) then Err(ConstraintRaw)
    else Ok(())
  }

  /** The token-program calls of `swap`: the amount in from the user to the
      in-vault, signed by the user, then the output from the out-vault to
      the user, signed by the pool authority. */
  function SwapTransfers(accounts: map<Key, Account>, pool: Key, userIn: Key, userOut: Key, vaultIn: Key, vaultOut: Key,
                         owner: Key, amountIn: u64, out: u64): (r: Result<map<Key, Account>>)
    ensures r.Ok? ==> r.value.Keys == accounts.Keys
    ensures r.Ok? ==> forall k {:trigger r.value[k]} :: k in accounts ==>
      && r.value[k].mint == accounts[k].mint && r.value[k].owner == accounts[k].owner
      && r.value[k].amount == accounts[k].amount + Moved(k, userIn, vaultIn, amountIn) + Moved(k, vaultOut, userOut, out)
  {
    var paidIn :- Transfer(accounts, userIn, vaultIn, owner, amountIn);
    Transfer(paidIn, vaultOut, userOut, AuthorityAddress(pool), out)
  }

  /** `swap` as a function of the chain it runs on. */
  function SwapEffect(c: Chain, pool: Key, userIn: Key, userOut: Key, vaultIn: Key, vaultOut: Key, owner: Key,
                      amountIn: u64, minAmountOut: u64): (e: Result<Chain>)
    ensures CheckSwapAccounts(c, pool, userIn, userOut, vaultIn, vaultOut, owner).Err? ==>
      e == Err(CheckSwapAccounts(c, pool, userIn, userOut, vaultIn, vaultOut, owner).error)
    ensures (CheckSwapAccounts(c, pool, userIn, userOut, vaultIn, vaultOut, owner).Ok?
             && SwapQuote(c.accounts[userIn].amount, c.accounts[vaultIn].amount, c.accounts[vaultOut].amount,
                          amountIn, minAmountOut).Err?) ==>
      e == Err(SwapQuote(c.accounts[userIn].amount, c.accounts[vaultIn].amount, c.accounts[vaultOut].amount,
                         amountIn, minAmountOut).error)
    ensures e.Ok? ==> e.value.pools == c.pools && e.value.mints == c.mints
  {
    var checked :- CheckSwapAccounts(c, pool, userIn, userOut, vaultIn, vaultOut, owner);
    var out :- SwapQuote(c.accounts[userIn].amount, c.accounts[vaultIn].amount, c.accounts[vaultOut].amount, amountIn, minAmountOut);
    SwapSettle(c, pool, userIn, userOut, vaultIn, vaultOut, owner, amountIn, out)
  }

  /** The last step of `swap`: both transfers applied to the chain, or the
      error of the first that fails. */
  function SwapSettle(c: Chain, pool: Key, userIn: Key, userOut: Key, vaultIn: Key, vaultOut: Key, owner: Key,
                      amountIn: u64, out: u64): Result<Chain>
  {
    var paid :- SwapTransfers(c.accounts, pool, userIn, userOut, vaultIn, vaultOut, owner, amountIn, out);
    Ok(c.(accounts := paid))
  }

  /** A successful swap passed the account checks and the quote, and moved
      the amount in and the quoted output and nothing else. */
  lemma SwapSucceeded(c: Chain, pool: Key, userIn: Key, userOut: Key, vaultIn: Key, vaultOut: Key, owner: Key,
                      amountIn: u64, minAmountOut: u64)
    requires SwapEffect(c, pool, userIn, userOut, vaultIn, vaultOut, owner, amountIn, minAmountOut).Ok?
    ensures CheckSwapAccounts(c, pool, userIn, userOut, vaultIn, vaultOut, owner).Ok?
    ensures SwapQuote(c.accounts[userIn].amount, c.accounts[vaultIn].amount, c.accounts[vaultOut].amount, amountIn, minAmountOut).Ok?
    ensures
      var c' := SwapEffect(c, pool, userIn, userOut, vaultIn, vaultOut, owner, amountIn, minAmountOut).value;
      var out := SwapQuote(c.accounts[userIn].amount, c.accounts[vaultIn].amount, c.accounts[vaultOut].amount, amountIn, minAmountOut).value;
      && minAmountOut <= out
      && c'.pools == c.pools && c'.mints == c.mints && c'.accounts.Keys == c.accounts.Keys
      && (forall k :: k in c.accounts ==>
            && c'.accounts[k].mint == c.accounts[k].mint && c'.accounts[k].owner == c.accounts[k].owner
            && c'.accounts[k].amount == c.accounts[k].amount + Moved(k, userIn, vaultIn, amountIn) + Moved(k, vaultOut, userOut, out))
  {
  }

  /** With a wallet as signer and two different vaults and user accounts,
      each of the four balances moves by exactly the traded amounts. */
  lemma SwapMovesBalances(c: Chain, pool: Key, userIn: Key, userOut: Key, vaultIn: Key, vaultOut: Key, owner: Key,
                          amountIn: u64, minAmountOut: u64)
    requires owner.Wallet? && vaultIn != vaultOut && userIn != userOut
    requires SwapEffect(c, pool, userIn, userOut, vaultIn, vaultOut, owner, amountIn, minAmountOut).Ok?
    ensures SwapQuote(c.accounts[userIn].amount, c.accounts[vaultIn].amount, c.accounts[vaultOut].amount, amountIn, minAmountOut).Ok?
    ensures
      var c' := SwapEffect(c, pool, userIn, userOut, vaultIn, vaultOut, owner, amountIn, minAmountOut).value;
      var out := SwapQuote(c.accounts[userIn].amount, c.accounts[vaultIn].amount, c.accounts[vaultOut].amount, amountIn, minAmountOut).value;
      && c'.accounts[userIn].amount == c.accounts[userIn].amount - amountIn
      && c'.accounts[vaultIn].amount == c.accounts[vaultIn].amount + amountIn
      && c'.accounts[vaultOut].amount == c.accounts[vaultOut].amount - out
      && c'.accounts[userOut].amount == c.accounts[userOut].amount + out
  {
    SwapSucceeded(c, pool, userIn, userOut, vaultIn, vaultOut, owner, amountIn, minAmountOut);
    var c' := SwapEffect(c, pool, userIn, userOut, vaultIn, vaultOut, owner, amountIn, minAmountOut).value;
    var out := SwapQuote(c.accounts[userIn].amount, c.accounts[vaultIn].amount, c.accounts[vaultOut].amount, amountIn, minAmountOut).value;
    // The user's accounts belong to a wallet, the vaults to the derived authority.
    assert c.accounts[vaultIn].owner.Derived? && c.accounts[vaultOut].owner.Derived?;
    assert userIn != vaultIn && userIn != vaultOut && userOut != vaultIn && userOut != vaultOut;
    assert c'.accounts[userIn].amount == c.accounts[userIn].amount + Moved(userIn, userIn, vaultIn, amountIn) + Moved(userIn, vaultOut, userOut, out);
    assert c'.accounts[vaultIn].amount == c.accounts[vaultIn].amount + Moved(vaultIn, userIn, vaultIn, amountIn) + Moved(vaultIn, vaultOut, userOut, out);
    assert c'.accounts[vaultOut].amount == c.accounts[vaultOut].amount + Moved(vaultOut, userIn, vaultIn, amountIn) + Moved(vaultOut, vaultOut, userOut, out);
    assert c'.accounts[userOut].amount == c.accounts[userOut].amount + Moved(userOut, userIn, vaultIn, amountIn) + Moved(userOut, vaultOut, userOut, out);
  }
  /** What decides a swap once the accounts pass and the quote is made:
      with a wallet as signer, two different vaults and two different user
      accounts, each transfer fails only when its destination would
      overflow, so the swap goes through exactly when neither the in-vault
      nor user_out overflows, and otherwise fails with `Overflow`. */
  lemma SwapSettleOutcome(c: Chain, pool: Key, userIn: Key, userOut: Key, vaultIn: Key, vaultOut: Key, owner: Key,
                          amountIn: u64, minAmountOut: u64)
    requires owner.Wallet? && vaultIn != vaultOut && userIn != userOut
    requires CheckSwapAccounts(c, pool, userIn, userOut, vaultIn, vaultOut, owner).Ok?
    requires SwapQuote(c.accounts[userIn].amount, c.accounts[vaultIn].amount, c.accounts[vaultOut].amount, amountIn, minAmountOut).Ok?
    ensures
      var out := SwapQuote(c.accounts[userIn].amount, c.accounts[vaultIn].amount, c.accounts[vaultOut].amount, amountIn, minAmountOut).value;
      SwapEffect(c, pool, userIn, userOut, vaultIn, vaultOut, owner, amountIn, minAmountOut).Ok? <==>
        c.accounts[vaultIn].amount + amountIn < U64_LIMIT && c.accounts[userOut].amount + out < U64_LIMIT
    ensures
      var e := SwapEffect(c, pool, userIn, userOut, vaultIn, vaultOut, owner, amountIn, minAmountOut);
      e.Err? ==> e == Err(Overflow)
  {
    var out := SwapQuote(c.accounts[userIn].amount, c.accounts[vaultIn].amount, c.accounts[vaultOut].amount, amountIn, minAmountOut).value;
    // The user's accounts belong to a wallet, the vaults to the derived authority.
    assert c.accounts[vaultIn].owner.Derived? && c.accounts[vaultOut].owner.Derived?;
    assert userIn != vaultIn && userIn != vaultOut && userOut != vaultIn && userOut != vaultOut;
    assert SwapEffect(c, pool, userIn, userOut, vaultIn, vaultOut, owner, amountIn, minAmountOut)
        == SwapSettle(c, pool, userIn, userOut, vaultIn, vaultOut, owner, amountIn, out);
    var paidIn := Transfer(c.accounts, userIn, vaultIn, owner, amountIn);
    if paidIn.Ok? {
      assert paidIn.value[vaultOut] == c.accounts[vaultOut] by {
        assert paidIn.value[vaultOut].amount == c.accounts[vaultOut].amount + Moved(vaultOut, userIn, vaultIn, amountIn);
      }
      assert paidIn.value[userOut] == c.accounts[userOut] by {
        assert paidIn.value[userOut].amount == c.accounts[userOut].amount + Moved(userOut, userIn, vaultIn, amountIn);
      }
    }
  }


  /** A swap touches only token balances, so every pool keeps its vaults,
      their owner and its LP mint. */
  lemma SwapPreservesValid(c: Chain, pool: Key, userIn: Key, userOut: Key, vaultIn: Key, vaultOut: Key, owner: Key,
                           amountIn: u64, minAmountOut: u64)
    requires ValidChain(c)
    ensures SwapEffect(c, pool, userIn, userOut, vaultIn, vaultOut, owner, amountIn, minAmountOut).Ok? ==>
      ValidChain(SwapEffect(c, pool, userIn, userOut, vaultIn, vaultOut, owner, amountIn, minAmountOut).value)
  {
    var e := SwapEffect(c, pool, userIn, userOut, vaultIn, vaultOut, owner, amountIn, minAmountOut);
    if e.Ok? {
      SwapSucceeded(c, pool, userIn, userOut, vaultIn, vaultOut, owner, amountIn, minAmountOut);
      forall p | p in e.value.pools
        ensures PoolAccountsValid(e.value, p)
      {
        assert PoolAccountsValid(c, p);
      }
    }
  }

  /** The arithmetic of `swap` as the handler runs it, on u128 values. */
  method ComputeSwap(userBalance: u64, vaultIn: u64, vaultOut: u64, amountIn: u64, minAmountOut: u64) returns (r: Result<u64>)
    ensures r == SwapQuote(userBalance, vaultIn, vaultOut, amountIn, minAmountOut)
  {
    if amountIn > userBalance {
      return Err(NotEnoughBalance);
    }
    var vaultTokenInBalance: u128 := vaultIn;
    var vaultTokenOutBalance: u128 := vaultOut;
    if vaultTokenOutBalance < minAmountOut {
      return Err(NotEnoughBalance);
    }
    U64ProductFits(vaultIn, vaultOut);
    var k: u128 := vaultTokenInBalance * vaultTokenOutBalance;
    var denominator: u128 := vaultTokenInBalance + amountIn;
    if denominator == 0 {
      return Err(Panic);
    }
    var quotient: u128 := k / denominator;
    QuotientBelowOut(vaultIn, vaultOut, denominator);
    var tokenOutAmount: u64 := vaultTokenOutBalance - quotient;
    assert tokenOutAmount == SwapOutput(vaultIn, vaultOut, amountIn);
    if tokenOutAmount < minAmountOut {
      return Err(NotEnoughOut);
    }
    r := Ok(tokenOutAmount);
  }

  /** The settle step of `swap` on the ledger. */
  method SettleSwap(ledger: Ledger, pool: Key, userIn: Key, userOut: Key, vaultIn: Key, vaultOut: Key, owner: Key,
                    amountIn: u64, out: u64) returns (r: Result<()>)
    modifies ledger
    ensures r == Status(SwapSettle(old(ledger.Snapshot()), pool, userIn, userOut, vaultIn, vaultOut, owner, amountIn, out))
    ensures ledger.Snapshot()
         == Commit(old(ledger.Snapshot()), SwapSettle(old(ledger.Snapshot()), pool, userIn, userOut, vaultIn, vaultOut, owner, amountIn, out))
  {
    ghost var c := ledger.Snapshot();
    var paid :- SwapTransfers(ledger.accounts, pool, userIn, userOut, vaultIn, vaultOut, owner, amountIn, out);
    ledger.accounts := paid;
    assert ledger.Snapshot() == c.(accounts := paid);
    r := Ok(());
  }

  /** `swap`. */
  method Swap(ledger: Ledger, pool: Key, userIn: Key, userOut: Key, vaultIn: Key, vaultOut: Key, owner: Key,
              amountIn: u64, minAmountOut: u64) returns (r: Result<()>)
    requires ledger.Valid()
    modifies ledger
    ensures ledger.Valid()
    ensures r == Status(SwapEffect(old(ledger.Snapshot()), pool, userIn, userOut, vaultIn, vaultOut, owner, amountIn, minAmountOut))
    ensures ledger.Snapshot()
         == Commit(old(ledger.Snapshot()), SwapEffect(old(ledger.Snapshot()), pool, userIn, userOut, vaultIn, vaultOut, owner, amountIn, minAmountOut))
  {
    ghost var c := ledger.Snapshot();
    SwapPreservesValid(c, pool, userIn, userOut, vaultIn, vaultOut, owner, amountIn, minAmountOut);
    var checked :- CheckSwapAccounts(ledger.Snapshot(), pool, userIn, userOut, vaultIn, vaultOut, owner);
    var out :- ComputeSwap(ledger.accounts[userIn].amount, ledger.accounts[vaultIn].amount, ledger.accounts[vaultOut].amount,
                           amountIn, minAmountOut);
    assert SwapEffect(c, pool, userIn, userOut, vaultIn, vaultOut, owner, amountIn, minAmountOut)
        == SwapSettle(c, pool, userIn, userOut, vaultIn, vaultOut, owner, amountIn, out);
    r := SettleSwap(ledger, pool, userIn, userOut, vaultIn, vaultOut, owner, amountIn, out);
  }
}
