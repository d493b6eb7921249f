/** `initialize_pool`: creates, for an ORDERED mint pair, the pool record,
    its two vaults and its LP mint, all at addresses derived from the pair.
    The framework's `init` constraint fails when an address is taken. */
module InitPool {
  import opened Runtime
  import opened Token
  import opened State

  /** The instruction as a function of the chain it runs on. */
  function InitializePoolEffect(c: Chain, mint0: Key, mint1: Key): (e: Result<Chain>)
    ensures e.Ok? <==>
      var pool := PoolStateAddress(mint0, mint1);
      && mint0 in c.mints && mint1 in c.mints
      && !c.Exists(pool) && !c.Exists(Vault0Address(pool))
      && !c.Exists(Vault1Address(pool)) && !c.Exists(PoolMintAddress(pool))
    ensures e.Err? ==> e.error in {AccountNotInitialized, AccountInUse}
  {
    var pool := PoolStateAddress(mint0, mint1);
    var auth := AuthorityAddress(pool);
    if mint0 !in c.mints || mint1 !in c.mints then Err(AccountNotInitialized)
    else if c.Exists(pool) || c.Exists(Vault0Address(pool)) || c.Exists(Vault1Address(pool)) || c.Exists(PoolMintAddress(pool)) then
      Err(AccountInUse)
    else
      Ok(Chain(
        c.pools[pool := PoolState(Default, Default, 0)],
        c.accounts[Vault0Address(pool) := Account(mint0, auth, 0)][Vault1Address(pool) := Account(mint1, auth, 0)],
        c.mints[PoolMintAddress(pool) := Mint(auth, LP_DECIMALS, 0)]))
  }

  /** A successful initialisation adds a zero-count pool record whose mint
      fields keep the default key, vault0 holding mint0 and vault1 holding
      mint1 (both empty, both owned by the pool authority) and an empty
      9-decimal LP mint under that authority, and changes nothing else. */
  lemma InitializeSucceeded(c: Chain, mint0: Key, mint1: Key)
    requires InitializePoolEffect(c, mint0, mint1).Ok?
    ensures var c' := InitializePoolEffect(c, mint0, mint1).value;
      var pool := PoolStateAddress(mint0, mint1);
      var auth := AuthorityAddress(pool);
      && c'.pools.Keys == c.pools.Keys + {pool}
      && c'.pools[pool].totalAmountMinted == 0
      && c'.pools[pool].token0Mint == Default && c'.pools[pool].token1Mint == Default
      && c'.accounts.Keys == c.accounts.Keys + {Vault0Address(pool), Vault1Address(pool)}
      && c'.accounts[Vault0Address(pool)] == Account(mint0, auth, 0)
      && c'.accounts[Vault1Address(pool)] == Account(mint1, auth, 0)
      && c'.mints.Keys == c.mints.Keys + {PoolMintAddress(pool)}
      && c'.mints[PoolMintAddress(pool)] == Mint(auth, LP_DECIMALS, 0)
      && (forall k :: k in c.pools ==> c'.pools[k] == c.pools[k])
      && (forall k :: k in c.accounts ==> c'.accounts[k] == c.accounts[k])
      && (forall k :: k in c.mints ==> c'.mints[k] == c.mints[k])
  {
  }

  /** A new pool comes with its vaults and an LP mint whose supply matches
      the zero count; pools that existed are untouched. */
  lemma InitializePreservesValid(c: Chain, mint0: Key, mint1: Key)
    requires ValidChain(c)
    ensures InitializePoolEffect(c, mint0, mint1).Ok? ==> ValidChain(InitializePoolEffect(c, mint0, mint1).value)
  {
    var e := InitializePoolEffect(c, mint0, mint1);
    if e.Ok? {
      InitializeSucceeded(c, mint0, mint1);
      var pool := PoolStateAddress(mint0, mint1);
      forall p | p in e.value.pools
        ensures PoolAccountsValid(e.value, p)
      {
        if p != pool {
          assert PoolAccountsValid(c, p);
        }
      }
    }
  }

  /** Initialising the same ordered pair a second time fails. */
  lemma InitializeTwiceFails(c: Chain, mint0: Key, mint1: Key)
    requires InitializePoolEffect(c, mint0, mint1).Ok?
    ensures InitializePoolEffect(InitializePoolEffect(c, mint0, mint1).value, mint0, mint1) == Err(AccountInUse)
  {
  }

  /** The pool address depends on both mints and on their order. */
  lemma PoolAddressIsOrdered(a: Key, b: Key, a': Key, b': Key)
    ensures PoolStateAddress(a, b) == PoolStateAddress(a', b') <==> a == a' && b == b'
    ensures a != b ==> PoolStateAddress(a, b) != PoolStateAddress(b, a)
  {
  }

  /** The four addresses created for one ordered pair: the pool record,
      the two vaults and the LP mint. */
  function PoolAddresses(mint0: Key, mint1: Key): (s: set<Key>)
    ensures PoolStateAddress(mint0, mint1) in s && |s| == 4
  {
    var pool := PoolStateAddress(mint0, mint1);
    DerivedAddressesDistinct(pool, pool);
    assert pool != Vault0Address(pool) && pool != Vault1Address(pool) && pool != PoolMintAddress(pool);
    {pool, Vault0Address(pool), Vault1Address(pool), PoolMintAddress(pool)}
  }

  /** Two different ordered pairs share none of their four addresses. */
  lemma PoolAddressesDisjoint(a: Key, b: Key, a': Key, b': Key)
    requires a != a' || b != b'
    ensures PoolAddresses(a, b) !! PoolAddresses(a', b')
  {
    var p, q := PoolStateAddress(a, b), PoolStateAddress(a', b');
    PoolAddressIsOrdered(a, b, a', b');
    DerivedAddressesDistinct(p, q);
  }

  /** After a successful initialisation, an address is taken exactly when
      it was taken before or is one of the pair's four addresses. */
  lemma ExistsAfterInitialize(c: Chain, mint0: Key, mint1: Key, k: Key)
    requires InitializePoolEffect(c, mint0, mint1).Ok?
    ensures InitializePoolEffect(c, mint0, mint1).value.Exists(k) <==> c.Exists(k) || k in PoolAddresses(mint0, mint1)
    ensures InitializePoolEffect(c, mint0, mint1).value.mints.Keys >= c.mints.Keys
  {
    InitializeSucceeded(c, mint0, mint1);
  }

  /** (A, B) and (B, A) are two pools: creating one leaves room for the other. */
  lemma ReversedPairIsAnotherPool(c: Chain, a: Key, b: Key)
    requires a != b
    requires InitializePoolEffect(c, a, b).Ok? && InitializePoolEffect(c, b, a).Ok?
    ensures InitializePoolEffect(InitializePoolEffect(c, a, b).value, b, a).Ok?
  {
    var q := PoolStateAddress(b, a);
    PoolAddressesDisjoint(a, b, b, a);
    ExistsAfterInitialize(c, a, b, q);
    ExistsAfterInitialize(c, a, b, Vault0Address(q));
    ExistsAfterInitialize(c, a, b, Vault1Address(q));
    ExistsAfterInitialize(c, a, b, PoolMintAddress(q));
  }

  /** Nothing rejects a pool whose two mints are the same. */
  lemma SameMintTwice(c: Chain, m: Key)
    requires m in c.mints
    requires var pool := PoolStateAddress(m, m);
      !c.Exists(pool) && !c.Exists(Vault0Address(pool)) && !c.Exists(Vault1Address(pool)) && !c.Exists(PoolMintAddress(pool))
    ensures InitializePoolEffect(c, m, m).Ok?
    ensures InitializePoolEffect(c, m, m).value.accounts[Vault0Address(PoolStateAddress(m, m))].mint
         == InitializePoolEffect(c, m, m).value.accounts[Vault1Address(PoolStateAddress(m, m))].mint
  {
  }

  /** `initialize_pool`: the framework creates the pool record (zero-filled,
      so both mint fields keep the default key), the vaults and the LP mint;
      the handler then sets `total_amount_minted` to zero. */
  method InitializePool(ledger: Ledger, mint0: Key, mint1: Key) returns (r: Result<()>)
    requires ledger.Valid()
    modifies ledger
    ensures ledger.Valid()
    ensures r == Status(InitializePoolEffect(old(ledger.Snapshot()), mint0, mint1))
    ensures ledger.Snapshot() == Commit(old(ledger.Snapshot()), InitializePoolEffect(old(ledger.Snapshot()), mint0, mint1))
  {
    ghost var c := ledger.Snapshot();
    InitializePreservesValid(c, mint0, mint1);
    if mint0 !in ledger.mints || mint1 !in ledger.mints {
      return Err(AccountNotInitialized);
    }
    var pool := PoolStateAddress(mint0, mint1);
    var auth := AuthorityAddress(pool);
    var vault0, vault1, poolMint := Vault0Address(pool), Vault1Address(pool), PoolMintAddress(pool);
    var snapshot := ledger.Snapshot();
    if snapshot.Exists(pool) || snapshot.Exists(vault0) || snapshot.Exists(vault1) || snapshot.Exists(poolMint) {
      return Err(AccountInUse);
    }
    var poolState := PoolState(Default, Default, 0);
    poolState := poolState.(totalAmountMinted := 0);
    ledger.pools := ledger.pools[pool := poolState];
    ledger.accounts := ledger.accounts[vault0 := Account(mint0, auth, 0)][vault1 := Account(mint1, auth, 0)];
    ledger.mints := ledger.mints[poolMint := Mint(auth, LP_DECIMALS, 0)];
    r := Ok(());
  }
}
