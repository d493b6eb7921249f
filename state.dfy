/** The pool's on-chain record (`PoolState`), the addresses derived from a
    mint pair, and the ledger of every account the four instructions read
    or write. */
module State {
  import opened Runtime
  import opened Token

  /** `PoolState`: fields for the two mint keys, which the program never
      fills in (they stay the default key), and the count of LP tokens
      minted so far. There are no reserve or fee fields; the reserves are the balances of
      the pool's two vault token accounts. */
  datatype PoolState = PoolState(token0Mint: Key, token1Mint: Key, totalAmountMinted: u64)

  /** Decimals of the LP mint. */
  const LP_DECIMALS: nat := 9

  /** Address of the pool for the ordered pair (mint0, mint1). */
  function PoolStateAddress(mint0: Key, mint1: Key): Key
  {
    DeriveAddress([Text("pool_state"), KeyBytes(mint0), KeyBytes(mint1)])
  }

  /** Address of the authority that owns the vaults and mints LP tokens. */
  function AuthorityAddress(pool: Key): Key
  {
    DeriveAddress([Text("authority"), KeyBytes(pool)])
  }

  function Vault0Address(pool: Key): Key
  {
    DeriveAddress([Text("vault0"), KeyBytes(pool)])
  }

  function Vault1Address(pool: Key): Key
  {
    DeriveAddress([Text("vault1"), KeyBytes(pool)])
  }

  function PoolMintAddress(pool: Key): Key
  {
    DeriveAddress([Text("pool_mint"), KeyBytes(pool)])
  }

  /** The vaults, the LP mint and the authority of a pool sit at four
      different addresses, and each determines the pool. */
  lemma DerivedAddressesDistinct(pool: Key, other: Key)
    ensures AuthorityAddress(pool) != Vault0Address(pool) && AuthorityAddress(pool) != Vault1Address(pool)
    ensures AuthorityAddress(pool) != PoolMintAddress(pool) && Vault0Address(pool) != Vault1Address(pool)
    ensures Vault0Address(pool) != PoolMintAddress(pool) && Vault1Address(pool) != PoolMintAddress(pool)
    ensures Vault0Address(pool) == Vault0Address(other) ==> pool == other
    ensures Vault1Address(pool) == Vault1Address(other) ==> pool == other
    ensures PoolMintAddress(pool) == PoolMintAddress(other) ==> pool == other
    ensures AuthorityAddress(pool) == AuthorityAddress(other) ==> pool == other
  {
  }

  /** A snapshot of every account: pool records, token accounts, mints. */
  datatype Chain = Chain(pools: map<Key, PoolState>, accounts: map<Key, Account>, mints: map<Key, Mint>)
  {
    /** Some account already lives at `k`. */
    predicate Exists(k: Key)
    {
      k in pools || k in accounts || k in mints
    }
  }

  /** What every pool created by the program keeps: its two vaults and its
      LP mint exist and belong to the pool authority, neither vault holds
      the LP token, and the LP mint's supply is the pool's
      `totalAmountMinted`. */
  ghost predicate PoolAccountsValid(c: Chain, pool: Key)
    requires pool in c.pools
  {
    var auth := AuthorityAddress(pool);
    && Vault0Address(pool) in c.accounts && c.accounts[Vault0Address(pool)].owner == auth
    && Vault1Address(pool) in c.accounts && c.accounts[Vault1Address(pool)].owner == auth
    && c.accounts[Vault0Address(pool)].mint != PoolMintAddress(pool)
    && c.accounts[Vault1Address(pool)].mint != PoolMintAddress(pool)
    && PoolMintAddress(pool) in c.mints
    && c.mints[PoolMintAddress(pool)].authority == auth
    && c.mints[PoolMintAddress(pool)].decimals == LP_DECIMALS
    && c.mints[PoolMintAddress(pool)].supply == c.pools[pool].totalAmountMinted
  }

  ghost predicate ValidChain(c: Chain)
  {
    forall pool :: pool in c.pools ==> PoolAccountsValid(c, pool)
  }

  /** The state after an instruction whose outcome is `e`: a failed
      instruction changes nothing. */
  function Commit(c: Chain, e: Result<Chain>): (c': Chain)
    ensures e.Err? ==> c' == c
    ensures e.Ok? ==> c' == e.value
  {
    if e.Ok? then e.value else c
  }

  /** What an instruction returns to its caller: `Ok(())` or its error. */
  function Status(e: Result<Chain>): (r: Result<()>)
    ensures r.Ok? <==> e.Ok?
    ensures e.Err? ==> r.error == e.error
  {
    if e.Ok? then Ok(()) else Err(e.error)
  }

  /** The accounts of the chain, updated in place by the instructions. */
  class Ledger {
    var pools: map<Key, PoolState>
    var accounts: map<Key, Account>
    var mints: map<Key, Mint>

    /** A ledger holding the given token accounts and mints and no pool yet. */
    constructor (accounts: map<Key, Account>, mints: map<Key, Mint>)
      ensures Snapshot() == Chain(map[], accounts, mints)
      ensures Valid()
    {
      this.pools := map[];
      this.accounts := accounts;
      this.mints := mints;
    }

    function Snapshot(): Chain
      reads this
    {
      Chain(pools, accounts, mints)
    }

    ghost predicate Valid()
      reads this
    {
      ValidChain(Snapshot())
    }
  }
}
