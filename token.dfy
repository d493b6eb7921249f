/** The two token-program instructions the pool calls, `transfer` and
    `mint_to`, as pure functions on the token accounts and mints they touch.
    Their checks come in the order the token program makes them. */
module Token {
  import opened Runtime

  /** A token account: which mint it holds, who may move its tokens, how many it holds. */
  datatype Account = Account(mint: Key, owner: Key, amount: u64)

  /** A mint: who may mint, its decimals, and how many of its tokens exist. */
  datatype Mint = Mint(authority: Key, decimals: nat, supply: u64)

  /** The change that moving `amount` from `source` to `dest` makes at `k`
      (none at all when `source == dest`). */
  function Moved(k: Key, source: Key, dest: Key, amount: nat): int
  {
    (if k == dest then amount else 0) - (if k == source then amount else 0)
  }

  /** `transfer`: move `amount` tokens from `source` to `dest`, signed by `authority`. */
  function Transfer(accounts: map<Key, Account>, source: Key, dest: Key, authority: Key, amount: u64)
    : (r: Result<map<Key, Account>>)
    ensures r.Ok? <==>
      && source in accounts && dest in accounts
      && amount <= accounts[source].amount
      && accounts[source].mint == accounts[dest].mint
      && accounts[source].owner == authority
      && (source != dest ==> accounts[dest].amount + amount < U64_LIMIT)
    ensures r.Ok? ==> r.value.Keys == accounts.Keys
    ensures r.Ok? ==> forall k {:trigger r.value[k]} :: k in accounts ==>
      && r.value[k].mint == accounts[k].mint
      && r.value[k].owner == accounts[k].owner
      && r.value[k].amount == accounts[k].amount + Moved(k, source, dest, amount)
  {
    if source !in accounts || dest !in accounts then Err(AccountNotInitialized)
    else
      var src, dst := accounts[source], accounts[dest];
      if src.amount < amount then Err(InsufficientFunds)
      else if src.mint != dst.mint then Err(MintMismatch)
      else if src.owner != authority then Err(OwnerMismatch)
      else if source == dest then Ok(accounts)
      else if dst.amount + amount >= U64_LIMIT then Err(Overflow)
      else Ok(accounts[source := src.(amount := src.amount - amount)][dest := dst.(amount := dst.amount + amount)])
  }

  /** `mint_to`: create `amount` new tokens of `mint` in `dest`, signed by `authority`. */
  function MintTo(mints: map<Key, Mint>, accounts: map<Key, Account>, mint: Key, dest: Key, authority: Key, amount: u64)
    : (r: Result<(map<Key, Mint>, map<Key, Account>)>)
    ensures r.Ok? <==>
      && dest in accounts && mint in mints
      && accounts[dest].mint == mint
      && mints[mint].authority == authority
      && accounts[dest].amount + amount < U64_LIMIT
      && mints[mint].supply + amount < U64_LIMIT
    ensures r.Ok? ==> r.value.0.Keys == mints.Keys && r.value.1.Keys == accounts.Keys
    ensures r.Ok? ==> forall m {:trigger r.value.0[m]} :: m in mints ==>
      && r.value.0[m].authority == mints[m].authority
      && r.value.0[m].decimals == mints[m].decimals
      && r.value.0[m].supply == mints[m].supply + (if m == mint then amount else 0)
    ensures r.Ok? ==> forall k {:trigger r.value.1[k]} :: k in accounts ==>
      && r.value.1[k].mint == accounts[k].mint
      && r.value.1[k].owner == accounts[k].owner
      && r.value.1[k].amount == accounts[k].amount + (if k == dest then amount else 0)
  {
    if dest !in accounts || mint !in mints then Err(AccountNotInitialized)
    else
      var dst, mnt := accounts[dest], mints[mint];
      if dst.mint != mint then Err(MintMismatch)
      else if mnt.authority != authority then Err(OwnerMismatch)
      else if dst.amount + amount >= U64_LIMIT || mnt.supply + amount >= U64_LIMIT then Err(Overflow)
      else Ok((mints[mint := mnt.(supply := mnt.supply + amount)], accounts[dest := dst.(amount := dst.amount + amount)]))
  }
}
