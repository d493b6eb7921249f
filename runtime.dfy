/** The runtime the pool program runs on: Rust's unsigned integer widths,
    account keys and program-derived addresses, and the ways an instruction
    can fail. A failed instruction is rolled back as a whole. */
module Runtime {

  const U64_LIMIT: nat := 0x1_0000_0000_0000_0000
  const U128_LIMIT: nat := 0x1_0000_0000_0000_0000_0000_0000_0000_0000

  /** Rust's `u64` and `u128`: the values a variable of that type can hold. */
  type u64 = x: nat | x < U64_LIMIT
  type u128 = x: nat | x < U128_LIMIT

  /** An account address. `Default` is `Pubkey::default()` (all zero bytes);
      `Wallet` is the public key of a key pair (users, and mints created by
      them); `Derived` is a program-derived address of the pool program,
      identified by its seed list. */
  datatype Key =
    | Default
    | Wallet(id: nat)
    | Derived(seeds: seq<Seed>)

  /** One seed of an address derivation: a byte-string literal or the bytes of a key. */
  datatype Seed = Text(text: string) | KeyBytes(key: Key)

  /** Address derivation from a seed list (`find_program_address`). */
  function DeriveAddress(seeds: seq<Seed>): (k: Key)
    ensures k.Derived? && k.seeds == seeds
  {
    Derived(seeds)
  }

  /** Two seed lists derive the same address exactly when they are the
      same list: derived addresses never collide. */
  lemma DeriveAddressInjective(seeds: seq<Seed>, seeds': seq<Seed>)
    ensures DeriveAddress(seeds) == DeriveAddress(seeds') <==> seeds == seeds'
  {
  }

  /** Why an instruction failed. */
  datatype Error =
    // the program's own error codes
    | NotEnoughBalance
    | NoPoolMintOutput
    | BurnTooMuch
    | NotEnoughOut
    // a panic: `unwrap()` of a failed checked operation, or an overflowing `+=`
    | Panic
    // account validation done by the framework before a handler runs
    | AccountNotInitialized
    | AccountInUse
    | ConstraintHasOne
    | ConstraintRaw
    // errors returned by the token program
    | InsufficientFunds
    | MintMismatch
    | OwnerMismatch
    | Overflow

  datatype Result<T> = Ok(value: T) | Err(error: Error) {
    predicate IsFailure() { Err? }
    function PropagateFailure<U>(): Result<U> requires Err? { Err(error) }
    function Extract(): T requires Ok? { value }
  }
}
