# anchor-dex: a constant-product token pool, modelled in Dafny

anchor-dex is a Solana program written with the Anchor framework. It runs
pools of two SPL tokens, and each pool lives at addresses derived from its
ordered mint pair:

- a `PoolState` record with fields for the two mint keys, which the program
  never fills in (they stay the default key), and the count of LP tokens
  minted so far (`total_amount_minted`);
- two vault token accounts, `vault0` and `vault1`, owned by a derived
  `pool_authority`;
- an LP mint with 9 decimals, whose mint authority is that same authority.

Its four instructions are:

- `initialize_pool` creates the pool record, its vaults and its LP mint.
- `add_liquidity` checks the user's balances and computes the deposit and
  the LP amount. It raises the pool's count, mints the LP tokens to the
  user and moves the two deposits into the vaults.
- `remove_liquidity` checks the LP amount to burn against the user's LP
  balance and the pool's count, and then returns. It burns nothing and
  pays nothing out.
- `swap` prices `amount_in` by the product of two vault balances, checks a
  minimum output, and makes the two transfers.

The model works in Dafny's terms:

- Rust's `u64` and `u128` are bounded naturals (`Runtime.u64`,
  `Runtime.u128`).
- A failed `checked_*` followed by `unwrap()`, or an overflowing `+=`, is
  `Err(Panic)`.
- The framework's account constraints become the errors Anchor raises:
  `AccountNotInitialized`, `AccountInUse`, `ConstraintHasOne` and
  `ConstraintRaw`.
- The token program's `transfer` and `mint_to` are pure functions that make
  the checks the token program makes, in its order (`Token`).
- Every account the instructions touch sits in one `State.Ledger`, a class
  with three maps: pool records, token accounts and mints.

Each state-changing instruction is a method that updates the ledger in
place. The method is proved equal to a pure function of the chain it runs
on (`...Effect`). `remove_liquidity` changes nothing, so
`Liquidity.RemoveLiquidity` only reads the ledger. `State.Commit` makes a failed instruction change nothing,
since a Solana transaction is rolled back as a whole. The properties are
lemmas about those functions:

- which error each guard raises;
- the exact balance changes on success;
- that every pool keeps its vaults and an LP mint whose supply equals the
  pool's count.

The arithmetic is modelled as written:

- Integer square root: a Newton loop (`Math.Sqrt`), proved to compute
  `Math.FloorSqrt`. `Math.FloorSqrt` is defined independently by counting
  up.
- Deposit into a pool that has minted: the whole-number rate
  `vault1 / vault0`, and an LP amount that is a whole multiple of the
  supply.
- Swap output: `vault_out - floor(vault_in * vault_out / (vault_in + amount_in))`,
  with no fee. This rounds the output up, so a swap never raises the product of
  the vault balances (`Swap.SwapShrinksProduct`). The product can stay the same, for example
  with 100 in each vault and 100 in.

The program's design, read as a generic automated market maker, would
suggest several things the code does not do. The model follows the code:

- There is no swap fee and no fee field (`state.rs` line 3).
- Pairs are not sorted: (A, B) and (B, A) are two different pools.
- Nothing rejects a pool whose two mints are equal.
- `PoolState` has no reserve fields; the reserves are the vault balances.
- `remove_liquidity` neither burns nor pays out.
- A deposit into a non-empty pool uses `amount0 * floor(vault1 / vault0)`
  and `floor(deposit1 / vault1) * total`, not a minimum of two
  proportional shares.
- The swap's rounding favours the trader, not the pool.

The `LiquidityOperation` accounts repeat the constraint
`vault1.mint == user1.mint` on `vault0`, so vault 0's mint is never compared
with user 0's (`Liquidity.User0MintUnchecked`); a wrong mint in user0 surfaces
only at the token transfer, as `MintMismatch` (`Liquidity.AddLiquiditySettleOutcome`). The `Swap` accounts never
tie `vault_in`/`vault_out` to the pool's own vaults or to each other: any
two accounts owned by the pool authority whose mints match the user
accounts pass. An empty token account of the authority used as `vault_in`
is therefore priced as an empty in-vault and pays out the whole of
`vault_out` (`Swap.SwapEmptyInVaultPaysAll`).

## Model

| member | source | states |
|---|---|---|
| Runtime.DeriveAddressInjective | programs/anchor-dex/src/instructions/init_pool.rs:26 | two seed lists derive the same address exactly when they are the same list, so no two different seed lists collide |
| Token.Transfer | programs/anchor-dex/src/instructions/liquidity.rs:90-106 | `transfer` succeeds exactly when both accounts exist, the source holds enough, the mints match, the signer owns the source and the destination cannot overflow; on success only the two balances change, by the amount |
| Token.MintTo | programs/anchor-dex/src/instructions/liquidity.rs:72-87 | `mint_to` succeeds exactly when the account holds that mint, the signer is the mint authority and neither balance nor supply overflows; on success exactly that balance and that supply rise by the amount |
| Math.FloorSqrt | programs/anchor-dex/src/math.rs:1-9 | the result r satisfies r*r <= x < (r+1)*(r+1), and is 0 only for x = 0 |
| Math.FloorSqrtUnique | programs/anchor-dex/src/math.rs:1-9 | only one number has the floor-square-root property, so any y with it is `FloorSqrt(x)` |
| Math.NewtonStart | programs/anchor-dex/src/math.rs:2-3 | the starting values y = x and z = (x+1)/2 are both at or above floor(sqrt(x)), and the loop body runs at all exactly when x > 1 (for x = 0 and x = 1, `z < y` is false at once) |
| Math.NewtonStepStaysAbove | programs/anchor-dex/src/math.rs:6 | a Newton step `(x / z + z) / 2` from any positive z never goes below floor(sqrt(x)) |
| Math.PositiveAboveRoot | programs/anchor-dex/src/math.rs:6 | an estimate at or above floor(sqrt(x)) of a positive x is positive, so the divisor z is never zero |
| Math.NewtonSumBound | programs/anchor-dex/src/math.rs:6 | `x / z + z` stays within x + 1, so the step cannot overflow u128 |
| Math.NewtonStepStops | programs/anchor-dex/src/math.rs:4-6 | when a step does not decrease y, y*y <= x |
| Math.NewtonExit | programs/anchor-dex/src/math.rs:4-7 | when the loop condition `z < y` fails, y*y <= x, including for x = 0 and x = 1 where the body never runs |
| Math.NewtonStepKeeps | programs/anchor-dex/src/math.rs:4-7 | while `z < y`, z is a positive divisor, the step `x / z + z` stays within x + 1, and the loop's invariant (both estimates at or above floor(sqrt(x)), y at most x) holds again for the next y and z |
| Math.Sqrt | programs/anchor-dex/src/math.rs:1-9 | the Newton loop, which decreases y at every step, returns y with y*y <= x < (y+1)*(y+1), equal to `FloorSqrt(x)`, whenever x + 1 does not overflow u128 |
| Math.U64ProductFits | programs/anchor-dex/src/instructions/swap.rs:27 | the product of two u64 values plus one fits in u128, so `k` and the `x + 1` of `sqrt` cannot overflow |
| Math.U64ProductFitsSqrt | programs/anchor-dex/src/instructions/liquidity.rs:47 | the only caller of `sqrt` passes a product of two u64 values, which meets its precondition, and the root fits back into u64 |
| State.DerivedAddressesDistinct | programs/anchor-dex/src/instructions/init_pool.rs:33-66 | the authority, the two vaults and the LP mint of a pool are four different addresses, and each determines its pool |
| InitPool.InitializePoolEffect | programs/anchor-dex/src/instructions/init_pool.rs:5-74 | succeeds exactly when both mints exist and none of the four derived addresses is taken; otherwise fails with `AccountNotInitialized` or `AccountInUse` |
| InitPool.InitializeSucceeded | programs/anchor-dex/src/instructions/init_pool.rs:5-74 | on success the instruction adds a zero-count pool record whose mint fields keep the default key, vault0 holding mint0 and vault1 holding mint1 (both owned by the authority, both empty), and a 9-decimal LP mint under the authority with zero supply; every account, mint and pool record that existed before is unchanged |
| InitPool.PoolAddresses | programs/anchor-dex/src/instructions/init_pool.rs:26-66 | the pool record, the two vaults and the LP mint of a pair sit at four different addresses |
| InitPool.PoolAddressesDisjoint | programs/anchor-dex/src/instructions/init_pool.rs:26-66 | two different ordered pairs share none of their four addresses |
| InitPool.ExistsAfterInitialize | programs/anchor-dex/src/instructions/init_pool.rs:22-66 | after a successful initialisation an address is taken exactly when it was taken before or is one of the pair's four addresses, and no mint disappears |
| InitPool.InitializePreservesValid | programs/anchor-dex/src/instructions/init_pool.rs:37-66 | after a pool is created, every pool still has its vaults and an LP mint whose supply equals its count |
| InitPool.InitializeTwiceFails | programs/anchor-dex/src/instructions/init_pool.rs:22-29 | initialising the same ordered pair again fails with `AccountInUse` |
| InitPool.PoolAddressIsOrdered | programs/anchor-dex/src/instructions/init_pool.rs:26 | two pairs give the same pool address exactly when they are equal in order; (A, B) and (B, A) differ |
| InitPool.ReversedPairIsAnotherPool | programs/anchor-dex/src/instructions/init_pool.rs:22-29 | after (A, B) is created, (B, A) can still be created |
| InitPool.SameMintTwice | programs/anchor-dex/src/instructions/init_pool.rs:17-20 | a pool whose two mints are the same is accepted, and both its vaults hold that mint |
| InitPool.InitializePool | programs/anchor-dex/src/instructions/init_pool.rs:5-13 | the instruction on the ledger returns the outcome of `InitializePoolEffect` and commits its chain on success; a failed instruction leaves every pool record, account and mint as it was; the pool invariant is kept |
| Liquidity.FirstDeposit | programs/anchor-dex/src/instructions/liquidity.rs:44-47 | on an empty pool both amounts are taken as given and floor(sqrt(amount0*amount1)) LP tokens are minted; the deposit is refused with `NoPoolMintOutput` exactly when an amount is zero |
| Liquidity.LaterDeposit | programs/anchor-dex/src/instructions/liquidity.rs:52-62 | on a pool that has minted, success means both vaults are non-empty, amount0 is taken, the token-1 deposit is amount0 * floor(vault1/vault0) and does not exceed amount1, and the LP amount is floor(deposit1/vault1) * total and positive |
| Liquidity.LaterDepositErrors | programs/anchor-dex/src/instructions/liquidity.rs:52-62 | an empty vault panics, an overflowing token-1 deposit panics, a token-1 deposit beyond `amount_liq1` is refused with `NotEnoughBalance`, an overflowing LP amount panics, a zero LP amount is refused with `NoPoolMintOutput`; and the deposit succeeds exactly when none of these happens |
| Liquidity.DepositQuote | programs/anchor-dex/src/instructions/liquidity.rs:25-67 | an amount beyond the user's balance is refused with `NotEnoughBalance`; any deposit takes amount0, at most amount1, and mints a positive amount |
| Liquidity.DepositBelowVaultMintsNothing | programs/anchor-dex/src/instructions/liquidity.rs:58-67 | on a pool that has minted, a token-1 deposit below the whole of vault 1 mints zero and is refused with `NoPoolMintOutput` |
| Liquidity.MintIsMultipleOfSupply | programs/anchor-dex/src/instructions/liquidity.rs:58-62 | on a pool that has minted, the LP amount is a whole multiple of the supply and at least the supply, and the token-1 deposit is at least vault 1 |
| Liquidity.DepositDoesNotDilute | programs/anchor-dex/src/instructions/liquidity.rs:52-62 | the share of the supply minted never exceeds the share of either vault deposited, so rounding never favours the depositor |
| Liquidity.CheckLiquidityAccounts | programs/anchor-dex/src/instructions/liquidity.rs:126-177 | the `LiquidityOperation` accounts pass exactly when they exist, vault1 and user1 hold the same mint, the user's LP account holds the LP mint, and the signer owns the three user accounts. As in Anchor, which loads every account before it runs the constraints field by field, a missing account is `AccountNotInitialized`; then a failed mint constraint (on vault0, vault1 and pool_mint) is `ConstraintRaw`; and only then is a wrong owner `ConstraintHasOne` |
| Liquidity.User0MintUnchecked | programs/anchor-dex/src/instructions/liquidity.rs:138-151 | the account checks never depend on user0's mint: changing it leaves their outcome as it was |
| Liquidity.AddLiquidityEffect | programs/anchor-dex/src/instructions/liquidity.rs:20-110 | a failed account check is the instruction's error; once the accounts pass, a failed quote (`NotEnoughBalance`, a `Panic`, `NoPoolMintOutput`) is the instruction's error; and success implies the checks passed |
| Liquidity.Settle | programs/anchor-dex/src/instructions/liquidity.rs:70-106 | the count update and the token calls keep the set of pools, accounts and mints |
| Liquidity.Pay | programs/anchor-dex/src/instructions/liquidity.rs:72-106 | when the mint and both transfers go through, no account or mint is created or removed |
| Liquidity.PayMoves | programs/anchor-dex/src/instructions/liquidity.rs:72-106 | when the mint and both transfers go through, each user account held the mint of the vault it pays into; only the LP supply rises, by the minted amount, keeping every mint's authority and decimals; and every account keeps its mint and owner while its balance changes by exactly the minted amount and the two deposits it sends or receives |
| Liquidity.AddLiquiditySucceeded | programs/anchor-dex/src/instructions/liquidity.rs:20-110 | a successful deposit passed the checks and the quote, and each user account held its vault's mint; the pool record changes only in its count, which rises by the minted amount; other pool records are unchanged; the LP supply rises by that amount and every mint keeps its authority and decimals; the user's LP account gains it, the two deposits move from the user accounts to the vaults, and no other balance, mint or owner changes |
| Liquidity.AddLiquidityMovesVaults | programs/anchor-dex/src/instructions/liquidity.rs:85-106 | with a wallet as signer, vault 0 grows by exactly `amount_liq0`, vault 1 by the computed token-1 deposit, and the user's LP account by the minted amount |
| Liquidity.AddLiquiditySettleOutcome | programs/anchor-dex/src/instructions/liquidity.rs:70-106 | once the accounts pass and the quote is made, with a wallet as signer and two different user accounts: an overflowing count `+=` panics; when neither the count nor the LP balance overflows but user0 does not hold vault 0's mint (which no account check compares), the first transfer fails with `MintMismatch`; every other failure is an `Overflow`; and the deposit goes through exactly when neither the count, the LP balance nor either vault overflows and user0 holds vault 0's mint |
| Liquidity.PayOutcome | programs/anchor-dex/src/instructions/liquidity.rs:72-106 | `mint_to` and the two transfers, on accounts that passed the checks: `MintMismatch` when the LP balance does not overflow but user0 does not hold vault 0's mint, otherwise only `Overflow`, and success exactly when neither the LP balance nor a vault overflows and the mints agree |
| Liquidity.AddLiquidityPreservesValid | programs/anchor-dex/src/instructions/liquidity.rs:70-87 | after a deposit every pool's LP supply still equals its count, and its vaults and LP mint are still in place |
| Liquidity.ComputeDeposit | programs/anchor-dex/src/instructions/liquidity.rs:25-67 | the handler's steps, including the Newton loop and each checked operation, compute `DepositQuote` |
| Liquidity.SettleDeposit | programs/anchor-dex/src/instructions/liquidity.rs:70-106 | the `+=` and the token calls on the ledger return and commit `Settle` |
| Liquidity.AddLiquidity | programs/anchor-dex/src/instructions/liquidity.rs:20-110 | the instruction on the ledger returns the outcome of `AddLiquidityEffect` and commits its chain on success; a failed deposit, even one that fails in its last token call after the count was raised, leaves every pool record, account and mint as it was; the pool invariant is kept |
| Liquidity.RemoveLiquidity | programs/anchor-dex/src/instructions/liquidity.rs:112-123 | after the account checks, the instruction fails with `NotEnoughBalance` exactly when the burn exceeds the user's LP balance, fails with `BurnTooMuch` exactly when the burn is within that balance but above the pool's count, succeeds otherwise, and changes nothing |
| Swap.SwapOutput | programs/anchor-dex/src/instructions/swap.rs:27-37 | the output never exceeds the out-vault balance, so the `checked_sub` cannot fail and the `as u64` cast cannot truncate |
| Swap.QuotientBelowOut | programs/anchor-dex/src/instructions/swap.rs:28-36 | k / (vault_in + amount_in) is at most vault_out |
| Swap.SwapOutputBounds | programs/anchor-dex/src/instructions/swap.rs:27-37 | what stays in the out-vault is the largest amount whose product with the new in-vault balance stays within k |
| Swap.SwapQuote | programs/anchor-dex/src/instructions/swap.rs:10-40 | fails with `NotEnoughBalance` when `amount_in` exceeds the user's balance or the out-vault is below the minimum; panics exactly when `vault_in + amount_in` is zero; otherwise fails with `NotEnoughOut` exactly when the output is below the minimum, and succeeds with an output between the minimum and the out-vault |
| Swap.SwapOutputIsCeiling | programs/anchor-dex/src/instructions/swap.rs:27-37 | the output is the exact proportional amount amount_in*vault_out/(vault_in+amount_in) rounded up, with no fee taken |
| Swap.SwapShrinksProduct | programs/anchor-dex/src/instructions/swap.rs:27-70 | the product of the vault balances after the swap is at most the product before, and less than one new in-vault balance below it |
| Swap.SwapOutputMonotone | programs/anchor-dex/src/instructions/swap.rs:27-37 | paying more in never pays less out |
| Swap.SwapNothingIn | programs/anchor-dex/src/instructions/swap.rs:27-37 | nothing in buys nothing out when the in-vault is not empty |
| Swap.SwapEmptyInVaultPaysAll | programs/anchor-dex/src/instructions/swap.rs:27-37 | on an empty in-vault any positive amount buys the whole out-vault |
| Swap.CheckSwapAccounts | programs/anchor-dex/src/instructions/swap.rs:75-114 | the `Swap` accounts pass exactly when they exist, the signer owns both user accounts, and each vault holds the mint of its user account and belongs to the pool authority. A missing account is `AccountNotInitialized`; then a user account the signer does not own is `ConstraintHasOne` (user_in and user_out come first); and only then is a vault's mint or owner `ConstraintRaw` |
| Swap.SwapTransfers | programs/anchor-dex/src/instructions/swap.rs:43-70 | the two transfers move `amount_in` from user_in to vault_in and the output from vault_out to user_out, and nothing else |
| Swap.SwapEffect | programs/anchor-dex/src/instructions/swap.rs:10-77 | a failed account check is the instruction's error; once the accounts pass, a failed quote (`NotEnoughBalance`, the u128 `Panic`, `NotEnoughOut`) is the instruction's error; and a swap never changes a pool record or a mint |
| Swap.SwapSucceeded | programs/anchor-dex/src/instructions/swap.rs:10-73 | a successful swap passed the checks and the quote, paid at least the minimum, and moved exactly the two traded amounts |
| Swap.SwapMovesBalances | programs/anchor-dex/src/instructions/swap.rs:43-70 | with a wallet as signer and distinct accounts, user_in falls and vault_in rises by `amount_in`, and vault_out falls and user_out rises by the output |
| Swap.SwapSettleOutcome | programs/anchor-dex/src/instructions/swap.rs:43-72 | once the accounts pass and the quote is made, with a wallet as signer, two different vaults and two different user accounts, the swap goes through exactly when neither vault_in nor user_out overflows, and otherwise fails with `Overflow` |
| Swap.SwapPreservesValid | programs/anchor-dex/src/instructions/swap.rs:43-77 | a swap keeps every pool's vaults, their owner and the LP supply equal to its count |
| Swap.ComputeSwap | programs/anchor-dex/src/instructions/swap.rs:10-40 | the handler's u128 steps compute `SwapQuote` |
| Swap.SettleSwap | programs/anchor-dex/src/instructions/swap.rs:43-72 | the two transfers on the ledger return their outcome and commit it only when both succeed; a failed second transfer undoes the first |
| Swap.Swap | programs/anchor-dex/src/instructions/swap.rs:10-73 | the instruction on the ledger returns the outcome of `SwapEffect` and commits its chain on success; a failed swap, even one whose second transfer fails after the first went through, leaves every account as it was; the pool invariant is kept |
| Scenarios.FirstDepositOfFifty | tests/anchor-dex.ts:201-236 | the quote for 50 and 50 tokens (9 decimals) into an empty pool takes both amounts and mints 50 LP tokens |
| Scenarios.SecondDepositOfFifty | tests/anchor-dex.ts:252-290 | the quote for a second 50 and 50 into the pool with count 50 and 50 in each vault takes both amounts and mints 50 LP tokens |
| Scenarios.FirstDepositOnChain | tests/anchor-dex.ts:201-236 | the first deposit of the test, from the test's setup (a fresh pool, 100 of each token, no LP tokens, accounts that pass the checks, user0 holding vault 0's mint): the deposit goes through, the count becomes 50, each vault holds 50, and the user's LP balance is 50, equal to the count |
| Scenarios.SecondDepositOnChain | tests/anchor-dex.ts:252-290 | the second deposit of the test, from the same setup on the pool the first left: the deposit goes through, the count becomes 100, each vault holds 100, and the second user's LP balance is 50 |
| Scenarios.SecondDepositOfFortyNine | programs/anchor-dex/src/instructions/liquidity.rs:58-67 | 49 and 50 into that pool mint nothing and are refused with `NoPoolMintOutput` |
| Scenarios.RootsOfZeroAndOne | programs/anchor-dex/src/math.rs:1-9 | the square roots of 0 and 1 are 0 and 1 |
| Scenarios.SwapOneForOne | programs/anchor-dex/src/instructions/swap.rs:27-37 | one unit into a 1/1 pool buys the whole out-vault |
| Scenarios.SwapTenIntoHundred | programs/anchor-dex/src/instructions/swap.rs:27-37 | 10 tokens into a 100/100 pool buy 9.090909091 tokens, the exact price rounded up in the last unit |

## Left out

- Math.Sqrt: the conversion of the root to `f64` and the `.floor() as u64` at liquidity.rs line 47 are not modelled. The model takes the integer root itself, which the conversion keeps exactly while the root is below 2^53, that is for products below 2^106.
- Liquidity.FirstDeposit: uses the integer root for the same reason. For products of 2^106 or more, the on-chain `f64` rounding may mint a different amount.
- The copy of `sqrt` in liquidity.rs (lines 10-18) is identical to math.rs, so both are modelled by the one `Math.Sqrt`.
- Integer overflow: `overflow-checks` are assumed on, so an overflowing `+=` on `total_amount_minted` is a panic; with them off it would wrap.
- Anchor's type and owner checks on `Account<...>`: an account of the wrong kind counts as missing.
- The seed checks on the five derived accounts (`pool_authority`, `pool_state` at its `init`, `vault0`, `vault1` and `pool_mint`): the model always uses the derived addresses, so Anchor's `ConstraintSeeds` error never arises.
- The `Signer` requirement on `owner`: lemmas that need it assume a wallet key instead (`owner.Wallet?`).
- Program-derived addresses: derivation is an injective constructor over the seed list. This stands in for collision resistance of the real hash. The program id and the bump seed are not part of the key.
- Rent, account space, the payer's lamports, the system program and `msg!` logging are not modelled.
- Signer seeds passed with the token-program calls are not modelled; an instruction is authorised by comparing the signing key with the owner or authority.
- Token program: only `transfer` and `mint_to` are modelled. Freezing, delegates, multisig owners, native SOL and closing accounts are left out. LP tokens burnt or minted outside this program would break the supply-equals-count invariant; the model has no such operation.
- Transaction atomicity is `State.Commit`: a failed instruction leaves the ledger as it was. Concurrency and serialisation of transactions are not modelled.
- lib.rs is not part of this model: its one instruction, `initialize`, does nothing and registers none of the handlers.
- The RPC glue of tests/anchor-dex.ts (airdrops, mint and account setup, `.rpc()` calls) is left out; only its asserted numbers appear, as `Scenarios`.
