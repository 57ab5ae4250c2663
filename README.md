# img-token: a Dafny model of a taxed, reward-distributing token

This project models the Anchor program `img_token`. The program runs a taxed token that pays
rewards to its holders. It has four instructions:

- `initialize` creates the `TokenConfig` account. It sets the tax rate to 500 basis points and the
  distribution interval to 300 seconds, and stamps `last_distribution` with the current time.
  It then mints one billion tokens to the authority.
- `transfer` rejects a zero amount. It withholds `floor(amount * tax_rate / 10000)` as tax and sends
  the rest to the recipient. The tax goes to the tax vault. A `TransferEvent` records both parts.
- `swap_taxes_to_sol` checks the tax vault's token balance against `amount`. It then moves
  `amount / 1000` lamports from the authority to the reward vault. The tax vault is not debited.
- `distribute_rewards` is rate-limited and refuses an empty reward vault. It snapshots the vault's
  lamports and walks the supplied holder accounts once. Each holder's owner gets
  `floor(balance * snapshot / supply)` lamports out of the vault. Zero balances and zero shares are
  skipped. At the end `last_distribution` becomes the current time.

Modules:

- `Wrappers` (wrappers.dfy) holds `Option` and `Result`.
- `Accounts` (accounts.dfy) holds the integer widths and addresses, plus the `ErrorCode` enum and the
  failure kinds, and the two events. It also holds the `Ledger` class (token balances, the supply of each
  mint, lamports), the `TokenConfig` class, and `TokenTransfer`, the token program's transfer.
- `Arithmetic` (arithmetic.dfy) holds the multiplication and division facts the proofs need.
- `Tax` (tax.dfy) holds the tax split.
- `Rewards` (rewards.dfy) states the holder loop as functions: `Share`, `PayOne`, `PayAll`, `TotalPayout`,
  `PaidTo`. It also proves the loop's properties.
- `ImgToken` (img_token.dfy) holds the four instructions. Each is a method that updates the
  configuration and the ledger in place, and each is proved against a function that states its
  outcome (`TransferSpec`, `SwapSpec`, `DistributeSpec`, `InitialSupply`). The theorems about those
  functions sit beside them.

How the model treats the runtime:

- Any failure aborts the instruction, and the runtime then rolls back every account. The methods
  model this explicitly: on a failure that comes after a mutation, they restore the saved balances.
  A failure comes out as a `Result` error: a program `ErrorCode`, a Rust panic, or a token-program or
  account-loader error.
- Rust arithmetic is taken to be built with overflow checks, as in Anchor's default workspace
  profile. A `u64` overflow or underflow, or a `pow` overflow, is therefore a panic.
- Casts to `u64` are written out as reductions modulo 2^64: `(… / 10000) as u64` and `share as u64`.
- The clock becomes the `now` parameter. The remaining accounts of `distribute_rewards` become a
  supplied `seq<HolderAccount>`. An entry that does not load as a token account is the
  `NotTokenAccount` case, and it aborts the instruction, as the `?` on `try_from` does.
- The holder list is taken exactly as given. An account listed twice is paid twice
  (`Rewards.PayAllExamples`).

## Model

| member | source | states |
|---|---|---|
| Accounts.TokenConfig.constructor | programs/img-token/src/lib.rs:21-28 | a new configuration holds the given authority and mint, tax rate 500, interval 300 and `last_distribution = now` |
| Accounts.TokenTransfer | programs/img-token/src/lib.rs:56-79 | the token transfer succeeds exactly when the source holds the amount; on success the source loses it and the destination gains it (a self-transfer changes nothing); otherwise the error is insufficient funds |
| ImgToken.Initialize | programs/img-token/src/lib.rs:15-45 | when the mint amount fits in 64 bits, a fresh configuration holds the defaults and `now`, and the authority's account and the mint's supply grow by the minted amount; otherwise the instruction fails and the ledger is unchanged |
| ImgToken.InitialSupplyFits | programs/img-token/src/lib.rs:31 | the initial mint succeeds exactly when `decimals <= 10`, and then mints 10^(9 + decimals) base units |
| Tax.TaxSplitSound | programs/img-token/src/lib.rs:52-53 | for every rate up to 10000 the split never panics; `tax + net == amount`, `tax <= amount`, and `tax` is the floor of `amount * rate / 10000` (`tax * 10000 <= amount * rate < (tax + 1) * 10000`) |
| Tax.DefaultRateTax | programs/img-token/src/lib.rs:52-53 | at the stored rate of 500 basis points the tax is `amount / 20`, rounded down, and the net is the rest |
| Tax.TaxSplitExample | programs/img-token/src/lib.rs:52-53 | rate 500 and amount 10000 give tax 500 and net 9500 |
| Tax.TaxSplitPanicsAboveFullRate | programs/img-token/src/lib.rs:53 | above 100% the `unwrap` can panic: at rate 20000 an amount of 1 has no split |
| ImgToken.Transfer | programs/img-token/src/lib.rs:48-89 | a zero amount fails with `InvalidAmount` before any movement; otherwise the outcome and the new token balances are those of `TransferSpec`, and a failure leaves the balances unchanged |
| ImgToken.TransferEffect | programs/img-token/src/lib.rs:52-86 | at rates up to 10000 a funded positive transfer succeeds; a success takes exactly `amount` from the sender, gives `net` to the recipient and `tax` to the tax vault (even when accounts coincide), and the event carries that same `net` and `tax`, which add up to the amount |
| ImgToken.SwapTaxesToSol | programs/img-token/src/lib.rs:92-106 | the outcome and the new lamport balances are those of `SwapSpec`; token balances, the tax vault's included, never change; a failure leaves the lamports unchanged |
| ImgToken.SwapEffect | programs/img-token/src/lib.rs:93-103 | fails with `InsufficientTaxBalance` exactly when the tax vault holds less than `amount`; otherwise succeeds exactly when the authority can pay `amount / 1000`; the reward vault then gains what the authority loses, their sum is unchanged, and all other balances are unchanged |
| ImgToken.DistributeRewards | programs/img-token/src/lib.rs:109-143 | the outcome and the new lamports are those of `DistributeSpec`, with the supply of the mint the caller passes; on success `last_distribution = now`; on failure the lamports and `last_distribution` are unchanged; the configuration keeps its rate and interval |
| ImgToken.DistributeGuards | programs/img-token/src/lib.rs:113-140 | the call fails with `TooEarlyToDistribute` exactly when `now < last_distribution + interval`; otherwise an empty reward vault fails with `NoRewardsToDistribute`; the event of a success carries `now` and the pre-loop snapshot, not the amount paid |
| ImgToken.DistributeTwice | programs/img-token/src/lib.rs:113-135 | two consecutive calls on the same configuration: when the first succeeds at `now`, it sets `last_distribution = now`, and a second one before `now + 300` fails with `TooEarlyToDistribute` |
| ImgToken.DistributePaysProRata | programs/img-token/src/lib.rs:118-140 | suppose the interval has passed, the vault is not empty, and the listed token balances add up to at most the supply; then the call succeeds and pays at most the snapshot in total. The vault ends at the snapshot minus the total paid (the dust stays), plus anything paid to the vault's own address, and every other account gains exactly what was paid to it |
| Rewards.ShareBound | programs/img-token/src/lib.rs:127-132 | `share * supply <= balance * snapshot`; a balance at most the supply earns at most the snapshot, so the `as u64` cast of a share of a 64-bit snapshot loses nothing |
| Rewards.TotalPayoutScaled | programs/img-token/src/lib.rs:123-133 | over the whole holder list, total paid times supply is at most the sum of listed balances times the snapshot |
| Rewards.TotalPayoutBound | programs/img-token/src/lib.rs:123-133 | when the listed balances add up to at most the supply, the loop pays at most the snapshot |
| Rewards.PayAllEffect | programs/img-token/src/lib.rs:123-133 | when every entry is a token account and the vault holds what the loop pays, the vault never underflows and the loop succeeds; the vault loses the total payout and each owner gains the sum of its shares |
| Rewards.IdleHolderIrrelevant | programs/img-token/src/lib.rs:125-128 | a holder with a zero balance, or with a zero share, can be inserted anywhere in the list without changing the outcome or anyone's payout |
| Rewards.PayAllExamples | programs/img-token/src/lib.rs:125-132 | with supply 1000 and snapshot 100 a balance of 10 earns 1; with snapshot 5 a balance of 1 earns 0; an account listed twice is paid twice |

## Left out

- The Anchor account-constraint structs and `TokenConfig::LEN` (lib.rs:146-235) are account wiring
  and storage layout. They are left out, with one exception. The `DistributeRewards` struct
  (lib.rs:226-235) does not tie `mint` to `token_config.mint`, so `distribute_rewards` reads the
  supply of whatever mint the caller passes. The model keeps this: `DistributeRewards` takes the
  mint as a parameter and reads that mint's supply.
- The `name` and `symbol` strings are inert metadata. The `paused` field is never read or written
  by any instruction.
- The error codes `Unauthorized`, `TaxTooHigh`, `IntervalTooShort` and `TransfersPaused` are declared
  in `Accounts.ErrorCode` but never raised. The program has no setter for the rate or the interval,
  no pause check and no authority check, so the model has none either.
- The Jupiter swap is only a comment in the program. The swap is modelled as the program's fixed
  conversion, `amount / 1000`.
- The token program is reduced to `TokenTransfer`: a balance check, then a debit and a credit. It
  leaves out mint matching, delegates, frozen accounts and the signer check.
- Lamport and token credits are not bounded by 2^64. In a consistent ledger the totals (all
  lamports, the mint supply) stay below 2^64, so the checked `+=` cannot overflow. Debits are
  checked, and an underflow aborts.
- The runtime's account rules are not modelled. One of them forbids a program to debit lamports
  from an account it does not own, such as the authority's system account in `swap_taxes_to_sol`.
  The runtime's lamport-conservation check is not modelled either.
- Two lamport updates do not compile as written. At lib.rs:132, `holder.owner` is a `Pubkey`
  field, and a `Pubkey` has no `try_borrow_mut_lamports`. At lib.rs:102, the same method is called
  on an `Account<TokenAccount>`, which does not give access to it either. The model follows their
  evident intent: it credits the lamport balance at the owner's address, and at the reward vault's
  address.
- Timestamps and `last_distribution + distribution_interval` are unbounded integers. For any real
  clock value, 300 seconds added to an `i64` timestamp cannot overflow.
- Events are returned as the instructions' results, not logged.
- The tests are not modelled. The TypeScript test needs a local cluster. It asserts three things
  after `initialize`: the name, the symbol, and `taxRate == 500`. The name and the symbol are
  metadata and are left out. `taxRate == 500` is part of the constructor's contract.
- The model follows what the code does, as it stands:
  - the swap does not debit the tax vault;
  - a holder entry that is not a token account aborts the whole distribution instead of being skipped;
  - transfers are never refused as paused;
  - a zero supply panics only when a holder with a non-zero balance is reached.
