/**
 * The on-chain state the img-token program reads and writes: integer widths, account
 * addresses, the program's error codes and events, the token and lamport ledger, and the
 * program's own configuration account.
 */
module Accounts {
  import opened Wrappers

  const U8_MAX: nat := 0xFF
  const U16_MAX: nat := 0xFFFF
  const U64_MAX: nat := 0xFFFF_FFFF_FFFF_FFFF
  /** 2^64: an `as u64` cast keeps the value modulo this. */
  const U64_MODULUS: nat := 0x1_0000_0000_0000_0000

  type u8 = x: nat | x <= U8_MAX
  type u16 = x: nat | x <= U16_MAX
  type u64 = x: nat | x <= U64_MAX

  /** An account address; the model only compares addresses for equality. */
  type Pubkey = nat

  /** The program's `ErrorCode` enum, all eight variants as declared. */
  datatype ErrorCode =
    | InvalidAmount
    | InsufficientTaxBalance
    | TooEarlyToDistribute
    | NoRewardsToDistribute
    | Unauthorized
    | TaxTooHigh
    | IntervalTooShort
    | TransfersPaused

  /** Why a Rust panic aborts the instruction. */
  datatype PanicReason = ArithmeticOverflow | DivisionByZero | UnwrapOnNone

  /** Failures reported by the token program or the account loader. */
  datatype LedgerError = InsufficientFunds | AccountDidNotDeserialize

  /** Every way an instruction can fail; any failure rolls back the whole instruction. */
  datatype Failure =
    | Program(code: ErrorCode)
    | Panic(panic: PanicReason)
    | Ledger(ledger: LedgerError)

  /** Emitted by `transfer`: `amount` is the net amount the recipient receives. */
  datatype TransferEvent = TransferEvent(from: Pubkey, to: Pubkey, amount: nat, tax: nat)

  /** Emitted by `distribute_rewards`: `amount` is the reward snapshot taken before the loop. */
  datatype DistributionEvent = DistributionEvent(timestamp: int, amount: nat)

  /** The balance of `k`; an address the ledger has no entry for holds nothing. */
  function Bal(m: map<Pubkey, nat>, k: Pubkey): nat {
    if k in m then m[k] else 0
  }

  /** Adds `x` to the balance of `k` and to no other. */
  function Credit(m: map<Pubkey, nat>, k: Pubkey, x: nat): (r: map<Pubkey, nat>)
    ensures Bal(r, k) == Bal(m, k) + x
    ensures forall j :: j != k ==> Bal(r, j) == Bal(m, j)
  {
    m[k := Bal(m, k) + x]
  }

  /** Takes `x` from the balance of `k` and from no other; the caller has checked that it holds `x`. */
  function Debit(m: map<Pubkey, nat>, k: Pubkey, x: nat): (r: map<Pubkey, nat>)
    requires x <= Bal(m, k)
    ensures Bal(r, k) == Bal(m, k) - x
    ensures forall j :: j != k ==> Bal(r, j) == Bal(m, j)
  {
    m[k := Bal(m, k) - x]
  }

  /**
   * The token program's transfer of `x` tokens from `src` to `dst`: it fails when `src` holds
   * less than `x`, and a transfer to the same account changes nothing.
   */
  function TokenTransfer(m: map<Pubkey, nat>, src: Pubkey, dst: Pubkey, x: nat): (r: Result<map<Pubkey, nat>, Failure>)
    ensures r.Ok? <==> x <= Bal(m, src)
    ensures r.Err? ==> r.error == Ledger(InsufficientFunds)
    ensures r.Ok? ==> forall k ::
      Bal(r.value, k) == Bal(m, k) - (if k == src then x else 0) + (if k == dst then x else 0)
  {
    if Bal(m, src) < x then Err(Ledger(InsufficientFunds))
    else if src == dst then Ok(m)
    else Ok(Credit(Debit(m, src, x), dst, x))
  }

  /**
   * The balances the program touches: token balances of token accounts, the supply of each
   * mint, and the lamport balances of all accounts. Updated in place by the instructions.
   */
  class Ledger {
    var tokens: map<Pubkey, nat>
    var supplies: map<Pubkey, nat>
    var lamports: map<Pubkey, nat>
  }

  /** The tax rate, in basis points, that `initialize` stores. */
  const DEFAULT_TAX_RATE: u16 := 500
  /** The distribution interval, in seconds, that `initialize` stores. */
  const DEFAULT_INTERVAL: int := 300

  /** The `TokenConfig` account. No instruction changes the tax rate or the interval. */
  class TokenConfig {
    var authority: Pubkey
    var mint: Pubkey
    var taxRate: u16
    var distributionInterval: int
    var lastDistribution: int

    /** What every reachable configuration satisfies: the defaults of `initialize`, never changed. */
    ghost predicate Valid()
      reads this
    {
      taxRate == DEFAULT_TAX_RATE && distributionInterval == DEFAULT_INTERVAL
    }

    constructor (authority: Pubkey, mint: Pubkey, now: int)
      ensures Valid()
      ensures this.authority == authority && this.mint == mint
      ensures taxRate == 500 && distributionInterval == 300 && lastDistribution == now
    {
      this.authority := authority;
      this.mint := mint;
      taxRate := DEFAULT_TAX_RATE;
      distributionInterval := DEFAULT_INTERVAL;
      lastDistribution := now;
    }
  }
}
