/**
 * The four instructions of the img-token program: `initialize`, `transfer`,
 * `swap_taxes_to_sol` and `distribute_rewards`. Each instruction is a method that updates the
 * configuration and ledger in place and is proved against a function stating its outcome;
 * a failed instruction leaves every account as it was, as the runtime rolls it back.
 */
module ImgToken {
  import opened Wrappers
  import opened Accounts
  import opened Arithmetic
  import opened Tax
  import opened Rewards

  /** 10^n. */
  function Pow10(n: nat): nat {
    if n == 0 then 1 else 10 * Pow10(n - 1)
  }

  /** One billion tokens in base units: `1_000_000_000 * 10u64.pow(decimals)`, either step panicking on overflow. */
  function InitialSupply(decimals: u8): Result<nat, Failure> {
    var scale := Pow10(decimals);
    if scale > U64_MAX then Err(Panic(ArithmeticOverflow))
    else if 1_000_000_000 * scale > U64_MAX then Err(Panic(ArithmeticOverflow))
    else Ok(1_000_000_000 * scale)
  }

  /** The outcome of `transfer`: the new token balances and the event, or the failure. */
  function TransferSpec(tokens: map<Pubkey, nat>, from: Pubkey, to: Pubkey, taxVault: Pubkey, amount: u64, rate: u16)
    : Result<(map<Pubkey, nat>, TransferEvent), Failure>
  {
    if amount == 0 then Err(Program(InvalidAmount))
    else match TaxSplit(amount, rate)
      case None => Err(Panic(UnwrapOnNone))
      case Some(split) =>
        match TokenTransfer(tokens, from, to, split.net)
        case Err(e) => Err(e)
        case Ok(afterNet) =>
          match TokenTransfer(afterNet, from, taxVault, split.tax)
          case Err(e) => Err(e)
          case Ok(afterTax) => Ok((afterTax, TransferEvent(from, to, split.net, split.tax)))
  }

  /**
   * The outcome of `swap_taxes_to_sol`: the new lamport balances, or the failure. The tax
   * vault's token balance is only compared with `amount`, never debited.
   */
  function SwapSpec(tokens: map<Pubkey, nat>, lamports: map<Pubkey, nat>,
                    taxVault: Pubkey, rewardVault: Pubkey, authority: Pubkey, amount: u64)
    : Result<map<Pubkey, nat>, Failure>
  {
    if Bal(tokens, taxVault) < amount then Err(Program(InsufficientTaxBalance))
    else
      var solAmount := amount / 1000;
      var credited := Credit(lamports, rewardVault, solAmount);
      if Bal(credited, authority) < solAmount then Err(Panic(ArithmeticOverflow))
      else Ok(Debit(credited, authority, solAmount))
  }

  /** The outcome of `distribute_rewards`: the new lamport balances and the event, or the failure. */
  function DistributeSpec(now: int, last: int, interval: int, supply: nat, rewardVault: Pubkey,
                          lamports: map<Pubkey, nat>, holders: seq<HolderAccount>)
    : Result<(map<Pubkey, nat>, DistributionEvent), Failure>
  {
    if now < last + interval then Err(Program(TooEarlyToDistribute))
    else
      var reward := Bal(lamports, rewardVault);
      if reward == 0 then Err(Program(NoRewardsToDistribute))
      else match PayAll(holders, reward, supply, rewardVault, lamports)
        case Err(e) => Err(e)
        case Ok(paid) => Ok((paid, DistributionEvent(now, reward)))
  }

  /**
   * `initialize`: creates the configuration with the default tax rate and interval, stamped
   * with `now`, and mints the initial supply of `mint` to the authority's token account.
   */
  method Initialize(ledger: Ledger, authority: Pubkey, mint: Pubkey, authorityAta: Pubkey, decimals: u8, now: int)
    returns (r: Result<TokenConfig, Failure>)
    modifies ledger`tokens, ledger`supplies
    ensures match InitialSupply(decimals)
      case Err(e) =>
        r == Err(e) && ledger.tokens == old(ledger.tokens) && ledger.supplies == old(ledger.supplies)
      case Ok(minted) =>
        && r.Ok? && fresh(r.value) && r.value.Valid()
        && r.value.authority == authority && r.value.mint == mint
        && r.value.taxRate == 500 && r.value.distributionInterval == 300
        && r.value.lastDistribution == now
        && ledger.tokens == Credit(old(ledger.tokens), authorityAta, minted)
        && ledger.supplies == Credit(old(ledger.supplies), mint, minted)
  {
    var config := new TokenConfig(authority, mint, now);
    var initialSupply := InitialSupply(decimals);
    if initialSupply.Err? {
      return Err(initialSupply.error);
    }
    ledger.tokens := Credit(ledger.tokens, authorityAta, initialSupply.value);
    ledger.supplies := Credit(ledger.supplies, mint, initialSupply.value);
    r := Ok(config);
  }

  /**
   * `transfer`: rejects a zero amount, splits the amount, sends the net part to `to` and the
   * tax to `taxVault`, and reports both in the event.
   */
  method Transfer(config: TokenConfig, ledger: Ledger, from: Pubkey, to: Pubkey, taxVault: Pubkey, amount: u64)
    returns (r: Result<TransferEvent, Failure>)
    modifies ledger`tokens
    ensures amount == 0 ==> r == Err(Program(InvalidAmount))
    ensures match TransferSpec(old(ledger.tokens), from, to, taxVault, amount, config.taxRate)
      case Ok((tokens, event)) => r == Ok(event) && ledger.tokens == tokens
      case Err(e) => r == Err(e) && ledger.tokens == old(ledger.tokens)
  {
    if amount == 0 {
      return Err(Program(InvalidAmount));
    }
    var split := TaxSplit(amount, config.taxRate);
    if split.None? {
      return Err(Panic(UnwrapOnNone));
    }
    var taxAmount, transferAmount := split.value.tax, split.value.net;
    var before := ledger.tokens;
    var moved := TokenTransfer(ledger.tokens, from, to, transferAmount);
    if moved.Err? {
      return Err(moved.error);
    }
    ledger.tokens := moved.value;
    moved := TokenTransfer(ledger.tokens, from, taxVault, taxAmount);
    if moved.Err? {
      ledger.tokens := before;
      return Err(moved.error);
    }
    ledger.tokens := moved.value;
    r := Ok(TransferEvent(from, to, transferAmount, taxAmount));
  }

  /**
   * `swap_taxes_to_sol`: checks the tax vault against `amount`, then moves `amount / 1000`
   * lamports from the authority to the reward vault.
   */
  method SwapTaxesToSol(ledger: Ledger, taxVault: Pubkey, rewardVault: Pubkey, authority: Pubkey, amount: u64)
    returns (r: Result<(), Failure>)
    modifies ledger`lamports
    ensures ledger.tokens == old(ledger.tokens)
    ensures match SwapSpec(old(ledger.tokens), old(ledger.lamports), taxVault, rewardVault, authority, amount)
      case Ok(lamports) => r == Ok(()) && ledger.lamports == lamports
      case Err(e) => r == Err(e) && ledger.lamports == old(ledger.lamports)
  {
    if Bal(ledger.tokens, taxVault) < amount {
      return Err(Program(InsufficientTaxBalance));
    }
    var solAmount := amount / 1000;
    var before := ledger.lamports;
    ledger.lamports := Credit(ledger.lamports, rewardVault, solAmount);
    if Bal(ledger.lamports, authority) < solAmount {
      ledger.lamports := before;
      return Err(Panic(ArithmeticOverflow));
    }
    ledger.lamports := Debit(ledger.lamports, authority, solAmount);
    r := Ok(());
  }

  /**
   * `distribute_rewards`: rate-limited, refuses an empty reward vault, pays every listed holder
   * its share of the vault's balance as it stood before the loop, and advances the timestamp.
   * The supply is that of `mint`, the mint account the caller passes; nothing ties it to
   * `config.mint`.
   */
  method DistributeRewards(config: TokenConfig, ledger: Ledger, mint: Pubkey, rewardVault: Pubkey,
                           holders: seq<HolderAccount>, now: int)
    returns (r: Result<DistributionEvent, Failure>)
    requires config.Valid()
    modifies config`lastDistribution, ledger`lamports
    ensures config.Valid()
    ensures match DistributeSpec(now, old(config.lastDistribution), config.distributionInterval, Bal(ledger.supplies, mint),
                                 rewardVault, old(ledger.lamports), holders)
      case Ok((lamports, event)) =>
        r == Ok(event) && ledger.lamports == lamports && config.lastDistribution == now
      case Err(e) =>
        r == Err(e) && ledger.lamports == old(ledger.lamports)
        && config.lastDistribution == old(config.lastDistribution)
  {
    if now < config.lastDistribution + config.distributionInterval {
      return Err(Program(TooEarlyToDistribute));
    }
    var totalSupply := Bal(ledger.supplies, mint);
    var rewardBalance := Bal(ledger.lamports, rewardVault);
    if rewardBalance == 0 {
      return Err(Program(NoRewardsToDistribute));
    }
    var before := ledger.lamports;
    var i := 0;
    while i < |holders|
      invariant 0 <= i <= |holders|
      invariant config.lastDistribution == old(config.lastDistribution)
      invariant PayAll(holders[i..], rewardBalance, totalSupply, rewardVault, ledger.lamports)
             == PayAll(holders, rewardBalance, totalSupply, rewardVault, before)
    {
      assert holders[i..][0] == holders[i] && holders[i..][1..] == holders[i + 1..];
      match holders[i]
      case NotTokenAccount =>
        ledger.lamports := before;
        return Err(Ledger(AccountDidNotDeserialize));
      case TokenAccount(owner, amount) =>
        if amount != 0 {
          if totalSupply == 0 {
            ledger.lamports := before;
            return Err(Panic(DivisionByZero));
          }
          var share := Share(amount, rewardBalance, totalSupply);
          if share != 0 {
            var paid := share % U64_MODULUS;
            if paid > Bal(ledger.lamports, rewardVault) {
              ledger.lamports := before;
              return Err(Panic(ArithmeticOverflow));
            }
            ledger.lamports := Debit(ledger.lamports, rewardVault, paid);
            ledger.lamports := Credit(ledger.lamports, owner, paid);
          }
        }
      i := i + 1;
    }
    config.lastDistribution := now;
    r := Ok(DistributionEvent(now, rewardBalance));
  }

  lemma {:induction false} Pow10Monotone(a: nat, b: nat)
    requires a <= b
    ensures Pow10(a) <= Pow10(b)
    decreases b
  {
    if a < b {
      Pow10Monotone(a, b - 1);
    }
  }

  lemma {:induction false} Pow10Shift(d: nat)
    ensures Pow10(9 + d) == 1_000_000_000 * Pow10(d)
    decreases d
  {
    if d == 0 {
      assert Pow10(9) == 1_000_000_000;
    } else {
      Pow10Shift(d - 1);
    }
  }

  /**
   * The initial mint succeeds exactly when `decimals` is at most 10, and then mints 10^(9 + decimals)
   * base units; from 11 decimals on, one billion tokens no longer fit in 64 bits.
   */
  lemma InitialSupplyFits(decimals: u8)
    ensures InitialSupply(decimals).Ok? <==> decimals <= 10
    ensures InitialSupply(decimals).Ok? ==> InitialSupply(decimals).value == Pow10(9 + decimals)
  {
    if decimals <= 10 {
      Pow10Monotone(decimals, 10);
      assert Pow10(10) == 10_000_000_000;
      MulMonotone(1_000_000_000, Pow10(decimals), Pow10(10));
    } else {
      Pow10Monotone(11, decimals);
      assert Pow10(11) == 100_000_000_000;
      MulMonotone(1_000_000_000, Pow10(11), Pow10(decimals));
    }
    Pow10Shift(decimals);
  }

  /**
   * At any rate up to 100%, a funded transfer of a positive amount succeeds; a successful
   * transfer takes exactly `amount` from `from`, gives the net part to `to` and the tax to
   * `taxVault` (whichever of the three coincide), and its event reports the same net and tax,
   * which add up to the amount with the tax rounded down.
   */
  lemma TransferEffect(tokens: map<Pubkey, nat>, from: Pubkey, to: Pubkey, taxVault: Pubkey, amount: u64, rate: u16)
    requires rate <= BPS_DENOMINATOR
    ensures amount > 0 && Bal(tokens, from) >= amount ==> TransferSpec(tokens, from, to, taxVault, amount, rate).Ok?
    ensures TransferSpec(tokens, from, to, taxVault, amount, rate).Ok? ==>
      var (after, event) := TransferSpec(tokens, from, to, taxVault, amount, rate).value;
      && event.from == from && event.to == to
      && event.amount + event.tax == amount
      && event.tax * BPS_DENOMINATOR <= amount * rate < (event.tax + 1) * BPS_DENOMINATOR
      && forall k ::
        Bal(after, k) == Bal(tokens, k) - (if k == from then amount else 0)
                         + (if k == to then event.amount else 0) + (if k == taxVault then event.tax else 0)
  {
    TaxSplitSound(amount, rate);
  }

  /**
   * The swap fails with `InsufficientTaxBalance` exactly when the tax vault holds less than
   * `amount`, and otherwise succeeds exactly when the authority can pay `amount / 1000`
   * lamports; it then moves those lamports from the authority to the reward vault, so the two
   * balances keep their sum and every other balance is unchanged.
   */
  lemma SwapEffect(tokens: map<Pubkey, nat>, lamports: map<Pubkey, nat>,
                   taxVault: Pubkey, rewardVault: Pubkey, authority: Pubkey, amount: u64)
    ensures SwapSpec(tokens, lamports, taxVault, rewardVault, authority, amount) == Err(Program(InsufficientTaxBalance))
        <==> Bal(tokens, taxVault) < amount
    ensures SwapSpec(tokens, lamports, taxVault, rewardVault, authority, amount).Ok?
        <==> Bal(tokens, taxVault) >= amount
             && Bal(lamports, authority) + (if rewardVault == authority then amount / 1000 else 0) >= amount / 1000
    ensures SwapSpec(tokens, lamports, taxVault, rewardVault, authority, amount).Ok? ==>
      var after := SwapSpec(tokens, lamports, taxVault, rewardVault, authority, amount).value;
      && Bal(after, rewardVault) + Bal(after, authority) == Bal(lamports, rewardVault) + Bal(lamports, authority)
      && (rewardVault != authority ==> Bal(after, rewardVault) == Bal(lamports, rewardVault) + amount / 1000)
      && forall k :: k != rewardVault && k != authority ==> Bal(after, k) == Bal(lamports, k)
  {
  }

  /**
   * The guards of `distribute_rewards`: too early exactly when `now` is before the last
   * distribution plus the interval; otherwise an empty reward vault is refused; and a success
   * reports `now` and the vault's balance before the loop.
   */
  lemma DistributeGuards(now: int, last: int, interval: int, supply: nat, rewardVault: Pubkey,
                         lamports: map<Pubkey, nat>, holders: seq<HolderAccount>)
    ensures DistributeSpec(now, last, interval, supply, rewardVault, lamports, holders) == Err(Program(TooEarlyToDistribute))
        <==> now < last + interval
    ensures now >= last + interval && Bal(lamports, rewardVault) == 0 ==>
      DistributeSpec(now, last, interval, supply, rewardVault, lamports, holders) == Err(Program(NoRewardsToDistribute))
    ensures DistributeSpec(now, last, interval, supply, rewardVault, lamports, holders).Ok? ==>
      DistributeSpec(now, last, interval, supply, rewardVault, lamports, holders).value.1
        == DistributionEvent(now, Bal(lamports, rewardVault))
  {
    var r := PayAll(holders, Bal(lamports, rewardVault), supply, rewardVault, lamports);
    assert r != Err(Program(TooEarlyToDistribute)) by {
      PayAllNeverTooEarly(holders, Bal(lamports, rewardVault), supply, rewardVault, lamports);
    }
  }

  /** The holder loop fails only with the account loader's or the arithmetic's failures. */
  lemma {:induction false} PayAllNeverTooEarly(hs: seq<HolderAccount>, reward: nat, supply: nat, vault: Pubkey, lam: map<Pubkey, nat>)
    ensures PayAll(hs, reward, supply, vault, lam).Err? ==>
      PayAll(hs, reward, supply, vault, lam).error.Panic? || PayAll(hs, reward, supply, vault, lam).error.Ledger?
    decreases |hs|
  {
    if hs != [] {
      match PayOne(hs[0], reward, supply, vault, lam)
      case Err(_) =>
      case Ok(next) => PayAllNeverTooEarly(hs[1..], reward, supply, vault, next);
    }
  }

  /**
   * Pro-rata distribution: once the interval has passed and the vault holds rewards, a list of
   * token accounts whose balances add up to at most the supply is paid in full. The total paid
   * is at most the snapshot, the vault keeps the rounding dust (snapshot minus the total paid,
   * plus anything paid to the vault itself), and every other account gains what was paid to it.
   */
  lemma DistributePaysProRata(now: int, last: int, interval: int, supply: nat, rewardVault: Pubkey,
                              lamports: map<Pubkey, nat>, holders: seq<HolderAccount>)
    requires now >= last + interval && Bal(lamports, rewardVault) > 0
    requires supply > 0 && AllTokenAccounts(holders) && SumAmounts(holders) <= supply
    ensures var reward := Bal(lamports, rewardVault);
      var r := DistributeSpec(now, last, interval, supply, rewardVault, lamports, holders);
      && r.Ok?
      && r.value.1 == DistributionEvent(now, reward)
      && TotalPayout(holders, reward, supply) <= reward
      && Bal(r.value.0, rewardVault)
         == reward - TotalPayout(holders, reward, supply) + PaidTo(holders, rewardVault, reward, supply)
      && forall k :: k != rewardVault ==> Bal(r.value.0, k) == Bal(lamports, k) + PaidTo(holders, k, reward, supply)
  {
    var reward := Bal(lamports, rewardVault);
    TotalPayoutBound(holders, reward, supply);
    PayAllEffect(holders, reward, supply, rewardVault, lamports);
  }

  /**
   * Two consecutive `distribute_rewards` calls on the same configuration: when the first
   * succeeds at `now`, a second one before `now + 300` is refused as too early and leaves the
   * timestamp at `now`.
   */
  method DistributeTwice(config: TokenConfig, ledger: Ledger, mint: Pubkey, rewardVault: Pubkey,
                         holders: seq<HolderAccount>, now: int, holders2: seq<HolderAccount>, later: int)
    returns (first: Result<DistributionEvent, Failure>, second: Result<DistributionEvent, Failure>)
    requires config.Valid()
    requires later < now + DEFAULT_INTERVAL
    modifies config`lastDistribution, ledger`lamports
    ensures config.Valid()
    ensures first.Ok? ==> second == Err(Program(TooEarlyToDistribute)) && config.lastDistribution == now
  {
    first := DistributeRewards(config, ledger, mint, rewardVault, holders, now);
    second := DistributeRewards(config, ledger, mint, rewardVault, holders2, later);
  }
}
