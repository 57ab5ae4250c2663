/**
 * The holder loop of `distribute_rewards` as a specification: the pro-rata share of each
 * holder, what one iteration does to the lamport balances, and what the whole pass does.
 */
module Rewards {
  import opened Wrappers
  import opened Accounts
  import opened Arithmetic

  /**
   * One entry of the holder list, as the account loader sees it: a token account with its
   * owner and token balance, or an account that does not deserialise as a token account.
   */
  datatype HolderAccount = TokenAccount(owner: Pubkey, amount: u64) | NotTokenAccount

  /** `(amount as u128 * reward as u128) / supply as u128`. */
  function Share(amount: nat, reward: nat, supply: nat): nat
    requires supply > 0
  {
    amount * reward / supply
  }

  /** The lamports one holder entry receives: its share cast to 64 bits (`share as u64`). */
  function Payout(h: HolderAccount, reward: nat, supply: nat): nat
    requires supply > 0
  {
    match h
    case NotTokenAccount => 0
    case TokenAccount(_, amount) => if amount == 0 then 0 else Share(amount, reward, supply) % U64_MODULUS
  }

  /**
   * One iteration of the loop over `holders`, with `reward` the snapshot of the vault taken
   * before the loop: an account that is not a token account aborts; a zero balance or a zero
   * share is skipped without a mutation; otherwise the share leaves the vault (aborting if the
   * vault would go below zero) and is credited to the holder's owner.
   */
  function PayOne(h: HolderAccount, reward: nat, supply: nat, vault: Pubkey, lam: map<Pubkey, nat>)
    : Result<map<Pubkey, nat>, Failure>
  {
    match h
    case NotTokenAccount => Err(Ledger(AccountDidNotDeserialize))
    case TokenAccount(owner, amount) =>
      if amount == 0 then Ok(lam)
      else if supply == 0 then Err(Panic(DivisionByZero))
      else
        var share := Share(amount, reward, supply);
        if share == 0 then Ok(lam)
        else
          var paid := share % U64_MODULUS;
          if paid > Bal(lam, vault) then Err(Panic(ArithmeticOverflow))
          else Ok(Credit(Debit(lam, vault, paid), owner, paid))
  }

  /** The whole pass, left to right, stopping at the first failure. */
  function PayAll(hs: seq<HolderAccount>, reward: nat, supply: nat, vault: Pubkey, lam: map<Pubkey, nat>)
    : Result<map<Pubkey, nat>, Failure>
    decreases |hs|
  {
    if hs == [] then Ok(lam)
    else
      match PayOne(hs[0], reward, supply, vault, lam)
      case Err(e) => Err(e)
      case Ok(next) => PayAll(hs[1..], reward, supply, vault, next)
  }

  ghost predicate AllTokenAccounts(hs: seq<HolderAccount>) {
    forall i :: 0 <= i < |hs| ==> hs[i].TokenAccount?
  }

  /** The sum of the token balances listed. */
  function SumAmounts(hs: seq<HolderAccount>): nat {
    if hs == [] then 0
    else (if hs[0].TokenAccount? then hs[0].amount else 0) + SumAmounts(hs[1..])
  }

  /** The lamports the pass takes out of the vault. */
  function TotalPayout(hs: seq<HolderAccount>, reward: nat, supply: nat): nat
    requires supply > 0
  {
    if hs == [] then 0 else Payout(hs[0], reward, supply) + TotalPayout(hs[1..], reward, supply)
  }

  /** The lamports the pass credits to owner `k` (an owner listed twice is paid twice). */
  function PaidTo(hs: seq<HolderAccount>, k: Pubkey, reward: nat, supply: nat): nat
    requires supply > 0
  {
    if hs == [] then 0
    else (if hs[0].TokenAccount? && hs[0].owner == k then Payout(hs[0], reward, supply) else 0)
         + PaidTo(hs[1..], k, reward, supply)
  }

  /**
   * A holder's share never exceeds its fraction of the snapshot, and when its balance is at most
   * the supply it is at most the snapshot, so the 64-bit cast loses nothing for a snapshot that
   * is itself a 64-bit balance.
   */
  lemma ShareBound(amount: nat, reward: nat, supply: nat)
    requires supply > 0
    ensures Share(amount, reward, supply) * supply <= amount * reward
    ensures amount <= supply ==> Share(amount, reward, supply) <= reward
    ensures amount <= supply && reward <= U64_MAX ==>
      Share(amount, reward, supply) % U64_MODULUS == Share(amount, reward, supply)
  {
    var s := Share(amount, reward, supply);
    assert s * supply <= amount * reward;
    if amount <= supply {
      MulMonotone(reward, amount, supply);
      MulCancel(s, reward, supply);
    }
  }

  /** Summed over the pass: the payouts times the supply never exceed the listed balances times the snapshot. */
  lemma {:induction false} TotalPayoutScaled(hs: seq<HolderAccount>, reward: nat, supply: nat)
    requires supply > 0
    ensures TotalPayout(hs, reward, supply) * supply <= SumAmounts(hs) * reward
    decreases |hs|
  {
    if hs != [] {
      var p, t := Payout(hs[0], reward, supply), TotalPayout(hs[1..], reward, supply);
      var a, rest := if hs[0].TokenAccount? then hs[0].amount else 0, SumAmounts(hs[1..]);
      TotalPayoutScaled(hs[1..], reward, supply);
      assert p * supply <= a * reward by {
        if hs[0].TokenAccount? && hs[0].amount != 0 {
          ShareBound(hs[0].amount, reward, supply);
        }
      }
      Distrib(p, t, supply);
      Distrib(a, rest, reward);
    }
  }

  /**
   * When the listed balances add up to at most the supply, the pass pays out at most the
   * snapshot; whatever rounding leaves over stays in the vault.
   */
  lemma TotalPayoutBound(hs: seq<HolderAccount>, reward: nat, supply: nat)
    requires supply > 0 && SumAmounts(hs) <= supply
    ensures TotalPayout(hs, reward, supply) <= reward
  {
    TotalPayoutScaled(hs, reward, supply);
    MulMonotone(reward, SumAmounts(hs), supply);
    MulCancel(TotalPayout(hs, reward, supply), reward, supply);
  }

  /**
   * When every entry is a token account and the vault holds at least what the pass pays out,
   * the pass never underflows the vault and succeeds; the vault loses the total payout and
   * every owner gains what was paid to it (the vault included, should it be listed as an owner).
   */
  lemma {:induction false} PayAllEffect(hs: seq<HolderAccount>, reward: nat, supply: nat, vault: Pubkey, lam: map<Pubkey, nat>)
    requires supply > 0 && AllTokenAccounts(hs)
    requires TotalPayout(hs, reward, supply) <= Bal(lam, vault)
    ensures PayAll(hs, reward, supply, vault, lam).Ok?
    ensures forall k ::
      Bal(PayAll(hs, reward, supply, vault, lam).value, k) == Bal(lam, k) + PaidTo(hs, k, reward, supply) - (if k == vault then TotalPayout(hs, reward, supply) else 0)
    decreases |hs|
  {
    if hs != [] {
      var h := hs[0];
      var p := Payout(h, reward, supply);
      var step := PayOne(h, reward, supply, vault, lam);
      assert step.Ok? && forall k ::
        Bal(step.value, k) == Bal(lam, k) - (if k == vault then p else 0) + (if k == h.owner then p else 0);
      var next := step.value;
      assert AllTokenAccounts(hs[1..]) by {
        forall i | 0 <= i < |hs[1..]| ensures hs[1..][i].TokenAccount? {
          assert hs[1..][i] == hs[i + 1];
        }
      }
      PayAllEffect(hs[1..], reward, supply, vault, next);
    }
  }

  /**
   * A token account with a zero balance, or with a zero share, changes nothing: listing it
   * anywhere leaves the outcome of the pass, and so everyone else's payout, as it was.
   */
  lemma {:induction false} IdleHolderIrrelevant(pre: seq<HolderAccount>, h: HolderAccount, post: seq<HolderAccount>,
                                               reward: nat, supply: nat, vault: Pubkey, lam: map<Pubkey, nat>)
    requires h.TokenAccount?
    requires h.amount == 0 || (supply > 0 && Share(h.amount, reward, supply) == 0)
    ensures PayAll(pre + [h] + post, reward, supply, vault, lam) == PayAll(pre + post, reward, supply, vault, lam)
    decreases |pre|
  {
    if pre == [] {
      assert pre + [h] + post == [h] + post;
      assert ([h] + post)[1..] == post;
      assert pre + post == post;
    } else {
      assert (pre + [h] + post)[0] == pre[0];
      assert (pre + [h] + post)[1..] == pre[1..] + [h] + post;
      assert (pre + post)[0] == pre[0];
      assert (pre + post)[1..] == pre[1..] + post;
      match PayOne(pre[0], reward, supply, vault, lam)
      case Err(_) =>
      case Ok(next) =>
        IdleHolderIrrelevant(pre[1..], h, post, reward, supply, vault, next);
    }
  }

  /**
   * Supply 1000 and snapshot 100: a balance of 10 earns 1. Snapshot 5: a balance of 1 earns 0
   * and is skipped. An account listed twice is paid twice.
   */
  lemma PayAllExamples()
    ensures Share(10, 100, 1000) == 1
    ensures Share(1, 5, 1000) == 0
    ensures var r := PayAll([TokenAccount(7, 10), TokenAccount(7, 10)], 100, 1000, 1, map[1 := 100]);
      r.Ok? && Bal(r.value, 1) == 98 && Bal(r.value, 7) == 2
  {
  }
}
