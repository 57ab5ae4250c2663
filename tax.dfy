/** The tax split of `transfer`: how much of a transferred amount is withheld for the tax vault. */
module Tax {
  import opened Wrappers
  import opened Accounts
  import opened Arithmetic

  /** 10000 basis points make 100%. */
  const BPS_DENOMINATOR: nat := 10000

  /** `net` goes to the recipient, `tax` to the tax vault. */
  datatype Split = Split(net: nat, tax: nat)

  /**
   * `tax = (amount as u128 * rate as u128 / 10000) as u64` and `net = amount.checked_sub(tax).unwrap()`.
   * The product fits in 128 bits; the cast back to 64 bits keeps the quotient modulo 2^64; `None`
   * is the panic of `unwrap` when the tax exceeds the amount.
   */
  function TaxSplit(amount: u64, rate: u16): Option<Split> {
    var tax := amount * rate / BPS_DENOMINATOR % U64_MODULUS;
    if tax <= amount then Some(Split(amount - tax, tax)) else None
  }

  /**
   * For every rate up to 100% the split never panics, the two parts add up to the amount, and
   * the tax is the floor of `amount * rate / 10000`, characterised without division.
   */
  lemma TaxSplitSound(amount: u64, rate: u16)
    requires rate <= BPS_DENOMINATOR
    ensures TaxSplit(amount, rate).Some?
    ensures var s := TaxSplit(amount, rate).value;
      s.net + s.tax == amount && s.tax <= amount &&
      s.tax * BPS_DENOMINATOR <= amount * rate < (s.tax + 1) * BPS_DENOMINATOR
  {
    var q := amount * rate / BPS_DENOMINATOR;
    assert amount * rate <= amount * BPS_DENOMINATOR by {
      MulMonotone(amount, rate, BPS_DENOMINATOR);
      assert amount * rate == rate * amount;
    }
    DivBelow(amount * rate, amount, BPS_DENOMINATOR);
    assert q <= amount;
    assert q % U64_MODULUS == q;
    assert q * BPS_DENOMINATOR <= amount * rate < (q + 1) * BPS_DENOMINATOR;
  }

  /** At the rate `initialize` stores (500 basis points) the tax is one twentieth of the amount, rounded down. */
  lemma DefaultRateTax(amount: u64)
    ensures TaxSplit(amount, DEFAULT_TAX_RATE) == Some(Split(amount - amount / 20, amount / 20))
  {
    TaxSplitSound(amount, DEFAULT_TAX_RATE);
    var s := TaxSplit(amount, DEFAULT_TAX_RATE).value;
    assert s.tax * 20 <= amount < (s.tax + 1) * 20;
  }

  /** Rate 500 and amount 10000 give tax 500 and net 9500. */
  lemma TaxSplitExample()
    ensures TaxSplit(10000, 500) == Some(Split(9500, 500))
  {
  }

  /** Above 100% the `unwrap` can panic: at 200% one token owes a tax of two. */
  lemma TaxSplitPanicsAboveFullRate()
    ensures TaxSplit(1, 20000) == None
  {
  }
}
