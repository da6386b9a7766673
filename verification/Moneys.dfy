/** Amounts of money: int64 cents and a currency, the empty currency standing for "no amount yet". */
module Moneys {
  import opened Results
  import opened Words

  datatype Money = Money(cents: Int64, currency: string)

  const NOTHING := Money(0, "")

  predicate ValidCurrency(c: string) {
    |c| == 3 && forall i :: 0 <= i < |c| ==> 'A' <= c[i] <= 'Z'
  }

  function NewMoney(cents: Int64, currency: string): Result<Money> {
    if !ValidCurrency(currency) then Err(InvalidCurrency)
    else if cents < 0 then Err(NegativeAmount)
    else Ok(Money(cents, currency))
  }

  function Zero(currency: string): Money {
    Money(0, currency)
  }

  /** Plain int64 addition: the cents wrap. */
  function Add(m: Money, o: Money): Result<Money> {
    if m.currency == "" then Ok(o)
    else if o.currency == "" then Ok(m)
    else if m.currency != o.currency then Err(CurrencyMismatch)
    else Ok(Money(Wrap64(m.cents + o.cents), m.currency))
  }
}
