/** The currency context: a fixed table of rates against the US dollar, the
    selected currency, and conversion and formatting of amounts into it.
    Amounts are exact reals; `toLocaleString` is a parameter. */
module Currency {
  import opened JsValues

  datatype Info = Info(symbol: string, name: string, rate: real)

  /** `CURRENCIES`. */
  const Currencies: map<string, Info> :=
    map["USD" := Info("$", "US Dollar", 1.0),
        "EUR" := Info("€", "Euro", 0.92),
        "GBP" := Info("£", "British Pound", 0.79),
        "JPY" := Info("¥", "Japanese Yen", 149.50),
        "CAD" := Info("C$", "Canadian Dollar", 1.36),
        "AUD" := Info("A$", "Australian Dollar", 1.53),
        "MXN" := Info("MX$", "Mexican Peso", 17.15)]

  /** Every rate in the table is positive. */
  lemma RatesPositive()
    ensures forall code :: code in Currencies ==> Currencies[code].rate > 0.0
  {
  }

  /** The selected currency on start: the saved code, or 'USD' when nothing
      (or the empty string) is saved. */
  function InitialCurrency(saved: Option<string>): (code: string)
    ensures saved.Some? && saved.value != "" ==> code == saved.value
    ensures saved.None? || saved.value == "" ==> code == "USD"
  {
    if saved.Some? && saved.value != "" then saved.value else "USD"
  }

  /** `CURRENCIES[fromCurrency]?.rate || 1`. */
  function FromRate(code: string): (rate: real)
    ensures code in Currencies ==> rate == Currencies[code].rate
    ensures code !in Currencies ==> rate == 1.0
    ensures rate > 0.0
  {
    if code in Currencies && Currencies[code].rate != 0.0 then Currencies[code].rate else 1.0
  }

  /** `convertAmount(amount, fromCurrency)` with `currency` selected; the
      selected code must be in the table, or the lookup fails. */
  function ConvertAmount(amount: real, from: string, currency: string): real
    requires currency in Currencies
  {
    (amount / FromRate(from)) * Currencies[currency].rate
  }

  /** Converting from the selected currency gives the amount back. */
  lemma ConvertFromSelected(amount: real, currency: string)
    requires currency in Currencies
    ensures ConvertAmount(amount, currency, currency) == amount
  {
    DivMul(amount, Currencies[currency].rate);
  }

  /** From the default source, US dollars, an amount is scaled by the
      selected rate; an unknown source code is treated the same way. */
  lemma ConvertFromDollars(amount: real, from: string, currency: string)
    requires currency in Currencies
    requires from == "USD" || from !in Currencies
    ensures ConvertAmount(amount, from, currency) == amount * Currencies[currency].rate
  {
  }

  /** Converting there and back, between two codes of the table, gives the
      amount back. */
  lemma ConvertRoundTrip(amount: real, a: string, b: string)
    requires a in Currencies && b in Currencies
    ensures ConvertAmount(ConvertAmount(amount, a, b), b, a) == amount
  {
    var ra, rb := Currencies[a].rate, Currencies[b].rate;
    RatesPositive();
    DivMul(amount / ra, rb);
    DivMul(amount, ra);
  }

  lemma DivMul(x: real, r: real)
    requires r != 0.0
    ensures (x / r) * r == x
  {
  }

  /** `getSymbol()`. */
  function Symbol(currency: string): string
    requires currency in Currencies
  {
    Currencies[currency].symbol
  }

  /** `formatAmount(amount, fromCurrency)`: the symbol followed by the
      converted amount as `toLocaleString` writes it with two decimals. */
  function FormatAmount(amount: real, from: string, currency: string, toLocale: real -> string): (s: string)
    requires currency in Currencies
    ensures |s| >= |Symbol(currency)| && s[..|Symbol(currency)|] == Symbol(currency)
    ensures s[|Symbol(currency)|..] == toLocale(ConvertAmount(amount, from, currency))
  {
    var curr := Currencies[currency];
    var fromRate := FromRate(from);
    curr.symbol + toLocale((amount / fromRate) * curr.rate)
  }
}
