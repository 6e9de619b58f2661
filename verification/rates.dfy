/**
 Currency normalisation: converting an amount into Turkish lira (TRY).

 The live rate feed is an HTTP call; here its parsed reply is a parameter of
 `ExchangeRates`, and every conversion takes the rate table as a parameter.
 */
module Rates {
  import opened Types

  /** Lira per unit of each currency. */
  type RateTable = map<Currency, real>

  /** The table used when the feed cannot be read. */
  const FallbackRates: RateTable := map[TRY := 1.0, USD := 34.0, EUR := 37.0]

  /** The feed's quote for `code`, if it is present and can be inverted. */
  predicate Invertible(quotes: map<string, real>, code: string) {
    code in quotes && quotes[code] != 0.0
  }

  /** The rate table built from the feed's reply. `feed` is the reply's
      "rates" object (how much of each currency one lira buys), or `None`
      when the request failed, answered with a status other than 200, or
      answered 200 with a body that is not JSON or has no "rates" key (the
      service raises reading it and falls back).
      A missing quote or a zero quote raises in the service, and the
      exception handler falls back to the fixed table. */
  function ExchangeRates(feed: Option<map<string, real>>): (t: RateTable)
    ensures t.Keys == {TRY, USD, EUR} && t[TRY] == 1.0
    ensures feed.Some? && Invertible(feed.value, "USD") && Invertible(feed.value, "EUR") ==>
              t[USD] * feed.value["USD"] == 1.0 && t[EUR] * feed.value["EUR"] == 1.0
    ensures !(feed.Some? && Invertible(feed.value, "USD") && Invertible(feed.value, "EUR")) ==>
              t == FallbackRates
  {
    match feed
    case Some(quotes) =>
      if Invertible(quotes, "USD") && Invertible(quotes, "EUR") then
        map[TRY := 1.0, USD := 1.0 / quotes["USD"], EUR := 1.0 / quotes["EUR"]]
      else
        FallbackRates
    case None => FallbackRates
  }

  /** The rate for `c`, or 1.0 when the table has no entry for it. */
  function RateOf(rates: RateTable, c: Currency): real {
    if c in rates then rates[c] else 1.0
  }

  /** The amount in lira. Lira are returned as they are, without consulting
      the table; any other currency is multiplied by its rate. */
  function ConvertToTry(amount: real, currency: Currency, rates: RateTable): (r: real)
    ensures currency == TRY ==> r == amount
    ensures currency != TRY && currency in rates ==> r == amount * rates[currency]
    ensures currency !in rates ==> r == amount
  {
    if currency == TRY then amount else amount * RateOf(rates, currency)
  }

  /** With a readable feed, converting a foreign amount divides it by the
      feed's quote: multiplying the result back by the quote gives the amount. */
  lemma FeedConversionInverts(quotes: map<string, real>, amount: real, c: Currency)
    requires Invertible(quotes, "USD") && Invertible(quotes, "EUR")
    requires c != TRY
    ensures ConvertToTry(amount, c, ExchangeRates(Some(quotes))) * quotes[c.Code()] == amount
  {
  }

  /** Converting is additive in the amount, so the sum of several debts in
      one currency converts to the sum of their conversions. */
  lemma ConversionIsAdditive(a: real, b: real, c: Currency, rates: RateTable)
    ensures ConvertToTry(a + b, c, rates) == ConvertToTry(a, c, rates) + ConvertToTry(b, c, rates)
  {
  }

  /** With positive rates, a positive amount stays positive. */
  lemma ConversionKeepsSign(amount: real, c: Currency, rates: RateTable)
    requires amount > 0.0
    requires forall k :: k in rates ==> rates[k] > 0.0
    ensures ConvertToTry(amount, c, rates) > 0.0
  {
  }
}
