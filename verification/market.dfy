/** What the client pages know about a holding and about live prices. The
    price map is the body of CoinGecko's `simple/price` reply, taken as an
    input (fetching it is I/O). */
module Market {
  import opened Common

  /** A portfolio entry as the pages receive it from `GET /api/portfolio/user`.
      The pages guard against an absent or falsy quantity or buy price, so
      both are optional here. */
  datatype Holding = Holding(coinId: string, coinName: string, quantity: Option<real>, buyPrice: Option<real>)

  /** One quote of the price map: `usd`, `usd_24h_change` and the legacy key
      `usd_24h`, each of which may be absent. */
  datatype Quote = Quote(usd: Option<real>, usd24hChange: Option<real>, usd24h: Option<real>)

  type PriceMap = map<string, Quote>

  /** `Number(x || 0)`: an absent number counts as 0 (a present 0 is 0 anyway). */
  function Num(x: Option<real>): real {
    x.GetOr(0.0)
  }

  /** `prices[coinId]?.usd || 0`: the live unit price, 0 when the coin has no
      quote or the quote has no price. */
  function PriceOf(prices: PriceMap, coinId: string): real {
    if coinId in prices then Num(prices[coinId].usd) else 0.0
  }

  /** `Number(q?.usd_24h_change ?? q?.usd_24h ?? 0) || 0`: the first present
      change field, else 0. The current key wins over the legacy one, which
      is read only when the current key is absent. */
  function ChangeOf(prices: PriceMap, coinId: string): (c: real)
    ensures coinId !in prices ==> c == 0.0
    ensures coinId in prices && prices[coinId].usd24hChange.Some? ==> c == prices[coinId].usd24hChange.value
    ensures coinId in prices && prices[coinId].usd24hChange.None? && prices[coinId].usd24h.Some?
            ==> c == prices[coinId].usd24h.value
    ensures coinId in prices && prices[coinId].usd24hChange.None? && prices[coinId].usd24h.None? ==> c == 0.0
  {
    if coinId !in prices then 0.0
    else
      var q := prices[coinId];
      if q.usd24hChange.Some? then q.usd24hChange.value
      else Num(q.usd24h)
  }
}
