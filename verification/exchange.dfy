/** The records the exchange's REST API returns, and the outcome of one call to the vendor client. */
module Exchange {
  import opened Common

  /** One asset balance; the amounts are the decimal strings the API sends. */
  datatype Balance = Balance(symbol: string, available: string, inOrder: string)

  /** One ticker price, e.g. market "BTC-EUR". */
  datatype PriceQuote = PriceQuote(market: string, price: string)

  /** A thrown JavaScript value: an `Error` carries a message, anything else does not. */
  datatype Thrown = ErrorObject(message: string) | NonError

  /** What one `balance({})` call of the vendor client does: resolve with data or reject. */
  datatype CallOutcome = Returned(data: seq<Balance>) | Threw(error: Thrown)

  /** The vendor client, seen from outside: the outcome of its k-th call (0-based). */
  type Client = nat -> CallOutcome

  /** The index of the first successful call among the first `n`, if any. */
  function FirstSuccess(client: Client, n: nat): (r: Option<nat>)
    ensures r.Some? ==> r.value < n && client(r.value).Returned?
    ensures r.Some? ==> forall j :: 0 <= j < r.value ==> client(j).Threw?
    ensures r.None? ==> forall j :: 0 <= j < n ==> client(j).Threw?
  {
    if n == 0 then None
    else
      match FirstSuccess(client, n - 1)
      case Some(j) => Some(j)
      case None => if client(n - 1).Returned? then Some(n - 1) else None
  }
}
