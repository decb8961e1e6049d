/** One run of `fetchBalanceAndPrices`: reset the error, fetch both API routes, and either replace
    the stored portfolio and price map or record the error and keep what was shown before. */
module DashboardCycle {
  import opened Common
  import opened Exchange
  import opened Valuation

  /** The JSON a reply's `json()` yields: an array, some other JSON value, or no JSON at all. */
  datatype Body<T> = JsonArray(items: seq<T>) | JsonOther | NotJson

  /** What `fetch` of one API route settles to: a rejection, or a response with its status. */
  datatype Reply<T> = NetworkFailure | Received(ok: bool, status: int, body: Body<T>)

  /** Why a cycle was abandoned. */
  datatype CycleError =
    | FetchFailed              // `Promise.all` rejected because a fetch itself failed
    | HttpError(status: int)   // "HTTP error! status: ..." for the first non-OK response
    | JsonParseError           // a `json()` call rejected
    | InvalidFormat            // "Invalid response format from API": balances not an array
    | PricesNotIterable        // `prices.reduce` is not a function: prices not an array

  /** The component state the cycle reads and writes. */
  datatype State = State(portfolio: Portfolio, prices: map<string, real>, error: Option<CycleError>, isRetrying: bool)

  /** The state before the first cycle. */
  const Initial: State := State(EmptyPortfolio, map[], None, false)

  /** What the fetch stage hands to the valuation: both arrays, or the error that was thrown. */
  datatype Fetched = Inputs(balances: seq<Balance>, quotes: seq<PriceQuote>) | Rejected(error: CycleError)

  /** The fetch stage in source order: both fetches, the OK checks (balance first), both `json()`
      calls (balance first), then the array check on the balances and the `reduce` on the prices. */
  function Receive(br: Reply<Balance>, pr: Reply<PriceQuote>): (f: Fetched)
    ensures f.Inputs? <==>
      br.Received? && pr.Received? && br.ok && pr.ok && br.body.JsonArray? && pr.body.JsonArray?
    ensures f.Inputs? ==> f.balances == br.body.items && f.quotes == pr.body.items
    ensures br.Received? && pr.Received? && !br.ok ==> f == Rejected(HttpError(br.status))
    ensures br.Received? && pr.Received? && br.ok && !pr.ok ==> f == Rejected(HttpError(pr.status))
  {
    if br.NetworkFailure? || pr.NetworkFailure? then Rejected(FetchFailed)
    else if !br.ok || !pr.ok then Rejected(HttpError(if !br.ok then br.status else pr.status))
    else if br.body.NotJson? || pr.body.NotJson? then Rejected(JsonParseError)
    else if !br.body.JsonArray? then Rejected(InvalidFormat)
    else if !pr.body.JsonArray? then Rejected(PricesNotIterable)
    else Inputs(br.body.items, pr.body.items)
  }

  /** `setError(null); setIsRetrying(false)` at the start of every cycle; nothing else changes. */
  function BeginCycle(s: State): State
  {
    s.(error := None, isRetrying := false)
  }

  /** One whole cycle from state `s`. */
  function Cycle(s: State, br: Reply<Balance>, pr: Reply<PriceQuote>, parse: Parser): (r: State)
    ensures r.error.Some? <==> r.isRetrying
    ensures Receive(br, pr).Rejected? ==>
      && r.portfolio == s.portfolio
      && r.prices == s.prices
      && r.error == Some(Receive(br, pr).error)
      && r.isRetrying
    ensures Receive(br, pr).Inputs? ==>
      var f := Receive(br, pr);
      && r.portfolio == Valuate(f.balances, f.quotes, parse)
      && r.prices == PriceMap(f.quotes, parse)
      && r.error == None
      && !r.isRetrying
  {
    var s0 := BeginCycle(s);
    match Receive(br, pr)
    case Rejected(e) => s0.(error := Some(e), isRetrying := true)
    case Inputs(bs, qs) => s0.(prices := PriceMap(qs, parse), portfolio := Valuate(bs, qs, parse))
  }

  /** A cycle leaves no error behind exactly when both replies are OK and both bodies are arrays. */
  lemma CycleSucceedsIff(s: State, br: Reply<Balance>, pr: Reply<PriceQuote>, parse: Parser)
    ensures Cycle(s, br, pr, parse).error.None? <==>
      br.Received? && pr.Received? && br.ok && pr.ok && br.body.JsonArray? && pr.body.JsonArray?
  {
  }

  /** A successful cycle does not depend on the state it started from: the last cycle wins. */
  lemma SuccessReplacesState(s1: State, s2: State, br: Reply<Balance>, pr: Reply<PriceQuote>, parse: Parser)
    requires Receive(br, pr).Inputs?
    ensures Cycle(s1, br, pr, parse) == Cycle(s2, br, pr, parse)
  {
  }

  /** Repeating a cycle on the same replies changes nothing further. */
  lemma CycleIdempotent(s: State, br: Reply<Balance>, pr: Reply<PriceQuote>, parse: Parser)
    ensures Cycle(Cycle(s, br, pr, parse), br, pr, parse) == Cycle(s, br, pr, parse)
  {
  }

  /** Before any successful cycle a failure leaves the empty portfolio and no prices on screen,
      with the error recorded and the retry flag raised. */
  lemma FailedFirstCycleShowsEmptyPortfolio(br: Reply<Balance>, pr: Reply<PriceQuote>, parse: Parser)
    requires Receive(br, pr).Rejected?
    ensures var r := Cycle(Initial, br, pr, parse);
      && r.portfolio == EmptyPortfolio
      && r.prices == map[]
      && r.error == Some(Receive(br, pr).error)
      && r.isRetrying
  {
  }

  /** A failed cycle after a successful one still shows the successful cycle's portfolio. */
  lemma FailureKeepsLastGoodPortfolio(s: State, good: (Reply<Balance>, Reply<PriceQuote>),
                                      bad: (Reply<Balance>, Reply<PriceQuote>), parse: Parser)
    requires Receive(good.0, good.1).Inputs? && Receive(bad.0, bad.1).Rejected?
    ensures var f := Receive(good.0, good.1);
      var r := Cycle(Cycle(s, good.0, good.1, parse), bad.0, bad.1, parse);
      r.portfolio == Valuate(f.balances, f.quotes, parse) && r.isRetrying
  {
  }
}
