# Bitvavo dashboard: portfolio valuation and balance retries, in Dafny

This project models the logic of a personal dashboard for the Bitvavo exchange, and proves
properties of that model.

- **Valuation fold.** Each dashboard fetch cycle (`fetchBalanceAndPrices`) turns the exchange's
  balances and ticker prices into a portfolio snapshot. It keeps a `symbol -> price` map built
  from the "-EUR" quotes. It takes the EUR cash and in-order amounts from the first EUR balance.
  It values every non-EUR balance as `(available + inOrder) * price`, where a missing price counts
  as 0. The total is the sum of all these.
- **Cycle state update.** A cycle first clears the error. On success it replaces the portfolio
  and the price map. On failure it records the error, raises the retry flag and keeps the
  previous portfolio.
- **Two balance API routes.** Both wrap the vendor client's `balance` call in a retry policy.
  The first makes up to 4 calls with exponential delays (1000, 2000, 4000 ms). The second makes
  up to 3 calls with linear delays (1000, 2000 ms), after its session, method and credential
  guards.

Modules:

| file | module | models |
|---|---|---|
| common.dfy | `Common` | `Option`, JavaScript truthiness of an optional string |
| strings.dfy | `Strings` | `endsWith`, `indexOf` (for a start index within the string), `replace` with a string pattern (first occurrence) |
| exchange.dfy | `Exchange` | balance and quote records, one client call's outcome, first success |
| valuation.dfy | `Valuation` | price map, EUR lookup, non-EUR filter, crypto fold, snapshot |
| valuation_scenarios.dfy | `ValuationScenarios` | worked examples of the valuation |
| dashboard_cycle.dfy | `DashboardCycle` | the fetch stage and the state update of one cycle |
| http.dfy | `Http` | the response a handler sends |
| exp_backoff_balance.dfy | `ExpBackoffBalance` | `project/src/pages/api/bitvavo/balance.ts` |
| linear_backoff_balance.dfy | `LinearBackoffBalance` | `src-1/pages/api/bitvavo/balance.ts` |

The dashboard component exists twice, as `src/components/index.client.tsx` and
`project/src/components/index.client.tsx`. Both copies have the same logic, and one model
covers both. The table below cites the `src/` copy for the valuation and the `project/` copy for
the cycle. The matching lines are:

| step | src/ | project/ |
|---|---|---|
| reset error and retry flag | 42-43 | 42-43 |
| OK checks, `json()`, array check | 50-59 | 50-61 |
| price map | 61-67 | 63-69 |
| EUR lookup | 71-73 | 73-75 |
| crypto value and total | 75-83 | 77-86 |
| stored portfolio | 85-90 | 88-93 |
| failure path | 91-95 | 94-98 |

`parseFloat` is a parameter `parse: string -> real`. Amounts stay strings, so the model can show
the `field || "0"` fallback on the EUR fields. The vendor client is a parameter
`client: nat -> CallOutcome`, which gives the outcome of its k-th call. Delays are returned as
numbers and are never slept.

Behaviour of the code that the model keeps on purpose:

- Of two EUR balances the first one supplies the EUR amounts, because the code uses
  `balances.find` (`ValuationScenarios.FirstFiatBalanceWins`).
- The code hard-codes "EUR" and "-EUR" (`Valuation.Fiat`, `Valuation.FiatSuffix`).
- The stored portfolio keeps the raw non-EUR balances. It holds no per-asset values and no asset
  count; only their sum enters `totalValue`.
- `replace` removes the first "-EUR" wherever it occurs, which is not always the suffix
  (`Strings.RemoveFirstIsNotSuffixStrip`).
- The second balance route's comment says "exponential", but the code waits `1000 * attempt` ms,
  which is linear. The model follows the code.

## Model

| member | source | states |
|---|---|---|
| Strings.EndsWithIsConcatenation | src/components/index.client.tsx:62 | `endsWith` holds exactly when the market is some string followed by the suffix |
| Strings.IndexOf | src/components/index.client.tsx:63 | the result is the first index at or after `from` where the pattern occurs; `None` only when it occurs nowhere there |
| Strings.ReplaceFirstReplacesFirstOccurrence | src/components/index.client.tsx:63 | stated against occurrences rather than `indexOf`: with no occurrence of the pattern the string is returned unchanged; otherwise the first occurrence, and only it, is replaced |
| Strings.ReplaceFirstInverse | src/components/index.client.tsx:63 | `replace` with a string pattern changes only the first occurrence: with no occurrence the string is unchanged; otherwise the prefix is kept and putting the pattern back restores the original |
| Strings.EndsWithOccurs | src/components/index.client.tsx:62-63 | a market that ends with "-EUR" contains it, at the latest at the suffix position |
| Strings.RemoveFirstStripsUniqueSuffix | src/components/index.client.tsx:62-63 | when "-EUR" occurs only as the suffix, removing the first occurrence is exactly stripping the suffix |
| Strings.RemoveFirstIsNotSuffixStrip | src/components/index.client.tsx:63 | "A-EURB-EUR" passes the `endsWith` test and becomes key "AB-EUR", not "A-EURB" |
| Valuation.QuoteSymbolCutsFirstSuffix | src/components/index.client.tsx:62-63 | a quote writes a key exactly when its market ends with "-EUR", and the key is the market with its first occurrence of "-EUR" cut out |
| Valuation.PriceMap | src/components/index.client.tsx:61-67 | each quote writes at most one key, so the map has no more keys than there are quotes; the lemmas below pin down which keys exist and which quote wins |
| Valuation.PriceMapStepOther | src/components/index.client.tsx:62-65 | a quote that does not write `k` leaves the entry for `k`, present or absent, as it was |
| Valuation.PriceMapStepSame | src/components/index.client.tsx:63-64 | a quote that writes `k` sets the entry for `k` to its own parsed price |
| Valuation.PriceMapOnlyQuoted | src/components/index.client.tsx:61-67 | every key of the price map was written by some "-EUR" quote, and a witness quote is returned |
| Valuation.PriceMapHasQuoted | src/components/index.client.tsx:61-67 | every key some "-EUR" quote writes is present in the price map |
| Valuation.PriceMapKeys | src/components/index.client.tsx:61-67 | the price map has key `k` if and only if some quote's market ends with "-EUR" and reduces to `k` |
| Valuation.PriceMapLastWins | src/components/index.client.tsx:64 | the price stored for `k` is the parsed price of the last quote that writes `k`: later quotes overwrite earlier ones |
| Valuation.FirstFiat | src/components/index.client.tsx:71 | `find` yields `None` exactly when no balance is EUR, and otherwise an EUR balance with no EUR balance before it |
| Valuation.FiatAmounts | src/components/index.client.tsx:71-73 | the EUR available and in-order amounts are those of the first EUR balance, and an empty field reads as 0 |
| Valuation.FiatAmountsAbsent | src/components/index.client.tsx:72-73 | without an EUR balance both EUR amounts are 0 |
| Valuation.NonFiat | src/components/index.client.tsx:89 | the filter keeps exactly the non-EUR balances, and keeps no more than the input holds |
| Valuation.NonFiatAppend | src/components/index.client.tsx:89 | the filter preserves order: filtering `a + b` gives the filtered `a` followed by the filtered `b` |
| Valuation.NonFiatKeepsAllOthers | src/components/index.client.tsx:89 | a balance list without EUR entries passes through the filter unchanged |
| Valuation.AssetValue | src/components/index.client.tsx:78-79 | a balance whose symbol has no price is worth 0; non-negative amounts and price give a non-negative value |
| Valuation.CryptoFold | src/components/index.client.tsx:75-81 | the reduce gives 0 when no balance has a price; `CryptoFoldAppend` and `CryptoFoldOfNonFiat` relate it to the sum over the parts |
| Valuation.CryptoFoldAppend | src/components/index.client.tsx:77-81 | the crypto sum is additive: the sum over `a + b` is the sum over `a` plus the sum over `b` |
| Valuation.UnpricedAssetAddsNothing | src/components/index.client.tsx:78-80 | a balance whose symbol has no price is worth exactly 0, and removing it leaves the crypto sum unchanged |
| Valuation.CryptoFoldOfNonFiat | src/components/index.client.tsx:75-81 | folding over the filtered balances equals adding the value of each non-EUR balance of the full list |
| Valuation.Valuate | src/components/index.client.tsx:71-90 | `eurBalance` and `inOrders` are the parsed amounts of the first EUR balance (empty or missing reads as "0"); `totalValue` is those plus the value of every non-EUR balance; the stored balances are the order-preserving EUR filter of the input: they contain no EUR entry, contain every non-EUR input, and equal the input when it has no EUR entry |
| Valuation.NoQuotesMeansFiatOnly | src/components/index.client.tsx:78-83 | with no quotes the total is the EUR amounts alone |
| Valuation.TotalNonNegative | src/components/index.client.tsx:71-83 | with non-negative amounts and prices, the EUR amounts are non-negative and the total is at least their sum |
| Valuation.PricesNonNegative | src/components/index.client.tsx:61-67 | non-negative quote prices give a price map with only non-negative values |
| Valuation.ValueOfAllNonNegative | src/components/index.client.tsx:77-81 | non-negative amounts and prices give a non-negative crypto value |
| ValuationScenarios.CashPlusOnePricedAsset | src/components/index.client.tsx:61-90 | 1000 EUR and 0.5 + 0.1 BTC at 40000 give total 25000, and BTC is the only stored balance |
| ValuationScenarios.UnpricedAssetIsKeptAtZero | src/components/index.client.tsx:75-90 | an XRP balance without a quote is stored, and the total stays 0 |
| ValuationScenarios.FirstFiatBalanceWins | src/components/index.client.tsx:71-73 | of two EUR balances the first supplies the amounts, and its empty in-order field reads as 0 |
| DashboardCycle.Receive | project/src/components/index.client.tsx:45-61 | the fetch stage yields both arrays exactly when both replies are OK and both bodies are arrays; a non-OK status is reported for the balance reply first |
| DashboardCycle.Cycle | project/src/components/index.client.tsx:40-99 | the error is set exactly when the retry flag is; on failure portfolio and prices are kept and the error is recorded; on success both are replaced by the valuation of the fetched data |
| DashboardCycle.CycleSucceedsIff | project/src/components/index.client.tsx:50-61 | a cycle ends without error if and only if both replies are OK and both bodies are arrays |
| DashboardCycle.SuccessReplacesState | project/src/components/index.client.tsx:88-93 | a successful cycle's result does not depend on the previous state |
| DashboardCycle.CycleIdempotent | project/src/components/index.client.tsx:40-99 | running a cycle twice on the same replies equals running it once |
| DashboardCycle.FailedFirstCycleShowsEmptyPortfolio | project/src/components/index.client.tsx:27-35 | from the initial `useState` values, a failing first cycle still shows the empty portfolio and no prices, with the error recorded and the retry flag raised |
| DashboardCycle.FailureKeepsLastGoodPortfolio | project/src/components/index.client.tsx:94-98 | after a successful cycle, a failing one still shows that cycle's portfolio, with the retry flag raised |
| Exchange.FirstSuccess | src-1/pages/api/bitvavo/balance.ts:34-38 | the first call among the first `n` that returned data, all earlier calls having thrown; `None` when all `n` threw |
| ExpBackoffBalance.FetchWithRetry | project/src/pages/api/bitvavo/balance.ts:28-43 | at least one and at most `MAX_RETRIES + 1 - retryCount` calls; the delay before the retry at count `k` is `1000 * 2^k`; the result is the last call's; every earlier call threw; an error is rethrown only from retry count 3 on |
| ExpBackoffBalance.RetryDelay | project/src/pages/api/bitvavo/balance.ts:37 | the first retry waits 1000 ms and each further retry waits twice as long as the one before |
| ExpBackoffBalance.RetryStopsAtFirstSuccess | project/src/pages/api/bitvavo/balance.ts:28-42 | from count 0 the wrapper returns the first success among 4 calls after exactly that many calls; after 4 failures it rethrows the 4th error having waited 1000, 2000 and 4000 ms |
| ExpBackoffBalance.TotalDelay | project/src/pages/api/bitvavo/balance.ts:36-40 | the delays add up to `1000 * (2^last - 2^start)`, where `last` is the final call's retry count |
| ExpBackoffBalance.Handler | project/src/pages/api/bitvavo/balance.ts:45-76 | missing or empty credentials give 500 with no client configured or called; otherwise the client gets key, secret, access window 10000, and the configured URL, or `https://api.bitvavo.com/v2` when that is unset or empty; 200 with the data exactly when the retrying fetch succeeds; otherwise 500 with `details` set to the error message or "Unknown error" |
| ExpBackoffBalance.HandlerCallBound | project/src/pages/api/bitvavo/balance.ts:51-67 | the client is called only when both credentials are present, and then 1 to 4 times |
| LinearBackoffBalance.FetchBalance | src-1/pages/api/bitvavo/balance.ts:33-43 | 1 to 3 calls, stopping at the first success; the delay after failed attempt `k` is `1000 * k`; a failure is kept only from attempt 3; the result agrees with the first success among 3 calls |
| LinearBackoffBalance.Handler | src-1/pages/api/bitvavo/balance.ts:5-53 | no session gives 401; otherwise a non-GET method gives 405 with `Allow: GET`; otherwise missing credentials give 500; in all three the client is never called; the client is called exactly when all three guards pass, and then 1 to 3 times, every call before the last one having thrown, with delays 1000 and 2000 ms; 200 with the data of that first successful call exactly when one of 3 calls succeeds, and 500 with the error message, or the fixed unknown-error text, after the 3rd failure |

## Left out

- JavaScript number semantics: amounts and prices are reals. `parseFloat` is an abstract
  parameter, so NaN from an unparseable string and IEEE rounding are not modelled. Because of
  this, `priceMap[symbol] || 0` reads as "the price, or 0 when there is none".
- Plain-object key quirks of the price map, such as a market "__proto__-EUR" whose write
  JavaScript ignores. The map is a Dafny `map`.
- The `error.message` texts of a cycle. `DashboardCycle.CycleError` records the kind of failure
  and the HTTP status, not the rendered string.
- The order in which `Promise.all` reports two rejected fetches. Both are `FetchFailed`.
- Malformed array elements, such as a `null` balance, whose property access would throw inside
  the fold.
- React state batching, `useSession`, the authentication gate of the effect, and the 60-second
  `setInterval` polling with its cleanup. These are framework lifecycle and timers.
- Real sleeping, logging, the dynamic `import('bitvavo')`, and the vendor client's signing and
  HTTP calls. The client is an outcome function.
- LinearBackoffBalance.Handler: the session lookup is a boolean, so a throwing
  `getServerSession` (also answered 500) is not modelled. The fixed client options (REST and
  WebSocket URLs, debug flag) are not returned.
- ExpBackoffBalance.Handler: a failure while loading or configuring the client module, which the
  source also answers with 500, is not modelled.
- The presentational components, the order and price routes, and the signing helpers
  (`src-1/lib/bitvavo.ts`, `project/src/lib/bitvavo.ts`). They hold no valuation logic, or they
  are calls into code outside this model.
