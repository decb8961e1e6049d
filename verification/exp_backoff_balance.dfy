/** The balance route with exponential backoff: `fetchBalanceWithRetry` and `handler`. */
module ExpBackoffBalance {
  import opened Common
  import opened Exchange
  import opened Http

  const MaxRetries: nat := 3
  const InitialRetryDelay: nat := 1000
  const AccessWindow: nat := 10000
  const DefaultApiUrl: string := "https://api.bitvavo.com/v2"
  const CredentialsMissing: string := "API credentials not configured. Please check your .env file."
  const FetchFailedMessage: string := "Error fetching balance data"

  /** `Math.pow(2, k)` for a whole exponent. */
  function Pow2(k: nat): nat
  {
    if k == 0 then 1 else 2 * Pow2(k - 1)
  }

  /** `INITIAL_RETRY_DELAY * Math.pow(2, retryCount)`, in milliseconds. */
  function RetryDelay(retryCount: nat): (d: nat)
    ensures retryCount == 0 ==> d == InitialRetryDelay
    ensures retryCount > 0 ==> d == 2 * RetryDelay(retryCount - 1)
  {
    InitialRetryDelay * Pow2(retryCount)
  }

  /** What one retrying fetch did: how many times it called the client, the delays it slept
      between calls, and the outcome it returned or rethrew. */
  datatype Trace = Trace(calls: nat, delays: seq<nat>, outcome: CallOutcome)

  /** `fetchBalanceWithRetry(client, retryCount)`; the call made at `retryCount` = k is the
      client's k-th call, as the handler starts at 0. */
  function FetchWithRetry(client: Client, retryCount: nat): (t: Trace)
    ensures t.calls >= 1
    ensures t.calls <= if retryCount <= MaxRetries then MaxRetries + 1 - retryCount else 1
    ensures |t.delays| == t.calls - 1
    ensures forall k :: 0 <= k < |t.delays| ==> t.delays[k] == RetryDelay(retryCount + k)
    ensures t.outcome == client(retryCount + t.calls - 1)
    ensures forall j :: retryCount <= j < retryCount + t.calls - 1 ==> client(j).Threw?
    ensures t.outcome.Threw? ==> retryCount + t.calls - 1 >= MaxRetries
    decreases MaxRetries - retryCount
  {
    match client(retryCount)
    case Returned(data) => Trace(1, [], Returned(data))
    case Threw(err) =>
      if retryCount >= MaxRetries then Trace(1, [], Threw(err))
      else
        var rest := FetchWithRetry(client, retryCount + 1);
        Trace(rest.calls + 1, [RetryDelay(retryCount)] + rest.delays, rest.outcome)
  }

  /** From a fresh start the wrapper stops at the first success among at most four calls, and
      after four failures it rethrows the fourth error having slept 1000, 2000 and 4000 ms. */
  lemma RetryStopsAtFirstSuccess(client: Client)
    ensures var t := FetchWithRetry(client, 0);
      match FirstSuccess(client, MaxRetries + 1)
      case Some(j) => t.calls == j + 1 && t.outcome == client(j) && t.outcome.Returned?
      case None => t.calls == 4 && t.outcome == client(3) && t.outcome.Threw?
                   && t.delays == [1000, 2000, 4000]
  {
  }

  function Sum(xs: seq<nat>): nat
  {
    if |xs| == 0 then 0 else xs[0] + Sum(xs[1..])
  }

  /** The delays slept from `retryCount` on add up to `1000 * (2^last - 2^retryCount)`, where
      `last` is the retry count of the final call. */
  lemma {:induction false} TotalDelay(client: Client, retryCount: nat)
    ensures var t := FetchWithRetry(client, retryCount);
      Sum(t.delays) == InitialRetryDelay * (Pow2(retryCount + t.calls - 1) - Pow2(retryCount))
    decreases MaxRetries - retryCount
  {
    var t := FetchWithRetry(client, retryCount);
    if client(retryCount).Threw? && retryCount < MaxRetries {
      TotalDelay(client, retryCount + 1);
      var rest := FetchWithRetry(client, retryCount + 1);
      assert t.delays == [RetryDelay(retryCount)] + rest.delays;
      assert t.delays[1..] == rest.delays;
      assert Pow2(retryCount + 1) == 2 * Pow2(retryCount);
    }
  }

  /** The environment the handler reads. */
  datatype Env = Env(apiKey: Option<string>, apiSecret: Option<string>, apiUrl: Option<string>)

  /** The options the vendor client is configured with. */
  datatype ClientConfig = ClientConfig(apiKey: string, apiSecret: string, restUrl: string, accessWindow: nat)

  /** One request: the response, and the client configuration and retry trace when the client was used. */
  datatype Run = Run(response: Response, config: Option<ClientConfig>, trace: Option<Trace>)

  /** `err instanceof Error ? err.message : 'Unknown error'`. */
  function Details(e: Thrown): string
  {
    match e
    case ErrorObject(m) => m
    case NonError => "Unknown error"
  }

  /** `BITVAVO_API_URL || 'https://api.bitvavo.com/v2'`. */
  function ApiUrl(env: Env): string
  {
    if Truthy(env.apiUrl) then env.apiUrl.value else DefaultApiUrl
  }

  /** `handler`: the credential guard, then one retrying fetch mapped to 200 or 500. */
  function Handler(env: Env, client: Client): (run: Run)
    ensures !Truthy(env.apiKey) || !Truthy(env.apiSecret) ==>
      run == Run(Response(500, [], ErrorJson(CredentialsMissing, None)), None, None)
    ensures Truthy(env.apiKey) && Truthy(env.apiSecret) ==>
      && run.config == Some(ClientConfig(env.apiKey.value, env.apiSecret.value, ApiUrl(env), AccessWindow))
      && run.trace == Some(FetchWithRetry(client, 0))
    ensures run.config.Some? && Truthy(env.apiUrl) ==> run.config.value.restUrl == env.apiUrl.value
    ensures run.config.Some? && !Truthy(env.apiUrl) ==> run.config.value.restUrl == DefaultApiUrl
    ensures run.response.status == 200 <==> run.trace.Some? && run.trace.value.outcome.Returned?
    ensures run.response.status == 200 ==> run.response.body == BalanceList(run.trace.value.outcome.data)
    ensures run.trace.Some? && run.trace.value.outcome.Threw? ==>
      run.response == Response(500, [], ErrorJson(FetchFailedMessage, Some(Details(run.trace.value.outcome.error))))
  {
    if !Truthy(env.apiKey) || !Truthy(env.apiSecret) then
      Run(Response(500, [], ErrorJson(CredentialsMissing, None)), None, None)
    else
      var config := ClientConfig(env.apiKey.value, env.apiSecret.value, ApiUrl(env), AccessWindow);
      var t := FetchWithRetry(client, 0);
      match t.outcome
      case Returned(data) => Run(Response(200, [], BalanceList(data)), Some(config), Some(t))
      case Threw(e) => Run(Response(500, [], ErrorJson(FetchFailedMessage, Some(Details(e)))), Some(config), Some(t))
  }

  /** The handler calls the client at most four times, and not at all without credentials. */
  lemma HandlerCallBound(env: Env, client: Client)
    ensures var run := Handler(env, client);
      (run.trace.None? <==> !Truthy(env.apiKey) || !Truthy(env.apiSecret))
      && (run.trace.Some? ==> 1 <= run.trace.value.calls <= MaxRetries + 1)
  {
  }
}
