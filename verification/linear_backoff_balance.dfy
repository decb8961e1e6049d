/** The balance route with linear backoff: the session, method and credential guards of
    `handler`, then up to three calls to the client with a growing pause between them. */
module LinearBackoffBalance {
  import opened Common
  import opened Exchange
  import opened Http

  const Attempts: nat := 3
  const DelayStep: nat := 1000
  const NotAuthorized: string := "Not authorized (session missing)"
  const CredentialsMissing: string := "Bitvavo API credentials not configured"
  const UnknownError: string := "Unknown error occurred while fetching balance"

  /** The parts of the request the handler reads: whether a session exists, and `req.method`
      (named `httpMethod` here because `method` is a Dafny keyword). */
  datatype Request = Request(hasSession: bool, httpMethod: Option<string>)

  /** `BITVAVO_API_KEY` and `BITVAVO_API_SECRET`. */
  datatype Env = Env(apiKey: Option<string>, apiSecret: Option<string>)

  /** The retry loop: attempt `a` (1-based) is the client's call `a - 1`; a failed attempt other
      than the last is followed by a pause of `1000 * a` ms, the last failure is rethrown. */
  method FetchBalance(client: Client) returns (calls: nat, delays: seq<nat>, outcome: CallOutcome)
    ensures 1 <= calls <= Attempts
    ensures |delays| == calls - 1
    ensures forall k :: 0 <= k < |delays| ==> delays[k] == DelayStep * (k + 1)
    ensures outcome == client(calls - 1)
    ensures forall j :: 0 <= j < calls - 1 ==> client(j).Threw?
    ensures outcome.Threw? ==> calls == Attempts
    ensures FirstSuccess(client, Attempts) == if outcome.Returned? then Some(calls - 1) else None
  {
    var attempt: nat := 1;
    var done := false;
    calls, delays, outcome := 0, [], client(0);
    while attempt <= Attempts && !done
      invariant 1 <= attempt <= Attempts
      invariant calls == (if done then attempt else attempt - 1)
      invariant |delays| == attempt - 1
      invariant forall k :: 0 <= k < |delays| ==> delays[k] == DelayStep * (k + 1)
      invariant forall j :: 0 <= j < attempt - 1 ==> client(j).Threw?
      invariant done ==> outcome == client(attempt - 1)
      invariant done && outcome.Threw? ==> attempt == Attempts
      decreases Attempts - attempt, if done then 0 else 1
    {
      var o := client(attempt - 1);
      calls := calls + 1;
      if o.Returned? {
        outcome, done := o, true;
      } else if attempt == Attempts {
        outcome, done := o, true;
      } else {
        delays := delays + [DelayStep * attempt];
        attempt := attempt + 1;
      }
    }
  }

  /** `req.method` as a template literal shows it. */
  function MethodText(m: Option<string>): string
  {
    match m
    case Some(s) => s
    case None => "undefined"
  }

  /** `handler`: 401 without a session, then 405 for anything but GET, then 500 without
      credentials, and only then the retrying fetch, mapped to 200 or to 500 with the message. */
  method Handler(req: Request, env: Env, client: Client) returns (response: Response, calls: nat, delays: seq<nat>)
    ensures !req.hasSession ==>
      response == Response(401, [], ErrorJson(NotAuthorized, None)) && calls == 0
    ensures req.hasSession && req.httpMethod != Some("GET") ==>
      && response == Response(405, [("Allow", "GET")], ErrorJson("Method " + MethodText(req.httpMethod) + " not allowed", None))
      && calls == 0
    ensures req.hasSession && req.httpMethod == Some("GET") && (!Truthy(env.apiKey) || !Truthy(env.apiSecret)) ==>
      response == Response(500, [], ErrorJson(CredentialsMissing, None)) && calls == 0
    ensures calls == 0 ==> |delays| == 0
    ensures calls > 0 <==> req.hasSession && req.httpMethod == Some("GET") && Truthy(env.apiKey) && Truthy(env.apiSecret)
    ensures calls > 0 ==> calls <= Attempts && |delays| == calls - 1
    ensures calls > 0 ==> forall j :: 0 <= j < calls - 1 ==> client(j).Threw?
    ensures forall k :: 0 <= k < |delays| ==> delays[k] == DelayStep * (k + 1)
    ensures calls > 0 ==> (response.status == 200 <==> FirstSuccess(client, Attempts).Some?)
    ensures calls > 0 && client(calls - 1).Returned? ==>
      response == Response(200, [], BalanceList(client(calls - 1).data))
    ensures calls > 0 && client(calls - 1).Threw? ==> calls == Attempts && response.status == 500
    ensures calls > 0 && client(calls - 1).Threw? && client(calls - 1).error.ErrorObject? ==>
      response.body == ErrorJson(client(calls - 1).error.message, None)
    ensures calls > 0 && client(calls - 1).Threw? && client(calls - 1).error.NonError? ==>
      response.body == ErrorJson(UnknownError, None)
  {
    calls, delays := 0, [];
    if !req.hasSession {
      return Response(401, [], ErrorJson(NotAuthorized, None)), calls, delays;
    }
    if req.httpMethod != Some("GET") {
      return Response(405, [("Allow", "GET")], ErrorJson("Method " + MethodText(req.httpMethod) + " not allowed", None)), calls, delays;
    }
    if !Truthy(env.apiKey) || !Truthy(env.apiSecret) {
      return Response(500, [], ErrorJson(CredentialsMissing, None)), calls, delays;
    }
    var outcome;
    calls, delays, outcome := FetchBalance(client);
    match outcome
    case Returned(data) =>
      response := Response(200, [], BalanceList(data));
    case Threw(e) =>
      var message := match e case ErrorObject(m) => m case NonError => UnknownError;
      response := Response(500, [], ErrorJson(message, None));
  }
}
