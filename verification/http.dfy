/** The parts of a Next.js API response the balance handlers set. */
module Http {
  import opened Common
  import opened Exchange

  /** The JSON the handlers send: the balance array, or an error object. */
  datatype JsonBody = BalanceList(items: seq<Balance>) | ErrorJson(error: string, details: Option<string>)

  datatype Response = Response(status: nat, headers: seq<(string, string)>, body: JsonBody)
}
