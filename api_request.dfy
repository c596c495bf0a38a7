/**
 * The bounded retry loop of make_api_request (main.py).
 *
 * The HTTP GET is not modelled: `server(n)` is the outcome of the n-th attempt,
 * either the decoded JSON body or a request-level failure. Sleeping is recorded
 * as ghost state, one entry per call of time.sleep.
 */
module ApiRequest {
  import opened Options

  /** Default number of attempts (MAX_RETRIES). */
  const MaxRetries: int := 3
  /** Seconds slept between two attempts (RETRY_DELAY). */
  const RetryDelay: nat := 5

  /** One GET: a decoded body, or a RequestException (connection error,
      timeout, non-2xx status, undecodable body). */
  datatype Attempt<T> = Ok(body: T) | Fail

  /** What a call of make_api_request ends with. */
  datatype Response<T> =
    | Returned(body: T)  // the body of the first successful attempt
    | Raised             // the failure of the last attempt was re-raised
    | FellThrough        // retries <= 0: the loop never ran and None came back

  /** The index of the first successful attempt among the first `n`, if any. */
  function FirstOk<T>(server: nat -> Attempt<T>, n: nat): (k: Option<nat>)
    ensures k.Some? ==> k.value < n && server(k.value).Ok?
    ensures k.Some? ==> forall j :: 0 <= j < k.value ==> server(j).Fail?
    ensures k.None? <==> forall j :: 0 <= j < n ==> server(j).Fail?
  {
    if n == 0 then None
    else
      match FirstOk(server, n - 1)
      case Some(k) => Some(k)
      case None => if server(n - 1).Ok? then Some(n - 1) else None
  }

  /** The result make_api_request promises: the first success within
      `retries` attempts, else the re-raised failure. */
  function ApiResponse<T>(server: nat -> Attempt<T>, retries: int): Response<T>
  {
    if retries <= 0 then FellThrough
    else
      match FirstOk(server, retries)
      case Some(k) => Returned(server(k).body)
      case None => Raised
  }

  /**
   * make_api_request(url, retries). `attempts` counts the GETs issued and
   * `delays` lists the sleeps, in order.
   */
  method MakeApiRequest<T>(server: nat -> Attempt<T>, retries: int)
    returns (r: Response<T>, ghost attempts: nat, ghost delays: seq<nat>)
    ensures r == ApiResponse(server, retries)
    ensures retries <= 0 ==> r == FellThrough && attempts == 0 && delays == []
    ensures retries >= 1 && (forall j :: 0 <= j < retries ==> server(j).Fail?) ==>
              r == Raised && attempts == retries && |delays| == retries - 1
    ensures forall k :: 0 <= k < retries && server(k).Ok? && (forall j :: 0 <= j < k ==> server(j).Fail?) ==>
              r == Returned(server(k).body) && attempts == k + 1 && |delays| == k
    ensures attempts >= 1 ==> |delays| == attempts - 1
    ensures forall d <- delays :: d == RetryDelay
  {
    attempts, delays := 0, [];
    var attempt: nat := 0;
    while attempt < retries
      invariant attempt == 0 || attempt < retries
      invariant attempts == attempt && |delays| == attempt
      invariant forall d <- delays :: d == RetryDelay
      invariant forall j :: 0 <= j < attempt ==> server(j).Fail?
    {
      attempts := attempts + 1;
      var outcome := server(attempt);
      if outcome.Ok? {
        r := Returned(outcome.body);
        return;
      }
      if attempt == retries - 1 {
        r := Raised;
        return;
      }
      delays := delays + [RetryDelay];
      attempt := attempt + 1;
    }
    r := FellThrough;
  }
}
