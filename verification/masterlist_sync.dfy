/** The CSCA master-list synchronisation Lambda: a bounded download with
  * retries, a SHA-256 fingerprint gate, and the ordered propagation of a new
  * master list to S3, SSM and ECS. `fetch`, the hash and the AWS calls are
  * parameters: each call's outcome is supplied by the caller. */
module MasterlistSync {
  import opened Wrappers

  /** An error object as the handler inspects it: its `name`, its own `code`
    * and the `code` of its `cause`, each possibly undefined. */
  datatype JsError = JsError(name: string, code: Option<string>, causeCode: Option<string>)

  /** What one `fetch` call produced: a response (status and the body it
    * yields), or a rejected promise. A failure while reading the body is
    * folded into `Rejected`, since the same `catch` handles it. */
  datatype FetchOutcome = Response(status: int, body: seq<byte>) | Rejected(error: JsError)

  /** Why a download failed. `HttpError` is the error built for a non-2xx
    * response; `Thrown` is an error raised by `fetch` itself; `RetriesExhausted`
    * is the fallback error after the loop. */
  datatype DownloadError = HttpError(statusCode: int) | Thrown(error: JsError) | RetriesExhausted

  const MaxAttempts: nat := 3
  const RetryableStatuses: seq<int> := [408, 429, 500, 502, 503, 504]
  const TimeoutNames: set<string> := {"TimeoutError", "AbortError"}
  const NetworkCodes: set<string> := {"ECONNRESET", "ENOTFOUND", "ECONNREFUSED"}

  /** `response.ok`: the status is in 200..299. */
  predicate IsOkStatus(status: int) {
    200 <= status <= 299
  }

  /** The closed classification of retryable failures: a timeout or abort by
    * name, or one of three network codes on the error or on its cause. */
  function IsRetryable(e: JsError): (b: bool)
    ensures b <==> e.name in TimeoutNames
                   || (e.causeCode.Some? && e.causeCode.value in NetworkCodes)
                   || (e.code.Some? && e.code.value in NetworkCodes)
  {
    var isTimeout := e.name == "TimeoutError" || e.name == "AbortError";
    var isNetworkError :=
      e.causeCode == Some("ECONNRESET") || e.causeCode == Some("ENOTFOUND") || e.causeCode == Some("ECONNREFUSED") ||
      e.code == Some("ECONNRESET") || e.code == Some("ENOTFOUND") || e.code == Some("ECONNREFUSED");
    isTimeout || isNetworkError
  }

  /** The error object the `catch` block sees for each kind of failure. The
    * error built for an HTTP status is a plain `Error` with no `code` and no
    * `cause` (it only carries `statusCode`). */
  function AsJsError(e: DownloadError): JsError {
    match e
    case HttpError(_) => JsError("Error", None, None)
    case Thrown(err) => err
    case RetriesExhausted => JsError("Error", None, None)
  }

  /** The error raised for a non-2xx status is never retried by the `catch`
    * block: only the status test before the `throw` can retry it. */
  lemma HttpErrorNotRetryable(status: int)
    ensures !IsRetryable(AsJsError(HttpError(status)))
  {
    assert "Error" != "TimeoutError" && "Error" != "AbortError";
  }

  /** An outcome the loop retries when an attempt remains: a non-2xx response
    * with a retryable status, or a retryable thrown error. */
  predicate Retried(o: FetchOutcome) {
    match o
    case Response(status, _) => !IsOkStatus(status) && status in RetryableStatuses
    case Rejected(error) => IsRetryable(error)
  }

  /** What a download returns when it stops at outcome `o`. */
  function Settle(o: FetchOutcome): (r: Result<seq<byte>, DownloadError>)
    ensures r.Ok? <==> o.Response? && IsOkStatus(o.status)
    ensures r.Ok? ==> r.value == o.body
    ensures r.Err? && o.Response? ==> r.error == HttpError(o.status)
    ensures o.Rejected? ==> r == Err(Thrown(o.error))
  {
    match o
    case Response(status, body) => if IsOkStatus(status) then Ok(body) else Err(HttpError(status))
    case Rejected(error) => Err(Thrown(error))
  }

  /** The number of `fetch` calls made when the download reaches attempt `k`:
    * attempts go on while the outcome is retried and an attempt remains. */
  function CallsFrom(fetch: nat -> FetchOutcome, k: nat): (n: nat)
    requires k < MaxAttempts
    ensures k < n <= MaxAttempts
    ensures n < MaxAttempts ==> !Retried(fetch(n - 1))
    ensures forall j :: k <= j < n - 1 ==> Retried(fetch(j))
    decreases MaxAttempts - k
  {
    if k == MaxAttempts - 1 || !Retried(fetch(k)) then k + 1 else CallsFrom(fetch, k + 1)
  }

  /** The number of `fetch` calls one download makes. */
  function Calls(fetch: nat -> FetchOutcome): (n: nat)
    ensures 1 <= n <= MaxAttempts
  {
    CallsFrom(fetch, 0)
  }

  /** The base of the back-off before retry `attempt + 1`: `1000 * 2^attempt`
    * milliseconds (the random jitter below one second is left out). */
  function BaseDelay(attempt: nat): (ms: nat)
    ensures ms >= 1000
  {
    if attempt == 0 then 1000 else 2 * BaseDelay(attempt - 1)
  }

  /** The download stops at the first attempt whose outcome is not retried:
    * a 2xx response, a non-retryable status or a non-retryable error. */
  lemma {:induction false} StopsAtFirstNonRetried(fetch: nat -> FetchOutcome, k: nat)
    requires k < MaxAttempts
    requires forall j :: 0 <= j < k ==> Retried(fetch(j))
    requires !Retried(fetch(k))
    ensures Calls(fetch) == k + 1
    ensures Settle(fetch(Calls(fetch) - 1)) == Settle(fetch(k))
  {
    var n := Calls(fetch);
    assert k < n - 1 ==> Retried(fetch(k));
  }

  /** A 2xx response on any attempt is returned at once: its body is the
    * result and no later `fetch` call is made. */
  lemma OkReturnsAtOnce(fetch: nat -> FetchOutcome, k: nat)
    requires k < MaxAttempts
    requires forall j :: 0 <= j < k ==> Retried(fetch(j))
    requires fetch(k).Response? && IsOkStatus(fetch(k).status)
    ensures Calls(fetch) == k + 1
    ensures Settle(fetch(Calls(fetch) - 1)) == Ok(fetch(k).body)
  {
    StopsAtFirstNonRetried(fetch, k);
  }

  /** A non-2xx status outside the retryable list fails after the current
    * attempt, with the HTTP error for that status. */
  lemma NonRetryableStatusFails(fetch: nat -> FetchOutcome, k: nat)
    requires k < MaxAttempts
    requires forall j :: 0 <= j < k ==> Retried(fetch(j))
    requires fetch(k).Response? && !IsOkStatus(fetch(k).status) && fetch(k).status !in RetryableStatuses
    ensures Calls(fetch) == k + 1
    ensures Settle(fetch(Calls(fetch) - 1)) == Err(HttpError(fetch(k).status))
  {
    StopsAtFirstNonRetried(fetch, k);
  }

  /** When the first two attempts are retried, the third is the last: its
    * outcome is returned or raised unchanged, whatever it is. */
  lemma LastAttemptPropagates(fetch: nat -> FetchOutcome)
    requires Retried(fetch(0)) && Retried(fetch(1))
    ensures Calls(fetch) == MaxAttempts
    ensures Settle(fetch(Calls(fetch) - 1)) == Settle(fetch(2))
  {
  }

  /** The retry loop of `downloadFile`. It returns the result, the number of
    * `fetch` calls made and the base delays waited between them. */
  method DownloadFile(fetch: nat -> FetchOutcome) returns (r: Result<seq<byte>, DownloadError>, calls: nat, waits: seq<nat>)
    ensures calls == Calls(fetch)
    ensures 1 <= calls <= MaxAttempts
    ensures forall k :: 0 <= k < calls - 1 ==> Retried(fetch(k))
    ensures r == Settle(fetch(calls - 1))
    ensures r != Err(RetriesExhausted)
    ensures |waits| == calls - 1
    ensures forall k :: 0 <= k < |waits| ==> waits[k] == BaseDelay(k)
  {
    var attempt := 0;
    waits := [];
    calls := 0;
    while attempt < MaxAttempts
      invariant attempt < MaxAttempts
      invariant forall j :: 0 <= j < attempt ==> Retried(fetch(j))
      invariant CallsFrom(fetch, attempt) == Calls(fetch)
      invariant |waits| == attempt
      invariant forall j :: 0 <= j < attempt ==> waits[j] == BaseDelay(j)
      decreases MaxAttempts - attempt
    {
      calls := attempt + 1;
      var outcome := fetch(attempt);
      var thrown: DownloadError;
      match outcome {
        case Response(status, body) =>
          if IsOkStatus(status) {
            return Ok(body), calls, waits;
          }
          var error := HttpError(status);
          if attempt < MaxAttempts - 1 && status in RetryableStatuses {
            waits := waits + [BaseDelay(attempt)];
            attempt := attempt + 1;
            continue;
          }
          thrown := error;
        case Rejected(error) =>
          thrown := Thrown(error);
      }
      // the `catch` block
      HttpErrorNotRetryable(if outcome.Response? then outcome.status else 0);
      if attempt < MaxAttempts - 1 && IsRetryable(AsJsError(thrown)) {
        waits := waits + [BaseDelay(attempt)];
        attempt := attempt + 1;
        continue;
      }
      return Err(thrown), calls, waits;
    }
    r := Err(RetriesExhausted);
  }

  /** The six required settings; an unset variable reads as "" and both are
    * falsy in JavaScript. */
  datatype Settings = Settings(url: string, ssmParameterName: string, bucket: string, objectKey: string,
                               ecsCluster: string, ecsService: string)

  predicate Configured(s: Settings) {
    s.url != "" && s.ssmParameterName != "" && s.bucket != "" && s.objectKey != ""
    && s.ecsCluster != "" && s.ecsService != ""
  }

  /** The outcome of reading the stored fingerprint: `getSsmParameter` gives
    * the value, `null` when the parameter does not exist, and rethrows any
    * other error. */
  datatype SsmRead = Stored(value: string) | ParameterNotFound | ReadFails(error: JsError)

  /** The outcome of one AWS write call. */
  datatype WriteOutcome = Written | WriteFails(error: JsError)

  /** The outcome of the ECS redeploy call: the service ARN and the id of its
    * first deployment, if any. */
  datatype EcsOutcome = Redeployed(serviceArn: string, deploymentId: Option<string>) | EcsFails(error: JsError)

  /** The external calls the handler makes, in the order it makes them. */
  datatype Effect =
    | Fetch(url: string)
    | GetSsm(name: string)
    | PutS3(bucket: string, key: string, body: seq<byte>)
    | PutSsm(name: string, value: string)
    | UpdateEcs(cluster: string, service: string)

  predicate IsWrite(e: Effect) {
    e.PutS3? || e.PutSsm? || e.UpdateEcs?
  }

  datatype SyncResult =
    | NotModified(sha256: string, fileSize: nat)
    | Success(newSha256: string, fileSize: nat, ecsServiceArn: string, ecsDeploymentId: Option<string>)

  datatype HandlerError =
    | MissingSettings
    | DownloadFailed(cause: DownloadError)
    | SsmReadFailed(error: JsError)
    | S3WriteFailed(error: JsError)
    | SsmWriteFailed(error: JsError)
    | EcsUpdateFailed(error: JsError)

  /** `storedSha256 && storedSha256 === newSha256`: a stored, non-empty
    * fingerprint equal to the new one. */
  predicate Unchanged(stored: SsmRead, newSha256: string) {
    stored.Stored? && stored.value != "" && stored.value == newSha256
  }

  /** The `n` fetch calls of a download of `url`. */
  function Fetches(url: string, n: nat): (fs: seq<Effect>)
    ensures |fs| == n && forall i :: 0 <= i < n ==> fs[i] == Fetch(url)
  {
    seq(n, _ => Fetch(url))
  }

  /** The Lambda handler. The fetch outcomes, the hash function and the
    * outcome of each AWS call are parameters; the result comes with the list
    * of external calls made. */
  method Handler(s: Settings, fetch: nat -> FetchOutcome, sha256Hex: seq<byte> -> string,
                 stored: SsmRead, s3: WriteOutcome, ssm: WriteOutcome, ecs: EcsOutcome)
    returns (r: Result<SyncResult, HandlerError>, effects: seq<Effect>)
    // missing settings: nothing is called
    ensures !Configured(s) ==> r == Err(MissingSettings) && effects == []
    // otherwise the download comes first
    ensures Configured(s) ==> |effects| >= Calls(fetch) && effects[..Calls(fetch)] == Fetches(s.url, Calls(fetch))
    ensures Configured(s) && Settle(fetch(Calls(fetch) - 1)).Err? ==>
              r == Err(DownloadFailed(Settle(fetch(Calls(fetch) - 1)).error)) && |effects| == Calls(fetch)
    // after a download, the stored fingerprint is read and compared
    ensures Configured(s) && Settle(fetch(Calls(fetch) - 1)).Ok? ==>
              var body := Settle(fetch(Calls(fetch) - 1)).value;
              var hash := sha256Hex(body);
              var pre := Fetches(s.url, Calls(fetch)) + [GetSsm(s.ssmParameterName)];
              if stored.ReadFails? then r == Err(SsmReadFailed(stored.error)) && effects == pre
              else if Unchanged(stored, hash) then r == Ok(NotModified(hash, |body|)) && effects == pre
              else if s3.WriteFails? then
                r == Err(S3WriteFailed(s3.error)) && effects == pre + [PutS3(s.bucket, s.objectKey, body)]
              else if ssm.WriteFails? then
                r == Err(SsmWriteFailed(ssm.error))
                && effects == pre + [PutS3(s.bucket, s.objectKey, body), PutSsm(s.ssmParameterName, hash)]
              else
                effects == pre + [PutS3(s.bucket, s.objectKey, body), PutSsm(s.ssmParameterName, hash),
                                  UpdateEcs(s.ecsCluster, s.ecsService)]
                && r == (if ecs.EcsFails? then Err(EcsUpdateFailed(ecs.error))
                         else Ok(Success(hash, |body|, ecs.serviceArn, ecs.deploymentId)))
    // no writes unless the fingerprint changed
    ensures r.Ok? && r.value.NotModified? ==> forall i :: 0 <= i < |effects| ==> !IsWrite(effects[i])
  {
    if !Configured(s) {
      return Err(MissingSettings), [];
    }
    var download, calls, _ := DownloadFile(fetch);
    effects := Fetches(s.url, calls);
    if download.Err? {
      return Err(DownloadFailed(download.error)), effects;
    }
    var fileBuffer := download.value;
    var newSha256 := sha256Hex(fileBuffer);
    effects := effects + [GetSsm(s.ssmParameterName)];
    if stored.ReadFails? {
      return Err(SsmReadFailed(stored.error)), effects;
    }
    if Unchanged(stored, newSha256) {
      return Ok(NotModified(newSha256, |fileBuffer|)), effects;
    }
    effects := effects + [PutS3(s.bucket, s.objectKey, fileBuffer)];
    if s3.WriteFails? {
      return Err(S3WriteFailed(s3.error)), effects;
    }
    effects := effects + [PutSsm(s.ssmParameterName, newSha256)];
    if ssm.WriteFails? {
      return Err(SsmWriteFailed(ssm.error)), effects;
    }
    effects := effects + [UpdateEcs(s.ecsCluster, s.ecsService)];
    if ecs.EcsFails? {
      return Err(EcsUpdateFailed(ecs.error)), effects;
    }
    r := Ok(Success(newSha256, |fileBuffer|, ecs.serviceArn, ecs.deploymentId));
  }
}
