/** The remote/local routing of every account and task operation: one
    request attempt (apiRequest), then the wrapper's choice between the
    server's answer, the on-device fallback, and an error. HTTP, headers
    and JSON are abstracted to what the routing reads. The connectivity
    flag (`!navigator.onLine`) is sampled twice, once inside apiRequest's
    catch and once inside the wrapper's catch, so it is two inputs. */
module Gateway {
  import opened JsValues
  import opened Text

  /** The fields of a parsed response body that decide the route. */
  datatype Body = Body(success: Option<Value>, error: Option<Value>)

  /** What the single fetch attempt produced. */
  datatype Outcome =
    | Responded(status: int, body: Body)  // the server answered; the body is read only for 2xx
    | BadJson(message: string)            // a 2xx answer whose body is not JSON
    | Unreachable(message: string)        // fetch itself rejected

  /** What apiRequest hands back to the wrapper: a body, or a thrown error. */
  datatype ApiResult = Returned(body: Body) | Threw(message: string)

  const SessionExpiredMessage := "Session expired. Please log in again."
  const OfflineBody := Body(Some(Bool(false)), Some(Str("Offline mode")))

  predicate IsOk(status: int) { 200 <= status <= 299 }

  /** The attempt produced a usable body. */
  predicate Delivered(o: Outcome) {
    o.Responded? && IsOk(o.status)
  }

  /** The error apiRequest's try block raises for a failed attempt. */
  function FailureMessage(o: Outcome): string
    requires !Delivered(o)
  {
    match o
    case Responded(status, _) =>
      if status == 401 then SessionExpiredMessage
      else "API request failed: " + ToJsString(Some(Num(status)))
    case BadJson(m) => m
    case Unreachable(m) => m
  }

  /** apiRequest: a 2xx body is returned; any failure is caught, and the
      catch returns the "Offline mode" body when the device is offline and
      rethrows otherwise. Offline, apiRequest never throws. */
  function ApiDecision(o: Outcome, offline: bool): (r: ApiResult)
    ensures Delivered(o) ==> r == Returned(o.body)
    ensures !Delivered(o) && offline ==> r == Returned(OfflineBody)
    ensures r.Threw? <==> !Delivered(o) && !offline
    ensures r.Threw? ==> r.message == FailureMessage(o)
  {
    if Delivered(o) then Returned(o.body)
    else if offline then Returned(OfflineBody)
    else Threw(FailureMessage(o))
  }

  /** The account and task wrappers. */
  datatype Operation =
    | Register | Login
    | GetProfile | UpdateProfile
    | GetTasks | CreateTask | UpdateTask | DeleteTask | ArchiveTask | GetArchived | RestoreTask

  /** registerUser and loginUser check connectivity again in their catch;
      every other wrapper falls back on any thrown error. */
  predicate ChecksOfflineOnCatch(op: Operation) {
    op == Register || op == Login
  }

  /** Which way the operation went. */
  datatype Path =
    | RemoteSuccess                     // `{success: true, ...}` from the server's body
    | RemoteFailure(error: Option<Value>) // `{success: false, error: response.error}`
    | LocalFallback                     // the on-device operation's own result
    | Failed(message: string)           // `{success: false, error: error.message}`

  /** A wrapper's decision on what apiRequest handed back. */
  function Route(op: Operation, api: ApiResult, offlineAtCatch: bool): (p: Path)
    ensures api.Returned? ==> (p == RemoteSuccess <==> Truthy(api.body.success))
    ensures api.Returned? && !Truthy(api.body.success) ==> p == RemoteFailure(api.body.error)
    ensures p == LocalFallback <==> api.Threw? && (!ChecksOfflineOnCatch(op) || offlineAtCatch)
    ensures p.Failed? <==> api.Threw? && ChecksOfflineOnCatch(op) && !offlineAtCatch
    ensures p.Failed? ==> p.message == api.message
  {
    match api
    case Returned(b) => if Truthy(b.success) then RemoteSuccess else RemoteFailure(b.error)
    case Threw(m) =>
      if ChecksOfflineOnCatch(op) then (if offlineAtCatch then LocalFallback else Failed(m))
      else LocalFallback
  }

  /** The whole decision table, from the attempt and the two readings of
      the connectivity flag to the path taken. */
  function Decide(op: Operation, o: Outcome, offlineInRequest: bool, offlineAtCatch: bool): (p: Path)
    ensures p == RemoteSuccess <==> Delivered(o) && Truthy(o.body.success)
    ensures Delivered(o) && !Truthy(o.body.success) ==> p == RemoteFailure(o.body.error)
    ensures !Delivered(o) && offlineInRequest ==> p == RemoteFailure(Some(Str("Offline mode")))
    ensures !ChecksOfflineOnCatch(op) ==>
      (p == LocalFallback <==> !Delivered(o) && !offlineInRequest)
    ensures ChecksOfflineOnCatch(op) ==>
      (p == LocalFallback <==> !Delivered(o) && !offlineInRequest && offlineAtCatch)
    ensures p.Failed? <==> ChecksOfflineOnCatch(op) && !Delivered(o) && !offlineInRequest && !offlineAtCatch
    ensures p.Failed? ==> p.message == FailureMessage(o)
  {
    Route(op, ApiDecision(o, offlineInRequest), offlineAtCatch)
  }

  /** With the same connectivity reading at both checks, registration and
      login never reach their on-device fallback: offline, apiRequest
      already answered "Offline mode" instead of throwing. */
  lemma AuthFallbackNeedsFlip(op: Operation, o: Outcome, offline: bool)
    requires ChecksOfflineOnCatch(op)
    ensures Decide(op, o, offline, offline) != LocalFallback
    ensures offline && !Delivered(o) ==> Decide(op, o, offline, offline) == RemoteFailure(Some(Str("Offline mode")))
  {
  }

  /** An expired session (401) while online still ends in the on-device
      fallback for the task and profile operations. */
  lemma SessionExpiryFallsBack(op: Operation, b: Body, offlineAtCatch: bool)
    requires !ChecksOfflineOnCatch(op)
    ensures Decide(op, Responded(401, b), false, offlineAtCatch) == LocalFallback
  {
  }

  /** Offline, no operation reaches its on-device fallback: apiRequest's
      catch answers "Offline mode", which every wrapper reports as a
      remote failure. */
  lemma OfflineNeverFallsBack(op: Operation, o: Outcome, offlineAtCatch: bool)
    requires !Delivered(o)
    ensures Decide(op, o, true, offlineAtCatch) == RemoteFailure(Some(Str("Offline mode")))
  {
  }

  /** The routing the "fallback to localStorage for offline mode" comments
      describe: a failed attempt falls back to the device whenever the
      device is offline, and otherwise goes as before. */
  function IntendedDecide(op: Operation, o: Outcome, offline: bool): (p: Path)
    ensures !Delivered(o) && offline ==> p == LocalFallback
    ensures Delivered(o) ==> p == Decide(op, o, offline, offline)
    ensures !offline ==> p == Decide(op, o, false, false)
    ensures p == LocalFallback <==> !Delivered(o) && (offline || !ChecksOfflineOnCatch(op))
  {
    if Delivered(o) then (if Truthy(o.body.success) then RemoteSuccess else RemoteFailure(o.body.error))
    else if offline || !ChecksOfflineOnCatch(op) then LocalFallback
    else Failed(FailureMessage(o))
  }

  /** The process's bearer token (`authToken`). */
  class Session {
    var authToken: Option<string>

    constructor (stored: Option<string>)
      ensures authToken == stored
    {
      authToken := stored;
    }

    /** apiRequest: a 401 answer drops the token before the failure is
        handled; nothing else touches it. */
    method ApiRequest(o: Outcome, offline: bool) returns (r: ApiResult)
      modifies this
      ensures r == ApiDecision(o, offline)
      ensures authToken == if o.Responded? && o.status == 401 then None else old(authToken)
    {
      if o.Responded? && IsOk(o.status) {
        return Returned(o.body);
      }
      if o.Responded? && o.status == 401 {
        ClearAuthToken();
      }
      var message := FailureMessage(o);
      if offline {
        return Returned(OfflineBody);
      }
      r := Threw(message);
    }

    /** setAuthToken */
    method SetAuthToken(token: string)
      modifies this
      ensures authToken == Some(token)
    {
      authToken := Some(token);
    }

    /** clearAuthToken */
    method ClearAuthToken()
      modifies this
      ensures authToken == None
    {
      authToken := None;
    }
  }
}
