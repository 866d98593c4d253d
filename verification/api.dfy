/**
 * The authenticated HTTP client: how one response is turned into data or
 * an error, and the silent-refresh machine that reacts to a 401
 * (Unauthorized, section 15.5.2 of RFC 9110) by refreshing the session
 * once and replaying the requests that failed meanwhile. Promise
 * scheduling is flattened into a sequence of events; `fetch`, cookies,
 * JSON parsing and `window.location` are outside the model.
 */
module Api {
  import opened Wrappers
  import opened JsNumbers

  const Unauthorized := 401
  const RefreshEndpoint := "/auth/refresh"
  const LoginEndpoint := "/auth/login"
  const NetworkErrorMessage := "Network error"
  const RefreshFailedMessage := "Token refresh failed"

  /** A call to `request`: `retry` is the `_retry` option a replay carries. */
  datatype Request = Request(id: nat, endpoint: string, retry: bool)

  /** A thrown error. Error objects are always truthy. */
  datatype ErrorValue = ErrorValue(message: string)

  /** What `response.json()` yields on an error response: a body without a parse, or its `message` field. */
  datatype ErrorBody = Unparseable | Json(message: Option<string>)

  /** A response: its status, its text, and its body read as JSON. */
  datatype Response = Response(status: int, text: string, errorBody: ErrorBody)

  /** `response.ok`. */
  predicate IsOk(status: int) {
    200 <= status <= 299
  }

  /** The guard that sends a response down the refresh path. */
  predicate RefreshEligible(req: Request, status: int) {
    status == Unauthorized && !req.retry && req.endpoint != RefreshEndpoint && req.endpoint != LoginEndpoint
  }

  /** What `request` resolves to: `{data: null}` for an empty body, or the text handed to JSON.parse. */
  datatype Outcome = Data(body: Option<string>) | Thrown(error: ErrorValue)

  /** The message of the error thrown for a non-ok response. */
  function ErrorMessage(status: int, body: ErrorBody): (m: string)
    ensures m != ""
    ensures body.Unparseable? ==> m == NetworkErrorMessage
    ensures body.Json? && body.message.Some? && body.message.value != "" ==> m == body.message.value
    ensures body.Json? && (body.message.None? || body.message.value == "") ==>
              m == "HTTP error! status: " + IntToString(status)
  {
    var message := match body
      case Unparseable => Some(NetworkErrorMessage)
      case Json(msg) => msg;
    if message.Some? && message.value != "" then message.value
    else "HTTP error! status: " + IntToString(status)
  }

  /** A response that does not go down the refresh path. */
  function Settle(r: Response): (o: Outcome)
    ensures !IsOk(r.status) <==> o.Thrown?
    ensures o.Thrown? ==> o.error.message == ErrorMessage(r.status, r.errorBody)
    ensures IsOk(r.status) ==> (o == Data(None) <==> r.text == "")
    ensures IsOk(r.status) && r.text != "" ==> o == Data(Some(r.text))
  {
    if !IsOk(r.status) then Thrown(ErrorValue(ErrorMessage(r.status, r.errorBody)))
    else if r.text == "" then Data(None)
    else Data(Some(r.text))
  }

  /** What happens to one waiter when the queue is processed. */
  datatype WaiterOutcome = Resolved(req: Request, value: bool) | Rejected(req: Request, error: ErrorValue)

  /**
   * `processQueue`: reject every waiter with the error when there is one,
   * resolve every waiter with `success` otherwise, in queue order; the
   * queue is left empty.
   */
  function ProcessQueue(queue: seq<Request>, error: Option<ErrorValue>, success: bool): (r: (seq<WaiterOutcome>, seq<Request>))
    ensures r.1 == []
    ensures |r.0| == |queue|
    ensures forall i :: 0 <= i < |queue| ==> r.0[i].req == queue[i]
    ensures forall i :: 0 <= i < |queue| ==> (r.0[i].Rejected? <==> error.Some?)
    ensures error.Some? ==> forall i :: 0 <= i < |queue| ==> r.0[i] == Rejected(queue[i], error.value)
    ensures error.None? ==> forall i :: 0 <= i < |queue| ==> r.0[i] == Resolved(queue[i], success)
  {
    (seq(|queue|, i requires 0 <= i < |queue| =>
       if error.Some? then Rejected(queue[i], error.value) else Resolved(queue[i], success)), [])
  }

  /** The module-level refresh state; `initiator` is the request awaiting the refresh it started. */
  datatype RefreshState = RefreshState(isRefreshing: bool, initiator: Option<Request>, queue: seq<Request>)

  const Idle := RefreshState(false, None, [])

  /**
   * The machine's invariant: not refreshing means an empty queue and no
   * initiator, and every request parked on a refresh is an original
   * (never a replay) that was refresh-eligible.
   */
  predicate Valid(s: RefreshState) {
    && (!s.isRefreshing ==> s.queue == [])
    && (s.isRefreshing <==> s.initiator.Some?)
    && (s.initiator.Some? ==> RefreshEligible(s.initiator.value, Unauthorized))
    && (forall i :: 0 <= i < |s.queue| ==> RefreshEligible(s.queue[i], Unauthorized))
  }

  /** Whether the browser should be sent to the login page when refresh fails. */
  function RedirectTarget(inBrowser: bool, currentPath: string): (target: Option<string>)
    ensures target.Some? <==> inBrowser && currentPath !in {"/login", "/register", "/"}
    ensures target.Some? ==> target.value == "/login"
  {
    if inBrowser && currentPath != "/login" && currentPath != "/register" && currentPath != "/"
    then Some("/login") else None
  }

  /** The refresh call's result: an HTTP status, or a network failure of `fetch`. */
  datatype RefreshResult = RefreshStatus(status: int) | RefreshNetworkFailure(error: ErrorValue)

  /** `refreshToken`: succeeds on an ok status, throws otherwise. */
  function RefreshError(r: RefreshResult): (e: Option<ErrorValue>)
    ensures e.None? <==> r.RefreshStatus? && IsOk(r.status)
    ensures r.RefreshStatus? && !IsOk(r.status) ==> e == Some(ErrorValue(RefreshFailedMessage))
  {
    match r
    case RefreshStatus(status) => if IsOk(status) then None else Some(ErrorValue(RefreshFailedMessage))
    case RefreshNetworkFailure(e) => Some(e)
  }

  datatype Event =
    | Responded(req: Request, response: Response)
    | RefreshSettled(result: RefreshResult, inBrowser: bool, currentPath: string)

  /**
   * Observable effects, in the order the code produces them. `Replay` marks
   * the moment a request is sent again, `Reject` the moment a waiter's
   * promise is rejected, and `Deliver` the outcome `request` settles with.
   */
  datatype Effect =
    | StartRefresh
    | Deliver(req: Request, outcome: Outcome)
    | Replay(req: Request)
    | Reject(req: Request, error: ErrorValue)
    | Navigate(path: string)

  /** The replay of a request: the same call with `_retry: true`. */
  function AsRetry(req: Request): (r: Request)
    ensures r.retry && r.id == req.id && r.endpoint == req.endpoint
  {
    req.(retry := true)
  }

  /** The effect one processed waiter has: a resolved waiter replays, a rejected one fails. */
  function WaiterEffect(w: WaiterOutcome): (e: Effect)
    ensures w.Resolved? ==> e == Replay(AsRetry(w.req))
    ensures w.Rejected? ==> e == Reject(w.req, w.error)
  {
    match w
    case Resolved(req, _) => Replay(AsRetry(req))
    case Rejected(req, err) => Reject(req, err)
  }

  function WaiterEffects(ws: seq<WaiterOutcome>): (es: seq<Effect>)
    ensures |es| == |ws|
    ensures forall i :: 0 <= i < |ws| ==> es[i] == WaiterEffect(ws[i])
  {
    seq(|ws|, i requires 0 <= i < |ws| => WaiterEffect(ws[i]))
  }

  /**
   * One event of the machine. After a successful refresh the initiator is
   * sent again at once, while the waiters are only resolved: their replays
   * run in the promise callbacks that follow, so they are sent after it.
   */
  function Step(s: RefreshState, e: Event): (r: (RefreshState, seq<Effect>))
    ensures e.Responded? && !RefreshEligible(e.req, e.response.status) ==>
              r == (s, [Deliver(e.req, Settle(e.response))])
    ensures e.Responded? && RefreshEligible(e.req, e.response.status) ==>
              r.0.isRefreshing && |r.0.queue| == |s.queue| + (if s.isRefreshing then 1 else 0)
    ensures e.RefreshSettled? && s.isRefreshing && s.initiator.Some? ==> r.0 == Idle
    ensures e.RefreshSettled? && !s.isRefreshing ==> r == (s, [])
  {
    match e
    case Responded(req, response) =>
      if RefreshEligible(req, response.status) then
        if s.isRefreshing then (s.(queue := s.queue + [req]), [])
        else (RefreshState(true, Some(req), s.queue), [StartRefresh])
      else (s, [Deliver(req, Settle(response))])
    case RefreshSettled(result, inBrowser, currentPath) =>
      if !s.isRefreshing || s.initiator.None? then (s, [])
      else
        var error := RefreshError(result);
        var (outcomes, _) := ProcessQueue(s.queue, error, error.None?);
        var waiters := WaiterEffects(outcomes);
        if error.None? then
          (Idle, [Replay(AsRetry(s.initiator.value))] + waiters)
        else
          var nav := RedirectTarget(inBrowser, currentPath);
          (Idle, waiters
                 + (if nav.Some? then [Navigate(nav.value)] else [])
                 + [Deliver(s.initiator.value, Thrown(error.value))])
  }

  /** Every event keeps the invariant; in particular not refreshing implies an empty queue. */
  lemma StepPreservesValid(s: RefreshState, e: Event)
    requires Valid(s)
    ensures Valid(Step(s, e).0)
    ensures !Step(s, e).0.isRefreshing ==> Step(s, e).0.queue == []
  {
  }

  /** An eligible 401 during a refresh is parked and does not start a second refresh. */
  lemma QueuedWhileRefreshing(s: RefreshState, req: Request, response: Response)
    requires Valid(s) && s.isRefreshing && RefreshEligible(req, response.status)
    ensures Step(s, Responded(req, response)).0 == s.(queue := s.queue + [req])
    ensures Step(s, Responded(req, response)).1 == []
  {
  }

  /** A refresh starts only on an eligible 401 arriving while none is in flight. */
  lemma RefreshStartsOnlyWhenIdle(s: RefreshState, e: Event)
    requires Valid(s)
    ensures StartRefresh in Step(s, e).1 <==>
              e.Responded? && RefreshEligible(e.req, e.response.status) && !s.isRefreshing
  {
  }

  /** Every replay is marked `_retry`. */
  lemma ReplaysAreRetries(s: RefreshState, e: Event, x: Request)
    requires Valid(s)
    ensures Replay(x) in Step(s, e).1 ==> x.retry
  {
    var effects := Step(s, e).1;
    if Replay(x) in effects && e.RefreshSettled? && s.isRefreshing && s.initiator.Some? {
      var i :| 0 <= i < |effects| && effects[i] == Replay(x);
      var error := RefreshError(e.result);
      var (outcomes, _) := ProcessQueue(s.queue, error, error.None?);
      if error.None? && i > 0 {
        assert effects[i] == WaiterEffect(outcomes[i - 1]);
      }
    }
  }

  /**
   * A replayed request is final: whatever state it finds and whatever its
   * response, it is neither parked nor replayed, and starts no refresh.
   * Together with `ReplaysAreRetries`, each request is replayed at most once.
   */
  lemma ReplayIsFinal(s: RefreshState, x: Request, response: Response)
    requires x.retry
    ensures Step(s, Responded(x, response)) == (s, [Deliver(x, Settle(response))])
  {
  }

  /**
   * A successful refresh sends the initiator again first, then replays every
   * waiter in queue order, and returns to idle.
   */
  lemma RefreshSuccessReplaysAll(s: RefreshState, status: int, inBrowser: bool, path: string)
    requires Valid(s) && s.isRefreshing && IsOk(status)
    ensures var (t, effects) := Step(s, RefreshSettled(RefreshStatus(status), inBrowser, path));
            && t == Idle
            && |effects| == |s.queue| + 1
            && effects[0] == Replay(AsRetry(s.initiator.value))
            && (forall i :: 0 <= i < |s.queue| ==> effects[i + 1] == Replay(AsRetry(s.queue[i])))
  {
  }

  /**
   * A failed refresh rejects every waiter with the refresh error, sends the
   * browser to /login unless it is on /login, /register or /, and fails the
   * initiator with the same error; nothing is replayed.
   */
  lemma RefreshFailureRejectsAll(s: RefreshState, result: RefreshResult, inBrowser: bool, path: string)
    requires Valid(s) && s.isRefreshing && RefreshError(result).Some?
    ensures var (t, effects) := Step(s, RefreshSettled(result, inBrowser, path));
            var err := RefreshError(result).value;
            && t == Idle
            && (forall i :: 0 <= i < |s.queue| ==> effects[i] == Reject(s.queue[i], err))
            && effects[|effects| - 1] == Deliver(s.initiator.value, Thrown(err))
            && (Navigate("/login") in effects <==> RedirectTarget(inBrowser, path).Some?)
            && (forall x :: Replay(x) !in effects)
  {
    var (t, effects) := Step(s, RefreshSettled(result, inBrowser, path));
    var err := RefreshError(result).value;
    var (outcomes, _) := ProcessQueue(s.queue, Some(err), false);
    var waiters := WaiterEffects(outcomes);
    var nav := RedirectTarget(inBrowser, path);
    var navs: seq<Effect> := if nav.Some? then [Navigate(nav.value)] else [];
    assert effects == waiters + navs + [Deliver(s.initiator.value, Thrown(err))];
    forall x ensures Replay(x) !in effects {
      forall i | 0 <= i < |effects| ensures effects[i] != Replay(x) {
        if i < |waiters| { assert effects[i] == Reject(s.queue[i], err); }
      }
    }
    assert forall i :: 0 <= i < |waiters| ==> waiters[i].Reject?;
    assert Navigate("/login") !in waiters;
  }

  /** A run of events from a state; effects are concatenated in order. */
  function Run(s: RefreshState, events: seq<Event>): (RefreshState, seq<Effect>)
    decreases |events|
  {
    if |events| == 0 then (s, [])
    else
      var (t, first) := Step(s, events[0]);
      var (u, rest) := Run(t, events[1..]);
      (u, first + rest)
  }

  /** From the initial state, every reachable state keeps the invariant. */
  lemma {:induction false} RunPreservesValid(s: RefreshState, events: seq<Event>)
    requires Valid(s)
    ensures Valid(Run(s, events).0)
    decreases |events|
  {
    if |events| > 0 {
      StepPreservesValid(s, events[0]);
      RunPreservesValid(Step(s, events[0]).0, events[1..]);
    }
  }

  /** Over any run from a valid state, refreshes started and refreshes settled alternate: never two in flight. */
  lemma {:induction false} RunRefreshBalance(s: RefreshState, events: seq<Event>)
    requires Valid(s)
    ensures var (t, effects) := Run(s, events);
            Count(effects, StartRefresh) + (if s.isRefreshing then 1 else 0)
            == Settles(s, events) + (if t.isRefreshing then 1 else 0)
    decreases |events|
  {
    if |events| > 0 {
      var (t, first) := Step(s, events[0]);
      StepPreservesValid(s, events[0]);
      RunRefreshBalance(t, events[1..]);
      var (u, rest) := Run(t, events[1..]);
      CountConcat(first, rest, StartRefresh);
      StepStartCount(s, events[0]);
    }
  }

  /** How many events of a run settle an in-flight refresh. */
  function Settles(s: RefreshState, events: seq<Event>): nat
    decreases |events|
  {
    if |events| == 0 then 0
    else
      (if events[0].RefreshSettled? && s.isRefreshing then 1 else 0)
      + Settles(Step(s, events[0]).0, events[1..])
  }

  function Count(effects: seq<Effect>, x: Effect): nat {
    if |effects| == 0 then 0 else (if effects[0] == x then 1 else 0) + Count(effects[1..], x)
  }

  lemma {:induction false} CountConcat(a: seq<Effect>, b: seq<Effect>, x: Effect)
    ensures Count(a + b, x) == Count(a, x) + Count(b, x)
  {
    if |a| == 0 {
      assert a + b == b;
    } else {
      assert (a + b)[1..] == a[1..] + b;
      CountConcat(a[1..], b, x);
    }
  }

  lemma CountAbsent(a: seq<Effect>, x: Effect)
    requires x !in a
    ensures Count(a, x) == 0
  {
  }

  /** One step starts a refresh exactly when it leaves idle for refreshing. */
  lemma StepStartCount(s: RefreshState, e: Event)
    requires Valid(s)
    ensures var (t, effects) := Step(s, e);
            Count(effects, StartRefresh) == (if !s.isRefreshing && t.isRefreshing then 1 else 0)
            && (s.isRefreshing && !t.isRefreshing <==> e.RefreshSettled? && s.isRefreshing)
  {
    var (t, effects) := Step(s, e);
    if !(!s.isRefreshing && t.isRefreshing) {
      RefreshStartsOnlyWhenIdle(s, e);
      CountAbsent(effects, StartRefresh);
    }
  }
}
