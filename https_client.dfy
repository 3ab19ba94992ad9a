// The request pipeline of `HTTPSClient`: connect to the network, wait for a
// plausible wall clock, run the HTTP exchange over TLS and hand exactly one
// `Response` to the caller's continuation.
//
// The collaborators are replaced by what they answer. The network manager's
// callback argument, the times the scheduler's polls observe, whether the
// clock deadline passes, whether `begin` opens the session, the status code,
// its error text, the advertised length and the body bytes all come in as
// one `Env` value.
module HTTPSClient {
  import opened Machine
  import opened Wrappers
  import opened Transport
  import opened BodyStreams
  import opened Requests

  // ---------------------------------------------------------------------
  // The method name
  // ---------------------------------------------------------------------

  /** Size of the `char method[10]` buffer `readMethod` writes into. */
  const METHOD_BUFFER_SIZE: nat := 10

  /** The protocol-level name `readMethod` writes for each method. */
  function MethodName(m: HTTPMethod): (name: string)
  {
    match m
    case HTTP_OPTIONS => "OPTIONS"
    case HTTP_DELETE => "DELETE"
    case HTTP_PATCH => "PATCH"
    case HTTP_PUT => "PUT"
    case HTTP_POST => "POST"
    case HTTP_HEAD => "HEAD"
    case HTTP_GET => "GET"
  }

  /** The method a protocol-level name stands for, if any. */
  function ParseMethod(name: string): (m: Option<HTTPMethod>)
  {
    if name == "OPTIONS" then Some(HTTP_OPTIONS)
    else if name == "DELETE" then Some(HTTP_DELETE)
    else if name == "PATCH" then Some(HTTP_PATCH)
    else if name == "PUT" then Some(HTTP_PUT)
    else if name == "POST" then Some(HTTP_POST)
    else if name == "HEAD" then Some(HTTP_HEAD)
    else if name == "GET" then Some(HTTP_GET)
    else None
  }

  /**
   * Every name is a non-empty C string that fits the 10-byte buffer with
   * its terminator, and names the method it was made from: distinct
   * methods get distinct names.
   */
  lemma MethodNameRoundTrip(m: HTTPMethod)
    ensures NulFree(MethodName(m)) && 0 < |MethodName(m)| && |MethodName(m)| + 1 <= METHOD_BUFFER_SIZE
    ensures ParseMethod(MethodName(m)) == Some(m)
  {
  }

  /** A name parses exactly when it is one of the seven names. */
  lemma ParseMethodRoundTrip(name: string)
    ensures ParseMethod(name).Some? ==> MethodName(ParseMethod(name).value) == name
  {
  }

  /** `readMethod(method, methodValue)`: `strcpy` of the method's name. */
  method ReadMethod(m: HTTPMethod, methodValue: array<char>)
    requires methodValue.Length == METHOD_BUFFER_SIZE
    modifies methodValue
    ensures HoldsCString(methodValue, MethodName(m))
    ensures ParseMethod(methodValue[..|MethodName(m)|]) == Some(m)
  {
    MethodNameRoundTrip(m);
    match m
    case HTTP_OPTIONS => StrCpy(methodValue, "OPTIONS");
    case HTTP_DELETE => StrCpy(methodValue, "DELETE");
    case HTTP_PATCH => StrCpy(methodValue, "PATCH");
    case HTTP_PUT => StrCpy(methodValue, "PUT");
    case HTTP_POST => StrCpy(methodValue, "POST");
    case HTTP_HEAD => StrCpy(methodValue, "HEAD");
    case HTTP_GET => StrCpy(methodValue, "GET");
  }

  // ---------------------------------------------------------------------
  // The URL
  // ---------------------------------------------------------------------

  /**
   * Sizes a buffer for both strings and a terminator, copies the base URL
   * into it, then appends the path: the two are joined as they are, with
   * no separator added or removed, in a buffer that exactly fits them.
   */
  method BuildUrl(baseUrl: string, path: string) returns (url: array<char>)
    requires NulFree(baseUrl) && NulFree(path)
    ensures url.Length == |baseUrl| + |path| + 1
    ensures HoldsCString(url, baseUrl + path)
    ensures url[..|baseUrl|] == baseUrl && url[|baseUrl|..|baseUrl| + |path|] == path
  {
    url := new char[|baseUrl| + |path| + 1];
    StrCpy(url, baseUrl);
    StrCat(url, baseUrl, path);
    assert url[..|baseUrl| + |path|][..|baseUrl|] == baseUrl;
    assert url[..|baseUrl| + |path|][|baseUrl|..] == path;
  }

  // ---------------------------------------------------------------------
  // The clock
  // ---------------------------------------------------------------------

  /** The sanity threshold: twice the seconds in eight hours. */
  const CLOCK_THRESHOLD: int := 8 * 3600 * 2

  /** The poll predicate's test on `time(nullptr)`. */
  predicate ClockPlausible(now: int)
  {
    now >= CLOCK_THRESHOLD
  }

  /**
   * What `setClock` reports through its callback, given the times its polls
   * observe before the deadline and whether the deadline then passes:
   * success, failure, or no call yet (still polling).
   */
  function ClockOutcome(polls: seq<int>, timedOut: bool): (r: Option<bool>)
    ensures r == Some(true) <==> exists i :: 0 <= i < |polls| && polls[i] >= 57600
    ensures r == Some(false) <==> timedOut && forall i :: 0 <= i < |polls| ==> polls[i] < 57600
  {
    if exists i :: 0 <= i < |polls| && ClockPlausible(polls[i]) then Some(true)
    else if timedOut then Some(false)
    else None
  }

  /**
   * `setClock(onClockSet)`: the scheduler evaluates the poll predicate on
   * each observed time until it holds, then calls `onClockSet(true)`; if
   * none holds and the deadline passes it calls `onClockSet(false)`.
   * `calls` lists the callback's invocations and `ticks` the number of
   * polls that found the clock implausible.
   */
  method SetClock(polls: seq<int>, timedOut: bool) returns (calls: seq<bool>, ticks: nat)
    ensures |calls| <= 1
    ensures calls == [true] <==> ClockOutcome(polls, timedOut) == Some(true)
    ensures calls == [false] <==> ClockOutcome(polls, timedOut) == Some(false)
    ensures calls == [true] ==> ticks < |polls| && ClockPlausible(polls[ticks])
    ensures forall i :: 0 <= i < ticks && i < |polls| ==> !ClockPlausible(polls[i])
  {
    calls, ticks := [], 0;
    var done := false;
    while ticks < |polls| && !done
      invariant ticks <= |polls|
      invariant forall i :: 0 <= i < ticks ==> !ClockPlausible(polls[i])
      invariant done ==> ticks < |polls| && ClockPlausible(polls[ticks]) && calls == [true]
      invariant !done ==> calls == []
      decreases |polls| - ticks, !done
    {
      if ClockPlausible(polls[ticks]) {
        calls := calls + [true];
        done := true;
      } else {
        ticks := ticks + 1;
      }
    }
    if done {
      assert ClockPlausible(polls[ticks]);
    } else if timedOut {
      calls := calls + [false];
      assert calls[0] != [true][0];
    }
  }

  // ---------------------------------------------------------------------
  // The response and the exchange
  // ---------------------------------------------------------------------

  /** `wl_status_t`, the network manager's report; only `WL_CONNECTED` lets the request through. */
  datatype WlStatus =
    | WL_NO_SHIELD
    | WL_IDLE_STATUS
    | WL_NO_SSID_AVAIL
    | WL_SCAN_COMPLETED
    | WL_CONNECTED
    | WL_CONNECT_FAILED
    | WL_CONNECTION_LOST
    | WL_WRONG_PASSWORD
    | WL_DISCONNECTED

  /** `Response`: an error text or nothing, a status code, a body stream or nothing. */
  datatype Response = Response(error: Option<string>, statusCode: int32, body: Option<BodyStream>)

  /** A response's shape: the body reduced to whether it is there. */
  datatype Reply = Reply(error: Option<string>, statusCode: int32, hasBody: bool)

  function ShapeOf(r: Response): Reply
  {
    Reply(r.error, r.statusCode, r.body.Some?)
  }

  function Shapes(rs: seq<Response>): (ss: seq<Reply>)
    ensures |ss| == |rs|
    decreases |rs|
  {
    if rs == [] then [] else [ShapeOf(rs[0])] + Shapes(rs[1..])
  }

  const NO_WIFI: string := "could not connect to WiFi"
  const NO_TIME: string := "could not synchronize the time"
  const NO_SESSION: string := "unable to connect"

  /** What each collaborator answers during one `sendRequest`. */
  datatype Env = Env(
    status: WlStatus,        // argument of the network manager's callback
    polls: seq<int>,         // `time(nullptr)` at each poll before the deadline
    timedOut: bool,          // whether the clock deadline then passes
    beginOk: bool,           // result of `http.begin(client, url)`
    httpCode: int32,         // result of `http.sendRequest(method, body)`
    errorText: string,       // `http.errorToString(httpCode)`
    contentLength: int32,    // `http.getSize()`, -1 when unknown
    received: seq<byte>)     // body bytes waiting on the socket

  /** The exchange stage runs: connected, and the clock found plausible. */
  predicate ReachesExchange(env: Env)
  {
    env.status == WL_CONNECTED && ClockOutcome(env.polls, env.timedOut) == Some(true)
  }

  /**
   * The response of the exchange stage: "unable to connect" when the
   * session does not open; otherwise the body with a positive status, or
   * the library's error text with its own non-positive code, unchanged.
   */
  function ExchangeReply(env: Env): (r: Reply)
    ensures r.error.Some? <==> !r.hasBody
    ensures r.hasBody <==> r.statusCode > 0
    ensures env.beginOk ==> r.statusCode == env.httpCode
    ensures env.beginOk && env.httpCode <= 0 ==> r.error == Some(env.errorText)
    ensures !env.beginOk ==> r == Reply(Some(NO_SESSION), -1, false)
  {
    if !env.beginOk then Reply(Some(NO_SESSION), -1, false)
    else if env.httpCode > 0 then Reply(None, env.httpCode, true)
    else Reply(Some(env.errorText), env.httpCode, false)
  }

  /**
   * The response `sendRequest` delivers, or `None` while the clock stage is
   * still polling. Every completed run delivers exactly one response, and it
   * holds an error text or a body, never both and never neither; a body
   * comes only with a positive status, a local failure reports -1, and a
   * failed exchange passes the library's own code through unchanged.
   */
  function Expected(env: Env): (r: Option<Reply>)
    ensures r.None? <==> env.status == WL_CONNECTED && ClockOutcome(env.polls, env.timedOut).None?
    ensures r.Some? ==> (r.value.error.Some? <==> !r.value.hasBody)
    ensures r.Some? ==> (r.value.hasBody <==> r.value.statusCode > 0)
    ensures r.Some? && !ReachesExchange(env) ==> r.value.statusCode == -1
    ensures r.Some? && r.value.hasBody ==> r.value.statusCode == env.httpCode
    ensures ReachesExchange(env) && env.beginOk ==> r.Some? && r.value.statusCode == env.httpCode
    ensures ReachesExchange(env) && !env.beginOk ==> r == Some(Reply(Some(NO_SESSION), -1, false))
  {
    if env.status != WL_CONNECTED then
      Some(Reply(Some(NO_WIFI), -1, false))
    else
      match ClockOutcome(env.polls, env.timedOut)
      case None => None
      case Some(synced) =>
        if !synced then Some(Reply(Some(NO_TIME), -1, false))
        else Some(ExchangeReply(env))
  }

  /** The stages of the request's state machine. */
  datatype Stage = Idle | Connecting | SyncingClock | Exchanging | Delivered

  /** One row of the transition table. */
  predicate Step(env: Env, from: Stage, to: Stage)
  {
    match from
    case Idle => to == Connecting
    case Connecting =>
      if env.status == WL_CONNECTED then to == SyncingClock else to == Delivered
    case SyncingClock =>
      (ClockOutcome(env.polls, env.timedOut) == Some(true) && to == Exchanging) ||
      (ClockOutcome(env.polls, env.timedOut) == Some(false) && to == Delivered)
    case Exchanging => to == Delivered
    case Delivered => false
  }

  /**
   * The stages one `sendRequest` passes through. The walk starts idle,
   * follows the transition table, and ends delivered exactly when a
   * response is delivered; otherwise it stops in the clock stage.
   */
  function Stages(env: Env): (w: seq<Stage>)
    ensures 2 <= |w| && w[0] == Idle
    ensures forall i :: 0 < i < |w| ==> Step(env, w[i - 1], w[i])
    ensures w[|w| - 1] == Delivered <==> Expected(env).Some?
    ensures w[|w| - 1] != Delivered ==> w[|w| - 1] == SyncingClock
    ensures Exchanging in w <==> ReachesExchange(env)
    ensures SyncingClock in w <==> env.status == WL_CONNECTED
  {
    if env.status != WL_CONNECTED then [Idle, Connecting, Delivered]
    else
      match ClockOutcome(env.polls, env.timedOut)
      case None => [Idle, Connecting, SyncingClock]
      case Some(synced) =>
        if synced then [Idle, Connecting, SyncingClock, Exchanging, Delivered]
        else [Idle, Connecting, SyncingClock, Delivered]
  }

  /**
   * `Delivered` is terminal: in any walk of the transition table it can
   * only be the last stage, so the continuation runs at most once.
   */
  lemma DeliveredOnlyLast(env: Env, w: seq<Stage>)
    requires forall k :: 0 < k < |w| ==> Step(env, w[k - 1], w[k])
    ensures forall k :: 0 <= k < |w| - 1 ==> w[k] != Delivered
  {
    forall k | 0 <= k < |w| - 1
      ensures w[k] != Delivered
    {
      assert Step(env, w[k], w[k + 1]);
    }
  }

  /** A request as the exchange stage reads it: every text field set, URL parts NUL-free. */
  predicate Ready(request: Request)
  {
    request.baseUrl.Some? && request.path.Some? && request.body.Some? &&
    NulFree(request.baseUrl.value) && NulFree(request.path.value)
  }

  /** What went over the wire: the URL `begin` opened, then the method, headers and body sent. */
  datatype Sent = Sent(url: string, verb: string, headers: seq<Header>, body: string)

  /** Adds each of the request's headers to the session, in list order. */
  method AddHeaders(http: HTTPClient, headers: seq<Header>)
    modifies http
    ensures http.headers == old(http.headers) + headers
    ensures http.url == old(http.url) && http.verb == old(http.verb) && http.body == old(http.body)
    ensures http.connected == old(http.connected) && http.size == old(http.size)
  {
    for i := 0 to |headers|
      invariant http.headers == old(http.headers) + headers[..i]
      invariant http.url == old(http.url) && http.verb == old(http.verb) && http.body == old(http.body)
      invariant http.connected == old(http.connected) && http.size == old(http.size)
    {
      http.AddHeader(headers[i].0, headers[i].1);
      assert headers[..i + 1] == headers[..i] + [headers[i]];
    }
    assert headers[..|headers|] == headers;
  }

  /**
   * The exchange stage, run once the clock is plausible: build the URL,
   * open the session, send method, headers and body, deliver the response
   * and end the session. A body stream counts down the advertised length
   * over the socket's waiting bytes; the session is closed when the stage
   * returns, so the stream then reports nothing available.
   */
  method Exchange(request: Request, env: Env) returns (response: Response, sent: Option<Sent>)
    requires Ready(request)
    ensures ShapeOf(response) == ExchangeReply(env)
    ensures sent.Some? <==> env.beginOk
    ensures sent.Some? ==>
      sent.value.url == request.baseUrl.value + request.path.value &&
      sent.value.verb == MethodName(request.verb) &&
      sent.value.headers == request.headers &&
      sent.value.body == request.body.value
    ensures response.body.Some? ==>
      fresh(response.body.value) && fresh(response.body.value.wifiClient) &&
      response.body.value.Valid() &&
      response.body.value.advertised == env.contentLength &&
      response.body.value.history == [] &&
      response.body.value.bytesLeft == env.contentLength &&
      response.body.value.wifiClient.incoming == env.received &&
      response.body.value.Available() == 0
  {
    var client := new WiFiClient(env.received);
    var http := new HTTPClient();
    var baseUrl, path := request.baseUrl.value, request.path.value;
    var url := BuildUrl(baseUrl, path);
    var begun := http.Begin(url[..|baseUrl| + |path|], env.beginOk);
    if begun {
      var methodValue := new char[METHOD_BUFFER_SIZE];
      ReadMethod(request.verb, methodValue);
      var verb := methodValue[..|MethodName(request.verb)|];
      AddHeaders(http, request.headers);
      var httpCode := http.SendRequest(verb, request.body.value, env.httpCode, env.contentLength);
      if httpCode > 0 {
        var body := new BodyStream(client, http);
        response := Response(None, httpCode, Some(body));
      } else {
        response := Response(Some(env.errorText), httpCode, None);
      }
      sent := Some(Sent(http.url, http.verb, http.headers, http.body));
      // end the session
      http.End();
    } else {
      response := Response(Some(NO_SESSION), -1, None);
      sent := None;
    }
  }

  /**
   * `HTTPSClient::sendRequest(request, onResponse)`. `delivered` lists the
   * continuation's invocations, `stages` the states passed through and
   * `sent` what the session transmitted.
   */
  method SendRequest(request: Request, env: Env) returns (delivered: seq<Response>, stages: seq<Stage>, sent: Option<Sent>)
    requires ReachesExchange(env) ==> Ready(request)
    ensures Shapes(delivered) == if Expected(env).Some? then [Expected(env).value] else []
    ensures stages == Stages(env)
    ensures sent.Some? <==> ReachesExchange(env) && env.beginOk
    ensures sent.Some? ==>
      sent.value.url == request.baseUrl.value + request.path.value &&
      sent.value.verb == MethodName(request.verb) &&
      sent.value.headers == request.headers &&
      sent.value.body == request.body.value
    ensures forall r :: r in delivered && r.body.Some? ==>
      fresh(r.body.value) && fresh(r.body.value.wifiClient) &&
      r.body.value.Valid() &&
      r.body.value.advertised == env.contentLength &&
      r.body.value.history == [] &&
      r.body.value.bytesLeft == env.contentLength &&
      r.body.value.wifiClient.incoming == env.received &&
      r.body.value.Available() == 0
  {
    delivered, stages, sent := [], [Idle, Connecting], None;
    // wifiManager->connect(...): its callback receives env.status
    if env.status != WL_CONNECTED {
      delivered := [Response(Some(NO_WIFI), -1, None)];
      stages := stages + [Delivered];
      return;
    }
    stages := stages + [SyncingClock];
    var clockCalls, _ := SetClock(env.polls, env.timedOut);
    if clockCalls == [] {
      // still polling: the continuation has not been called
      return;
    }
    if !clockCalls[0] {
      delivered := [Response(Some(NO_TIME), -1, None)];
      stages := stages + [Delivered];
      return;
    }
    stages := stages + [Exchanging];
    var response;
    response, sent := Exchange(request, env);
    delivered := [response];
    stages := stages + [Delivered];
  }
}
