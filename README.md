# HTTPSClient request pipeline, modelled in Dafny

This project models the core of `src/HTTPSClient.hpp` from an ESP8266
support library: an HTTPS client that connects to WiFi, waits until the
wall clock is plausible (TLS certificate checks need it), runs one HTTP
exchange over a TLS socket and hands exactly one `Response` to the
caller's continuation, with the response body exposed as a `BodyStream`
that counts down the advertised content length.

Modules, one per component:

- `Machine` (`machine.dfy`): the 32-bit `int`, `size_t` and `uint8_t` of
  the target, the wrap-around conversions between them, and `strcpy` /
  `strcat` over `char` arrays.
- `Wrappers` (`wrappers.dfy`): `Option`.
- `Transport` (`transport.dfy`): stand-ins for the TLS socket
  (`WiFiClient`) and the HTTP session (`HTTPClient`). They are library
  code; only the answers the pipeline relies on are modelled, as
  nondeterministic choices or caller-supplied values.
- `BodyStreams` (`body_stream.dfy`): `BodyStream` as a class with its
  `bytesLeft` counter, plus the accounting of a sequence of `readBytes`
  calls as functions and lemmas. A ghost history of the calls and the
  advertised length tie the class to those lemmas through `Valid()`.
- `Requests` (`request.dfy`): the `Request` record and the fluent
  `RequestBuilder` class; setter chains as functions, with lemmas on
  method preservation, last-write-wins, commutation and order
  independence.
- `HTTPSClient` (`https_client.dfy`): `readMethod`, the URL buffer, the
  clock stage, the state machine `Idle → Connecting → SyncingClock →
  Exchanging → Delivered`, the exchange stage and `sendRequest`. The
  collaborators' answers come in as one `Env` value. It holds the WiFi
  status, the polled times, the timeout flag, `begin`'s result, the status
  code and its error text, the advertised length and the waiting body bytes.

Behaviour of the code that the model keeps as it is:

- On a failed exchange (`httpCode <= 0`), the code passes the library's
  own code through in `statusCode`; it is not normalised to -1.
- The builder never initialises the `const char *` fields `baseUrl`,
  `path` and `body`; they do not default to empty text. The model keeps
  them as `Option<string>`, with `None` for "never set". The exchange
  stage requires them to be set, because reading an unset field is
  undefined behaviour in the code.
- With an unknown length, `bytesLeft` stays at -1, and `available()`
  returns -1 while connected; the counter is negative in that case.
- With an unknown length, `readBytes` asks the socket for the caller's
  whole `length`, because `(size_t)-1` is `SIZE_MAX`. It does not ask for
  `min(bytesLeft, length)`.

## Model

| member | source | states |
|---|---|---|
| `Machine.ToSizeT` | src/HTTPSClient.hpp:31 | `(size_t)bytesLeft` keeps non-negative values and wraps negative ones to value + 2^32 |
| `Machine.ToInt32` | src/HTTPSClient.hpp:30 | `int bytesRead = <size_t>` keeps values up to INT_MAX, and converting back to `size_t` gives the original count |
| `Machine.StrCpy` | src/HTTPSClient.hpp:144 | `strcpy` leaves the source text and a terminator at the front of the buffer and the rest untouched |
| `Machine.StrCat` | src/HTTPSClient.hpp:145 | `strcat` finds the terminator of the held text and appends the source text and a new terminator after it |
| `BodyStreams.RequestSize` | src/HTTPSClient.hpp:30-31 | the socket is asked for at most `length` bytes, and for at most `bytesLeft` when the length is known; with length -1, or any negative length and `length < 2^31`, it is asked for exactly `length` |
| `BodyStreams.KnownLengthAccounting` | src/HTTPSClient.hpp:25-38 | over any possible sequence of `readBytes` calls from a known length, the counter equals the length minus the bytes delivered and never goes below 0 |
| `BodyStreams.ExhaustionDeliversLength` | src/HTTPSClient.hpp:25-38 | the reads never deliver more than the advertised length, and the counter reaches 0 exactly when they have delivered all of it |
| `BodyStreams.ExhaustedStaysEmpty` | src/HTTPSClient.hpp:26-28 | once the counter is 0, every further `readBytes` returns 0 |
| `BodyStreams.UnknownLengthUntouched` | src/HTTPSClient.hpp:33-35 | with a negative (unknown) length the counter is never changed by any read |
| `BodyStreams.BodyStream.constructor` | src/HTTPSClient.hpp:10-14 | the stream keeps its socket and session and starts its counter at the session's `getSize()` |
| `BodyStreams.BodyStream.Accounting` | src/HTTPSClient.hpp:10-38 | for a live stream with a known length, `bytesLeft` is the advertised length minus everything `readBytes` has returned, and it is 0 exactly when the whole body has been read |
| `BodyStreams.BodyStream.Available` | src/HTTPSClient.hpp:17-23 | 0 when the session is disconnected, whatever the counter; otherwise the counter. It reads state and changes none, so repeated calls agree |
| `BodyStreams.BodyStream.ReadBytes` | src/HTTPSClient.hpp:25-38 | with a 0 counter, returns 0 and touches neither socket nor buffer; otherwise returns at most `RequestSize` bytes, which are the socket's next bytes, copied to the front of the buffer; a known length is decreased by the count, an unknown one is left alone; the read is appended to the history |
| `BodyStreams.BodyStream.Read` | src/HTTPSClient.hpp:41 | takes the socket's next byte, or gives -1 when none is waiting; `bytesLeft` is unchanged |
| `BodyStreams.BodyStream.Peek` | src/HTTPSClient.hpp:42 | gives the socket's next byte without consuming it, or -1 when none is waiting |
| `BodyStreams.BodyStream.Write` | src/HTTPSClient.hpp:40 | passes one byte to the socket and returns the socket's own count (0 or 1); the byte joins the outgoing stream exactly when the count is 1; `bytesLeft` and the incoming bytes are unchanged |
| `Requests.Seeded` | src/HTTPSClient.hpp:75 | a fresh builder holds the given method, no text field set and no headers |
| `Requests.ChainKeepsMethod` | src/HTTPSClient.hpp:79-98 | no chain of setter calls changes the method chosen at construction |
| `Requests.SetWritesOneField` | src/HTTPSClient.hpp:79-98 | field by field: the setter's own field holds the new value (`Some` of the text, or the new header list), each of the other three fields and the method keep their previous values |
| `Requests.LastWriteWins` | src/HTTPSClient.hpp:79-98 | two writes to the same field leave the second value |
| `Requests.DistinctSettersCommute` | src/HTTPSClient.hpp:79-98 | setters on different fields can be swapped without changing the result |
| `Requests.ChainIsLastWrites` | src/HTTPSClient.hpp:79-98 | a chain of setters gives the seeded request with, for each field, the last value written to it |
| `Requests.SameLastWritesSameRequest` | src/HTTPSClient.hpp:79-98 | two chains with the same last write to each field build the same request, however they interleave |
| `Requests.RequestBuilder.constructor` | src/HTTPSClient.hpp:104-106 | `Request::build(m)` gives a builder holding `Seeded(m)` |
| `Requests.RequestBuilder.BaseUrl` | src/HTTPSClient.hpp:79-82 | overwrites `baseUrl` only and returns the same builder |
| `Requests.RequestBuilder.Path` | src/HTTPSClient.hpp:84-87 | overwrites `path` only and returns the same builder |
| `Requests.RequestBuilder.Body` | src/HTTPSClient.hpp:89-92 | overwrites `body` only and returns the same builder |
| `Requests.RequestBuilder.Headers` | src/HTTPSClient.hpp:94-98 | replaces the header list only and returns the same builder |
| `Requests.RequestBuilder.Build` | src/HTTPSClient.hpp:77 | the conversion hands over the request the builder holds |
| `HTTPSClient.MethodNameRoundTrip` | src/HTTPSClient.hpp:212-241 | each method's name is a NUL-free, non-empty string that fits the 10-byte buffer with its terminator, and it parses back to that method, so no two methods share a name |
| `HTTPSClient.ParseMethodRoundTrip` | src/HTTPSClient.hpp:212-241 | every string that parses as a method is exactly that method's name |
| `HTTPSClient.ReadMethod` | src/HTTPSClient.hpp:148-149 | the 10-byte buffer holds the method's name as a C string, and that name parses back to the method |
| `HTTPSClient.BuildUrl` | src/HTTPSClient.hpp:142-145 | the buffer is exactly `|baseUrl| + |path| + 1` long and holds `baseUrl` followed directly by `path`, then a terminator, with nothing inserted or removed |
| `HTTPSClient.ClockOutcome` | src/HTTPSClient.hpp:194-209 | success exactly when some polled time is at least 57600; failure exactly when none is and the deadline passes; no callback otherwise |
| `HTTPSClient.SetClock` | src/HTTPSClient.hpp:188-210 | the callback fires at most once, with `true` exactly on success and `false` exactly on timeout; polling stops at the first plausible time, and every earlier poll was implausible |
| `HTTPSClient.ExchangeReply` | src/HTTPSClient.hpp:147-182 | "unable to connect" with -1 when `begin` fails; otherwise the raw status code, with a body exactly when it is positive and the library's error text exactly when it is not |
| `HTTPSClient.Expected` | src/HTTPSClient.hpp:122-185 | a response is delivered unless the clock stage is still polling; it holds an error text or a body, never both; a body comes exactly with a positive status; local failures report -1; a failed exchange keeps the library's code |
| `HTTPSClient.Stages` | src/HTTPSClient.hpp:122-185 | the stages start at `Idle` and follow the transition table; they end in `Delivered` exactly when a response is delivered, and otherwise stop in `SyncingClock`; clock sync starts only after a WiFi connection, and the exchange only after a plausible clock |
| `HTTPSClient.DeliveredOnlyLast` | src/HTTPSClient.hpp:122-185 | in any walk of the transition table, `Delivered` can only be the last stage, so the continuation never fires twice |
| `HTTPSClient.AddHeaders` | src/HTTPSClient.hpp:154-156 | the headers are added in list order, duplicates included; nothing else in the session changes |
| `HTTPSClient.Exchange` | src/HTTPSClient.hpp:135-182 | the delivered response has the shape `ExchangeReply` gives; a request is sent exactly when `begin` succeeds, with URL `baseUrl + path`, the method's name, the request's headers in order and its body; a body stream starts at the advertised length over the socket's waiting bytes, and reports 0 available once the exchange has ended the session; that stream is newly allocated over a new socket, satisfies its accounting invariant, has advertised length `contentLength` and no reads yet |
| `HTTPSClient.SendRequest` | src/HTTPSClient.hpp:122-185 | the continuation's invocations are exactly `Expected`: one response on every path, or none while the clock is still polling; the stages are `Stages`; a request is sent only after connect, clock and `begin` all succeed; a delivered body stream is new, over a new socket holding the received bytes, satisfies its accounting invariant with advertised length `contentLength` and no reads, and reports 0 available |

## Left out

- `readString()` (src/HTTPSClient.hpp:44) is an unbounded pass-through to the socket with no accounting, so it is not modelled.
- The `HTTPSClient` constructor (src/HTTPSClient.hpp:116-120) only stores the addresses of its collaborators. The collaborators' answers are modelled as the `Env` argument instead.
- `Serial` logging, `gmtime_r` and `asctime` are output only. `configTime` starts NTP in the background, and is modelled only through the times the polls observe.
- `HTTPSClient.SetClock`: the deadline arithmetic of the scheduler (`Timer::setOnLoopUntil`, not part of this model) is not modelled. The `timeoutMs` argument and its default of 60000 ms are replaced by a flag saying whether the deadline passes after the observed polls.
- `HTTPSClient.SendRequest`: a WiFi connect whose callback never fires is not modelled. The callback is assumed to arrive, with some status.
- `HTTPSClient.SendRequest`: the continuation is modelled by the list of responses it receives. Its effects on the caller are not modelled, and neither is reading the body from inside the continuation.
- Borrowed request text: `baseUrl`, `path`, `body` and the header names and values are `const char *` members that borrow the caller's buffers (src/HTTPSClient.hpp:66-70, 79-91). The stage callbacks copy the `Request` struct but not the text, and the exchange reads the text after the asynchronous connect and clock stages. The model holds the text as values, so it cannot show a caller's buffer being changed or freed before the exchange runs.
- Lifetimes: the body stream points at a session and socket on the exchange's stack, and the error text is `c_str()` of a temporary `String`. Dafny objects do not dangle. The model states only that the session is ended, and the stream reports nothing available, once the exchange returns.
- BearSSL's `WiFiClientSecure`, the certificate store (`setCertStore`) and `HTTPClient` are library code. `Transport` keeps only the results the pipeline uses. For example, `readBytes` returns any prefix of the waiting bytes up to the requested count.
- `readMethod`'s `default` branch also catches enum values outside the seven names. Those values cannot occur in the Dafny datatype, so only `HTTP_GET` reaches it.
- `nullptr` arguments passed to the builder's setters, and the moved-from state of a builder after its conversion to `Request`, are not modelled.
- Header names and values pass to `addHeader` as they are. The library's own handling of particular headers is not modelled.
