// Stand-ins for the third-party collaborators of the request pipeline: the
// TLS socket (`WiFiClient`, of which `BearSSL::WiFiClientSecure` is one) and
// the HTTP protocol session (`HTTPClient`). Their internals are not part of
// this model; each operation is reduced to the observable contract the
// pipeline relies on, and every answer the library could give is either
// chosen nondeterministically or supplied by the caller as an oracle value.
module Transport {
  import opened Machine

  /** The TLS socket: bytes received and not yet consumed, bytes written. */
  class WiFiClient {
    var incoming: seq<byte>
    var outgoing: seq<byte>

    constructor (incoming: seq<byte>)
      ensures this.incoming == incoming && outgoing == []
    {
      this.incoming := incoming;
      outgoing := [];
    }

    /**
     * `readBytes(buffer, length)`: delivers some prefix of the pending bytes,
     * at most `length` of them (the socket may time out with fewer, or none).
     */
    method ReadBytes(buffer: array<byte>, length: size_t) returns (n: size_t)
      requires length as int <= buffer.Length
      modifies this, buffer
      ensures n <= length && n as int <= |old(incoming)|
      ensures buffer[..n] == old(incoming)[..n]
      ensures buffer[n..] == old(buffer[n..])
      ensures incoming == old(incoming)[n..] && outgoing == old(outgoing)
    {
      var most := if length as int <= |incoming| then length else |incoming| as size_t;
      n :| 0 <= n <= most;
      forall i | 0 <= i < n as int {
        buffer[i] := incoming[i];
      }
      incoming := incoming[n..];
    }

    /** `read()`: the next byte, consumed, or -1 when none is pending. */
    method Read() returns (r: int32)
      modifies this
      ensures old(incoming) == [] ==> r == -1 && incoming == []
      ensures old(incoming) != [] ==> r as int == old(incoming)[0] as int && incoming == old(incoming)[1..]
      ensures outgoing == old(outgoing)
    {
      if incoming == [] {
        r := -1;
      } else {
        r := incoming[0] as int32;
        incoming := incoming[1..];
      }
    }

    /** `peek()`: the next byte, left pending, or -1 when none is pending. */
    function Peek(): (r: int32)
      reads this
      ensures r == -1 <==> incoming == []
      ensures incoming != [] ==> r as int == incoming[0] as int
    {
      if incoming == [] then -1 else incoming[0] as int32
    }

    /**
     * `write(b)`: reports how many bytes it queued, 1 or 0 (the socket may
     * refuse the byte); only a queued byte joins the outgoing stream.
     */
    method Write(b: byte) returns (n: size_t)
      modifies this
      ensures n <= 1
      ensures outgoing == (if n == 1 then old(outgoing) + [b] else old(outgoing))
      ensures incoming == old(incoming)
    {
      n :| 0 <= n <= 1;
      if n == 1 {
        outgoing := outgoing + [b];
      }
    }
  }

  /**
   * The HTTP session over one socket. What the protocol layer answers
   * (whether `begin` succeeds, the status code, the advertised length)
   * is passed in by the caller of each operation.
   */
  class HTTPClient {
    var url: string
    var headers: seq<(string, string)>
    var verb: string
    var body: string
    /** `connected()`: whether the session's socket is still open */
    var connected: bool
    /** `getSize()`: the advertised Content-Length, -1 when unknown */
    var size: int32

    constructor ()
      ensures url == [] && headers == [] && verb == [] && body == []
      ensures !connected && size == -1
    {
      url, headers, verb, body := [], [], [], [];
      connected, size := false, -1;
    }

    /** `begin(client, url)`: opens the session; `accepted` is the library's answer. */
    method Begin(url: string, accepted: bool) returns (ok: bool)
      modifies this
      ensures ok == accepted && this.url == url && connected == accepted
      ensures headers == old(headers) && verb == old(verb) && body == old(body)
      ensures size == old(size)
    {
      this.url := url;
      connected := accepted;
      ok := accepted;
    }

    /** `addHeader(name, value)`: appends one header line to the request. */
    method AddHeader(name: string, value: string)
      modifies this
      ensures headers == old(headers) + [(name, value)]
      ensures url == old(url) && verb == old(verb) && body == old(body)
      ensures connected == old(connected) && size == old(size)
    {
      headers := headers + [(name, value)];
    }

    /**
     * `sendRequest(method, body)`: sends the request; `code` is the status
     * the library returns (negative on a transport error) and
     * `contentLength` what it then reports through `getSize()`.
     */
    method SendRequest(verb: string, body: string, code: int32, contentLength: int32) returns (httpCode: int32)
      modifies this
      ensures httpCode == code
      ensures this.verb == verb && this.body == body && size == contentLength
      ensures url == old(url) && headers == old(headers) && connected == old(connected)
    {
      this.verb, this.body := verb, body;
      size := contentLength;
      httpCode := code;
    }

    /** `end()`: closes the session and its socket. */
    method End()
      modifies this
      ensures !connected
      ensures url == old(url) && headers == old(headers) && verb == old(verb)
      ensures body == old(body) && size == old(size)
    {
      connected := false;
    }
  }
}
