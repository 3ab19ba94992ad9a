// The response body reader: a byte stream over the live socket that counts
// down the advertised content length as `readBytes` consumes it.
module BodyStreams {
  import opened Machine
  import opened Transport

  /**
   * How many bytes `readBytes` asks the socket for: `min((size_t)bytesLeft,
   * length)`. A known length caps the request; an unknown one (-1) wraps
   * to SIZE_MAX and leaves the caller's `length` in charge.
   */
  function RequestSize(bytesLeft: int32, length: size_t): (n: size_t)
    ensures n <= length
    ensures bytesLeft >= 0 ==> n as int <= bytesLeft as int
    ensures bytesLeft >= 0 ==> (n == length || n as int == bytesLeft as int)
    ensures bytesLeft == -1 ==> n == length
    ensures bytesLeft < 0 && length < 0x8000_0000 ==> n == length
  {
    MinSize(ToSizeT(bytesLeft), length)
  }

  /**
   * The counter after a read that returned `bytesRead`: decremented only
   * while the length is known and positive.
   */
  function AfterRead(bytesLeft: int32, bytesRead: size_t): (r: int32)
    requires bytesLeft > 0 ==> bytesRead as int <= bytesLeft as int
  {
    if bytesLeft > 0 then bytesLeft - bytesRead as int32 else bytesLeft
  }

  /** One call `readBytes(buffer, length)` that returned `count`. */
  datatype ReadCall = ReadCall(length: size_t, count: size_t)

  /** The most one `readBytes(_, length)` can return with `bytesLeft` to go. */
  function MostReturned(bytesLeft: int32, length: size_t): (n: size_t)
  {
    if bytesLeft == 0 then 0 else RequestSize(bytesLeft, length)
  }

  /** `calls` is a sequence of `readBytes` results the stream can produce from `bytesLeft`. */
  ghost predicate Possible(bytesLeft: int32, calls: seq<ReadCall>)
    decreases |calls|
  {
    calls == [] ||
    (calls[0].count <= MostReturned(bytesLeft, calls[0].length) &&
     Possible(AfterRead(bytesLeft, calls[0].count), calls[1..]))
  }

  /** The counter after the reads `calls`. */
  function Remaining(bytesLeft: int32, calls: seq<ReadCall>): int32
    requires Possible(bytesLeft, calls)
    decreases |calls|
  {
    if calls == [] then bytesLeft
    else Remaining(AfterRead(bytesLeft, calls[0].count), calls[1..])
  }

  /** Bytes delivered by the reads `calls`. */
  function Total(calls: seq<ReadCall>): nat
    decreases |calls|
  {
    if calls == [] then 0 else calls[0].count as nat + Total(calls[1..])
  }

  /**
   * With a known length, the counter always equals the length minus the
   * bytes delivered so far and never goes below zero: the stream never
   * reads past the advertised body.
   */
  lemma {:induction false} KnownLengthAccounting(length: int32, calls: seq<ReadCall>)
    requires length >= 0 && Possible(length, calls)
    ensures Remaining(length, calls) >= 0
    ensures Remaining(length, calls) as int == length as int - Total(calls)
    decreases |calls|
  {
    if calls != [] {
      KnownLengthAccounting(AfterRead(length, calls[0].count), calls[1..]);
    }
  }

  /** Reading to exhaustion delivers exactly the advertised length. */
  lemma {:induction false} ExhaustionDeliversLength(length: int32, calls: seq<ReadCall>)
    requires length >= 0 && Possible(length, calls)
    ensures Total(calls) <= length as int
    ensures Remaining(length, calls) == 0 <==> Total(calls) == length as int
  {
    KnownLengthAccounting(length, calls);
  }

  /** Once exhausted, every further read returns 0. */
  lemma {:induction false} ExhaustedStaysEmpty(calls: seq<ReadCall>)
    requires Possible(0, calls)
    ensures Total(calls) == 0 && Remaining(0, calls) == 0
    decreases |calls|
  {
    if calls != [] {
      ExhaustedStaysEmpty(calls[1..]);
    }
  }

  /** With an unknown (negative) length the counter is never touched. */
  lemma {:induction false} UnknownLengthUntouched(length: int32, calls: seq<ReadCall>)
    requires length < 0 && Possible(length, calls)
    ensures Remaining(length, calls) == length
    decreases |calls|
  {
    if calls != [] {
      UnknownLengthUntouched(length, calls[1..]);
    }
  }

  /** Appending one possible read to a possible history keeps it possible. */
  lemma {:induction false} PossibleAppend(bytesLeft: int32, calls: seq<ReadCall>, next: ReadCall)
    requires Possible(bytesLeft, calls)
    requires next.count <= MostReturned(Remaining(bytesLeft, calls), next.length)
    ensures Possible(bytesLeft, calls + [next])
    ensures Remaining(bytesLeft, calls + [next]) == AfterRead(Remaining(bytesLeft, calls), next.count)
    decreases |calls|
  {
    if calls == [] {
      assert calls + [next] == [next];
    } else {
      assert (calls + [next])[1..] == calls[1..] + [next];
      PossibleAppend(AfterRead(bytesLeft, calls[0].count), calls[1..], next);
    }
  }

  /** `BodyStream`: reads the body of the current response from `wifiClient`. */
  class BodyStream {
    const wifiClient: WiFiClient
    const httpClient: HTTPClient
    var bytesLeft: int32
    /** the length advertised when the stream was made */
    ghost const advertised: int32
    /** every `readBytes` call so far, with what it returned */
    ghost var history: seq<ReadCall>

    /** The counter is the advertised length run through the reads so far. */
    ghost predicate Valid()
      reads this
    {
      Possible(advertised, history) && bytesLeft == Remaining(advertised, history)
    }

    /**
     * With a known length, the counter reaches zero exactly when the reads
     * so far have delivered the whole advertised body, and never more.
     */
    lemma Accounting()
      requires Valid() && advertised >= 0
      ensures 0 <= bytesLeft as int == advertised as int - Total(history)
      ensures bytesLeft == 0 <==> Total(history) == advertised as int
    {
      KnownLengthAccounting(advertised, history);
    }

    /** Takes the advertised length from the session (`getSize()`). */
    constructor (wifiClient: WiFiClient, httpClient: HTTPClient)
      ensures this.wifiClient == wifiClient && this.httpClient == httpClient
      ensures bytesLeft == advertised == httpClient.size && history == []
      ensures Valid()
    {
      this.wifiClient := wifiClient;
      this.httpClient := httpClient;
      bytesLeft := httpClient.size;
      advertised := httpClient.size;
      history := [];
    }

    /**
     * `available()`: 0 once the session is disconnected, otherwise the
     * counter (which is -1 when the length is unknown).
     */
    function Available(): (r: int32)
      reads this, httpClient
      ensures !httpClient.connected ==> r == 0
      ensures httpClient.connected ==> r == bytesLeft
    {
      if !httpClient.connected then 0 else bytesLeft
    }

    /**
     * `readBytes(buffer, length)`: with nothing left, returns 0 without
     * touching the socket; otherwise asks the socket for `RequestSize` bytes
     * and counts the delivered ones off a known length.
     */
    method ReadBytes(buffer: array<byte>, length: size_t) returns (n: size_t)
      requires Valid()
      requires length as int <= buffer.Length
      modifies this, wifiClient, buffer
      ensures Valid() && history == old(history) + [ReadCall(length, n)]
      ensures n <= MostReturned(old(bytesLeft), length) && n as int <= |old(wifiClient.incoming)|
      ensures bytesLeft == AfterRead(old(bytesLeft), n)
      ensures old(bytesLeft) == 0 ==> wifiClient.incoming == old(wifiClient.incoming) && buffer[..] == old(buffer[..])
      ensures buffer[..n] == old(wifiClient.incoming)[..n] && buffer[n..] == old(buffer[n..])
      ensures wifiClient.incoming == old(wifiClient.incoming)[n..]
      ensures wifiClient.outgoing == old(wifiClient.outgoing)
    {
      if bytesLeft == 0 {
        PossibleAppend(advertised, history, ReadCall(length, 0));
        history := history + [ReadCall(length, 0)];
        return 0;
      }
      var got := wifiClient.ReadBytes(buffer, RequestSize(bytesLeft, length));
      var bytesRead: int32 := ToInt32(got);
      if bytesLeft > 0 {
        bytesLeft := bytesLeft - bytesRead;
      }
      n := ToSizeT(bytesRead);
      assert Possible(AfterRead(old(bytesLeft), n), []);
      PossibleAppend(advertised, history, ReadCall(length, n));
      history := history + [ReadCall(length, n)];
    }

    /** `read()`: one byte straight from the socket; the counter is not touched. */
    method Read() returns (r: int32)
      modifies wifiClient
      ensures old(wifiClient.incoming) == [] ==> r == -1 && wifiClient.incoming == []
      ensures old(wifiClient.incoming) != [] ==>
                r as int == old(wifiClient.incoming)[0] as int &&
                wifiClient.incoming == old(wifiClient.incoming)[1..]
      ensures wifiClient.outgoing == old(wifiClient.outgoing)
      ensures bytesLeft == old(bytesLeft)
    {
      r := wifiClient.Read();
    }

    /** `peek()`: the socket's next byte; neither the socket nor the counter changes. */
    method Peek() returns (r: int32)
      ensures r == -1 <==> wifiClient.incoming == []
      ensures wifiClient.incoming != [] ==> r as int == wifiClient.incoming[0] as int
    {
      r := wifiClient.Peek();
    }

    /**
     * `write(b)`: one byte straight to the socket, returning the socket's
     * count of bytes written; the counter is not touched.
     */
    method Write(b: byte) returns (n: size_t)
      modifies wifiClient
      ensures n <= 1
      ensures wifiClient.outgoing == (if n == 1 then old(wifiClient.outgoing) + [b] else old(wifiClient.outgoing))
      ensures wifiClient.incoming == old(wifiClient.incoming)
      ensures bytesLeft == old(bytesLeft)
    {
      n := wifiClient.Write(b);
    }
  }
}
