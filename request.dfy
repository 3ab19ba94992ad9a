// The outbound request description and its fluent builder.
module Requests {
  import opened Wrappers

  datatype HTTPMethod =
    | HTTP_GET
    | HTTP_HEAD
    | HTTP_POST
    | HTTP_PUT
    | HTTP_PATCH
    | HTTP_DELETE
    | HTTP_OPTIONS

  /** A header line as a (name, value) pair. */
  type Header = (string, string)

  /**
   * `Request`. The three text fields are `const char *` members that the
   * builder never initialises: `None` stands for a field no setter has
   * written, whose value is indeterminate. The header list starts empty.
   * `verb` is the member the source calls `method`, a keyword here.
   */
  datatype Request = Request(
    baseUrl: Option<string>,
    path: Option<string>,
    verb: HTTPMethod,
    body: Option<string>,
    headers: seq<Header>)

  /** What `RequestBuilder(m)` holds before any setter runs. */
  function Seeded(m: HTTPMethod): (r: Request)
    ensures r.verb == m
    ensures r.baseUrl.None? && r.path.None? && r.body.None? && r.headers == []
  {
    Request(None, None, m, None, [])
  }

  /** One setter call: the field it writes and the value it writes. */
  datatype Field =
    | BaseUrl(u: string)
    | Path(p: string)
    | Body(b: string)
    | Headers(h: seq<Header>)

  /** The effect of one setter call on the held request. */
  function Set(r: Request, f: Field): (r': Request)
  {
    match f
    case BaseUrl(u) => r.(baseUrl := Some(u))
    case Path(p) => r.(path := Some(p))
    case Body(b) => r.(body := Some(b))
    case Headers(h) => r.(headers := h)
  }

  /** The request after a chain of setter calls, applied left to right. */
  function Chain(r: Request, fs: seq<Field>): (r': Request)
    decreases |fs|
  {
    if fs == [] then r else Chain(Set(r, fs[0]), fs[1..])
  }

  /** Which of the four fields a setter writes. */
  function Slot(f: Field): nat
  {
    match f
    case BaseUrl(_) => 0
    case Path(_) => 1
    case Body(_) => 2
    case Headers(_) => 3
  }

  /** No setter changes the method chosen at construction. */
  lemma {:induction false} ChainKeepsMethod(r: Request, fs: seq<Field>)
    ensures Chain(r, fs).verb == r.verb
    decreases |fs|
  {
    if fs != [] {
      ChainKeepsMethod(Set(r, fs[0]), fs[1..]);
    }
  }

  /** A setter writes its own field and leaves the other three alone. */
  lemma SetWritesOneField(r: Request, f: Field)
    ensures Set(r, f).verb == r.verb
    ensures Slot(f) != 0 ==> Set(r, f).baseUrl == r.baseUrl
    ensures Slot(f) != 1 ==> Set(r, f).path == r.path
    ensures Slot(f) != 2 ==> Set(r, f).body == r.body
    ensures Slot(f) != 3 ==> Set(r, f).headers == r.headers
    ensures Slot(f) == 0 ==> Set(r, f).baseUrl == Some(f.u)
    ensures Slot(f) == 1 ==> Set(r, f).path == Some(f.p)
    ensures Slot(f) == 2 ==> Set(r, f).body == Some(f.b)
    ensures Slot(f) == 3 ==> Set(r, f).headers == f.h
  {
  }

  /** The last write to a field wins. */
  lemma LastWriteWins(r: Request, f: Field, g: Field)
    requires Slot(f) == Slot(g)
    ensures Set(Set(r, f), g) == Set(r, g)
  {
  }

  /** Setters on different fields commute. */
  lemma DistinctSettersCommute(r: Request, f: Field, g: Field)
    requires Slot(f) != Slot(g)
    ensures Set(Set(r, f), g) == Set(Set(r, g), f)
  {
  }

  /** The last setter call in `fs` that writes field `slot`, if any. */
  function LastWrite(fs: seq<Field>, slot: nat): (w: Option<Field>)
    ensures w.Some? ==> Slot(w.value) == slot && w.value in fs
    ensures w.None? ==> forall i :: 0 <= i < |fs| ==> Slot(fs[i]) != slot
    decreases |fs|
  {
    if fs == [] then None
    else if Slot(fs[|fs| - 1]) == slot then Some(fs[|fs| - 1])
    else LastWrite(fs[..|fs| - 1], slot)
  }

  /** Applying the last write of a slot, or nothing when it was never written. */
  function Apply(r: Request, w: Option<Field>): Request
  {
    if w.None? then r else Set(r, w.value)
  }

  /**
   * A chain of setters amounts to applying, for each field, the last value
   * written to it.
   */
  lemma {:induction false} ChainIsLastWrites(r: Request, fs: seq<Field>)
    ensures Chain(r, fs) ==
      Apply(Apply(Apply(Apply(r, LastWrite(fs, 0)), LastWrite(fs, 1)), LastWrite(fs, 2)), LastWrite(fs, 3))
    decreases |fs|
  {
    if fs != [] {
      var init, last := fs[..|fs| - 1], fs[|fs| - 1];
      assert fs == init + [last];
      ChainSnoc(r, init, last);
      ChainIsLastWrites(r, init);
    }
  }

  lemma {:induction false} ChainSnoc(r: Request, fs: seq<Field>, f: Field)
    ensures Chain(r, fs + [f]) == Set(Chain(r, fs), f)
    decreases |fs|
  {
    if fs == [] {
      assert [] + [f] == [f];
    } else {
      assert (fs + [f])[1..] == fs[1..] + [f];
      ChainSnoc(Set(r, fs[0]), fs[1..], f);
    }
  }

  /**
   * Order independence: two chains that end with the same last write to
   * each field build the same request, however their calls interleave.
   */
  lemma SameLastWritesSameRequest(r: Request, fs: seq<Field>, gs: seq<Field>)
    requires forall slot :: 0 <= slot < 4 ==> LastWrite(fs, slot) == LastWrite(gs, slot)
    ensures Chain(r, fs) == Chain(r, gs)
  {
    ChainIsLastWrites(r, fs);
    ChainIsLastWrites(r, gs);
    assert LastWrite(fs, 0) == LastWrite(gs, 0);
    assert LastWrite(fs, 1) == LastWrite(gs, 1);
    assert LastWrite(fs, 2) == LastWrite(gs, 2);
    assert LastWrite(fs, 3) == LastWrite(gs, 3);
  }

  /** `RequestBuilder`: holds the request being assembled. */
  class RequestBuilder {
    var request: Request

    /** `Request::build(m)` / `RequestBuilder(m)`: the method is fixed here. */
    constructor (m: HTTPMethod)
      ensures request == Seeded(m)
    {
      request := Seeded(m);
    }

    /** `baseUrl(u)` */
    method BaseUrl(u: string) returns (self: RequestBuilder)
      modifies this
      ensures self == this
      ensures request == Set(old(request), Field.BaseUrl(u))
    {
      request := request.(baseUrl := Some(u));
      self := this;
    }

    /** `path(p)` */
    method Path(p: string) returns (self: RequestBuilder)
      modifies this
      ensures self == this
      ensures request == Set(old(request), Field.Path(p))
    {
      request := request.(path := Some(p));
      self := this;
    }

    /** `body(b)` */
    method Body(b: string) returns (self: RequestBuilder)
      modifies this
      ensures self == this
      ensures request == Set(old(request), Field.Body(b))
    {
      request := request.(body := Some(b));
      self := this;
    }

    /** `headers(h)`: replaces the whole header list. */
    method Headers(h: seq<Header>) returns (self: RequestBuilder)
      modifies this
      ensures self == this
      ensures request == Set(old(request), Field.Headers(h))
    {
      request := request.(headers := h);
      self := this;
    }

    /** The conversion `operator Request &&()`: hands over the held request. */
    method Build() returns (r: Request)
      ensures r == request
    {
      r := request;
    }
  }
}
