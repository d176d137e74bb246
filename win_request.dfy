/**
  The Windows request builder (src/windows/request.rs): a `Request` whose
  builder calls each replace one field, the `DeferredRequest` it is moved into,
  the construction of the outgoing WinRT request (the header-append loop) and
  the status gate of `download`.

  The WinRT transport is external: the URI parser, the send call and the
  awaited response are inputs of the operations below.
 */
module WinRequest {
  import opened Requestr
  import opened WinResponse

  /** The user agent every request announces. */
  const UserAgent: string := "drewcrawford/requestr 0.1 (rust)"

  /** The header map after `header(key, value)`: insert on `Some`, remove on `None`. */
  function WithHeader(headers: map<string, string>, key: string, value: Option<string>): (h: map<string, string>)
    ensures key in h <==> value.Some?
    ensures value.Some? ==> h[key] == value.value
    ensures forall k :: k != key ==> (k in h <==> k in headers)
    ensures forall k :: k != key && k in h ==> h[k] == headers[k]
  {
    match value
    case Some(v) => headers[key := v]
    case None => headers - {key}
  }

  /** A later `Some` for the same key overwrites an earlier one. */
  lemma LastWriteWins(headers: map<string, string>, key: string, v: string, w: string)
    ensures WithHeader(WithHeader(headers, key, Some(v)), key, Some(w)) == WithHeader(headers, key, Some(w))
  {
  }

  /** Setting a header and then unsetting it leaves it absent, as if never set. */
  lemma SetThenUnset(headers: map<string, string>, key: string, v: string)
    ensures WithHeader(WithHeader(headers, key, Some(v)), key, None) == WithHeader(headers, key, None)
    ensures key !in WithHeader(WithHeader(headers, key, Some(v)), key, None)
  {
  }

  /** Unsetting a header that is not there changes nothing. */
  lemma UnsetAbsentIsNoOp(headers: map<string, string>, key: string)
    requires key !in headers
    ensures WithHeader(headers, key, None) == headers
  {
  }

  /** One `header(key, value)` call of a builder chain. */
  datatype HeaderCall = HeaderCall(key: string, value: Option<string>)

  /** The header map after a chain of `header` calls, applied left to right. */
  function ApplyHeaderCalls(headers: map<string, string>, calls: seq<HeaderCall>): (h: map<string, string>)
    decreases |calls|
  {
    if calls == [] then headers
    else ApplyHeaderCalls(WithHeader(headers, calls[0].key, calls[0].value), calls[1..])
  }

  /** The value given to `key` by the last call on `key` in `calls`, if any call names it. */
  function LastCallOn(calls: seq<HeaderCall>, key: string): (last: Option<Option<string>>)
  {
    if calls == [] then None
    else if calls[|calls| - 1].key == key then Some(calls[|calls| - 1].value)
    else LastCallOn(calls[..|calls| - 1], key)
  }

  /** `ApplyHeaderCalls` split at its last call. */
  lemma ApplyHeaderCallsSnoc(headers: map<string, string>, calls: seq<HeaderCall>, last: HeaderCall)
    ensures ApplyHeaderCalls(headers, calls + [last])
            == WithHeader(ApplyHeaderCalls(headers, calls), last.key, last.value)
    decreases |calls|
  {
    if calls != [] {
      assert (calls + [last])[1..] == calls[1..] + [last];
      ApplyHeaderCallsSnoc(WithHeader(headers, calls[0].key, calls[0].value), calls[1..], last);
    }
  }

  /**
    After any chain of `header` calls, each key holds what the last call on
    it said (present with that value for `Some`, absent for `None`), and keys
    no call names keep their value.
   */
  lemma {:induction false} HeaderChainLastCallDecides(headers: map<string, string>, calls: seq<HeaderCall>, key: string)
    ensures var h := ApplyHeaderCalls(headers, calls);
            match LastCallOn(calls, key)
            case None => (key in h <==> key in headers) && (key in h ==> h[key] == headers[key])
            case Some(v) => (key in h <==> v.Some?) && (v.Some? ==> h[key] == v.value)
    decreases |calls|
  {
    if calls != [] {
      var init, last := calls[..|calls| - 1], calls[|calls| - 1];
      assert calls == init + [last];
      ApplyHeaderCallsSnoc(headers, init, last);
      HeaderChainLastCallDecides(headers, init, key);
    }
  }

  /** A request that is not yet made: the builder's fields, moved out of it. */
  datatype DeferredRequest = DeferredRequest(
    url: string,
    headers: map<string, string>,
    body: Option<seq<byte>>,
    httpMethod: string)

  /** The request the WinRT `HttpClient` is asked to send. */
  datatype OutgoingRequest = OutgoingRequest(
    userAgent: string,
    headers: seq<(string, string)>,
    httpMethod: string,
    uri: string,
    content: Option<seq<byte>>)

  /** `Request`: the builder. Every builder call replaces one field and returns the builder. */
  class Request {
    var url: string
    var headers: map<string, string>
    var body: Option<seq<byte>>
    var httpMethod: string

    constructor (url: string)
      ensures this.url == url && headers == map[] && body == None && httpMethod == "GET"
    {
      this.url := url;
      headers := map[];
      body := None;
      httpMethod := "GET";
    }

    /** `Request::new`: never fails on Windows; method `GET`, no headers, no body. */
    static method New(url: string) returns (r: Result<Request, Error>)
      ensures r.Ok? && fresh(r.value)
      ensures r.value.url == url && r.value.headers == map[]
      ensures r.value.body == None && r.value.httpMethod == "GET"
    {
      var request := new Request(url);
      r := Ok(request);
    }

    /** `Request::header`: set (`Some`) or unset (`None`) one header. */
    method Header(key: string, value: Option<string>) returns (r: Request)
      modifies this
      ensures r == this
      ensures headers == WithHeader(old(headers), key, value)
      ensures url == old(url) && body == old(body) && httpMethod == old(httpMethod)
    {
      match value {
        case Some(v) => headers := headers[key := v];
        case None => headers := headers - {key};
      }
      r := this;
    }

    /** `Request::method`: replace the method only. */
    method Method(m: string) returns (r: Request)
      modifies this
      ensures r == this && httpMethod == m
      ensures url == old(url) && headers == old(headers) && body == old(body)
    {
      httpMethod := m;
      r := this;
    }

    /** `Request::body`: set the body only. */
    method Body(b: seq<byte>) returns (r: Request)
      modifies this
      ensures r == this && body == Some(b)
      ensures url == old(url) && headers == old(headers) && httpMethod == old(httpMethod)
    {
      body := Some(b);
      r := this;
    }

    /** `DeferredRequest::new`: the four fields, carried over unchanged. */
    function Defer(): (d: DeferredRequest)
      reads this
      ensures d.url == url && d.headers == headers && d.body == body && d.httpMethod == httpMethod
    {
      DeferredRequest(url, headers, body, httpMethod)
    }
  }

  /**
    A builder chain `new(url).header(k, Some(v)).header(k, None)` leaves `k`
    absent from the request that is sent.
   */
  method SetThenUnsetChain(url: string, k: string, v: string) returns (d: DeferredRequest)
    ensures d.url == url && d.httpMethod == "GET" && d.body == None
    ensures k !in d.headers && d.headers == map[]
  {
    var created := Request.New(url);
    var r := created.value;
    r := r.Header(k, Some(v));
    r := r.Header(k, None);
    d := r.Defer();
  }

  /**
    The loop of `DeferredRequest::perform` that appends every header of the
    map to the outgoing headers. The map's iteration order is unspecified;
    the model picks any key not yet appended.
   */
  method AppendHeaders(headers: map<string, string>) returns (appended: seq<(string, string)>)
    ensures |appended| == |headers.Keys|
    ensures forall i :: 0 <= i < |appended| ==> appended[i].0 in headers && appended[i].1 == headers[appended[i].0]
    ensures forall i, j :: 0 <= i < j < |appended| ==> appended[i].0 != appended[j].0
    ensures forall k :: k in headers ==> exists i :: 0 <= i < |appended| && appended[i] == (k, headers[k])
  {
    var remaining := headers.Keys;
    appended := [];
    while remaining != {}
      invariant remaining <= headers.Keys
      invariant |appended| + |remaining| == |headers.Keys|
      invariant forall i :: 0 <= i < |appended| ==>
        appended[i].0 in headers && appended[i].0 !in remaining && appended[i].1 == headers[appended[i].0]
      invariant forall i, j :: 0 <= i < j < |appended| ==> appended[i].0 != appended[j].0
      invariant forall k :: k in headers && k !in remaining ==>
        exists i :: 0 <= i < |appended| && appended[i] == (k, headers[k])
      decreases remaining
    {
      var k :| k in remaining;
      var before := appended;
      appended := appended + [(k, headers[k])];
      assert forall i :: 0 <= i < |before| ==> appended[i] == before[i];
      assert appended[|before|] == (k, headers[k]);
      remaining := remaining - {k};
    }
  }

  /**
    The error, if any, of the synchronous part of `DeferredRequest::perform`:
    `Uri::CreateUri` rejecting the URL, then `SendRequestAsync` failing.
   */
  function SetupError(d: DeferredRequest, uriError: string -> Option<int>, sendError: Option<int>): (e: Option<Error>)
    ensures e.None? <==> uriError(d.url).None? && sendError.None?
    ensures e.Some? ==> e.value.PlatformError?
    ensures uriError(d.url).Some? ==> e == Some(PlatformError(uriError(d.url).value))
    ensures uriError(d.url).None? && sendError.Some? ==> e == Some(PlatformError(sendError.value))
  {
    if uriError(d.url).Some? then Some(PlatformError(uriError(d.url).value))
    else if sendError.Some? then Some(PlatformError(sendError.value))
    else None
  }

  /**
    `DeferredRequest::perform`: announce the user agent, append every header,
    then create the URI, the method and the content and send. Failures of
    `Uri::CreateUri` and `SendRequestAsync` become `PlatformError`.
   */
  method Send(d: DeferredRequest, uriError: string -> Option<int>, sendError: Option<int>)
    returns (r: Result<OutgoingRequest, Error>)
    ensures r.Err? <==> SetupError(d, uriError, sendError).Some?
    ensures r.Err? ==> r.error == SetupError(d, uriError, sendError).value
    ensures r.Ok? ==> r.value.userAgent == UserAgent && r.value.uri == d.url
    ensures r.Ok? ==> r.value.httpMethod == d.httpMethod && r.value.content == d.body
    ensures r.Ok? ==> |r.value.headers| == |d.headers.Keys|
    ensures r.Ok? ==> forall i, j :: 0 <= i < j < |r.value.headers| ==> r.value.headers[i].0 != r.value.headers[j].0
    ensures r.Ok? ==> forall k :: k in d.headers ==>
      exists i :: 0 <= i < |r.value.headers| && r.value.headers[i] == (k, d.headers[k])
  {
    var appended := AppendHeaders(d.headers);
    match uriError(d.url)
    case Some(e) =>
      r := Err(PlatformError(e));
    case None =>
      match sendError
      case Some(e) =>
        r := Err(PlatformError(e));
      case None =>
        r := Ok(OutgoingRequest(UserAgent, appended, d.httpMethod, d.url, d.body));
  }

  /**
    `Request::perform`: the setup result is `unwrap`ped, so a setup failure is
    a panic and the precondition; a failure of the awaited send is returned
    as `PlatformError`.
   */
  method Perform(request: Request, uriError: string -> Option<int>, sendError: Option<int>,
                 awaited: Result<HttpResponseMessage, int>)
    returns (r: Result<Response, Error>)
    requires SetupError(request.Defer(), uriError, sendError).None?
    ensures r.Ok? <==> awaited.Ok?
    ensures r.Err? ==> r.error == PlatformError(awaited.error)
    ensures r.Ok? ==> fresh(r.value) && r.value.message == awaited.value
    ensures r.Ok? ==> r.value.Valid() && r.value.data == None && r.value.fetches == 0
  {
    var sent := Send(request.Defer(), uriError, sendError);
    match awaited
    case Err(e) =>
      r := Err(PlatformError(e));
    case Ok(message) =>
      var response := new Response(message);
      r := Ok(response);
  }

  /**
    The status gate of `Request::download`: any status outside 200..=299 is
    `StatusCode(status as u16)`.
   */
  function DownloadStatusGate(status: int32): (r: Result<(), Error>)
    ensures r.Ok? <==> IsSuccessClass(status)
    ensures r.Err? ==> r.error == StatusCode(AsU16(status))
  {
    if status > 299 || status < 200 then Err(StatusCode(AsU16(status))) else Ok(())
  }

  /**
    How the temporary-file work of `download` can fail: a Win32 call
    (`GetTempPathW`, `GetTempFileNameW`) returning 0, or a WinRT call
    (opening the file, its stream, the write) returning an error.
   */
  datatype FileFailure = Win32Failure(code: int) | WinRtFailure(code: int)

  /** The crate error a file failure becomes: `PcoreError` or, through `?`, `PlatformError`. */
  function FileError(f: FileFailure): (e: Error)
    ensures f.Win32Failure? ==> e == PcoreError(f.code)
    ensures f.WinRtFailure? ==> e == PlatformError(f.code)
  {
    match f
    case Win32Failure(code) => PcoreError(code)
    case WinRtFailure(code) => PlatformError(code)
  }

  /**
    `Request::download`: setup and send errors are propagated, then the
    status is gated before any temporary-file work; `tempFile` is the outcome
    of that file work (the path written, or how it failed).
   */
  method Download(request: Request, uriError: string -> Option<int>, sendError: Option<int>,
                  awaited: Result<HttpResponseMessage, int>, tempFile: Result<string, FileFailure>)
    returns (r: Result<Downloaded, Error>)
    ensures var setup := SetupError(request.Defer(), uriError, sendError);
      && (setup.Some? ==> r == Err(setup.value))
      && (setup.None? && awaited.Err? ==> r == Err(PlatformError(awaited.error)))
      && (setup.None? && awaited.Ok? && !IsSuccessClass(awaited.value.status) ==>
            r == Err(StatusCode(AsU16(awaited.value.status))))
      && (setup.None? && awaited.Ok? && IsSuccessClass(awaited.value.status) && tempFile.Err? ==>
            r == Err(FileError(tempFile.error)))
      && (setup.None? && awaited.Ok? && IsSuccessClass(awaited.value.status) && tempFile.Ok? ==>
            r.Ok? && fresh(r.value) && r.value.path == tempFile.value && !r.value.deleted)
    ensures (r.Err? && r.error.StatusCode?)
            <==> SetupError(request.Defer(), uriError, sendError).None? && awaited.Ok?
                 && !IsSuccessClass(awaited.value.status)
  {
    var sent := Send(request.Defer(), uriError, sendError);
    if sent.Err? {
      return Err(sent.error);
    }
    if awaited.Err? {
      return Err(PlatformError(awaited.error));
    }
    var gate := DownloadStatusGate(awaited.value.status);
    if gate.Err? {
      return Err(gate.error);
    }
    if tempFile.Err? {
      return Err(FileError(tempFile.error));
    }
    var downloaded := new Downloaded(tempFile.value);
    r := Ok(downloaded);
  }
}
