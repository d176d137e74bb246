/**
  The Windows response types (src/windows/response.rs): a `Response` that
  fetches its body from the `HttpResponseMessage` on first use and caches it,
  a range check of the status, and a `Downloaded` file that is deleted when it
  is dropped.
 */
module WinResponse {
  import opened Requestr

  /**
    What the WinRT `HttpResponseMessage` exposes to the status checks: its
    `StatusCode` (an `i32`). Reading its content is a foreign call whose
    outcome is an argument of `Response.GetData`.
   */
  datatype HttpResponseMessage = HttpResponseMessage(status: int32)

  /** The body, an opaque `IBufferByteAccess`; the model keeps its bytes. */
  datatype Data = Data(bytes: seq<byte>)

  /**
    `Response`: the message and the lazily filled body cache. `fetches` counts
    the `ReadAsBufferAsync` calls made on the message's content.
   */
  class Response {
    const message: HttpResponseMessage
    var data: Option<Data>
    ghost var fetches: nat

    /** The body was read once if it is cached, and not at all otherwise. */
    ghost predicate Valid()
      reads this
    {
      fetches == (if data.Some? then 1 else 0)
    }

    /** `Response::new`: nothing fetched, nothing cached. */
    constructor (message: HttpResponseMessage)
      ensures Valid()
      ensures this.message == message && data == None && fetches == 0
    {
      this.message := message;
      data := None;
      fetches := 0;
    }

    /**
      `Response::data`: the first call reads the body and caches it; later
      calls return the cached value and read nothing. `read` is what the
      foreign `ReadAsBufferAsync` would yield if it were called now.
     */
    method GetData(read: Data) returns (d: Data)
      requires Valid()
      modifies this
      ensures Valid()
      ensures data == Some(d) && fetches == 1
      ensures old(data).None? ==> d == read && fetches == old(fetches) + 1
      ensures old(data).Some? ==> d == old(data).value && fetches == old(fetches)
    {
      match data
      case None =>
        fetches := fetches + 1;
        data := Some(read);
        d := read;
      case Some(cached) =>
        d := cached;
    }

    /**
      `Response::check_status`: `Ok(())` for the success class, otherwise the
      status truncated to `u16` by `as u16`.
     */
    function CheckStatus(): (r: Result<(), uint16>)
      ensures r.Ok? <==> IsSuccessClass(message.status)
      ensures r.Err? ==> r.error == AsU16(message.status)
    {
      if message.status > 299 || message.status < 200 then Err(AsU16(message.status)) else Ok(())
    }
  }

  /**
    Two reads of a fresh response both return what the first read fetched,
    whatever a second fetch would have yielded: the second read is served
    from the cache.
   */
  method ReadTwice(message: HttpResponseMessage, firstRead: Data, secondRead: Data)
    returns (first: Data, second: Data)
    ensures first == firstRead && second == firstRead
  {
    var response := new Response(message);
    first := response.GetData(firstRead);
    second := response.GetData(secondRead);
  }

  /**
    `Downloaded`: the path of the downloaded temporary file. `deleted` records
    that `DeleteFileW` removed it.
   */
  class Downloaded {
    const path: string
    ghost var deleted: bool

    constructor (path: string)
      ensures this.path == path && !deleted
    {
      this.path := path;
      deleted := false;
    }

    /**
      `Drop`: delete the file. A failed `DeleteFileW` panics instead of
      returning an error, so the model requires the file to still be there.
     */
    method Drop()
      requires !deleted
      modifies this
      ensures deleted
    {
      deleted := true;
    }
  }
}
