/**
  The older macOS response types (src/response.rs): the same buffered
  `Response` as the current macOS variant, and a `Downloaded` artifact made of
  the owning temporary directory and the path only (no status).
 */
module LegacyResponse {
  import opened Requestr
  import MacResponse

  type Path = MacResponse.Path
  type Data = MacResponse.Data

  /** A buffered response: the status read from the foreign `NSURLResponse`, and the body. */
  datatype Response = Response(status: int64, data: Data)

  /** A downloaded file: its owning temporary directory and its path. */
  datatype Downloaded = Downloaded(tempDir: Path, path: Path)

  /** `Response::new`: status and body stored as delivered. */
  function NewResponse(status: int64, data: Data): (r: Response)
    ensures r.status == status && r.data == data
  {
    Response(status, data)
  }

  /**
    `Response::check_status`: `Ok(data)` for the success class, otherwise the
    status (which must fit in a `u16`, or the `unwrap` panics) with the body.
   */
  function CheckStatus(r: Response): (result: Result<Data, (uint16, Data)>)
    requires IsSuccessClass(r.status) || 0 <= r.status < 0x1_0000
    ensures result.Ok? <==> IsSuccessClass(r.status)
    ensures result.Ok? ==> result.value == r.data
    ensures result.Err? ==> result.error.0 == r.status && result.error.1 == r.data
  {
    if r.status >= 200 && r.status <= 299 then Ok(r.data)
    else Err((r.status as uint16, r.data))
  }

  /**
    The older check classifies every status exactly as the current macOS
    response does, and hands back the same status and body.
   */
  lemma CheckStatusMatchesCurrentVariant(status: int64, data: Data)
    requires IsSuccessClass(status) || 0 <= status < 0x1_0000
    ensures CheckStatus(NewResponse(status, data))
            == MacResponse.CheckStatus(MacResponse.NewResponse(status, data))
  {
  }

  /** `Downloaded::new`: directory and path stored unchanged. */
  function NewDownloaded(dir: Path, path: Path): (d: Downloaded)
    ensures AsPath(d) == path && d.tempDir == dir
  {
    Downloaded(dir, path)
  }

  /** `Downloaded::as_path`: the stored path. */
  function AsPath(d: Downloaded): (p: Path)
    ensures p == d.path
  {
    d.path
  }
}
