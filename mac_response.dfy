/**
  The macOS response types (src/macos/response.rs): a buffered `Response`
  holding the HTTP status and the body, and a `Downloaded` artifact holding the
  owning temporary directory, the path of the file inside it and the status.
  Nothing in this file changes state: constructors, field reads and the two
  status classifications.
 */
module MacResponse {
  import opened Requestr

  /** A file-system path, as the sequence of its components. */
  type Path = seq<string>

  /** The body, an opaque platform buffer; the model keeps its bytes. */
  datatype Data = Data(bytes: seq<byte>)

  /**
    A buffered response. The foreign `NSURLResponse` is represented by the
    only thing read from it, its `statusCode` (an `NSInteger`).
   */
  datatype Response = Response(status: int64, data: Data)

  /** A downloaded file: the temporary directory that owns it, its path and the status. */
  datatype Downloaded = Downloaded(tempDir: Path, path: Path, code: uint16)

  /** `Response::new`: the body and the status are stored as delivered. */
  function NewResponse(status: int64, data: Data): (r: Response)
    ensures r.status == status && r.data == data
  {
    Response(status, data)
  }

  /**
    `Response::check_status`: the body on success, the status and the body on
    failure. The failure branch converts the status with `try_into().unwrap()`,
    which panics when the status does not fit in a `u16`; that is the requires.
   */
  function CheckStatus(r: Response): (result: Result<Data, (uint16, Data)>)
    requires IsSuccessClass(r.status) || 0 <= r.status < 0x1_0000
    ensures result.Ok? <==> IsSuccessClass(r.status)
    ensures result.Ok? ==> result.value == r.data
    ensures result.Err? ==> result.error.0 == r.status && result.error.1 == r.data
  {
    if r.status >= 200 && r.status <= 299 then Ok(r.data)
    else Err((r.status as uint16, r.data))
  }

  /** `Downloaded::new`: directory, path and status are stored unchanged. */
  function NewDownloaded(dir: Path, path: Path, code: uint16): (d: Downloaded)
    ensures CopyPath(d) == path && d.tempDir == dir && d.code == code
  {
    Downloaded(dir, path, code)
  }

  /** `Downloaded::copy_path`: a copy of the stored path. */
  function CopyPath(d: Downloaded): (p: Path)
    ensures p == d.path
  {
    d.path
  }

  /**
    `Downloaded::check_status` as written: it fails when `code < 200 || code >= 299`,
    so 299, a success status, is reported as `StatusCode(299)`.
   */
  function CheckDownloadStatus(d: Downloaded): (r: Result<(), Error>)
    ensures r.Ok? <==> IsSuccessClass(d.code) && d.code != 299
    ensures r.Err? ==> r.error == StatusCode(d.code)
  {
    if d.code < 200 || d.code >= 299 then Err(StatusCode(d.code)) else Ok(())
  }

  /** The as-written download check rejects 299, which is in the success class. */
  lemma CheckDownloadStatusRejects299(dir: Path, path: Path)
    ensures IsSuccessClass(299)
    ensures CheckDownloadStatus(NewDownloaded(dir, path, 299)) == Err(StatusCode(299))
  {
  }

  /**
    The as-written download check and the response check agree on every status
    but 299.
   */
  lemma DownloadAndResponseDisagreeOnlyAt299(dir: Path, path: Path, code: uint16, data: Data)
    ensures CheckDownloadStatus(Downloaded(dir, path, code)).Ok?
            <==> CheckStatus(Response(code, data)).Ok? && code != 299
  {
  }

  /**
    `Downloaded::check_status` as the other status checks of the crate behave:
    success exactly for the 2xx class, otherwise the status as `StatusCode`.
   */
  function CheckDownloadStatusIntended(d: Downloaded): (r: Result<(), Error>)
    ensures r.Ok? <==> IsSuccessClass(d.code)
    ensures r.Err? ==> r.error == StatusCode(d.code)
  {
    if d.code < 200 || d.code > 299 then Err(StatusCode(d.code)) else Ok(())
  }

  /** The corrected download check agrees with the response check on every status. */
  lemma DownloadAgreesWithResponse(d: Downloaded, data: Data)
    ensures CheckDownloadStatusIntended(d).Ok? <==> CheckStatus(Response(d.code, data)).Ok?
  {
  }
}
