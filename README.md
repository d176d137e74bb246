# requestr, modelled in Dafny

requestr is a Rust HTTP client library that delegates the network to the
host platform: `NSURLSession` on macOS and the WinRT `HttpClient` on Windows.
This project models the logic the crate itself owns and proves properties of
that model. The modelled logic is:

- **macOS `Request::new`** (`MacRequest`). It validates the URL with the
  platform parser, which is a predicate passed in. It derives the download
  file name from the text after the last `/` of the URL string. When that
  text is empty, it uses the fallback `"requestsr"`.
- **macOS drop guards** (`MacRequest.Task`, `MacRequest.TaskDropper`). A
  guard cancels its native task once, when it is dropped. A ghost counter
  records the cancels.
- **macOS completions** (`MacRequest`). The perform completion builds a
  `Response`. The download completion moves the file to
  `tempdir / file_name`. That path is a file inside the directory unless the
  name is `.` or `..`.
- **macOS responses** (`MacResponse`) and **the older macOS responses**
  (`LegacyResponse`). These cover status classification, constructors and
  path accessors.
- **Windows builder** (`WinRequest.Request`). This is a class with the URL,
  a header map, the method and an optional body. Each builder call replaces
  one field. `DeferredRequest::new` moves the fields unchanged. The
  header-append loop of `DeferredRequest::perform` is modelled, and so is
  the status gate of `download`.
- **Windows responses** (`WinResponse`). The response body is fetched on the
  first `data()` call and cached; a ghost counter records the fetches. The
  module also holds the status check and the file deletion in `Downloaded`'s
  `Drop`.

The error type is `Requestr.Error`, which mirrors the crate's `Error` enum
(src/lib.rs:45-53). Every status check is compared with one reference
definition, `Requestr.IsSuccessClass`. It is the 2xx "Successful" class of
RFC 9110, section 15.3, defined by the hundreds digit of the status code
(`code / 100 == 2`), which is its first digit for three-digit codes.

Notes on the code as written:

- The file name is the text after the last `/` of the raw URL string. So
  `https://host` yields `host`, and a query string stays part of the name.
- The Windows `download` fails on a status outside 200..=299. The macOS
  `download` does not: it leaves the decision to `check_status`.
- The macOS completion calls `Downloaded::new(dir, new_path)` with two
  arguments (src/macos/request.rs:128), but `Downloaded::new` takes three
  (src/macos/response.rs:59). The model uses the three-field form and takes
  the status from the transport's delivery. The transport reports that
  status as an `NSInteger`, and the source never writes a conversion to
  `u16`. The model's `NativeDownload.status` is already a `u16`, so it
  picks that conversion itself.
- The Windows `perform` unwraps a setup error, so that error panics
  (src/windows/request.rs:67). The Windows `download` propagates the same
  error with `?` (src/windows/request.rs:83).

## Model

| member | source | states |
|---|---|---|
| `Requestr.AsU16` | src/windows/response.rs:64 | `as u16` keeps the value modulo 2^16 and leaves every value already in range unchanged |
| `Requestr.SuccessClassIsRange` | src/macos/response.rs:40 | the 2xx class is exactly the range 200..=299 that the checks compare against |
| `MacRequest.LastSegment` | src/macos/request.rs:45-46 | the first item of `rsplit("/")` is a suffix of the URL with no `/`, and it is either the whole string or preceded by `/` |
| `MacRequest.LastSegmentUnique` | src/macos/request.rs:46 | those three facts determine the segment uniquely |
| `MacRequest.LastSegmentAfterSlash` | src/macos/request.rs:46 | for `prefix + "/" + seg` with no `/` in `seg`, the segment is `seg` |
| `MacRequest.LastSegmentWithoutSlash` | src/macos/request.rs:46 | a string without `/` is its own last segment |
| `MacRequest.RSplit` | src/macos/request.rs:46 | `rsplit("/")` yields at least one piece |
| `MacRequest.RSplitFirstIsLastSegment` | src/macos/request.rs:46 | the first piece of `rsplit("/")` is the text after the last `/` |
| `MacRequest.RSplitAppend` | src/macos/request.rs:46 | appending characters other than `/` extends the first piece and leaves the other pieces alone |
| `MacRequest.RSplitPiecesHaveNoSlash` | src/macos/request.rs:46 | no piece of `rsplit("/")` contains `/` |
| `MacRequest.RSplitJoins` | src/macos/request.rs:46 | joining the pieces of `rsplit("/")`, back to front, with `/` gives the original string |
| `MacRequest.RSplitAfterSlash` | src/macos/request.rs:46 | a `/`-free piece after a final `/` is split off first, and the rest is split as before |
| `MacRequest.JoinSplits` | src/macos/request.rs:46 | splitting a `/`-joined list of `/`-free pieces gives the pieces back |
| `MacRequest.RSplitNext` | src/macos/request.rs:46 | `rsplit("/").next()` is never `None`, because `rsplit` always yields a piece; so the `InvalidURL` error on it cannot happen |
| `MacRequest.New` | src/macos/request.rs:41-58 | fails with `InvalidURL(url)` exactly when the parser rejects the URL; otherwise keeps the URL, and the file name is the last segment, or `"requestsr"` when that is empty; the file name is never empty and never contains `/` |
| `MacRequest.FileNameIsFinalSegment` | src/macos/request.rs:46-52 | `prefix/report.json` gets the file name `report.json` |
| `MacRequest.TrailingSlashGetsDefaultName` | src/macos/request.rs:47-48 | a URL ending in `/` gets `"requestsr"` |
| `MacRequest.NoSlashUsesWholeUrl` | src/macos/request.rs:46-52 | a URL without `/` is used whole as the file name |
| `MacRequest.TaskDropper.Drop` | src/macos/request.rs:17-32 | dropping a guard issues exactly one `cancel` on its task, and a guard is dropped once |
| `MacRequest.StartTask` | src/macos/request.rs:88-97 | setup creates and resumes a fresh task, and hands over a guard that has not cancelled anything |
| `MacRequest.AbandonBeforeDelivery` | src/macos/request.rs:17-32 | an abandoned operation's task receives exactly one cancel |
| `MacRequest.CompletePerform` | src/macos/request.rs:98-105 | a delivery becomes a `Response` with the delivered status and body; a native error becomes the crate's error |
| `MacRequest.PerformedBodySurvivesCheckStatus` | src/macos/request.rs:104 | the delivered body comes back from `check_status` in both branches, and success holds exactly for the 2xx class |
| `MacRequest.Download` | src/macos/request.rs:114-140 | the target path is the fresh directory joined with the request's file name, which is a file inside that directory unless the name is `.` or `..`; the status is passed through; a native error becomes the crate's error |
| `MacRequest.DownloadLandsUnderDerivedName` | src/macos/request.rs:118-128 | the download of `prefix/seg` targets `tempdir / seg`, or `tempdir / "requestsr"` when `seg` is empty |
| `MacRequest.DotUrlTargetsDirectory` | src/macos/request.rs:46-127 | a URL ending in `/.` or `/..` gets the file name `.` or `..`, and its download targets the temporary directory itself or its parent |
| `MacResponse.NewResponse` | src/macos/response.rs:25-30 | status and body are stored as delivered |
| `MacResponse.CheckStatus` | src/macos/response.rs:38-47 | `Ok(data)` iff the status is 2xx; otherwise `Err((status, data))`; a non-2xx status must fit in `u16` |
| `MacResponse.NewDownloaded` | src/macos/response.rs:59-65 | directory, path and status are stored unchanged, and `copy_path` returns that path |
| `MacResponse.CopyPath` | src/macos/response.rs:58 | returns the stored path and changes nothing |
| `MacResponse.CheckDownloadStatus` | src/macos/response.rs:66-73 | as written: `Ok` exactly for 200..=298, otherwise `Err(StatusCode(code))` |
| `MacResponse.CheckDownloadStatusRejects299` | src/macos/response.rs:67-68 | status 299 is in the success class, but the as-written check rejects it |
| `MacResponse.DownloadAndResponseDisagreeOnlyAt299` | src/macos/response.rs:66-73 | the as-written download check agrees with the response check on every status except 299 |
| `MacResponse.CheckDownloadStatusIntended` | src/macos/response.rs:66-73 | corrected: `Ok` iff the status is 2xx, otherwise `Err(StatusCode(code))` |
| `MacResponse.DownloadAgreesWithResponse` | src/macos/response.rs:66-73 | the corrected download check agrees with the response check on every status |
| `LegacyResponse.NewResponse` | src/response.rs:23-28 | status and body are stored as delivered |
| `LegacyResponse.CheckStatus` | src/response.rs:36-47 | `Ok(data)` iff the status is 2xx; otherwise `Err((status, data))`; a non-2xx status must fit in `u16` |
| `LegacyResponse.CheckStatusMatchesCurrentVariant` | src/response.rs:39-44 | the older check agrees with the current macOS check on every status where neither check panics, with the same status and body in either branch |
| `LegacyResponse.NewDownloaded` | src/response.rs:57-59 | directory and path are stored unchanged, and `as_path` returns that path |
| `LegacyResponse.AsPath` | src/response.rs:54-56 | returns the stored path |
| `WinRequest.WithHeader` | src/windows/request.rs:44-52 | `Some(v)` leaves `key` mapped to `v`; `None` leaves `key` absent; every other key is unchanged |
| `WinRequest.LastWriteWins` | src/windows/request.rs:46 | a second `Some` on a key overwrites the first |
| `WinRequest.SetThenUnset` | src/windows/request.rs:45-50 | set then unset leaves the key absent, as if it had only been unset |
| `WinRequest.UnsetAbsentIsNoOp` | src/windows/request.rs:47-49 | removing an absent key changes nothing |
| `WinRequest.HeaderChainLastCallDecides` | src/windows/request.rs:44-52 | after any chain of `header` calls, each key holds what the last call on it said; keys no call names keep their values |
| `WinRequest.Request.New` | src/windows/request.rs:31-42 | always `Ok`, with the URL, no headers, no body and method `"GET"` |
| `WinRequest.Request.Header` | src/windows/request.rs:44-52 | the header map is updated as `WithHeader` says; URL, body and method are unchanged |
| `WinRequest.Request.Method` | src/windows/request.rs:54-57 | replaces only the method |
| `WinRequest.Request.Body` | src/windows/request.rs:59-62 | sets the body to `Some(b)` and nothing else |
| `WinRequest.Request.Defer` | src/windows/request.rs:129-136 | URL, headers, body and method are carried over unchanged |
| `WinRequest.SetThenUnsetChain` | src/windows/request.rs:47-49 | `new(url).header(k, Some(v)).header(k, None)` seals to a GET request without `k` |
| `WinRequest.AppendHeaders` | src/windows/request.rs:145-153 | each header map entry is appended exactly once (present, with no repeated key), and nothing else is appended |
| `WinRequest.SetupError` | src/windows/request.rs:156-169 | setup fails exactly when the URI parser or the send rejects; the URI error comes first; each failure is `PlatformError` carrying that call's own error code |
| `WinRequest.Send` | src/windows/request.rs:137-171 | fails exactly with the setup error; otherwise sends the user agent, every header once, the method, the URL and the body |
| `WinRequest.Perform` | src/windows/request.rs:64-71 | a send failure is `PlatformError`; otherwise a fresh `Response` on the message, with an empty cache |
| `WinRequest.DownloadStatusGate` | src/windows/request.rs:84-87 | `Err(StatusCode(status as u16))` iff the status is outside 2xx |
| `WinRequest.FileError` | src/windows/request.rs:96-115 | a failed Win32 call becomes `PcoreError`, a failed WinRT call becomes `PlatformError` |
| `WinRequest.Download` | src/windows/request.rs:76-118 | errors are checked in source order: setup, send, status gate, then temp file; a non-2xx status fails whatever the temp-file outcome; a `StatusCode` error is returned exactly when setup succeeds and the awaited status is not 2xx; a temp-file failure is `PcoreError` or `PlatformError`; success yields a fresh, undeleted `Downloaded` at the written path |
| `WinResponse.Response.constructor` | src/windows/response.rs:33-38 | a new response holds the message, has no cached data and has fetched nothing |
| `WinResponse.Response.GetData` | src/windows/response.rs:39-55 | the first call fetches once and returns and caches what the read yields; later calls return the cached value without fetching, whatever a new read would yield; the cache is never reset |
| `WinResponse.Response.CheckStatus` | src/windows/response.rs:61-70 | `Ok(())` iff the status is 2xx; otherwise `Err(status as u16)` |
| `WinResponse.ReadTwice` | src/windows/response.rs:39-55 | two reads of a fresh response both return what the first fetch yielded, even when a second fetch would have yielded something else |
| `WinResponse.Downloaded.Drop` | src/windows/response.rs:6-19 | dropping deletes the file; a delete that fails is a panic, modelled as the precondition that the file is still there |

## Left out

- The continuation cell of the `blocksr` crate is not part of this model. It
  covers the single resolution, cross-thread completion and the discarding
  of late callbacks. Only the guard it takes over (`TaskDropper`) is modelled.
- Native transport calls are not modelled. This covers `NSURLSession`, the
  WinRT `HttpClient`, `Uri::CreateUri` and `SendRequestAsync`. Their outcomes
  are inputs: a parser predicate, error codes and the delivered result.
- The macOS `header`, `method` and `body` (src/macos/request.rs:59-84) are not
  modelled. They only call setters on the foreign `NSMutableURLRequest`.
- `Data::as_slice` is not modelled: it is a foreign buffer read. `Data` keeps
  the bytes directly.
- src/request.rs (the older builder), src/client.rs,
  src/windows/bufferbridge.rs and winbindings/build.rs are not part of this
  model. They hold foreign state, lifetime discipline, a COM shim and build
  glue.
- Windows temp-file creation (src/windows/request.rs:90-117) is not modelled.
  It uses `GetTempPathW`, `GetTempFileNameW` and stream writes, so its
  outcome is the `tempFile` input: the path written, or a Win32 or WinRT
  failure code. The diagnostic `println!` is left out too.
- File-system effects are reduced to a ghost `deleted` flag. The model does
  not perform `std::fs::rename`, create a `tempdir`, or delete a `TempDir`
  when it drops; the last happens inside the `tempfile` crate.
- The `Display`/`From` impls of `Error` are not modelled. Only the enum's
  shape is used, and native errors are integer codes.
- `with_perror` is not part of this model. The macOS completions represent
  its result as `PcoreError(code)`.
- The `.unwrap()` calls on foreign results are assumed to succeed. On macOS
  they are the scratch path, `tempdir()` and `rename`. On Windows they are
  `HttpClient::new`, `DefaultRequestHeaders()`, `UserAgent()` and its
  `ParseAdd`, the header `Append` calls, `HttpRequestMessage::new()`,
  `HttpMethod::Create`, `SetMethod`, `SetRequestUri` and `SetContent`
  (src/windows/request.rs:140-166). They also include `StatusCode()`,
  `Content()`, `ReadAsBufferAsync`, the awaited buffer and its `cast` in
  `data()`.
- `WinRequest.Perform`: the panic on a failed setup (the `unwrap` at
  src/windows/request.rs:67) is a precondition, not an error value.
- `MacResponse.CheckStatus`: a non-2xx status outside the `u16` range panics
  in `try_into().unwrap()`, so it is a precondition. The same holds for
  `LegacyResponse.CheckStatus`.
- `MacRequest.Download`: it requires a plain file name (non-empty, no `/`),
  which every request from `New` has. Paths are lists of components, and a
  join pushes one component. That component names a file inside the
  directory only when it is not `.` or `..`.
- `MacRequest.Download` does not capture the panic for a URL ending in `/.`
  or `/..`. Such a URL gets the file name `.` or `..`
  (`MacRequest.DotUrlTargetsDirectory`). The rename target is then the
  temporary directory itself or its parent. The `rename(..).unwrap()` at
  src/macos/request.rs:127 fails on a directory target, so the completion
  handler panics. The model assumes the rename succeeds.
- `WinResponse.Response.GetData`: abandoned `data()` futures are not
  modelled. `data()` is `async`: it starts the read at
  src/windows/response.rs:45, awaits it at line 46 and sets the cache at
  line 48. A future dropped at that await has fetched without caching, so
  the next call fetches again. The model treats every call as running to
  completion, so at-most-once fetching holds only for completed calls.
- `WinRequest.AppendHeaders`: the `HashMap` iteration order is unspecified,
  so the model picks any remaining key. The result says which entries were
  appended, not in which order.
- `WinRequest.Send`: `UserAgent().ParseAdd` is represented by the
  `userAgent` field of the outgoing request.

## Findings

| source | as written | input that shows it | evidently intended | confidence | as-written member | corrected member |
|---|---|---|---|---|---|---|
| src/macos/response.rs:67 | `Downloaded::check_status` fails when `code < 200 \|\| code >= 299` | a download whose response status is 299 gives `Err(StatusCode(299))` (`MacResponse.CheckDownloadStatusRejects299`) | fail only outside 200..=299, like `Response::check_status` at src/macos/response.rs:40 and the Windows checks (`MacResponse.DownloadAgreesWithResponse`) | medium; not executed | `MacResponse.CheckDownloadStatus` | `MacResponse.CheckDownloadStatusIntended` |
