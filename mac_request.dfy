/**
  The macOS request builder (src/macos/request.rs): URL validation and the
  derivation of the download file name in `Request::new`, the drop guards that
  cancel an abandoned native task, and what the two completion handlers build
  from the transport's delivery.

  The native `NSMutableURLRequest` is represented by the URL string it was
  created from; the platform URL parser is a predicate passed in by the
  caller. `header`, `method` and `body` only call setters on that foreign
  object and are not part of this model.
 */
module MacRequest {
  import opened Requestr
  import opened MacResponse

  /** The name used when the URL ends in `/`. */
  const DefaultFileName: string := "requestsr"

  /** A request under construction: its URL and the derived download file name. */
  datatype Request = Request(url: string, fileName: string)

  /** One non-empty path component without `/` (this includes `.` and `..`). */
  predicate IsFileName(s: string) {
    s != [] && '/' !in s
  }

  /**
    The text after the last `/` of `s` (all of `s` when there is none): the
    first item of Rust's `s.rsplit("/")`.
   */
  function LastSegment(s: string): (seg: string)
    ensures |seg| <= |s| && seg == s[|s| - |seg|..]
    ensures '/' !in seg
    ensures |seg| < |s| ==> s[|s| - |seg| - 1] == '/'
  {
    if s == [] || s[|s| - 1] == '/' then []
    else
      var prefix := s[..|s| - 1];
      var seg := LastSegment(prefix) + [s[|s| - 1]];
      assert s == prefix + [s[|s| - 1]];
      seg
  }

  /**
    The three facts of `LastSegment`'s contract pin it down: any suffix free
    of `/` that is either all of `s` or preceded by `/` is the last segment.
   */
  lemma LastSegmentUnique(s: string, t: string)
    requires |t| <= |s| && t == s[|s| - |t|..]
    requires '/' !in t
    requires |t| < |s| ==> s[|s| - |t| - 1] == '/'
    ensures t == LastSegment(s)
  {
  }

  /** The segment after the final `/` of a URL is its last segment. */
  lemma LastSegmentAfterSlash(prefix: string, seg: string)
    requires '/' !in seg
    ensures LastSegment(prefix + "/" + seg) == seg
  {
    var s := prefix + "/" + seg;
    assert s[|s| - |seg|..] == seg;
    assert |seg| < |s| && s[|s| - |seg| - 1] == '/';
    LastSegmentUnique(s, seg);
  }

  /** A string without `/` is its own last segment. */
  lemma LastSegmentWithoutSlash(s: string)
    requires '/' !in s
    ensures LastSegment(s) == s
  {
    LastSegmentUnique(s, s);
  }

  /**
    `s.rsplit("/")`: the pieces between the `/`s of `s`, last piece first.
    Scanning `s` from its end, a `/` starts a new (empty) first piece and any
    other character is prepended to the current first piece.
   */
  function RSplit(s: string): (pieces: seq<string>)
    ensures |pieces| >= 1
    decreases |s|
  {
    if s == [] then [[]]
    else
      var rest := RSplit(s[..|s| - 1]);
      if s[|s| - 1] == '/' then [[]] + rest
      else [rest[0] + [s[|s| - 1]]] + rest[1..]
  }

  /** The first piece of `rsplit("/")` is the last segment. */
  lemma {:induction false} RSplitFirstIsLastSegment(s: string)
    ensures RSplit(s)[0] == LastSegment(s)
    decreases |s|
  {
    if s != [] {
      RSplitFirstIsLastSegment(s[..|s| - 1]);
    }
  }

  /** No piece of `rsplit("/")` contains `/`. */
  lemma {:induction false} RSplitPiecesHaveNoSlash(s: string)
    ensures forall p :: p in RSplit(s) ==> '/' !in p
    decreases |s|
  {
    if s != [] {
      var rest := RSplit(s[..|s| - 1]);
      RSplitPiecesHaveNoSlash(s[..|s| - 1]);
      if s[|s| - 1] != '/' {
        assert rest == [rest[0]] + rest[1..];
        assert '/' !in rest[0] + [s[|s| - 1]];
      }
    }
  }

  /** The pieces, read back to front, joined with `/`: the inverse of `RSplit`. */
  function JoinReversed(pieces: seq<string>): (s: string)
    requires |pieces| >= 1
  {
    if |pieces| == 1 then pieces[0]
    else JoinReversed(pieces[1..]) + "/" + pieces[0]
  }

  /** A character added to the first piece ends up at the end of the joined string. */
  lemma JoinReversedExtendsFirst(p: string, rest: seq<string>, c: char)
    ensures JoinReversed([p + [c]] + rest) == JoinReversed([p] + rest) + [c]
  {
    if rest != [] {
      assert ([p + [c]] + rest)[1..] == rest;
      assert ([p] + rest)[1..] == rest;
    }
  }

  /** Joining the pieces of `rsplit("/")` back together gives the original string. */
  lemma {:induction false} RSplitJoins(s: string)
    ensures JoinReversed(RSplit(s)) == s
    decreases |s|
  {
    if s != [] {
      var prefix, c := s[..|s| - 1], s[|s| - 1];
      var rest := RSplit(prefix);
      RSplitJoins(prefix);
      assert s == prefix + [c];
      if c == '/' {
        assert ([[]] + rest)[1..] == rest;
      } else {
        assert rest == [rest[0]] + rest[1..];
        JoinReversedExtendsFirst(rest[0], rest[1..], c);
      }
    }
  }

  /** Characters other than `/` appended to a string extend its first piece. */
  lemma {:induction false} RSplitAppend(t: string, seg: string)
    requires '/' !in seg
    ensures RSplit(t + seg) == [RSplit(t)[0] + seg] + RSplit(t)[1..]
    decreases |seg|
  {
    if seg == [] {
      var r := RSplit(t);
      assert t + seg == t && r[0] + seg == r[0];
      assert r == [r[0]] + r[1..];
    } else {
      var init, c := seg[..|seg| - 1], seg[|seg| - 1];
      assert seg == init + [c];
      RSplitAppend(t, init);
      var r, m := RSplit(t), RSplit(t + init);
      assert m[0] == r[0] + init && m[1..] == r[1..];
      var s := t + seg;
      assert s[..|s| - 1] == t + init;
      assert s[|s| - 1] == c && c != '/';
      assert RSplit(s) == [m[0] + [c]] + m[1..];
      assert m[0] + [c] == r[0] + seg;
      assert [m[0] + [c]] + m[1..] == [r[0] + seg] + r[1..];
    }
  }

  /** A `/`-free piece after a final `/` is split off first. */
  lemma RSplitAfterSlash(rest: string, seg: string)
    requires '/' !in seg
    ensures RSplit(rest + "/" + seg) == [seg] + RSplit(rest)
  {
    var slashed := rest + "/";
    assert slashed[..|slashed| - 1] == rest && slashed[|slashed| - 1] == '/';
    var r := RSplit(slashed);
    assert r == [[]] + RSplit(rest);
    assert r[0] + seg == seg && r[1..] == RSplit(rest);
    RSplitAppend(slashed, seg);
  }

  /** Splitting a `/`-joined list of `/`-free pieces gives the pieces back. */
  lemma {:induction false} JoinSplits(pieces: seq<string>)
    requires |pieces| >= 1
    requires forall i :: 0 <= i < |pieces| ==> '/' !in pieces[i]
    ensures RSplit(JoinReversed(pieces)) == pieces
    decreases |pieces|
  {
    if |pieces| == 1 {
      RSplitAppend([], pieces[0]);
      assert [] + pieces[0] == pieces[0];
    } else {
      var tail := pieces[1..];
      assert forall i :: 0 <= i < |tail| ==> tail[i] == pieces[i + 1];
      JoinSplits(tail);
      RSplitAfterSlash(JoinReversed(tail), pieces[0]);
      assert pieces == [pieces[0]] + tail;
    }
  }

  /**
    `url.rsplit("/").next()`: the first piece, or `None` when there is none.
    `RSplit` always yields a piece, so the result is the last segment.
   */
  function RSplitNext(s: string): (r: Option<string>)
    ensures r.Some? && r.value == LastSegment(s)
  {
    RSplitFirstIsLastSegment(s);
    var pieces := RSplit(s);
    if pieces == [] then None else Some(pieces[0])
  }

  /**
    `Request::new`. Fails with `InvalidURL(url)` exactly when the platform
    parser rejects the string; otherwise keeps the text after the last `/` of
    the URL as the file name, or `DefaultFileName` when that text is empty.
   */
  function New(url: string, parses: string -> bool): (r: Result<Request, Error>)
    ensures r.Err? <==> !parses(url)
    ensures r.Err? ==> r.error == InvalidURL(url)
    ensures r.Ok? ==> r.value.url == url && IsFileName(r.value.fileName)
    ensures r.Ok? && LastSegment(url) != [] ==> r.value.fileName == LastSegment(url)
    ensures r.Ok? && LastSegment(url) == [] ==> r.value.fileName == DefaultFileName
  {
    assert IsFileName(DefaultFileName) by {
      assert DefaultFileName[0] == 'r';
      assert forall i | 0 <= i < |DefaultFileName| :: DefaultFileName[i] != '/';
    }
    if !parses(url) then Err(InvalidURL(url))
    else
      match RSplitNext(url)
      case None => Err(InvalidURL(url))
      case Some(proposed) =>
        Ok(Request(url, if proposed == [] then DefaultFileName else proposed))
  }

  /** `https://host/a/report.json` gives the file name `report.json`. */
  lemma FileNameIsFinalSegment(prefix: string, seg: string, parses: string -> bool)
    requires parses(prefix + "/" + seg)
    requires seg != [] && '/' !in seg
    ensures New(prefix + "/" + seg, parses) == Ok(Request(prefix + "/" + seg, seg))
  {
    LastSegmentAfterSlash(prefix, seg);
  }

  /** A URL ending in `/` gets the fallback name. */
  lemma TrailingSlashGetsDefaultName(prefix: string, parses: string -> bool)
    requires parses(prefix + "/")
    ensures New(prefix + "/", parses) == Ok(Request(prefix + "/", DefaultFileName))
  {
    LastSegmentAfterSlash(prefix, "");
    assert prefix + "/" + "" == prefix + "/";
  }

  /** A URL without any `/` is used whole as the file name. */
  lemma NoSlashUsesWholeUrl(url: string, parses: string -> bool)
    requires parses(url) && url != [] && '/' !in url
    ensures New(url, parses) == Ok(Request(url, url))
  {
    LastSegmentWithoutSlash(url);
  }

  /**
    A URL ending in `/.` or `/..` gets `.` or `..` as its file name: a path
    component that names the directory itself or its parent, not a file in it.
   */
  predicate NamesDirectory(name: string) {
    name == "." || name == ".."
  }

  /** The kind of native task a guard owns. */
  datatype TaskKind = DataTask | DownloadTask

  /**
    A native `NSURLSessionDataTask` or `NSURLSessionDownloadTask`. The model
    sees whether it was resumed and counts the `cancel` calls it received.
   */
  class Task {
    const kind: TaskKind
    var resumed: bool
    ghost var cancels: nat

    constructor (kind: TaskKind)
      ensures this.kind == kind && !resumed && cancels == 0
    {
      this.kind := kind;
      resumed := false;
      cancels := 0;
    }

    method Resume()
      modifies this
      ensures resumed && cancels == old(cancels)
    {
      resumed := true;
    }

    method Cancel()
      modifies this
      ensures cancels == old(cancels) + 1 && resumed == old(resumed)
    {
      cancels := cancels + 1;
    }
  }

  /**
    `DataTaskDropper` and `DownloadTaskDropper`: own a task and cancel it when
    dropped. Rust runs `drop` once per value; `dropped` records that it ran.
   */
  class TaskDropper {
    const task: Task
    var dropped: bool

    constructor (task: Task)
      ensures this.task == task && !dropped
    {
      this.task := task;
      dropped := false;
    }

    method Drop()
      requires !dropped
      modifies this, task
      ensures dropped
      ensures task.cancels == old(task.cancels) + 1 && task.resumed == old(task.resumed)
    {
      task.Cancel();
      dropped := true;
    }
  }

  /**
    The synchronous setup of `perform` and `download`: create the native task,
    resume it and wrap it in its drop guard, which the continuation takes over.
   */
  method StartTask(kind: TaskKind) returns (guard: TaskDropper)
    ensures fresh(guard) && fresh(guard.task)
    ensures guard.task.kind == kind && guard.task.resumed
    ensures guard.task.cancels == 0 && !guard.dropped
  {
    var task := new Task(kind);
    task.Resume();
    guard := new TaskDropper(task);
  }

  /**
    A continuation abandoned before the transport delivers drops its guard:
    the task receives exactly one cancel.
   */
  method AbandonBeforeDelivery(kind: TaskKind) returns (task: Task)
    ensures fresh(task) && task.kind == kind && task.resumed && task.cancels == 1
  {
    var guard := StartTask(kind);
    guard.Drop();
    task := guard.task;
  }

  /**
    The completion of `perform`: the delivered pair becomes a `Response`; a
    native error becomes the crate's error (the conversion `with_perror` is
    not part of this model and is represented by `PcoreError`).
   */
  function CompletePerform(delivered: Result<(Data, int64), int>): (r: Result<Response, Error>)
    ensures r.Ok? <==> delivered.Ok?
    ensures r.Ok? ==> r.value.data == delivered.value.0 && r.value.status == delivered.value.1
    ensures r.Err? ==> r.error == PcoreError(delivered.error)
  {
    match delivered
    case Ok((data, status)) => Ok(NewResponse(status, data))
    case Err(e) => Err(PcoreError(e))
  }

  /**
    End to end: the body the transport delivered is the one `check_status`
    hands back, in the success and in the failure branch.
   */
  lemma PerformedBodySurvivesCheckStatus(data: Data, status: int64)
    requires IsSuccessClass(status) || 0 <= status < 0x1_0000
    ensures var r := CompletePerform(Ok((data, status)));
            && r.Ok?
            && var c := CheckStatus(r.value);
            && (c.Ok? <==> IsSuccessClass(status))
            && (c.Ok? ==> c.value == data)
            && (c.Err? ==> c.error == (status as uint16, data))
  {
  }

  /** What the download task delivers: the scratch file's location and the status. */
  datatype NativeDownload = NativeDownload(location: Path, status: uint16)

  /**
    The completion of `download`: the scratch file is moved into the fresh
    temporary directory `dir` under the request's file name, which is only
    read; a native error becomes the crate's error.
   */
  function Download(req: Request, dir: Path, delivered: Result<NativeDownload, int>): (r: Result<Downloaded, Error>)
    requires IsFileName(req.fileName)
    ensures r.Ok? <==> delivered.Ok?
    ensures r.Ok? ==> r.value.tempDir == dir && r.value.code == delivered.value.status
    ensures r.Ok? ==> |r.value.path| == |dir| + 1 && r.value.path[..|dir|] == dir
    ensures r.Ok? ==> r.value.path[|dir|] == req.fileName
    ensures r.Err? ==> r.error == PcoreError(delivered.error)
  {
    match delivered
    case Ok(native) => Ok(NewDownloaded(dir, dir + [req.fileName], native.status))
    case Err(e) => Err(PcoreError(e))
  }

  /**
    End to end: a download of `prefix/seg` lands in the temporary directory
    under `seg`, or under the fallback name when `seg` is empty.
   */
  lemma DownloadLandsUnderDerivedName(prefix: string, seg: string, parses: string -> bool, dir: Path, native: NativeDownload)
    requires parses(prefix + "/" + seg) && '/' !in seg
    ensures var req := New(prefix + "/" + seg, parses);
            && req.Ok?
            && Download(req.value, dir, Ok(native))
               == Ok(Downloaded(dir, dir + [if seg == [] then DefaultFileName else seg], native.status))
  {
    LastSegmentAfterSlash(prefix, seg);
  }

  /**
    The target of the download of a URL ending in `/.` or `/..` is `dir/.` or
    `dir/..`: the directory itself or its parent, so the move onto it cannot
    produce a file inside `dir`.
   */
  lemma DotUrlTargetsDirectory(prefix: string, dot: string, parses: string -> bool, dir: Path, native: NativeDownload)
    requires NamesDirectory(dot) && parses(prefix + "/" + dot)
    ensures var req := New(prefix + "/" + dot, parses);
            && req.Ok? && req.value.fileName == dot
            && Download(req.value, dir, Ok(native)).value.path == dir + [dot]
  {
    assert '/' !in dot by {
      assert forall i | 0 <= i < |dot| :: dot[i] == '.';
    }
    DownloadLandsUnderDerivedName(prefix, dot, parses, dir, native);
  }
}
