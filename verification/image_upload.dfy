/** The image upload service: the result of a single upload, the simulated
    batch upload (URLs built from a timestamp and the file name, and the
    timer's progress ticks), and deletion by the file name at the end of an
    image URL. The HTTP calls are replaced by the server's answer, passed in. */
module ImageUpload {
  import opened Options
  import opened Text

  const ApiUrl: string := "http://localhost:8000/api"
  const UploadsBase: string := "http://localhost:8000/uploads/"

  const UploadFailed: string := "Upload failed"
  const DeleteFailed: string := "Delete failed"
  const InvalidImageUrl: string := "Invalid image URL"

  /** What an upload reports. */
  datatype UploadResponse = UploadResponse(url: string, success: bool, message: Option<string>)

  /** What a delete reports. */
  datatype DeleteResponse = DeleteResponse(success: bool, message: Option<string>)

  /** The server's answer to a request: accepted (with the stored image's URL
      for an upload), or refused with an optional message in the body. */
  datatype ServerAnswer = Accepted(url: string) | Refused(message: Option<string>)

  /** A server message, or the fallback when it is absent or empty. */
  function MessageOr(message: Option<string>, fallback: string): (r: string)
    ensures message.Some? && message.value != "" ==> r == message.value
    ensures message.None? || message.value == "" ==> r == fallback
  {
    if message.Some? && message.value != "" then message.value else fallback
  }

  // ---------------------------------------------------------------------
  // Single upload
  // ---------------------------------------------------------------------

  /** Uploading one file: the server's URL on success; on failure an empty
      URL and the server's message, or "Upload failed" without one. */
  function UploadImage(answer: ServerAnswer): (r: UploadResponse)
    ensures r.success <==> answer.Accepted?
    ensures answer.Accepted? ==> r.url == answer.url && r.message.None?
    ensures answer.Refused? ==> r.url == "" && r.message.Some? && r.message.value != ""
    ensures answer.Refused? && answer.message.Some? && answer.message.value != "" ==>
      r.message == answer.message
  {
    match answer
    case Accepted(url) => UploadResponse(url, true, None)
    case Refused(message) => UploadResponse("", false, Some(MessageOr(message, UploadFailed)))
  }

  /** A failed upload never looks like a successful one: it has no URL and
      always carries a message. */
  lemma FailedUploadsAreRecognisable(a: ServerAnswer, b: ServerAnswer)
    requires a.Refused? && b.Accepted? && b.url != ""
    ensures UploadImage(a) != UploadImage(b)
    ensures UploadImage(a).message.Some? && UploadImage(b).message.None?
  {
  }

  // ---------------------------------------------------------------------
  // Simulated batch upload
  // ---------------------------------------------------------------------

  /** The simulated URL of a file stored at time `now`: whitespace in the
      name becomes dashes. */
  function StoredUrl(now: nat, name: string): (url: string)
    ensures UploadsBase <= url
  {
    UploadsBase + DecimalString(now) + "-" + DashWhitespace(name)
  }

  /** A stored URL ends with the file's name, each whitespace character
      replaced by '-'. */
  lemma StoredUrlEndsWithDashedName(now: nat, name: string)
    ensures |name| <= |StoredUrl(now, name)|
    ensures StoredUrl(now, name)[|StoredUrl(now, name)| - |name|..] == DashWhitespace(name)
  {
  }

  /** Uploading several files: one response per file, in order; file `i`
      gets a URL built from the clock's reading `clock(i)` when it is mapped.
      When the batch throws, every file gets an empty URL and "Upload failed". */
  function UploadMultipleImages(names: seq<string>, clock: nat -> nat, threw: bool): (r: seq<UploadResponse>)
    ensures |r| == |names|
    ensures forall i :: 0 <= i < |r| ==> (r[i].success <==> !threw)
    ensures !threw ==> forall i :: 0 <= i < |r| ==> r[i].url == StoredUrl(clock(i), names[i]) && r[i].message.None?
    ensures threw ==> forall i :: 0 <= i < |r| ==> r[i] == UploadResponse("", false, Some(UploadFailed))
  {
    if threw then seq(|names|, i => UploadResponse("", false, Some(UploadFailed)))
    else seq(|names|, i requires 0 <= i < |names| => UploadResponse(StoredUrl(clock(i), names[i]), true, None))
  }

  const ProgressDone: int := 100
  const ProgressStep: int := 10

  /** The values the progress timer reports: `step`, `2 * step`, ... up to
      and including the first one of at least 100; nothing without a callback. */
  method ProgressTicks(hasCallback: bool, step: int) returns (ticks: seq<int>)
    requires step > 0
    ensures !hasCallback ==> ticks == []
    ensures hasCallback ==> |ticks| >= 1 && ProgressDone <= ticks[|ticks| - 1] < ProgressDone + step
    ensures forall i :: 0 <= i < |ticks| ==> ticks[i] == step * (i + 1)
    ensures forall i :: 0 <= i < |ticks| - 1 ==> ticks[i] < ProgressDone
    ensures hasCallback && step == ProgressStep ==> ticks == [10, 20, 30, 40, 50, 60, 70, 80, 90, 100]
  {
    ticks := [];
    if !hasCallback {
      return;
    }
    var progress := 0;
    while true
      invariant progress == step * |ticks| && progress < ProgressDone
      invariant forall i :: 0 <= i < |ticks| ==> ticks[i] == step * (i + 1)
      invariant forall i :: 0 <= i < |ticks| ==> ticks[i] < ProgressDone
      decreases ProgressDone - progress
    {
      progress := progress + step;
      ticks := ticks + [progress];
      if progress >= ProgressDone {
        if step == ProgressStep {
          assert |ticks| == 10;
        }
        return;
      }
    }
  }

  // ---------------------------------------------------------------------
  // Delete
  // ---------------------------------------------------------------------

  /** The name of the file an image URL points at: what follows its last '/'
      (the whole URL when it has none). */
  function FileName(url: string): (name: string)
    ensures '/' !in name
    ensures |name| <= |url| && url[|url| - |name|..] == name
    ensures |name| < |url| ==> url[|url| - |name| - 1] == '/'
  {
    LastSegment(url, '/')
  }

  /** A URL names no file exactly when it is empty or ends with '/'. */
  lemma NoFileNameIffTrailingSlash(url: string)
    ensures FileName(url) == "" <==> url == "" || url[|url| - 1] == '/'
  {
    var name := FileName(url);
    if name != "" && url != "" {
      assert name[|name| - 1] == url[|url| - 1];
    }
  }

  /** Deleting the image at `url`: the request made (the path of the file to
      delete), and the response. A URL with no file name is refused without
      a request; otherwise the server's answer decides. */
  function DeleteImage(url: string, answer: ServerAnswer): (r: (Option<string>, DeleteResponse))
    ensures FileName(url) == "" ==> r == (None, DeleteResponse(false, Some(InvalidImageUrl)))
    ensures FileName(url) != "" ==> r.0 == Some(ApiUrl + "/uploads/" + FileName(url))
    ensures FileName(url) != "" ==> (r.1.success <==> answer.Accepted?)
    ensures FileName(url) != "" && answer.Accepted? ==> r.1.message.None?
    ensures FileName(url) != "" && answer.Refused? ==> r.1.message == Some(MessageOr(answer.message, DeleteFailed))
  {
    var name := FileName(url);
    if name == "" then (None, DeleteResponse(false, Some(InvalidImageUrl)))
    else
      var request := Some(ApiUrl + "/uploads/" + name);
      match answer
      case Accepted(_) => (request, DeleteResponse(true, None))
      case Refused(message) => (request, DeleteResponse(false, Some(MessageOr(message, DeleteFailed))))
  }

  /** The stored file name: the timestamp, a dash and the dashed name. */
  function StoredFile(now: nat, name: string): (file: string)
    ensures DecimalString(now) <= file
    ensures StoredUrl(now, name) == UploadsBase + file
  {
    var file := DecimalString(now) + "-" + DashWhitespace(name);
    assert UploadsBase + DecimalString(now) + "-" + DashWhitespace(name) == UploadsBase + file;
    file
  }

  /** A stored file name has no '/' when the original name has none. */
  lemma {:induction false} StoredFileHasNoSlash(now: nat, name: string)
    requires '/' !in name
    ensures '/' !in StoredFile(now, name)
  {
    var digits := DecimalString(now);
    var dashed := DashWhitespace(name);
    var file := StoredFile(now, name);
    forall i | 0 <= i < |file|
      ensures file[i] != '/'
    {
      if i < |digits| {
        assert file[i] == digits[i] && IsDigit(digits[i]);
      } else if i > |digits| {
        assert file[i] == dashed[i - |digits| - 1];
      }
    }
  }

  /** Deleting an image the batch upload produced asks for exactly the
      stored file, and the upload time can be read back from its name. */
  lemma {:induction false} DeleteTargetsStoredFile(now: nat, name: string, answer: ServerAnswer)
    requires '/' !in name
    ensures FileName(StoredUrl(now, name)) == StoredFile(now, name)
    ensures DeleteImage(StoredUrl(now, name), answer).0 == Some(ApiUrl + "/uploads/" + StoredFile(now, name))
    ensures ParseDecimal(FileName(StoredUrl(now, name))[..|DecimalString(now)|]) == now
  {
    var url := StoredUrl(now, name);
    var file := StoredFile(now, name);
    var j := |UploadsBase|;
    assert url[j..] == file;
    StoredFileHasNoSlash(now, name);
    LastSegmentOfSuffix(url, '/', j);
    LastSegmentWithoutSeparator(file, '/');
    assert file[..|DecimalString(now)|] == DecimalString(now);
    DecimalRoundTrip(now);
  }
}
