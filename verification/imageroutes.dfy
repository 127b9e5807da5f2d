/**
 * The three image-serving endpoints, which turn a handle (`fileId`) into a
 * stream from the hosting service:
 *
 * - `GET /user/images/:fileId` always resolves (with retries) and picks
 *   `image/png` or `image/jpeg`;
 * - `GET /post/images/:fileId` looks the record up, resolves only when no
 *   path is stored, saves a fresh path, and derives the type from the
 *   extension;
 * - `GET /api/images/:fileId` looks the record up, always re-resolves (with
 *   retries), saves the path and answers `image/jpeg`.
 *
 * Streaming the bytes is reduced to whether the download succeeds.
 */
module ImageRoutes {
  import opened Common
  import opened Strings
  import opened Models
  import opened Retry

  /** `filePath.split('.').pop()`. */
  function Extension(path: string): string {
    LastSegment(path, '.')
  }

  /** The content type chosen by `/user/images`: PNG exactly for a `png` extension, JPEG otherwise. */
  function ProfileContentType(path: string): (ct: string)
    ensures ct == "image/png" <==> Extension(path) == "png"
    ensures ct != "image/png" ==> ct == "image/jpeg"
  {
    if Extension(path) == "png" then "image/png" else "image/jpeg"
  }

  /** The content type chosen by `/post/images`: `image/` and the extension, with `jpg` written `jpeg`. */
  function DetailsContentType(path: string): (ct: string)
    ensures StartsWith(ct, "image/")
    ensures Extension(path) == "jpg" ==> ct == "image/jpeg"
    ensures Extension(path) != "jpg" ==> ct[6..] == Extension(path)
  {
    var ext := Extension(path);
    "image/" + (if ext == "jpg" then "jpeg" else ext)
  }

  /** The extension of a path is what follows its last dot. */
  lemma {:induction false} ExtensionAfterLastDot(stem: string, ext: string)
    requires '.' !in ext
    ensures Extension(stem + "." + ext) == ext
    decreases |ext|
  {
    var s := stem + "." + ext;
    if |ext| > 0 {
      var init := ext[..|ext| - 1];
      assert s[..|s| - 1] == stem + "." + init;
      assert s[|s| - 1] == ext[|ext| - 1];
      ExtensionAfterLastDot(stem, init);
      assert ext == init + [ext[|ext| - 1]];
    }
  }

  /** For a file path `stem.ext`, the two endpoints' content types as a function of `ext`. */
  lemma ContentTypesOfPath(stem: string, ext: string)
    requires '.' !in ext
    ensures ProfileContentType(stem + "." + ext) == if ext == "png" then "image/png" else "image/jpeg"
    ensures DetailsContentType(stem + "." + ext) == "image/" + (if ext == "jpg" then "jpeg" else ext)
  {
    ExtensionAfterLastDot(stem, ext);
  }

  /** What an image endpoint answers, the image records afterwards, and the calls it made. */
  datatype ImageReply = ImageReply(status: int, contentType: Option<string>, store: seq<Image>, resolveCalls: nat, downloadCalls: nat)

  /**
   * `GET /user/images/:fileId`: 500 without a bot token; otherwise the path
   * is resolved and the file downloaded, each with `fetchWithRetry`'s
   * defaults; either one failing answers 500.
   */
  function ServeProfileImage(tokenConfigured: bool, resolveAnswers: Answers<string>, downloadAnswers: Answers<()>, store: seq<Image>): (r: ImageReply)
    ensures r.store == store
    ensures !tokenConfigured ==> r.status == 500 && r.resolveCalls == 0 && r.downloadCalls == 0
    ensures r.resolveCalls <= DefaultRetries + 1 && r.downloadCalls <= DefaultRetries + 1
    ensures r.status == 200 <==>
              tokenConfigured && SucceedsWithin(resolveAnswers, DefaultRetries + 1) && SucceedsWithin(downloadAnswers, DefaultRetries + 1)
    ensures r.status == 200 ==>
              r.contentType == Some(ProfileContentType(FetchWithRetry(resolveAnswers, DefaultRetries, DefaultDelayMs).result.value))
    ensures r.status != 200 ==> r.status == 500
  {
    if !tokenConfigured then ImageReply(500, None, store, 0, 0)
    else
      var resolved := FetchWithRetry(resolveAnswers, DefaultRetries, DefaultDelayMs);
      FetchWithRetrySpec(resolveAnswers, DefaultRetries, DefaultDelayMs);
      if resolved.result.Failed? then ImageReply(500, None, store, resolved.calls, 0)
      else
        var download := FetchWithRetry(downloadAnswers, DefaultRetries, DefaultDelayMs);
        FetchWithRetrySpec(downloadAnswers, DefaultRetries, DefaultDelayMs);
        if download.result.Failed? then ImageReply(500, None, store, resolved.calls, download.calls)
        else ImageReply(200, Some(ProfileContentType(resolved.result.value)), store, resolved.calls, download.calls)
  }

  /** `Image.findOne({fileId})`: the index of the first record with that handle. */
  function FindByFileId(store: seq<Image>, fileId: string): (r: Option<nat>)
    ensures r.None? <==> forall i :: 0 <= i < |store| ==> store[i].fileId != fileId
    ensures r.Some? ==> r.value < |store| && store[r.value].fileId == fileId
                        && forall i :: 0 <= i < r.value ==> store[i].fileId != fileId
    decreases |store|
  {
    if |store| == 0 then None
    else if store[0].fileId == fileId then Some(0)
    else match FindByFileId(store[1..], fileId)
      case None => None
      case Some(i) => Some(i + 1)
  }

  const FileNotFound := "file not found"

  /**
   * `GET /post/images/:fileId`. An unknown handle answers 404 with no
   * external call. A stored path is reused; only a record without one is
   * resolved, by a single call whose path is saved onto the record before
   * the download starts. A failed resolution answers 404 when the service's
   * description mentions "file not found" and 500 otherwise; a failed
   * download answers 500.
   */
  function ServeDetailsImage(store: seq<Image>, fileId: string, resolveAnswer: Attempt<string>, downloadOk: bool): (r: ImageReply)
    ensures FindByFileId(store, fileId).None? ==> r == ImageReply(404, None, store, 0, 0)
    ensures FindByFileId(store, fileId).Some? ==>
      var i := FindByFileId(store, fileId).value;
      var img := store[i];
      && (Truthy(img.filePath) ==>
            && r.resolveCalls == 0 && r.store == store && r.downloadCalls == 1
            && r.status == (if downloadOk then 200 else 500)
            && (downloadOk ==> r.contentType == Some(DetailsContentType(img.filePath.value))))
      && (!Truthy(img.filePath) ==> r.resolveCalls == 1)
      && (!Truthy(img.filePath) && resolveAnswer.Failed? ==>
            && r.store == store && r.downloadCalls == 0
            && r.status == (if Contains(resolveAnswer.error.description, FileNotFound) then 404 else 500))
      && (!Truthy(img.filePath) && resolveAnswer.Succeeded? ==>
            && r.store == store[i := img.(filePath := Some(resolveAnswer.value))]
            && r.downloadCalls == 1
            && r.status == (if downloadOk then 200 else 500)
            && (downloadOk ==> r.contentType == Some(DetailsContentType(resolveAnswer.value))))
  {
    match FindByFileId(store, fileId)
    case None => ImageReply(404, None, store, 0, 0)
    case Some(i) =>
      var img := store[i];
      if Truthy(img.filePath) then Download(store, img.filePath.value, 0, downloadOk)
      else match resolveAnswer
        case Failed(e) =>
          ImageReply(if Contains(e.description, FileNotFound) then 404 else 500, None, store, 1, 0)
        case Succeeded(p) =>
          Download(store[i := img.(filePath := Some(p))], p, 1, downloadOk)
  }

  /** The download step of `/post/images`: the type is set from the path once the service responds. */
  function Download(store: seq<Image>, path: string, resolveCalls: nat, ok: bool): ImageReply {
    if ok then ImageReply(200, Some(DetailsContentType(path)), store, resolveCalls, 1)
    else ImageReply(500, None, store, resolveCalls, 1)
  }

  /**
   * `GET /api/images/:fileId`. An unknown handle answers 404 with no external
   * call. Otherwise the path is always re-resolved with retries, even if one
   * is stored, and saved onto the record; the download is retried too; the
   * type is always `image/jpeg`; any exhausted retry answers 500.
   */
  function ServeApiImage(store: seq<Image>, fileId: string, resolveAnswers: Answers<string>, downloadAnswers: Answers<()>): (r: ImageReply)
    ensures FindByFileId(store, fileId).None? ==> r == ImageReply(404, None, store, 0, 0)
    ensures FindByFileId(store, fileId).Some? ==>
      var i := FindByFileId(store, fileId).value;
      var resolved := FetchWithRetry(resolveAnswers, DefaultRetries, DefaultDelayMs);
      && 1 <= r.resolveCalls <= DefaultRetries + 1
      && (resolved.result.Failed? ==> r.status == 500 && r.store == store && r.downloadCalls == 0)
      && (resolved.result.Succeeded? ==>
            && r.store == store[i := store[i].(filePath := Some(resolved.result.value))]
            && 1 <= r.downloadCalls <= DefaultRetries + 1
            && (r.status == 200 <==> SucceedsWithin(downloadAnswers, DefaultRetries + 1))
            && (r.status != 200 ==> r.status == 500 && r.contentType.None?)
            && (r.status == 200 ==> r.contentType == Some("image/jpeg")))
  {
    match FindByFileId(store, fileId)
    case None => ImageReply(404, None, store, 0, 0)
    case Some(i) =>
      var resolved := FetchWithRetry(resolveAnswers, DefaultRetries, DefaultDelayMs);
      if resolved.result.Failed? then ImageReply(500, None, store, resolved.calls, 0)
      else
        var saved := store[i := store[i].(filePath := Some(resolved.result.value))];
        var download := FetchWithRetry(downloadAnswers, DefaultRetries, DefaultDelayMs);
        FetchWithRetrySpec(downloadAnswers, DefaultRetries, DefaultDelayMs);
        if download.result.Failed? then ImageReply(500, None, saved, resolved.calls, download.calls)
        else ImageReply(200, Some("image/jpeg"), saved, resolved.calls, download.calls)
  }
}
