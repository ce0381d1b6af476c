/**
 * `handleSubtitleDownload`: up to four attempts, each of which fetches the
 * caption data, finds the video title, converts, names the file, hands it
 * to the browser and waits for the download to settle. A failed attempt is
 * followed by a two-second pause and another attempt; the fourth failure
 * ends the operation with a message that carries the last attempt's error.
 *
 * The outside world is a parameter: what the caption server answers, what
 * the watch page holds and what the browser does with each save request
 * are given per attempt, so that a retry may meet a different world.
 */
module Orchestrator {
  import opened Wrappers
  import opened Strings
  import opened Converter
  import opened Filenames
  import opened Titles
  import opened Fetch
  import opened Tracker

  /** `maxRetries`: attempts after the first. */
  const MAX_RETRIES: nat := 3
  /** `retryDelay`, in milliseconds, waited after each failed attempt but the last. */
  const RETRY_DELAY_MS: nat := 2000

  const EMPTY_OUTPUT_MESSAGE := "轉換後的字幕內容為空"
  /** Put before every error of the download stage, including the tracker's rejections. */
  const START_FAILED_PREFIX := "無法啟動下載: "
  /** Put before the last attempt's error when every attempt failed; the 3 is `maxRetries`. */
  const GAVE_UP_PREFIX := "下載失敗 (重試3次後): "

  /** The message that asks for a download. */
  datatype Request = Request(videoId: string, languageCode: string, baseUrl: string, format: string)

  /** What fetching the watch page gives: its text, or the error `fetch` throws. */
  datatype Page = PageText(html: string) | PageFailed(error: JsError)

  /** What is handed to `chrome.downloads.download`: the name, and the content with its media type. */
  datatype SaveRequest = SaveRequest(filename: string, mimeType: string, content: string)

  /**
   * What the browser does with a save request: refuse it (the call throws),
   * or start a download and then report the change events that arrive
   * before the 60-second timer.
   */
  datatype DownloadStart = StartFailed(error: JsError) | Started(downloadId: int, deltas: seq<Delta>)

  /** The world one attempt meets, keyed by what the attempt asks for. */
  datatype AttemptEnv = AttemptEnv(
    subtitles: string -> Net,
    pages: string -> Page,
    downloads: SaveRequest -> DownloadStart)

  /** `{ success: true, filename }`. */
  datatype DownloadResult = DownloadResult(filename: string)

  const WATCH_PREFIX := "https://www.youtube.com/watch?v="

  /** `fetchVideoTitle(videoId)` once the watch page has been fetched; a failed fetch is not caught. */
  function FetchVideoTitle(page: Page, videoId: string): (r: Result<string, JsError>)
    ensures page.PageFailed? ==> r == Err(page.error)
    ensures page.PageText? && ExtractTitle(page.html).None? ==> r == Ok(videoId)
    ensures page.PageText? ==> r == Ok(ResolveTitle(page.html, videoId))
  {
    match page
    case PageFailed(e) => Err(e)
    case PageText(html) => Ok(ResolveTitle(html, videoId))
  }

  /**
   * The save request for converted `content`: the name composed from the
   * title, the language and the requested extension, and the media type
   * of the format.
   */
  function SaveOf(title: string, req: Request, f: Format, content: string): (r: SaveRequest)
    requires ParseFormat(req.format) == Some(f)
    ensures r.content == content
    ensures r.mimeType == FormatMime(f)
    ensures r.filename == Filename(title, req.languageCode, req.format)
    ensures EndsWith(r.filename, "." + req.format)
  {
    var name := Filename(title, req.languageCode, req.format);
    SaveRequest(name, MimeType(req.format), content)
  }

  /** Conversion and the emptiness check, once the captions and the title are in. */
  function ConvertAndName(events: seq<TimedEvent>, title: string, req: Request): (r: Result<SaveRequest, string>)
    ensures r.Ok? ==> (ParseFormat(req.format).Some?
      && r.value.content == Write(ParseFormat(req.format).value, ToCues(events)))
    ensures r.Ok? ==> !IsBlank(r.value.content)
    ensures r.Ok? ==> r.value.mimeType == FormatMime(ParseFormat(req.format).value)
    ensures r.Ok? ==> EndsWith(r.value.filename, "." + req.format)
    ensures ParseFormat(req.format).None? ==> r == Err(UNSUPPORTED_FORMAT_MESSAGE)
    ensures ParseFormat(req.format).Some? && IsBlank(Write(ParseFormat(req.format).value, ToCues(events))) ==>
      r == Err(EMPTY_OUTPUT_MESSAGE)
    ensures ParseFormat(req.format).Some? && !IsBlank(Write(ParseFormat(req.format).value, ToCues(events))) ==>
      r == Ok(SaveOf(title, req, ParseFormat(req.format).value, Write(ParseFormat(req.format).value, ToCues(events))))
  {
    match ConvertSubtitleFormat(events, req.format)
    case Err(ce) => Err(ErrorMessage(ce))
    case Ok(content) =>
      if Trim(content) == [] then Err(EMPTY_OUTPUT_MESSAGE)
      else Ok(SaveOf(title, req, ParseFormat(req.format).value, content))
  }

  /**
   * An attempt up to the call into the browser: the save request it makes,
   * or the message of the error that stops it first. Nothing is handed to
   * the browser unless the output is non-blank and the format supported,
   * and the media type always belongs to the format written.
   */
  function PrepareSave(req: Request, env: AttemptEnv): (r: Result<SaveRequest, string>)
    ensures r.Ok? ==> FetchSubtitleData(env.subtitles(FullUrl(req.baseUrl))).Ok?
    ensures r.Ok? ==> (ParseFormat(req.format).Some?
      && r.value.content == Write(ParseFormat(req.format).value, ToCues(FetchSubtitleData(env.subtitles(FullUrl(req.baseUrl))).value)))
    ensures r.Ok? ==> !IsBlank(r.value.content)
    ensures r.Ok? ==> r.value.mimeType == FormatMime(ParseFormat(req.format).value)
    ensures r.Ok? ==> EndsWith(r.value.filename, "." + req.format)
    ensures FetchSubtitleData(env.subtitles(FullUrl(req.baseUrl))).Err? ==>
      r == Err(FetchSubtitleData(env.subtitles(FullUrl(req.baseUrl))).error.message)
    ensures FetchSubtitleData(env.subtitles(FullUrl(req.baseUrl))).Ok? && env.pages(WATCH_PREFIX + req.videoId).PageFailed? ==>
      r == Err(env.pages(WATCH_PREFIX + req.videoId).error.message)
    ensures FetchSubtitleData(env.subtitles(FullUrl(req.baseUrl))).Ok? && env.pages(WATCH_PREFIX + req.videoId).PageText? ==>
      r == ConvertAndName(FetchSubtitleData(env.subtitles(FullUrl(req.baseUrl))).value,
        ResolveTitle(env.pages(WATCH_PREFIX + req.videoId).html, req.videoId), req)
  {
    match FetchSubtitleData(env.subtitles(FullUrl(req.baseUrl)))
    case Err(e) => Err(e.message)
    case Ok(events) =>
      match FetchVideoTitle(env.pages(WATCH_PREFIX + req.videoId), req.videoId)
      case Err(e) => Err(e.message)
      case Ok(title) => ConvertAndName(events, title, req)
  }

  /**
   * One pass through the `try` block. A download that completes gives the
   * name the file was saved under; every error from the call into the
   * browser or from the tracker is wrapped in the start-failure message;
   * an error before that is passed on as it is.
   */
  function AttemptOutcome(req: Request, env: AttemptEnv): (r: Result<DownloadResult, string>)
    ensures PrepareSave(req, env).Err? ==> r == Err(PrepareSave(req, env).error)
    ensures r.Ok? ==> PrepareSave(req, env).Ok? && r.value.filename == PrepareSave(req, env).value.filename
    ensures r.Err? && PrepareSave(req, env).Ok? ==> StartsWith(r.error, START_FAILED_PREFIX)
    ensures PrepareSave(req, env).Ok? && env.downloads(PrepareSave(req, env).value).StartFailed? ==>
      r == Err(START_FAILED_PREFIX + env.downloads(PrepareSave(req, env).value).error.message)
    ensures PrepareSave(req, env).Ok? && env.downloads(PrepareSave(req, env).value).Started? ==>
      var save := PrepareSave(req, env).value;
      var o := Settle(env.downloads(save).downloadId, save.filename, env.downloads(save).deltas);
      && (o.Resolved? ==> r == Ok(DownloadResult(save.filename)))
      && (o.Rejected? ==> r == Err(START_FAILED_PREFIX + o.message))
  {
    match PrepareSave(req, env)
    case Err(m) => Err(m)
    case Ok(save) =>
      match env.downloads(save)
      case StartFailed(e) =>
        assert (START_FAILED_PREFIX + e.message)[..|START_FAILED_PREFIX|] == START_FAILED_PREFIX;
        Err(START_FAILED_PREFIX + e.message)
      case Started(id, ds) =>
        var o := Settle(id, save.filename, ds);
        SettleAlwaysTerminal(id, save.filename, ds);
        if o.Resolved? then Ok(DownloadResult(o.filename))
        else
          assert (START_FAILED_PREFIX + o.message)[..|START_FAILED_PREFIX|] == START_FAILED_PREFIX;
          Err(START_FAILED_PREFIX + o.message)
  }

  /** One attempt, with the download watched by a `DownloadTracker`. */
  method RunAttempt(req: Request, env: AttemptEnv) returns (r: Result<DownloadResult, string>)
    ensures r == AttemptOutcome(req, env)
  {
    var prepared := PrepareSave(req, env);
    if prepared.Err? {
      return Err(prepared.error);
    }
    var save := prepared.value;
    match env.downloads(save)
    case StartFailed(e) =>
      r := Err(START_FAILED_PREFIX + e.message);
    case Started(id, ds) =>
      var o := AwaitDownload(id, save.filename, ds);
      if o.Resolved? {
        r := Ok(DownloadResult(o.filename));
      } else {
        r := Err(START_FAILED_PREFIX + o.message);
      }
  }

  /**
   * The retry loop. It makes attempts until one succeeds or four have
   * failed, waiting `retryDelay` after every failure but the last; the
   * waits are added up in `waitedMs`. The result is the first successful
   * attempt's; when all fail, it is the last attempt's message behind the
   * give-up prefix.
   */
  method HandleSubtitleDownload(req: Request, envs: seq<AttemptEnv>) returns (r: Result<DownloadResult, string>, attempts: nat, waitedMs: nat)
    requires |envs| == MAX_RETRIES + 1
    ensures 1 <= attempts <= MAX_RETRIES + 1 && waitedMs == (attempts - 1) * RETRY_DELAY_MS
    ensures forall j :: 0 <= j < attempts - 1 ==> AttemptOutcome(req, envs[j]).Err?
    ensures r.Ok? ==> r == AttemptOutcome(req, envs[attempts - 1])
    ensures r.Err? ==> (attempts == MAX_RETRIES + 1
      && AttemptOutcome(req, envs[MAX_RETRIES]).Err?
      && r.error == GAVE_UP_PREFIX + AttemptOutcome(req, envs[MAX_RETRIES]).error)
    ensures r.Err? <==> forall j :: 0 <= j < |envs| ==> AttemptOutcome(req, envs[j]).Err?
  {
    waitedMs := 0;
    var i := 0;
    while i <= MAX_RETRIES
      invariant 0 <= i <= MAX_RETRIES
      invariant waitedMs == i * RETRY_DELAY_MS
      invariant forall j :: 0 <= j < i ==> AttemptOutcome(req, envs[j]).Err?
      decreases MAX_RETRIES - i
    {
      var outcome := RunAttempt(req, envs[i]);
      if outcome.Ok? {
        r := outcome;
        attempts := i + 1;
        return;
      }
      FailuresExtend(req, envs, i, outcome);
      if i == MAX_RETRIES {
        r := Err(GAVE_UP_PREFIX + outcome.error);
        attempts := i + 1;
        return;
      }
      waitedMs := waitedMs + RETRY_DELAY_MS;
      i := i + 1;
    }
  }

  /** A failed attempt extends the run of failures before it by one. */
  lemma FailuresExtend(req: Request, envs: seq<AttemptEnv>, i: nat, outcome: Result<DownloadResult, string>)
    requires i < |envs| && outcome == AttemptOutcome(req, envs[i]) && outcome.Err?
    requires forall j :: 0 <= j < i ==> AttemptOutcome(req, envs[j]).Err?
    ensures forall j :: 0 <= j < i + 1 ==> AttemptOutcome(req, envs[j]).Err?
  {
  }

  /** A caption server answering 404 ends the attempt with its own message, before anything else is tried. */
  lemma NotFoundAttempt(req: Request, env: AttemptEnv)
    requires env.subtitles(FullUrl(req.baseUrl)).Response? && env.subtitles(FullUrl(req.baseUrl)).status == 404
    ensures AttemptOutcome(req, env) == Err(NOT_FOUND_MESSAGE)
  {
    NotFoundAndForbidden(env.subtitles(FullUrl(req.baseUrl)).body);
  }

  /**
   * Once the captions and the page are in, an unsupported format stops
   * the attempt with the converter's message and nothing is saved.
   */
  lemma UnsupportedFormatAttempt(req: Request, env: AttemptEnv)
    requires FetchSubtitleData(env.subtitles(FullUrl(req.baseUrl))).Ok?
    requires env.pages(WATCH_PREFIX + req.videoId).PageText?
    requires ParseFormat(req.format).None?
    ensures AttemptOutcome(req, env) == Err(UNSUPPORTED_FORMAT_MESSAGE)
  {
  }

  /**
   * With captions of which no cue survives, a SubRip or plain-text
   * attempt fails as empty; a WebVTT attempt goes on to the browser,
   * because its header is never blank.
   */
  lemma NoCuesAttempt(req: Request, env: AttemptEnv)
    requires FetchSubtitleData(env.subtitles(FullUrl(req.baseUrl))).Ok?
    requires ToCues(FetchSubtitleData(env.subtitles(FullUrl(req.baseUrl))).value) == []
    requires env.pages(WATCH_PREFIX + req.videoId).PageText?
    ensures ParseFormat(req.format) == Some(Srt) || ParseFormat(req.format) == Some(Txt) ==>
      AttemptOutcome(req, env) == Err(EMPTY_OUTPUT_MESSAGE)
    ensures ParseFormat(req.format) == Some(Vtt) ==> PrepareSave(req, env).Ok?
  {
    var events := FetchSubtitleData(env.subtitles(FullUrl(req.baseUrl))).value;
    var title := FetchVideoTitle(env.pages(WATCH_PREFIX + req.videoId), req.videoId).value;
    assert PrepareSave(req, env) == ConvertAndName(events, title, req);
    NoCuesConverted(events, title, req);
  }

  lemma NoCuesConverted(events: seq<TimedEvent>, title: string, req: Request)
    requires ToCues(events) == []
    ensures ParseFormat(req.format) == Some(Srt) || ParseFormat(req.format) == Some(Txt) ==>
      ConvertAndName(events, title, req) == Err(EMPTY_OUTPUT_MESSAGE)
    ensures ParseFormat(req.format) == Some(Vtt) ==> ConvertAndName(events, title, req).Ok?
  {
    match ParseFormat(req.format)
    case None =>
    case Some(f) =>
      var content := Write(f, ToCues(events));
      assert ConvertSubtitleFormat(events, req.format) == Ok(content);
      assert IsBlank(content) <==> f != Vtt by {
        BlankOutput(events);
      }
  }

  /**
   * An attempt whose captions and page arrive, whose format is supported
   * and whose output is not blank hands the browser the converted content
   * under the composed name and with the format's media type.
   */
  lemma PreparedWhenConvertible(req: Request, env: AttemptEnv)
    requires FetchSubtitleData(env.subtitles(FullUrl(req.baseUrl))).Ok?
    requires env.pages(WATCH_PREFIX + req.videoId).PageText?
    requires ParseFormat(req.format).Some?
    requires !IsBlank(Write(ParseFormat(req.format).value, ToCues(FetchSubtitleData(env.subtitles(FullUrl(req.baseUrl))).value)))
    ensures PrepareSave(req, env).Ok?
    ensures PrepareSave(req, env).value == SaveRequest(
      Filename(ResolveTitle(env.pages(WATCH_PREFIX + req.videoId).html, req.videoId), req.languageCode, req.format),
      FormatMime(ParseFormat(req.format).value),
      Write(ParseFormat(req.format).value, ToCues(FetchSubtitleData(env.subtitles(FullUrl(req.baseUrl))).value)))
  {
    var events := FetchSubtitleData(env.subtitles(FullUrl(req.baseUrl))).value;
    var title := ResolveTitle(env.pages(WATCH_PREFIX + req.videoId).html, req.videoId);
    var f := ParseFormat(req.format).value;
    var save := SaveOf(title, req, f, Write(f, ToCues(events)));
    assert PrepareSave(req, env) == ConvertAndName(events, title, req) == Ok(save);
  }

  /**
   * A download that never reports a decisive change times out, and the
   * time-out reaches the caller wrapped as a start failure.
   */
  lemma TimeoutAttempt(req: Request, env: AttemptEnv, save: SaveRequest, id: int, ds: seq<Delta>)
    requires PrepareSave(req, env) == Ok(save)
    requires env.downloads(save) == Started(id, ds)
    requires forall j :: 0 <= j < |ds| ==> !Decisive(id, save.filename, ds[j])
    ensures AttemptOutcome(req, env) == Err(START_FAILED_PREFIX + DOWNLOAD_TIMEOUT_MESSAGE)
  {
    SettleAlwaysTerminal(id, save.filename, ds);
  }

  /** A completed download gives back the composed name of the saved file. */
  lemma CompletedAttempt(req: Request, env: AttemptEnv, save: SaveRequest, id: int, ds: seq<Delta>, k: nat)
    requires PrepareSave(req, env) == Ok(save)
    requires env.downloads(save) == Started(id, ds)
    requires k < |ds| && ds[k] == Delta(id, Some("complete"), None)
    requires forall j :: 0 <= j < k ==> !Decisive(id, save.filename, ds[j])
    ensures AttemptOutcome(req, env) == Ok(DownloadResult(save.filename))
  {
    RunIsFirstDecisive(id, save.filename, ds);
    var r := RunFrom(id, save.filename, Pending, ds);
    assert Decisive(id, save.filename, ds[k]);
    var k' :| 0 <= k' < |ds| && Decisive(id, save.filename, ds[k'])
      && (forall j :: 0 <= j < k' ==> !Decisive(id, save.filename, ds[j]))
      && r == Decide(id, save.filename, ds[k']);
    assert k' == k;
  }

  /**
   * The whole way through: captions that arrive, a page, a supported
   * format, non-blank output and a download whose first decisive change is
   * its completion make the attempt succeed with the composed file name.
   */
  lemma SuccessfulAttempt(req: Request, env: AttemptEnv, save: SaveRequest, id: int, ds: seq<Delta>, k: nat)
    requires FetchSubtitleData(env.subtitles(FullUrl(req.baseUrl))).Ok?
    requires env.pages(WATCH_PREFIX + req.videoId).PageText?
    requires ParseFormat(req.format).Some?
    requires var content := Write(ParseFormat(req.format).value, ToCues(FetchSubtitleData(env.subtitles(FullUrl(req.baseUrl))).value));
      && !IsBlank(content)
      && save == SaveRequest(
        Filename(ResolveTitle(env.pages(WATCH_PREFIX + req.videoId).html, req.videoId), req.languageCode, req.format),
        FormatMime(ParseFormat(req.format).value), content)
    requires env.downloads(save) == Started(id, ds)
    requires k < |ds| && ds[k] == Delta(id, Some("complete"), None)
    requires forall j :: 0 <= j < k ==> !Decisive(id, save.filename, ds[j])
    ensures AttemptOutcome(req, env) == Ok(DownloadResult(save.filename))
  {
    PreparedWhenConvertible(req, env);
    CompletedAttempt(req, env, save, id, ds, k);
  }
}
