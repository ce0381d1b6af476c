/**
 * `fetchSubtitleData`: the URL it requests, the checks it runs on the
 * response and the way its `catch` block rewrites what was thrown. The
 * network round trip itself (the `URL` constructor, `fetch` with its
 * 15-second abort, `response.json()`) is not modelled: its outcome is an
 * input of type `Net`.
 */
module Fetch {
  import opened Wrappers
  import opened Strings
  import opened Converter

  /** A thrown JavaScript error: its `name` and its `message`. */
  datatype JsError = JsError(name: string, message: string)

  /** `new Error(message)`. */
  function Fail(message: string): JsError
  {
    JsError("Error", message)
  }

  const HOST_PREFIX := "https://www.youtube.com"

  const NOT_FOUND_MESSAGE := "字幕資源不存在，請確認影片是否有字幕"
  const FORBIDDEN_MESSAGE := "無權限存取字幕，請確認影片是否可公開觀看"
  /** The prefix of the generic status message, and the text the `catch` block looks for. */
  const FETCH_FAILED_PREFIX := "無法獲取字幕資料"
  const NO_EVENTS_MESSAGE := "沒有找到可用的字幕內容"
  const MALFORMED_MESSAGE := "字幕格式異常，請重新嘗試"
  const TIMEOUT_MESSAGE := "請求超時，請檢查網路連線並重試"
  const NETWORK_MESSAGE := "網路連線失敗，請確認網路狀態"
  const UNAVAILABLE_MESSAGE := "無法取得字幕，請確認影片是否有字幕"

  /** `無法獲取字幕資料 (HTTP ${status})`. */
  function StatusMessage(status: nat): string
  {
    FETCH_FAILED_PREFIX + " (HTTP " + NatToString(status) + ")"
  }

  /** `segs` of a raw event: absent, an array of runs, or anything else (`null` included). */
  datatype RawSegs = SegsAbsent | SegsArray(segs: seq<Seg>) | SegsOther

  /**
   * One element of `data.events`: `null` or `undefined` (reading a field of
   * it throws a TypeError), or an object whose `tStartMs` is a number
   * (`Some`) or not (`None`).
   */
  datatype RawEvent =
    | NullEvent
    | EventObject(tStartMs: Option<nat>, dDurationMs: Option<nat>, segs: RawSegs)

  /**
   * `data.events`: absent or falsy; an array; or some other truthy value,
   * which has no `every` method, so checking it throws a TypeError unless
   * its `length` is 0.
   */
  datatype RawEvents = EventsFalsy | EventsArray(items: seq<RawEvent>) | EventsOther(lengthIsZero: bool)

  /** The parsed JSON body: `null` or another falsy value, or an object. */
  datatype Data = DataFalsy | DataObject(events: RawEvents)

  /** What `response.json()` gives: the parsed body, or the error it throws. */
  datatype Body = Json(data: Data) | NotJson(error: JsError)

  /** What the network gives for the request: an error thrown on the way (abort, network failure, bad URL), or a response. */
  datatype Net = Threw(error: JsError) | Response(status: nat, body: Body)

  /** The URL requested: a base URL that does not start with `http` is taken as a path on the site. */
  function FullUrl(baseUrl: string): (r: string)
    ensures StartsWith(r, "http")
    ensures StartsWith(baseUrl, "http") ==> r == baseUrl
    ensures !StartsWith(baseUrl, "http") ==> r == HOST_PREFIX + baseUrl
  {
    if StartsWith(baseUrl, "http") then baseUrl
    else
      assert (HOST_PREFIX + baseUrl)[..4] == "http";
      HOST_PREFIX + baseUrl
  }

  /** `response.ok`. */
  predicate IsOk(status: nat)
  {
    200 <= status <= 299
  }

  /** The check inside `every`: a number `tStartMs`, and `segs` absent or an array. */
  predicate ValidEvent(e: RawEvent)
  {
    e.EventObject? && e.tStartMs.Some? && !e.segs.SegsOther?
  }

  /**
   * `data.events.every(...)`, run element by element: the first `null`
   * element throws a TypeError, the first invalid one makes it false.
   */
  function CheckEvents(items: seq<RawEvent>): (r: Result<seq<TimedEvent>, JsError>)
    ensures r.Ok? <==> forall k :: 0 <= k < |items| ==> ValidEvent(items[k])
    ensures r.Ok? ==> |r.value| == |items|
    ensures r.Ok? ==> forall k :: 0 <= k < |items| ==>
      && r.value[k].tStartMs == items[k].tStartMs.value
      && r.value[k].dDurationMs == items[k].dDurationMs
      && r.value[k].segs == (if items[k].segs.SegsArray? then Some(items[k].segs.segs) else None)
    ensures r.Err? ==> r.error == Fail(MALFORMED_MESSAGE) || r.error.name == "TypeError"
  {
    if items == [] then Ok([])
    else
      match items[0]
      case NullEvent => Err(JsError("TypeError", "Cannot read properties of null (reading 'tStartMs')"))
      case EventObject(start, duration, segs) =>
        if start.None? || segs.SegsOther? then Err(Fail(MALFORMED_MESSAGE))
        else
          match CheckEvents(items[1..])
          case Err(e) => Err(e)
          case Ok(rest) =>
            assert forall k :: 1 <= k < |items| ==> items[k] == items[1..][k - 1];
            var segsValue := if segs.SegsArray? then Some(segs.segs) else None;
            Ok([TimedEvent(start.value, duration, segsValue)] + rest)
  }

  /** The body of the `try` block: the status checks, then the data checks. */
  function TryFetch(net: Net): Result<seq<TimedEvent>, JsError>
  {
    match net
    case Threw(e) => Err(e)
    case Response(status, body) =>
      if !IsOk(status) then
        if status == 404 then Err(Fail(NOT_FOUND_MESSAGE))
        else if status == 403 then Err(Fail(FORBIDDEN_MESSAGE))
        else Err(Fail(StatusMessage(status)))
      else
        match body
        case NotJson(e) => Err(e)
        case Json(DataFalsy) => Err(Fail(NO_EVENTS_MESSAGE))
        case Json(DataObject(EventsFalsy)) => Err(Fail(NO_EVENTS_MESSAGE))
        case Json(DataObject(EventsOther(lengthIsZero))) =>
          if lengthIsZero then Err(Fail(NO_EVENTS_MESSAGE))
          else Err(JsError("TypeError", "data.events.every is not a function"))
        case Json(DataObject(EventsArray(items))) =>
          if items == [] then Err(Fail(NO_EVENTS_MESSAGE)) else CheckEvents(items)
  }

  /** The `catch` block: an abort and a TypeError get fixed messages, the generic status message is replaced, anything else passes through. */
  function Translate(e: JsError): (r: JsError)
    ensures r.name != "AbortError" && r.name != "TypeError"
    ensures !Contains(r.message, FETCH_FAILED_PREFIX)
    ensures e.name != "AbortError" && e.name != "TypeError" && !Contains(e.message, FETCH_FAILED_PREFIX) ==> r == e
  {
    if e.name == "AbortError" then
      TimeoutMessageClean();
      Fail(TIMEOUT_MESSAGE)
    else if e.name == "TypeError" then
      NetworkMessageClean();
      Fail(NETWORK_MESSAGE)
    else if Contains(e.message, FETCH_FAILED_PREFIX) then
      UnavailableMessageClean();
      Fail(UNAVAILABLE_MESSAGE)
    else e
  }

  /** `fetchSubtitleData(baseUrl)` once the network has answered `net` for `FullUrl(baseUrl)`. */
  function FetchSubtitleData(net: Net): (r: Result<seq<TimedEvent>, JsError>)
    ensures r.Err? ==> r.error.name != "AbortError" && r.error.name != "TypeError"
    ensures r.Err? ==> !Contains(r.error.message, FETCH_FAILED_PREFIX)
    ensures r.Ok? ==>
      (&& net.Response? && net.body.Json? && net.body.data.DataObject?
       && net.body.data.events.EventsArray? && r == CheckEvents(net.body.data.events.items))
  {
    match TryFetch(net)
    case Ok(events) => Ok(events)
    case Err(e) => Err(Translate(e))
  }

  lemma TimeoutMessageClean()
    ensures !Contains(TIMEOUT_MESSAGE, FETCH_FAILED_PREFIX)
  {
    NoOccurrence(TIMEOUT_MESSAGE, FETCH_FAILED_PREFIX, 0);
  }

  lemma NetworkMessageClean()
    ensures !Contains(NETWORK_MESSAGE, FETCH_FAILED_PREFIX)
  {
    NoOccurrence(NETWORK_MESSAGE, FETCH_FAILED_PREFIX, 0);
  }

  /** The replacement message is close to the generic one but differs in its third character. */
  lemma UnavailableMessageClean()
    ensures !Contains(UNAVAILABLE_MESSAGE, FETCH_FAILED_PREFIX)
  {
    Mismatch(UNAVAILABLE_MESSAGE, FETCH_FAILED_PREFIX, 0, 2);
    NoOccurrence(UNAVAILABLE_MESSAGE, FETCH_FAILED_PREFIX, 1);
  }

  lemma NotFoundMessageClean()
    ensures !Contains(NOT_FOUND_MESSAGE, FETCH_FAILED_PREFIX)
  {
    NoOccurrence(NOT_FOUND_MESSAGE, FETCH_FAILED_PREFIX, 0);
  }

  lemma ForbiddenMessageClean()
    ensures !Contains(FORBIDDEN_MESSAGE, FETCH_FAILED_PREFIX)
  {
    Mismatch(FORBIDDEN_MESSAGE, FETCH_FAILED_PREFIX, 0, 1);
    NoOccurrence(FORBIDDEN_MESSAGE, FETCH_FAILED_PREFIX, 1);
  }

  /** A pattern does not occur where one of its characters differs from the text. */
  lemma Mismatch(s: string, pat: string, j: nat, k: nat)
    requires k < |pat| && j + k < |s| && s[j + k] != pat[k]
    ensures !OccursAt(s, pat, j)
  {
    if j + |pat| <= |s| {
      assert s[j..j + |pat|][k] == s[j + k];
    }
  }

  /**
   * A pattern does not occur in a text when its first character is missing
   * from the text past `from`, and the first `from` positions each differ
   * from the pattern somewhere.
   */
  lemma NoOccurrence(s: string, pat: string, from: nat)
    requires pat != [] && from <= |s| && pat[0] !in s[from..]
    requires forall j :: 0 <= j < from ==> !OccursAt(s, pat, j)
    ensures !Contains(s, pat)
  {
    forall j | from <= j ensures !OccursAt(s, pat, j) {
      if j + |pat| <= |s| {
        assert s[j..j + |pat|][0] == s[from..][j - from];
      }
    }
  }

  /**
   * The fetch succeeds exactly when the status is 2xx and the body holds a
   * non-empty array of valid events, and then it yields those events.
   */
  lemma FetchOkIff(net: Net)
    ensures FetchSubtitleData(net).Ok? <==>
      && net.Response? && IsOk(net.status)
      && net.body.Json? && net.body.data.DataObject? && net.body.data.events.EventsArray?
      && net.body.data.events.items != []
      && forall k :: 0 <= k < |net.body.data.events.items| ==> ValidEvent(net.body.data.events.items[k])
    ensures FetchSubtitleData(net).Ok? ==> |FetchSubtitleData(net).value| == |net.body.data.events.items|
    ensures FetchSubtitleData(net).Ok? ==> FetchSubtitleData(net) == CheckEvents(net.body.data.events.items)
  {
  }

  /** 404 and 403 keep their own messages. */
  lemma NotFoundAndForbidden(body: Body)
    ensures FetchSubtitleData(Response(404, body)) == Err(Fail(NOT_FOUND_MESSAGE))
    ensures FetchSubtitleData(Response(403, body)) == Err(Fail(FORBIDDEN_MESSAGE))
  {
    NotFoundMessageClean();
    ForbiddenMessageClean();
  }

  /**
   * Every other failing status ends as the same generic message: the
   * status code built into the thrown message never reaches the caller.
   */
  lemma StatusIsLost(status: nat, body: Body)
    requires !IsOk(status) && status != 404 && status != 403
    ensures FetchSubtitleData(Response(status, body)) == Err(Fail(UNAVAILABLE_MESSAGE))
  {
    var m := StatusMessage(status);
    assert m[..|FETCH_FAILED_PREFIX|] == FETCH_FAILED_PREFIX;
    assert OccursAt(m, FETCH_FAILED_PREFIX, 0);
  }

  /** An abort (the 15-second timer) and any TypeError become the timeout and network messages. */
  lemma RawKindsTranslated(message: string)
    ensures FetchSubtitleData(Threw(JsError("AbortError", message))) == Err(Fail(TIMEOUT_MESSAGE))
    ensures FetchSubtitleData(Threw(JsError("TypeError", message))) == Err(Fail(NETWORK_MESSAGE))
  {
  }

  /**
   * `every` stops at the first event that fails the check: a `null` one
   * throws a TypeError, any other invalid one makes the check false.
   */
  lemma {:induction false} FirstInvalidDecides(items: seq<RawEvent>, k: nat)
    requires k < |items| && !ValidEvent(items[k])
    requires forall j :: 0 <= j < k ==> ValidEvent(items[j])
    ensures CheckEvents(items).Err?
    ensures items[k].NullEvent? ==> CheckEvents(items).error.name == "TypeError"
    ensures items[k].EventObject? ==> CheckEvents(items).error == Fail(MALFORMED_MESSAGE)
  {
    if k > 0 {
      assert forall j :: 0 <= j < k - 1 ==> items[1..][j] == items[j + 1];
      FirstInvalidDecides(items[1..], k - 1);
    }
  }

  lemma NoEventsMessageClean()
    ensures !Contains(NO_EVENTS_MESSAGE, FETCH_FAILED_PREFIX)
  {
    NoOccurrence(NO_EVENTS_MESSAGE, FETCH_FAILED_PREFIX, 0);
  }

  lemma MalformedMessageClean()
    ensures !Contains(MALFORMED_MESSAGE, FETCH_FAILED_PREFIX)
  {
    NoOccurrence(MALFORMED_MESSAGE, FETCH_FAILED_PREFIX, 0);
  }

  /**
   * A 2xx answer without usable events: no body, no events or an empty
   * list all give the no-content message; a non-array `events` of non-zero
   * length throws inside the check, and the TypeError becomes the network
   * message.
   */
  lemma MissingEvents(status: nat)
    requires IsOk(status)
    ensures FetchSubtitleData(Response(status, Json(DataFalsy))) == Err(Fail(NO_EVENTS_MESSAGE))
    ensures FetchSubtitleData(Response(status, Json(DataObject(EventsFalsy)))) == Err(Fail(NO_EVENTS_MESSAGE))
    ensures FetchSubtitleData(Response(status, Json(DataObject(EventsArray([]))))) == Err(Fail(NO_EVENTS_MESSAGE))
    ensures FetchSubtitleData(Response(status, Json(DataObject(EventsOther(true))))) == Err(Fail(NO_EVENTS_MESSAGE))
    ensures FetchSubtitleData(Response(status, Json(DataObject(EventsOther(false))))) == Err(Fail(NETWORK_MESSAGE))
  {
    NoEventsMessageClean();
  }

  /**
   * A 2xx answer whose first invalid event is `null` fails with the
   * network message; one whose first invalid event is an object fails
   * with the malformed-data message.
   */
  lemma InvalidEvents(status: nat, items: seq<RawEvent>, k: nat)
    requires IsOk(status)
    requires k < |items| && !ValidEvent(items[k])
    requires forall j :: 0 <= j < k ==> ValidEvent(items[j])
    ensures items[k].NullEvent? ==>
      FetchSubtitleData(Response(status, Json(DataObject(EventsArray(items))))) == Err(Fail(NETWORK_MESSAGE))
    ensures items[k].EventObject? ==>
      FetchSubtitleData(Response(status, Json(DataObject(EventsArray(items))))) == Err(Fail(MALFORMED_MESSAGE))
  {
    FirstInvalidDecides(items, k);
    MalformedMessageClean();
  }
}
