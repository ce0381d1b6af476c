# YouTube subtitle downloader: the download pipeline, in Dafny

This project models the background worker of a browser extension that
downloads YouTube captions (`background.js`) and proves properties of
the model. When the popup asks for a download, the worker goes through
these steps:

1. It fetches the caption track in YouTube's "json3" form and validates it.
2. It finds the video title on the watch page.
3. It converts the caption events to SubRip, WebVTT or plain text.
4. It builds a safe file name and picks the media type.
5. It hands the file to the browser's download manager.
6. It waits, with a listener and a 60-second timer, until the download completes, fails or times out.

The whole attempt is tried up to four times, with a two-second pause
between attempts.

The modules follow the source's pieces:

| file | module | what it holds |
|---|---|---|
| `wrappers.dfy` | `Wrappers` | `Option` and `Result` |
| `strings.dfy` | `Strings` | the JavaScript string operations used: `trim` and `\s`, `join`, decimal `toString`, `padStart`, `toLowerCase`, `startsWith`, `includes`, `replace` with a string pattern; and a line splitter that serves the caption readers |
| `timestamps.dfy` | `Timestamps` | `formatSRTTime` and `formatVTTTime` on whole milliseconds, and a reader for the result |
| `converter.dfy` | `Converter` | `convertSubtitleFormat`: normalisation of events to cues, and the three writers |
| `caption_parse.dfy` | `CaptionParse` | readers for the three output layouts, the inverses the writers are checked against |
| `filenames.dfy` | `Filenames` | `sanitizeFilename`, the file name pattern and the media-type table |
| `titles.dfy` | `Titles` | the `<title>` rule of `fetchVideoTitle`, as a leftmost, shortest regular-expression match |
| `fetch.dfy` | `Fetch` | `fetchSubtitleData`: URL completion, status and body checks, and rewriting of errors |
| `tracker.dfy` | `Tracker` | `createDownloadPromise`: a class `DownloadTracker` with `OnDelta` and `OnTimeout`, and the function `Settle` that specifies it |
| `orchestrator.dfy` | `Orchestrator` | `handleSubtitleDownload`: one attempt as a function, and the retry loop as a method |

The outside world enters as values:

- A `Net` value is what the network answers for the caption URL: a thrown error, or a status with a parsed body.
- A `Page` value is the watch page's text, or the error its fetch threw.
- A `DownloadStart` value is what the browser does with a save request: it refuses, or it starts a download and reports change events.
- The retry loop receives one `AttemptEnv` per attempt, so that a retry may meet a different world.
- The tracker is driven by the change events that arrive before its timer fires, followed by the timer itself.
- Pauses are added up in milliseconds, not slept.

Times are whole milliseconds. A cue stores its start and its end; the end
is `start + duration`, which both timed writers print.

## Model

| member | source | states |
|---|---|---|
| Strings.Trim | background.js:233 | `trim()` gives the slice of the input between a blank prefix and a blank suffix, whose own ends are not white space; it is empty exactly when the input is blank |
| Strings.SplitJoin | background.js:254 | splitting a newline-joined list of newline-free parts gives back the parts |
| Strings.ParseNatToString | background.js:277-280 | the decimal digits of a number read back as that number |
| Strings.ParsePadded | background.js:277-280 | a number zero-padded with `padStart` still reads back as that number |
| Strings.FindFrom | background.js:203 | the search finds the leftmost occurrence at or after the start, or reports that there is none |
| Strings.ReplaceFirst | background.js:218 | `replace` with a string pattern replaces the first occurrence and keeps everything around it; a string without the pattern is unchanged |
| Timestamps.FieldsReconstruct | background.js:275-294 | minutes and seconds are below 60 and millis below 1000, and the four fields give back the time |
| Timestamps.FormatTimeShape | background.js:275-294 | a timestamp written by `FormatTime` has at least two hour digits, then `:mm:ss`, the separator and three digits, and nothing else |
| Timestamps.TimeRoundTrip | background.js:275-294 | formatting a time with `FormatTime` and reading it back gives the same time, for either separator |
| Timestamps.SrtTimeRoundTrip | background.js:275-283 | a SubRip timestamp (`,` before the millis) reads back as its time |
| Timestamps.VttTimeRoundTrip | background.js:286-294 | a WebVTT timestamp (`.` before the millis) reads back as its time |
| Timestamps.SmallTimes | background.js:275-294 | 0 ms and 1000 ms are written `00:00:00?000` and `00:00:01?000` |
| Converter.ToCuesSpec | background.js:226-233 | `ToCues` gives exactly the events with non-blank text, one cue each, in input order, with start `tStartMs`, end `tStartMs + (dDurationMs or 0)` and the joined text |
| Converter.KeptFrom | background.js:233 | the indices of surviving events are increasing and each names a kept event |
| Converter.KeptFromComplete | background.js:233 | no event with non-blank text is missed |
| Converter.CuesAreKeptEvents | background.js:229-233 | the k-th cue is the cue of the k-th surviving event |
| Converter.CueTextsNotBlank | background.js:233 | no cue has blank text |
| Converter.ConvertSubtitleFormat | background.js:225-246 | the conversion fails exactly when the format name is not `srt`, `vtt` or `txt` in any letter case; otherwise it writes the normalised cues in that format |
| Converter.ParseFormatCaseInsensitive | background.js:236-245 | `ParseFormat` chooses by the lowercased name: a name selects a format exactly when its lower case is that format's name |
| Converter.BlankOutput | background.js:249-272 | SubRip and text output are blank exactly when no cue survives; WebVTT output is never blank |
| Converter.SrtExample | background.js:249-255 | one cue "Hi" from 0 to 1000 ms is written `1\n00:00:00,000 --> 00:00:01,000\nHi\n` |
| Converter.VttExample | background.js:258-267 | the same cue, asked for as `VTT`, is written with the `WEBVTT` header and `.` before the millis |
| Converter.AllBlankExample | background.js:233-267 | all-blank events give empty SubRip output but the bare WebVTT header |
| CaptionParse.TimingRoundTrip | background.js:252-253 | a timing line `START --> END` reads back as the two times and holds no newline |
| CaptionParse.SrtRoundTrip | background.js:249-255 | reading the output of `SrtOf` back gives the cues it was written from, numbered from 1, in order, when no cue text holds a newline |
| CaptionParse.VttRoundTrip | background.js:258-267 | reading the output of `VttOf` back gives the cues, after the `WEBVTT` header and blank line, when no cue text holds a newline |
| CaptionParse.VttOfAsLines | background.js:258-267 | with cues, the WebVTT output is the header lines and the cue lines joined by newlines, and more than the bare header |
| CaptionParse.TxtRoundTrip | background.js:270-272 | reading the output of `TxtOf` back gives the cue texts in order, when no cue text holds a newline |
| CaptionParse.ConvertRoundTrip | background.js:225-272 | whatever format is chosen, its reader recovers the normalised cues (the texts, for plain text), when no cue text holds a newline |
| Filenames.ReplaceReserved | background.js:299 | every reserved character becomes `_` and nothing else changes or moves |
| Filenames.CollapseWhite | background.js:300 | the result holds no white space, is no longer than the input, and every character is `_` or comes from the input |
| Filenames.CollapseWhiteRun | background.js:300 | a run of white space becomes a single `_` |
| Filenames.CollapseWhiteConcat | background.js:300 | the pass works piece by piece when no white run spans the cut |
| Filenames.Sanitize | background.js:297-302 | a sanitized name has at most 255 characters and holds no reserved character and no white space |
| Filenames.SanitizeKeepsSafe | background.js:297-302 | a name already safe and at most 255 long is unchanged |
| Filenames.SanitizeIdempotent | background.js:297-302 | sanitizing twice equals sanitizing once |
| Filenames.Filename | background.js:103 | the name is the sanitized title, `_`, the language code, `.` and the format as given, each in its place |
| Filenames.MimeType | background.js:107-112 | a format the converter accepts gets the media type of that format in any letter case; any other name gets `text/plain` |
| Titles.LazyBody | background.js:216 | the lazy group is the shortest non-empty run without line terminators that a closing tag follows |
| Titles.SearchTitle | background.js:216 | the match found is the leftmost, with the shortest group there; no earlier position matches |
| Titles.ExtractTitle | background.js:216-217 | there is no title exactly when the pattern matches nowhere; otherwise the title is the group of the leftmost match, with the shortest group there, as `match` reports it |
| Titles.FirstMatchIsExtracted | background.js:216-217 | wherever the pattern first matches, with its shortest group there, that group is the extracted title: the first match is unique |
| Titles.ClosingTagTitleExample | background.js:216 | the page `<title></title></title>` gives the title `</title>`, because the group needs at least one character |
| Titles.LazyStopsAtFirstClose | background.js:216 | no `</title>` starts inside the title after its first character; the title itself may begin with one |
| Titles.CleanTitle | background.js:218 | the first ` - YouTube` of the title is cut out and the rest trimmed; a title without it is only trimmed; the result has no white space at either end |
| Titles.ResolveTitle | background.js:216-221 | a page without a match gives the video id |
| Titles.ResolveTitleWithoutSuffix | background.js:218 | a title that does not mention the site is only trimmed |
| Titles.SingleTitlePage | background.js:216 | a page holding one non-empty single-line title without `<` reads as that title |
| Titles.DropSiteSuffix | background.js:218 | a title followed by the site suffix, with no earlier occurrence of it, gets back exactly the title, spaces and all |
| Titles.ResolveWatchPage | background.js:216-221 | the page `<title>T - YouTube</title>` gives `T` for any single-line `T` without `<`, with trimmed ends and no earlier ` - YouTube` |
| Titles.ResolveTitleExample | background.js:216-221 | the page `<title>Cats - YouTube</title>` gives the title `Cats` |
| Titles.EmptyTitleExample | background.js:216-221 | a page titled only ` - YouTube` gives the empty title, not the video id |
| Fetch.FullUrl | background.js:153-155 | the URL starts with `http`; a base URL that already does is kept, any other is put after the site host |
| Fetch.CheckEvents | background.js:190-194 | validation passes exactly when every event has a numeric `tStartMs` and `segs` absent or an array, and then keeps every event as it was: its start, its duration and its runs |
| Fetch.FirstInvalidDecides | background.js:190-194 | the first invalid event decides: a `null` one throws a `TypeError`, any other makes the check fail with the malformed-data message |
| Fetch.Translate | background.js:198-206 | the catch block never lets an `AbortError`, a `TypeError` or the generic "無法獲取字幕資料" text through, and passes every other error on unchanged |
| Fetch.FetchSubtitleData | background.js:150-207 | an error reaching the caller is never an `AbortError` or `TypeError` and never carries the generic "無法獲取字幕資料" text; a success returns the checked `data.events`, event by event as `CheckEvents` states |
| Fetch.FetchOkIff | background.js:175-196 | `TryFetch` and its catch succeed exactly for a 2xx response with a non-empty array of valid events, and then yield those events as `CheckEvents` converts them |
| Fetch.MissingEvents | background.js:184-202 | a 2xx answer without a body, without events or with an empty list gives the no-content message; a non-array `events` of non-zero length gives the network message |
| Fetch.InvalidEvents | background.js:190-202 | a 2xx answer whose first invalid event is `null` gives the network message; one whose first invalid event is an object gives the malformed-data message |
| Fetch.NotFoundAndForbidden | background.js:176-180 | 404 and 403 give their own messages |
| Fetch.StatusIsLost | background.js:181-205 | every other failing status gives the one "無法取得字幕" message, so the status is lost |
| Fetch.RawKindsTranslated | background.js:199-202 | an abort gives the timeout message and a `TypeError` the network message |
| Tracker.DownloadErrorMessageInjective | background.js:58-64 | `DownloadErrorMessage` never gives two error codes the same message, known or unknown |
| Tracker.Decide | background.js:48-69 | another download is ignored; completion resolves with the filename; otherwise an error code rejects with its message; otherwise an interruption rejects; anything else leaves the promise pending |
| Tracker.SettledIsFinal | background.js:50-68 | once settled, no later event changes the value |
| Tracker.RunIsFirstDecisive | background.js:47-69 | the promise stays pending exactly when no event is decisive, and otherwise takes the value the listener gives the first decisive event |
| Tracker.OtherDownloadIgnored | background.js:48 | events about other downloads, wherever they arrive, change nothing |
| Tracker.SettleAlwaysTerminal | background.js:42-45 | `Settle` always settles; it times out exactly when no event was decisive, and a resolution carries the given filename |
| Tracker.TimeoutIsNoErrorMessage | background.js:44-64 | the time-out message is not the message of any error code |
| Tracker.CancelledBeforeComplete | background.js:54-64 | a cancellation that arrives before completion rejects with the cancellation message |
| Tracker.DownloadTracker.constructor | background.js:42-71 | a new tracker is pending, with the timer armed and the listener registered |
| Tracker.DownloadTracker.OnDelta | background.js:47-69 | an event takes the tracker to the next state, and every terminal branch clears the timer and removes the listener exactly once |
| Tracker.DownloadTracker.OnTimeout | background.js:42-45 | the timer rejects a pending promise with the time-out message and tears down the listener; a settled tracker is unchanged |
| Tracker.AwaitDownload | background.js:41-74 | feeding a fresh tracker the events and then the timer gives `Settle` of the events, never pending |
| Orchestrator.FetchVideoTitle | background.js:211-222 | a failed page fetch fails the title step; a fetched page gives the title rule's result, which is the video id when nothing matches |
| Orchestrator.SaveOf | background.js:103-112 | the save request carries the content, the media type of the format, and the name composed from the title, the language code and the format |
| Orchestrator.ConvertAndName | background.js:95-112 | an unsupported format fails with the converter's message; blank output fails as empty; otherwise the save request holds that format's output of the cues under the composed name |
| Orchestrator.PrepareSave | background.js:86-112 | a fetch error is passed on as its message; then a page error; otherwise conversion and naming run on the fetched events and the title the page gives |
| Orchestrator.AttemptOutcome | background.js:84-135 | errors before the download pass unchanged; a refused download fails as `無法啟動下載: ` and the browser's message; a started download succeeds with the prepared name when it completes, and otherwise fails as `無法啟動下載: ` and the tracker's message |
| Orchestrator.RunAttempt | background.js:84-135 | the attempt run with a `DownloadTracker` ends as `AttemptOutcome` says |
| Orchestrator.HandleSubtitleDownload | background.js:77-147 | at most four attempts; each earlier attempt failed; a success is the first successful attempt's result; a 2000 ms wait follows each failed attempt but the last; when all four fail, the message is `下載失敗 (重試3次後): ` and the last attempt's message |
| Orchestrator.NotFoundAttempt | background.js:176-177 | a 404 caption answer fails the attempt with the not-found message |
| Orchestrator.UnsupportedFormatAttempt | background.js:236-245 | an unsupported format fails the attempt with the converter's message, before anything is saved |
| Orchestrator.NoCuesAttempt | background.js:95-101 | with no surviving cue, a SubRip or text attempt fails as empty, but a WebVTT attempt goes on to the browser |
| Orchestrator.PreparedWhenConvertible | background.js:86-112 | fetched captions, a fetched page, a supported format and non-blank output always produce a save request: the converted content, the format's media type and the composed name |
| Orchestrator.TimeoutAttempt | background.js:115-135 | a download with no decisive event fails as `無法啟動下載: 下載超時，請檢查網路連線` |
| Orchestrator.CompletedAttempt | background.js:115-127 | a download whose first decisive event is completion succeeds with the prepared file name |
| Orchestrator.SuccessfulAttempt | background.js:84-127 | fetched captions, a page, a supported format, non-blank output and a completing download make the attempt succeed with the name composed from the page's title |

## Left out

- Floating-point seconds: the source divides the millisecond times by 1000 and takes `% 1 * 1000` (background.js:230, 280, 291). The model uses whole milliseconds, so the printed millis can differ from the source's by one for times such as 1001 ms.
- Negative, fractional or non-numeric `tStartMs` and `dDurationMs` are not modelled: times are `nat`. The `typeof … === 'number'` check is modelled only as present or absent.
- `dDurationMs` of `0` and an absent one both give duration 0; the model does not tell them apart, as neither does the source.
- A `segs` element that is not an object, and `every` on sparse arrays, are not modelled; a run without `utf8` joins as the empty string.
- Strings.ToLower: only ASCII letters are lowercased, because only the names `srt`, `vtt` and `txt` matter to the source's lookups.
- Lengths are counted in code points, not UTF-16 code units, so `substring(0, 255)` cuts differently for characters outside the Basic Multilingual Plane.
- Property names that JavaScript objects inherit (such as `toString`) are not treated as keys of the media-type or error-code tables.
- The `URL` class and `searchParams.set('fmt', 'json3')`, `fetch`, `AbortController`, `response.json()`, `response.text()`, `encodeURIComponent` and the data URL are not modelled. Their results are inputs (`Net`, `Page`, `DownloadStart`).
- Wall-clock time is not modelled: the 15-second fetch abort is a thrown `AbortError`, the 60-second download timer is the final `OnTimeout`, and the 2-second pauses are added up in `waitedMs`.
- The message router and tab broadcast (background.js:1-37) and all `console` logging are not modelled; they hold no logic of the pipeline.
- options.js and convert-icons.js are not part of this model.
- Titles.ResolveTitle: its own contract states only the fallback to the video id. For a page with a match, the title is stated by Titles.ExtractTitle (the leftmost match, shortest group) and Titles.CleanTitle (the cut and the trim).
- CaptionParse.SrtRoundTrip: proved only for cue texts without a newline. The readers take one text line per cue, so a two-line cue would read back as two lines.
- CaptionParse.VttRoundTrip: proved only for cue texts without a newline, for the same reason.
- CaptionParse.TxtRoundTrip: proved only for cue texts without a newline. Plain text joins the cues with newlines, so a multi-line cue cannot be told apart from two cues.
- CaptionParse.ConvertRoundTrip: proved only for cue texts without a newline, as the three lemmas it rests on.
- A download delta whose `error` is present without a `current` value is not modelled: `Delta.error` holds the code itself. The source would reject with `下載失敗: undefined` (background.js:58-66).
- Tracker: a rejection or resolution after settlement is not modelled separately; the tracker removes its listener and clears its timer, so neither can happen.

Behaviour of the code worth noting, which the model follows:

- A failed watch-page fetch is not caught by `fetchVideoTitle`, so it fails the attempt.
- A WebVTT output is never blank, because it always has its header. Captions with no surviving cue therefore still download as WebVTT.
- A non-2xx status other than 404 and 403 loses its number: the catch block replaces the message.
- A title made only of the site name cleans to the empty string. The file name then starts with `_`.
