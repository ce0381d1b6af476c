/**
 * `convertSubtitleFormat` and its three writers: a list of YouTube "json3"
 * events becomes a list of cues (events whose text is blank are dropped),
 * which is written as SubRip, WebVTT or plain text.
 */
module Converter {
  import opened Wrappers
  import opened Strings
  import opened Timestamps

  /** One text run of an event; a run without `utf8` joins as the empty string. */
  datatype Seg = Seg(utf8: Option<string>)

  /**
   * An event that passed validation: a numeric `tStartMs`, an optional
   * `dDurationMs`, and `segs` either absent or an array.
   */
  datatype TimedEvent = TimedEvent(tStartMs: nat, dDurationMs: Option<nat>, segs: Option<seq<Seg>>)

  /**
   * A normalised cue: when it starts and when it ends, in milliseconds, and
   * its text. The end is `start + duration`, the sum every writer prints.
   */
  datatype Cue = Cue(start: nat, end: nat, text: string)

  datatype Format = Srt | Vtt | Txt

  datatype ConvertError = UnsupportedFormat

  const UNSUPPORTED_FORMAT_MESSAGE := "不支援的字幕格式"

  function ErrorMessage(e: ConvertError): string
  {
    UNSUPPORTED_FORMAT_MESSAGE
  }

  /** `segs.map(seg => seg.utf8).join('')`. */
  function SegsText(segs: seq<Seg>): string
  {
    if segs == [] then ""
    else (match segs[0].utf8 case Some(u) => u case None => "") + SegsText(segs[1..])
  }

  /** The text of an event: its runs joined, or the empty string when it has no `segs`. */
  function EventText(e: TimedEvent): string
  {
    match e.segs
    case None => ""
    case Some(segs) => SegsText(segs)
  }

  /** `dDurationMs || 0`. */
  function DurationOf(e: TimedEvent): nat
  {
    match e.dDurationMs
    case None => 0
    case Some(d) => d
  }

  function CueOf(e: TimedEvent): Cue
  {
    Cue(e.tStartMs, e.tStartMs + DurationOf(e), EventText(e))
  }

  /** An event survives the filter exactly when its trimmed text is non-empty. */
  predicate Kept(e: TimedEvent)
  {
    !IsBlank(EventText(e))
  }

  /** The events from index `i` on, mapped to cues and filtered, in order. */
  function CuesFrom(events: seq<TimedEvent>, i: nat): seq<Cue>
    requires i <= |events|
    decreases |events| - i
  {
    if i == |events| then []
    else (if Kept(events[i]) then [CueOf(events[i])] else []) + CuesFrom(events, i + 1)
  }

  /** `events.map(...).filter(sub => sub.text.trim())`. */
  function ToCues(events: seq<TimedEvent>): seq<Cue>
  {
    CuesFrom(events, 0)
  }

  /** The indices, from `i` on, of the events that survive the filter. */
  function KeptFrom(events: seq<TimedEvent>, i: nat): (ks: seq<nat>)
    requires i <= |events|
    ensures forall k :: 0 <= k < |ks| ==> i <= ks[k] < |events| && Kept(events[ks[k]])
    ensures forall k, l :: 0 <= k < l < |ks| ==> ks[k] < ks[l]
    decreases |events| - i
  {
    if i == |events| then []
    else (if Kept(events[i]) then [i] else []) + KeptFrom(events, i + 1)
  }

  /** No surviving event is missed. */
  lemma {:induction false} KeptFromComplete(events: seq<TimedEvent>, i: nat, j: nat)
    requires i <= j < |events| && Kept(events[j])
    ensures j in KeptFrom(events, i)
    decreases |events| - i
  {
    if i < j {
      KeptFromComplete(events, i + 1, j);
    }
  }

  /** One cue per surviving event. */
  lemma {:induction false} CuesCount(events: seq<TimedEvent>, i: nat)
    requires i <= |events|
    ensures |CuesFrom(events, i)| == |KeptFrom(events, i)|
    decreases |events| - i
  {
    if i < |events| {
      CuesCount(events, i + 1);
    }
  }

  /** The cues are the surviving events, one cue each, in input order. */
  lemma {:induction false} CuesAreKeptEvents(events: seq<TimedEvent>, i: nat)
    requires i <= |events|
    ensures |CuesFrom(events, i)| == |KeptFrom(events, i)|
    ensures forall k :: 0 <= k < |KeptFrom(events, i)| ==>
      CuesFrom(events, i)[k] == CueOf(events[KeptFrom(events, i)[k]])
    decreases |events| - i
  {
    CuesCount(events, i);
    if i < |events| {
      CuesAreKeptEvents(events, i + 1);
      var cs, ks := CuesFrom(events, i), KeptFrom(events, i);
      var rest, restKs := CuesFrom(events, i + 1), KeptFrom(events, i + 1);
      if Kept(events[i]) {
        assert cs == [CueOf(events[i])] + rest;
        assert ks == [i] + restKs;
        forall k | 0 <= k < |ks| ensures cs[k] == CueOf(events[ks[k]]) {
          if k > 0 {
            assert cs[k] == rest[k - 1] && ks[k] == restKs[k - 1];
          }
        }
      } else {
        assert cs == rest;
        assert ks == restKs;
      }
    }
  }

  /**
   * Cue normalisation: the cues are exactly the events with non-blank text,
   * in order, each with its start, its duration (0 when absent) and its text.
   */
  lemma ToCuesSpec(events: seq<TimedEvent>)
    ensures var ks := KeptFrom(events, 0);
      && |ToCues(events)| == |ks|
      && (forall k, l :: 0 <= k < l < |ks| ==> ks[k] < ks[l])
      && (forall j :: 0 <= j < |events| ==> (j in ks <==> Kept(events[j])))
      && (forall k :: 0 <= k < |ks| ==>
            ToCues(events)[k] == Cue(events[ks[k]].tStartMs, events[ks[k]].tStartMs + DurationOf(events[ks[k]]), EventText(events[ks[k]])))
  {
    CuesAreKeptEvents(events, 0);
    forall j | 0 <= j < |events| && Kept(events[j]) ensures j in KeptFrom(events, 0) {
      KeptFromComplete(events, 0, j);
    }
  }

  /** Every cue's text is non-blank. */
  lemma {:induction false} CueTextsNotBlank(events: seq<TimedEvent>, i: nat)
    requires i <= |events|
    ensures forall k :: 0 <= k < |CuesFrom(events, i)| ==> !IsBlank(CuesFrom(events, i)[k].text)
    decreases |events| - i
  {
    if i < |events| {
      CueTextsNotBlank(events, i + 1);
    }
  }

  /** The name of a format as `switch (targetFormat.toLowerCase())` matches it. */
  function FormatName(f: Format): string
  {
    match f
    case Srt => "srt"
    case Vtt => "vtt"
    case Txt => "txt"
  }

  function ParseFormat(name: string): Option<Format>
  {
    var lower := ToLower(name);
    if lower == "srt" then Some(Srt)
    else if lower == "vtt" then Some(Vtt)
    else if lower == "txt" then Some(Txt)
    else None
  }

  /** One SubRip block: the 1-based index, the timing line and the text, each ended by a newline. */
  function SrtBlock(index: nat, c: Cue): string
  {
    NatToString(index) + "\n" + SrtTime(c.start) + " --> " + SrtTime(c.end) + "\n" + c.text + "\n"
  }

  function SrtBlocks(cues: seq<Cue>, index: nat): seq<string>
  {
    if cues == [] then [] else [SrtBlock(index, cues[0])] + SrtBlocks(cues[1..], index + 1)
  }

  /** `convertToSRT`: the blocks numbered from 1 and joined by newlines. */
  function SrtOf(cues: seq<Cue>): string
  {
    Join(SrtBlocks(cues, 1), "\n")
  }

  /** One WebVTT cue block: the timing line and the text, each ended by a newline. */
  function VttBlock(c: Cue): string
  {
    VttTime(c.start) + " --> " + VttTime(c.end) + "\n" + c.text + "\n"
  }

  function VttBlocks(cues: seq<Cue>): seq<string>
  {
    if cues == [] then [] else [VttBlock(cues[0])] + VttBlocks(cues[1..])
  }

  const VTT_HEADER := "WEBVTT\n\n"

  /** `convertToVTT`: the `WEBVTT` header and a blank line, then the blocks joined by newlines. */
  function VttOf(cues: seq<Cue>): string
  {
    VTT_HEADER + Join(VttBlocks(cues), "\n")
  }

  function Texts(cues: seq<Cue>): (ts: seq<string>)
    ensures |ts| == |cues| && forall k :: 0 <= k < |cues| ==> ts[k] == cues[k].text
  {
    if cues == [] then [] else [cues[0].text] + Texts(cues[1..])
  }

  /** `convertToTXT`: the cue texts joined by newlines. */
  function TxtOf(cues: seq<Cue>): string
  {
    Join(Texts(cues), "\n")
  }

  function Write(f: Format, cues: seq<Cue>): string
  {
    match f
    case Srt => SrtOf(cues)
    case Vtt => VttOf(cues)
    case Txt => TxtOf(cues)
  }

  /**
   * `convertSubtitleFormat`: normalise the events to cues, then write them
   * in the format named case-insensitively; any other name is an error.
   */
  function ConvertSubtitleFormat(events: seq<TimedEvent>, targetFormat: string): (r: Result<string, ConvertError>)
    ensures r.Err? <==> ParseFormat(targetFormat).None?
    ensures r.Ok? ==> r.value == Write(ParseFormat(targetFormat).value, ToCues(events))
  {
    var cues := ToCues(events);
    match ParseFormat(targetFormat)
    case None => Err(UnsupportedFormat)
    case Some(f) => Ok(Write(f, cues))
  }

  lemma ToLowerIdempotent(s: string)
    ensures ToLower(ToLower(s)) == ToLower(s)
  {
  }

  /** The format name is matched case-insensitively, and each format's own name selects it. */
  lemma ParseFormatCaseInsensitive(name: string, f: Format)
    ensures ParseFormat(ToLower(name)) == ParseFormat(name)
    ensures ParseFormat(FormatName(f)) == Some(f)
    ensures ParseFormat(name) == Some(f) <==> ToLower(name) == FormatName(f)
  {
    ToLowerIdempotent(name);
    assert ToLower("srt") == "srt";
    assert ToLower("vtt") == "vtt";
    assert ToLower("txt") == "txt";
  }

  /**
   * The output is blank exactly when no cue survives for SubRip and plain
   * text; a WebVTT output is never blank, since it always has its header.
   */
  lemma BlankOutput(events: seq<TimedEvent>)
    ensures IsBlank(SrtOf(ToCues(events))) <==> ToCues(events) == []
    ensures IsBlank(TxtOf(ToCues(events))) <==> ToCues(events) == []
    ensures !IsBlank(VttOf(ToCues(events)))
  {
    var cues := ToCues(events);
    CueTextsNotBlank(events, 0);
    assert VttOf(cues)[0] == 'W';
    if cues != [] {
      var b := SrtBlock(1, cues[0]);
      assert b[0] == NatToString(1)[0];
      JoinNonEmpty(SrtBlocks(cues, 1), "\n");
      assert !IsWhite(SrtOf(cues)[0]);
      var t := cues[0].text;
      var k :| 0 <= k < |t| && !IsWhite(t[k]);
      if |cues| == 1 {
        assert TxtOf(cues) == t;
      } else {
        assert TxtOf(cues) == t + "\n" + Join(Texts(cues)[1..], "\n");
      }
      assert TxtOf(cues)[k] == t[k];
    }
  }

  lemma HiCue(e: TimedEvent)
    requires e == TimedEvent(0, Some(1000), Some([Seg(Some("Hi"))]))
    ensures ToCues([e]) == [Cue(0, 1000, "Hi")]
  {
    assert EventText(e) == "Hi";
    assert !IsBlank("Hi") by { assert !IsWhite("Hi"[0]); }
    assert CuesFrom([e], 1) == [];
    assert CuesFrom([e], 0) == [CueOf(e)];
  }

  lemma SrtLiteral()
    ensures "1" + "\n" + "00:00:00" + [','] + "000" + " --> " + "00:00:01" + [','] + "000" + "\n" + "Hi" + "\n"
      == "1\n00:00:00,000 --> 00:00:01,000\nHi\n"
  {
  }

  lemma VttBlockLiteral()
    ensures "00:00:00" + ['.'] + "000" + " --> " + "00:00:01" + ['.'] + "000" + "\n" + "Hi" + "\n"
      == "00:00:00.000 --> 00:00:01.000\nHi\n"
  {
  }

  lemma SrtOfHi()
    ensures SrtOf([Cue(0, 1000, "Hi")]) == "1\n00:00:00,000 --> 00:00:01,000\nHi\n"
  {
    var c := Cue(0, 1000, "Hi");
    SmallTimes(',');
    assert NatToString(1) == "1";
    assert SrtBlocks([c], 1) == [SrtBlock(1, c)];
    assert SrtOf([c]) == "1" + "\n" + "00:00:00" + [','] + "000" + " --> " + "00:00:01" + [','] + "000" + "\n" + "Hi" + "\n";
    SrtLiteral();
  }

  lemma VttBlockHi()
    ensures VttBlock(Cue(0, 1000, "Hi")) == "00:00:00.000 --> 00:00:01.000\nHi\n"
  {
    SmallTimes('.');
    assert VttBlock(Cue(0, 1000, "Hi")) == "00:00:00" + ['.'] + "000" + " --> " + "00:00:01" + ['.'] + "000" + "\n" + "Hi" + "\n";
    VttBlockLiteral();
  }

  lemma VttOfOne(c: Cue)
    ensures VttOf([c]) == VTT_HEADER + VttBlock(c)
  {
    assert VttBlocks([c]) == [VttBlock(c)];
  }

  lemma VttOfHi()
    ensures VttOf([Cue(0, 1000, "Hi")]) == "WEBVTT\n\n00:00:00.000 --> 00:00:01.000\nHi\n"
  {
    VttOfOne(Cue(0, 1000, "Hi"));
    VttBlockHi();
    HeaderLiteral();
  }

  lemma HeaderLiteral()
    ensures "WEBVTT\n\n" + "00:00:00.000 --> 00:00:01.000\nHi\n" == "WEBVTT\n\n00:00:00.000 --> 00:00:01.000\nHi\n"
  {
  }

  /** Scenario: one two-letter cue of one second, written as SubRip. */
  lemma SrtExample()
    ensures ConvertSubtitleFormat([TimedEvent(0, Some(1000), Some([Seg(Some("Hi"))]))], "srt")
      == Ok("1\n00:00:00,000 --> 00:00:01,000\nHi\n")
  {
    HiCue(TimedEvent(0, Some(1000), Some([Seg(Some("Hi"))])));
    assert ToLower("srt") == "srt";
    SrtOfHi();
  }

  /** Scenario: the same cue written as WebVTT, with its header; the format name is given in upper case. */
  lemma VttExample()
    ensures ConvertSubtitleFormat([TimedEvent(0, Some(1000), Some([Seg(Some("Hi"))]))], "VTT")
      == Ok("WEBVTT\n\n00:00:00.000 --> 00:00:01.000\nHi\n")
  {
    HiCue(TimedEvent(0, Some(1000), Some([Seg(Some("Hi"))])));
    assert ToLower("VTT") == "vtt";
    VttOfHi();
  }

  /** Scenario: when every event is blank, SubRip output is empty but WebVTT output is the bare header. */
  lemma AllBlankExample()
    ensures ConvertSubtitleFormat([TimedEvent(0, None, Some([Seg(Some(" \n"))])), TimedEvent(5, Some(10), None)], "srt") == Ok("")
    ensures ConvertSubtitleFormat([TimedEvent(0, None, Some([Seg(Some(" \n"))])), TimedEvent(5, Some(10), None)], "vtt") == Ok("WEBVTT\n\n")
  {
    var es := [TimedEvent(0, None, Some([Seg(Some(" \n"))])), TimedEvent(5, Some(10), None)];
    assert ToLower("srt") == "srt";
    assert ToLower("vtt") == "vtt";
    assert EventText(es[0]) == " \n";
    assert IsBlank(" \n");
    assert CuesFrom(es, 2) == [];
    assert CuesFrom(es, 1) == [];
    assert ToCues(es) == [];
    assert VttOf([]) == "WEBVTT\n\n";
  }
}
