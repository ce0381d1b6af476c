/**
 * Readers for the three caption layouts that `convertToSRT`, `convertToVTT`
 * and `convertToTXT` write. They are the inverses against which the writers
 * are checked: for cues whose text is a single line, reading the output
 * back gives the cues (for plain text, their texts) in the same order.
 */
module CaptionParse {
  import opened Wrappers
  import opened Strings
  import opened Timestamps
  import opened Converter

  /** The cue timing line, `start --> end`. */
  function TimingLine(start: nat, end: nat, sep: char): string
  {
    FormatTime(start, sep) + " --> " + FormatTime(end, sep)
  }

  /** The timing line of a cue, which ends `duration` after it starts. */
  function CueTiming(c: Cue, sep: char): string
  {
    TimingLine(c.start, c.end, sep)
  }

  /** Reads a timing line back as its start and end times. */
  function ParseTiming(line: string, sep: char): Option<(nat, nat)>
  {
    match IndexOf(line, ' ')
    case None => None
    case Some(i) =>
      if !OccursAt(line, " --> ", i) then None
      else
        match (ParseTime(line[..i], sep), ParseTime(line[i + 5..], sep))
        case (Some(a), Some(b)) => Some((a, b))
        case _ => None
  }

  lemma NoSpaceInTime(t: nat, sep: char)
    requires sep != ' ' && sep != '\n'
    ensures ' ' !in FormatTime(t, sep) && '\n' !in FormatTime(t, sep)
  {
    FormatTimeShape(t, sep);
  }

  /** A line `a --> b` whose halves hold no space reads as the two times the halves parse to. */
  lemma TimingParse(a: string, b: string, sep: char, x: nat, y: nat)
    requires ' ' !in a && ParseTime(a, sep) == Some(x) && ParseTime(b, sep) == Some(y)
    ensures ParseTiming(a + " --> " + b, sep) == Some((x, y))
  {
    var line := a + " --> " + b;
    assert line[|a|] == ' ' && line[..|a|] == a;
    assert IndexOf(line, ' ') == Some(|a|);
    assert line[|a|..|a| + 5] == " --> ";
    assert line[|a| + 5..] == b;
  }

  lemma TimingRoundTrip(x: nat, y: nat, sep: char)
    requires sep != ' ' && sep != '\n'
    ensures ParseTiming(TimingLine(x, y, sep), sep) == Some((x, y))
    ensures '\n' !in TimingLine(x, y, sep)
  {
    var a, b := FormatTime(x, sep), FormatTime(y, sep);
    assert ' ' !in a && '\n' !in a && ParseTime(a, sep) == Some(x) by {
      NoSpaceInTime(x, sep);
      TimeRoundTrip(x, sep);
    }
    assert '\n' !in b && ParseTime(b, sep) == Some(y) by {
      NoSpaceInTime(y, sep);
      TimeRoundTrip(y, sep);
    }
    TimingParse(a, b, sep, x, y);
    TimingNoNewline(a, b);
  }

  lemma TimingNoNewline(a: string, b: string)
    requires '\n' !in a && '\n' !in b
    ensures '\n' !in a + " --> " + b
  {
    var line := a + " --> " + b;
    forall i | 0 <= i < |line| ensures line[i] != '\n' {
      if i < |a| {
        assert line[i] == a[i];
      } else if i >= |a| + 5 {
        assert line[i] == b[i - |a| - 5];
      }
    }
  }

  lemma CueTimingRoundTrip(c: Cue, sep: char)
    requires sep != ' ' && sep != '\n'
    ensures ParseTiming(CueTiming(c, sep), sep) == Some((c.start, c.end))
    ensures '\n' !in CueTiming(c, sep)
  {
    TimingRoundTrip(c.start, c.end, sep);
  }

  /** A SubRip block is its four lines joined by newlines, the last of them empty. */
  lemma SrtBlockLines(n: string, a: string, b: string, t: string)
    ensures n + "\n" + a + " --> " + b + "\n" + t + "\n" == Join([n, a + " --> " + b, t, ""], "\n")
  {
    var lines := [n, a + " --> " + b, t, ""];
    assert lines[1..][1..][1..] == [""];
    assert Join(lines[1..][1..], "\n") == t + "\n" + "";
    assert Join(lines[1..], "\n") == a + " --> " + b + "\n" + (t + "\n" + "");
    assert Join(lines, "\n") == n + "\n" + (a + " --> " + b + "\n" + (t + "\n" + ""));
  }

  /** A WebVTT block is its three lines joined by newlines, the last of them empty. */
  lemma VttBlockLines(a: string, b: string, t: string)
    ensures a + " --> " + b + "\n" + t + "\n" == Join([a + " --> " + b, t, ""], "\n")
  {
    var lines := [a + " --> " + b, t, ""];
    assert lines[1..][1..] == [""];
    assert Join(lines[1..], "\n") == t + "\n" + "";
    assert Join(lines, "\n") == a + " --> " + b + "\n" + (t + "\n" + "");
  }

  /** No cue text spans more than one line. */
  predicate SingleLineTexts(cues: seq<Cue>)
  {
    forall k :: 0 <= k < |cues| ==> '\n' !in cues[k].text
  }

  // ---------------------------------------------------------------- SubRip

  /** The lines of a SubRip file: per cue its index, its timing, its text and an empty line. */
  function SrtLines(cues: seq<Cue>, index: nat): (lines: seq<string>)
    ensures |lines| == 4 * |cues|
  {
    if cues == [] then []
    else [NatToString(index), CueTiming(cues[0], ','), cues[0].text, ""] + SrtLines(cues[1..], index + 1)
  }

  lemma {:induction false} SrtBlocksAsLines(cues: seq<Cue>, index: nat)
    requires cues != []
    ensures Join(SrtBlocks(cues, index), "\n") == Join(SrtLines(cues, index), "\n")
  {
    var c, rest := cues[0], cues[1..];
    var group := [NatToString(index), CueTiming(c, ','), c.text, ""];
    assert SrtBlock(index, c) == Join(group, "\n") by {
      SrtBlockLines(NatToString(index), SrtTime(c.start), SrtTime(c.end), c.text);
    }
    assert SrtLines(cues, index) == group + SrtLines(rest, index + 1);
    if rest == [] {
      assert SrtLines(cues, index) == group;
    } else {
      SrtBlocksAsLines(rest, index + 1);
      assert SrtBlocks(cues, index) == [SrtBlock(index, c)] + SrtBlocks(rest, index + 1);
      JoinAppend([SrtBlock(index, c)], SrtBlocks(rest, index + 1), "\n");
      JoinAppend(group, SrtLines(rest, index + 1), "\n");
    }
  }

  /** No line holds a newline, so joining the lines by newlines can be split back. */
  predicate NoNewlines(lines: seq<string>)
  {
    forall k :: 0 <= k < |lines| ==> '\n' !in lines[k]
  }

  lemma NoNewlinesAppend(a: seq<string>, b: seq<string>)
    requires NoNewlines(a) && NoNewlines(b)
    ensures NoNewlines(a + b)
  {
    forall k | 0 <= k < |a + b| ensures '\n' !in (a + b)[k] {
      if k >= |a| {
        assert (a + b)[k] == b[k - |a|];
      }
    }
  }

  lemma NoNewlinesGroup(a: string, b: string, t: string)
    requires '\n' !in a && '\n' !in b && '\n' !in t
    ensures NoNewlines([a, b, t, ""]) && NoNewlines([b, t, ""])
  {
  }

  lemma SrtGroupSingle(c: Cue, index: nat)
    requires '\n' !in c.text
    ensures NoNewlines([NatToString(index), CueTiming(c, ','), c.text, ""])
  {
    var n := NatToString(index);
    assert '\n' !in n by {
      assert forall i :: 0 <= i < |n| ==> IsDigit(n[i]);
    }
    assert '\n' !in CueTiming(c, ',') by {
      CueTimingRoundTrip(c, ',');
    }
    NoNewlinesGroup(n, CueTiming(c, ','), c.text);
  }

  lemma {:induction false} SrtLinesSingle(cues: seq<Cue>, index: nat)
    requires SingleLineTexts(cues)
    ensures NoNewlines(SrtLines(cues, index))
  {
    if cues != [] {
      SrtGroupSingle(cues[0], index);
      SrtLinesSingle(cues[1..], index + 1);
      NoNewlinesAppend([NatToString(index), CueTiming(cues[0], ','), cues[0].text, ""], SrtLines(cues[1..], index + 1));
    }
  }

  function ParseSrtLines(lines: seq<string>, index: nat): Option<seq<Cue>>
    decreases |lines|
  {
    if lines == [] then Some([])
    else if |lines| < 4 || lines[0] != NatToString(index) || lines[3] != "" then None
    else
      match ParseTiming(lines[1], ',')
      case None => None
      case Some((a, b)) =>
        match ParseSrtLines(lines[4..], index + 1)
        case None => None
        case Some(rest) => Some([Cue(a, b, lines[2])] + rest)
  }

  /** Reads a SubRip file: numbered blocks from 1, each a timing line, one text line and an empty line. */
  function ParseSrt(s: string): Option<seq<Cue>>
  {
    if s == "" then Some([]) else ParseSrtLines(Split(s, '\n'), 1)
  }

  /** One SubRip block read off the front of the lines. */
  lemma {:induction false} ParseSrtStep(c: Cue, timing: string, index: nat, more: seq<string>, rest: seq<Cue>)
    requires ParseTiming(timing, ',') == Some((c.start, c.end))
    requires ParseSrtLines(more, index + 1) == Some(rest)
    ensures ParseSrtLines([NatToString(index), timing, c.text, ""] + more, index) == Some([c] + rest)
  {
    var lines := [NatToString(index), timing, c.text, ""] + more;
    assert lines[4..] == more;
  }

  /** The block written for a cue reads back as that cue. */
  lemma ParseSrtCueStep(c: Cue, index: nat, more: seq<string>, rest: seq<Cue>)
    requires ParseSrtLines(more, index + 1) == Some(rest)
    ensures ParseSrtLines([NatToString(index), CueTiming(c, ','), c.text, ""] + more, index) == Some([c] + rest)
  {
    CueTimingRoundTrip(c, ',');
    ParseSrtStep(c, CueTiming(c, ','), index, more, rest);
  }

  lemma {:induction false} ParseSrtLinesRoundTrip(cues: seq<Cue>, index: nat)
    ensures ParseSrtLines(SrtLines(cues, index), index) == Some(cues)
  {
    if cues != [] {
      ParseSrtLinesRoundTrip(cues[1..], index + 1);
      ParseSrtCueStep(cues[0], index, SrtLines(cues[1..], index + 1), cues[1..]);
      assert cues == [cues[0]] + cues[1..];
    }
  }

  /** Reading a SubRip output back gives the cues it was written from, in order. */
  lemma SrtRoundTrip(cues: seq<Cue>)
    requires SingleLineTexts(cues)
    ensures ParseSrt(SrtOf(cues)) == Some(cues)
  {
    if cues != [] {
      var lines := SrtLines(cues, 1);
      SrtBlocksAsLines(cues, 1);
      SrtLinesSingle(cues, 1);
      JoinNonEmpty(lines, "\n");
      SplitJoin(lines, '\n');
      ParseSrtLinesRoundTrip(cues, 1);
    }
  }

  // ---------------------------------------------------------------- WebVTT

  /** The cue lines of a WebVTT file: per cue its timing, its text and an empty line. */
  function VttLines(cues: seq<Cue>): (lines: seq<string>)
    ensures |lines| == 3 * |cues|
  {
    if cues == [] then [] else [CueTiming(cues[0], '.'), cues[0].text, ""] + VttLines(cues[1..])
  }

  lemma {:induction false} VttBlocksAsLines(cues: seq<Cue>)
    requires cues != []
    ensures Join(VttBlocks(cues), "\n") == Join(VttLines(cues), "\n")
  {
    var c, rest := cues[0], cues[1..];
    var group := [CueTiming(c, '.'), c.text, ""];
    assert VttBlock(c) == Join(group, "\n") by {
      VttBlockLines(VttTime(c.start), VttTime(c.end), c.text);
    }
    assert VttLines(cues) == group + VttLines(rest);
    if rest == [] {
      assert VttLines(cues) == group;
    } else {
      VttBlocksAsLines(rest);
      assert VttBlocks(cues) == [VttBlock(c)] + VttBlocks(rest);
      JoinAppend([VttBlock(c)], VttBlocks(rest), "\n");
      JoinAppend(group, VttLines(rest), "\n");
    }
  }

  lemma VttGroupSingle(c: Cue)
    requires '\n' !in c.text
    ensures NoNewlines([CueTiming(c, '.'), c.text, ""])
  {
    assert '\n' !in CueTiming(c, '.') by {
      CueTimingRoundTrip(c, '.');
    }
    NoNewlinesGroup("", CueTiming(c, '.'), c.text);
  }

  lemma {:induction false} VttLinesSingle(cues: seq<Cue>)
    requires SingleLineTexts(cues)
    ensures NoNewlines(VttLines(cues))
  {
    if cues != [] {
      VttGroupSingle(cues[0]);
      VttLinesSingle(cues[1..]);
      NoNewlinesAppend([CueTiming(cues[0], '.'), cues[0].text, ""], VttLines(cues[1..]));
    }
  }

  function ParseVttLines(lines: seq<string>): Option<seq<Cue>>
    decreases |lines|
  {
    if lines == [] then Some([])
    else if |lines| < 3 || lines[2] != "" then None
    else
      match ParseTiming(lines[0], '.')
      case None => None
      case Some((a, b)) =>
        match ParseVttLines(lines[3..])
        case None => None
        case Some(rest) => Some([Cue(a, b, lines[1])] + rest)
  }

  /** Reads a WebVTT file: the `WEBVTT` line, an empty line, then blocks of timing, one text line and an empty line. */
  function ParseVtt(s: string): Option<seq<Cue>>
  {
    if s == VTT_HEADER then Some([])
    else
      var lines := Split(s, '\n');
      if |lines| >= 2 && lines[0] == "WEBVTT" && lines[1] == "" then ParseVttLines(lines[2..]) else None
  }

  /** One WebVTT block read off the front of the cue lines. */
  lemma {:induction false} ParseVttStep(c: Cue, timing: string, more: seq<string>, rest: seq<Cue>)
    requires ParseTiming(timing, '.') == Some((c.start, c.end))
    requires ParseVttLines(more) == Some(rest)
    ensures ParseVttLines([timing, c.text, ""] + more) == Some([c] + rest)
  {
    var lines := [timing, c.text, ""] + more;
    assert lines[3..] == more;
  }

  /** The lines written for a cue read back as that cue. */
  lemma ParseVttCueStep(c: Cue, more: seq<string>, rest: seq<Cue>)
    requires ParseVttLines(more) == Some(rest)
    ensures ParseVttLines([CueTiming(c, '.'), c.text, ""] + more) == Some([c] + rest)
  {
    CueTimingRoundTrip(c, '.');
    ParseVttStep(c, CueTiming(c, '.'), more, rest);
  }

  lemma {:induction false} ParseVttLinesRoundTrip(cues: seq<Cue>)
    ensures ParseVttLines(VttLines(cues)) == Some(cues)
  {
    if cues != [] {
      ParseVttLinesRoundTrip(cues[1..]);
      ParseVttCueStep(cues[0], VttLines(cues[1..]), cues[1..]);
      assert cues == [cues[0]] + cues[1..];
    }
  }

  /** A WebVTT output with cues is its header lines and cue lines joined by newlines, and more than the bare header. */
  lemma VttOfAsLines(cues: seq<Cue>)
    requires cues != []
    ensures VttOf(cues) == Join(["WEBVTT", ""] + VttLines(cues), "\n")
    ensures VttOf(cues) != VTT_HEADER
  {
    VttBlocksAsLines(cues);
    JoinAppend(["WEBVTT", ""], VttLines(cues), "\n");
    assert Join(["WEBVTT", ""], "\n") == "WEBVTT\n";
    assert VttBlocks(cues)[0] == VttBlock(cues[0]);
    JoinNonEmpty(VttBlocks(cues), "\n");
    assert |VttOf(cues)| > |VTT_HEADER|;
  }

  /** Reading a WebVTT output back gives the cues it was written from, in order. */
  lemma VttRoundTrip(cues: seq<Cue>)
    requires SingleLineTexts(cues)
    ensures ParseVtt(VttOf(cues)) == Some(cues)
  {
    if cues == [] {
      assert VttOf(cues) == VTT_HEADER;
    } else {
      var lines := ["WEBVTT", ""] + VttLines(cues);
      VttOfAsLines(cues);
      VttLinesSingle(cues);
      NoNewlinesAppend(["WEBVTT", ""], VttLines(cues));
      SplitJoin(lines, '\n');
      assert lines[2..] == VttLines(cues);
      ParseVttLinesRoundTrip(cues);
    }
  }

  // ------------------------------------------------------------ plain text

  /** Reads a plain-text output: one cue text per line. */
  function ParseTxt(s: string): seq<string>
  {
    if s == "" then [] else Split(s, '\n')
  }

  /** Reading a plain-text output back gives the cue texts, in order. */
  lemma TxtRoundTrip(cues: seq<Cue>)
    requires SingleLineTexts(cues)
    requires forall k :: 0 <= k < |cues| ==> cues[k].text != ""
    ensures ParseTxt(TxtOf(cues)) == Texts(cues)
  {
    if cues != [] {
      var ts := Texts(cues);
      JoinNonEmpty(ts, "\n");
      SplitJoin(ts, '\n');
    }
  }

  /**
   * Whatever format `convertSubtitleFormat` writes, reading its output back
   * recovers the normalised cues (for plain text, their texts), provided no
   * cue text spans several lines.
   */
  lemma ConvertRoundTrip(events: seq<TimedEvent>, targetFormat: string)
    requires SingleLineTexts(ToCues(events))
    ensures match ConvertSubtitleFormat(events, targetFormat)
      case Err(_) => true
      case Ok(out) =>
        match ParseFormat(targetFormat).value
        case Srt => ParseSrt(out) == Some(ToCues(events))
        case Vtt => ParseVtt(out) == Some(ToCues(events))
        case Txt => ParseTxt(out) == Texts(ToCues(events))
  {
    var cues := ToCues(events);
    match ParseFormat(targetFormat)
    case None =>
    case Some(Srt) => SrtRoundTrip(cues);
    case Some(Vtt) => VttRoundTrip(cues);
    case Some(Txt) =>
      CueTextsNotBlank(events, 0);
      assert forall k :: 0 <= k < |cues| ==> cues[k].text != "";
      TxtRoundTrip(cues);
  }
}
