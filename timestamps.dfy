/**
 * Cue timestamps as `formatSRTTime` and `formatVTTTime` write them:
 * `hh:mm:ss,ttt` for SubRip and `hh:mm:ss.ttt` for WebVTT (the cue-timing
 * form of section 4.1 of the W3C WebVTT specification). Times are whole
 * milliseconds; the hour field is padded to two digits and never capped.
 */
module Timestamps {
  import opened Wrappers
  import opened Strings

  const MS_PER_SECOND: nat := 1000
  const MS_PER_MINUTE: nat := 60000
  const MS_PER_HOUR: nat := 3600000

  /** `Math.floor(seconds / 3600)`. */
  function Hours(t: nat): nat
  {
    t / MS_PER_HOUR
  }

  /** `Math.floor((seconds % 3600) / 60)`. */
  function Minutes(t: nat): nat
  {
    (t / MS_PER_MINUTE) % 60
  }

  /** `Math.floor(seconds % 60)`. */
  function Seconds(t: nat): nat
  {
    (t / MS_PER_SECOND) % 60
  }

  /** `Math.floor((seconds % 1) * 1000)`. */
  function Millis(t: nat): nat
  {
    t % MS_PER_SECOND
  }

  /** The time in milliseconds that the four fields of a timestamp denote. */
  function TimeOf(h: nat, m: nat, s: nat, ms: nat): nat
  {
    h * MS_PER_HOUR + m * MS_PER_MINUTE + s * MS_PER_SECOND + ms
  }

  /** The four fields are in range and together give back the time they were cut from. */
  lemma FieldsReconstruct(t: nat)
    ensures Minutes(t) < 60 && Seconds(t) < 60 && Millis(t) < 1000
    ensures TimeOf(Hours(t), Minutes(t), Seconds(t), Millis(t)) == t
  {
    var sec := t / 1000;
    var min := sec / 60;
    assert t == sec * 1000 + t % 1000;
    assert sec == min * 60 + sec % 60;
    assert min == (min / 60) * 60 + min % 60;
    assert t / 60000 == min;
    assert t / 3600000 == min / 60;
  }

  /** One timestamp: the separator before the milliseconds is `,` for SubRip and `.` for WebVTT. */
  function FormatTime(t: nat, sep: char): string
  {
    PadStart(NatToString(Hours(t)), 2, '0') + ":"
      + PadStart(NatToString(Minutes(t)), 2, '0') + ":"
      + PadStart(NatToString(Seconds(t)), 2, '0') + [sep]
      + PadStart(NatToString(Millis(t)), 3, '0')
  }

  function SrtTime(t: nat): string
  {
    FormatTime(t, ',')
  }

  function VttTime(t: nat): string
  {
    FormatTime(t, '.')
  }

  /**
   * Reads a timestamp back: at least two hour digits, then `:mm:ss`, the
   * separator and three millisecond digits.
   */
  function ParseTime(s: string, sep: char): Option<nat>
  {
    if |s| < 12 then None
    else
      var n := |s|;
      if s[n - 10] != ':' || s[n - 7] != ':' || s[n - 4] != sep then None
      else
        match (ParseDigits(s[..n - 10]), ParseDigits(s[n - 9..n - 7]), ParseDigits(s[n - 6..n - 4]), ParseDigits(s[n - 3..]))
        case (Some(h), Some(m), Some(sec), Some(ms)) =>
          if m < 60 && sec < 60 then Some(TimeOf(h, m, sec, ms)) else None
        case _ => None
  }

  /** The layout of a timestamp: at least two hour digits and a fixed ten-character tail. */
  lemma FormatTimeShape(t: nat, sep: char)
    ensures var s := FormatTime(t, sep);
      && |s| >= 12
      && |s| - 10 == |PadStart(NatToString(Hours(t)), 2, '0')|
      && s[|s| - 10] == ':' && s[|s| - 7] == ':' && s[|s| - 4] == sep
      && (forall i :: 0 <= i < |s| && i != |s| - 10 && i != |s| - 7 && i != |s| - 4 ==> IsDigit(s[i]))
  {
    FieldsReconstruct(t);
    NatToStringWidth(Minutes(t));
    NatToStringWidth(Seconds(t));
    NatToStringWidth(Millis(t));
  }

  /** Where the fields sit in a string laid out as `h:mm:ss?ttt`. */
  lemma LayoutSlices(h: string, m: string, sc: string, ms: string, sep: char)
    requires |m| == 2 && |sc| == 2 && |ms| == 3
    ensures var s := h + ":" + m + ":" + sc + [sep] + ms;
      && |s| == |h| + 10
      && s[|s| - 10] == ':' && s[|s| - 7] == ':' && s[|s| - 4] == sep
      && s[..|s| - 10] == h && s[|s| - 9..|s| - 7] == m && s[|s| - 6..|s| - 4] == sc && s[|s| - 3..] == ms
  {
  }

  /** A string laid out as `h:mm:ss?ttt` whose fields read as numbers in range parses to their total. */
  lemma ParseLayout(h: string, m: string, sc: string, ms: string, sep: char, hv: nat, mv: nat, sv: nat, msv: nat)
    requires |h| >= 2 && |m| == 2 && |sc| == 2 && |ms| == 3
    requires ParseDigits(h) == Some(hv) && ParseDigits(m) == Some(mv) && ParseDigits(sc) == Some(sv)
    requires ParseDigits(ms) == Some(msv) && mv < 60 && sv < 60
    ensures ParseTime(h + ":" + m + ":" + sc + [sep] + ms, sep) == Some(TimeOf(hv, mv, sv, msv))
  {
    LayoutSlices(h, m, sc, ms, sep);
  }

  /** Formatting then parsing back gives the time to the millisecond, for either separator. */
  lemma TimeRoundTrip(t: nat, sep: char)
    ensures ParseTime(FormatTime(t, sep), sep) == Some(t)
  {
    var h := PadStart(NatToString(Hours(t)), 2, '0');
    var m := PadStart(NatToString(Minutes(t)), 2, '0');
    var sc := PadStart(NatToString(Seconds(t)), 2, '0');
    var ms := PadStart(NatToString(Millis(t)), 3, '0');
    FieldsReconstruct(t);
    NatToStringWidth(Minutes(t));
    NatToStringWidth(Seconds(t));
    NatToStringWidth(Millis(t));
    ParsePadded(Hours(t), 2);
    ParsePadded(Minutes(t), 2);
    ParsePadded(Seconds(t), 2);
    ParsePadded(Millis(t), 3);
    ParseLayout(h, m, sc, ms, sep, Hours(t), Minutes(t), Seconds(t), Millis(t));
  }

  /** A SubRip timestamp reads back as the time it was written from. */
  lemma SrtTimeRoundTrip(t: nat)
    ensures ParseTime(SrtTime(t), ',') == Some(t)
  {
    TimeRoundTrip(t, ',');
  }

  /** A WebVTT timestamp reads back as the time it was written from. */
  lemma VttTimeRoundTrip(t: nat)
    ensures ParseTime(VttTime(t), '.') == Some(t)
  {
    TimeRoundTrip(t, '.');
  }

  /** The timestamps of zero and of one second. */
  lemma SmallTimes(sep: char)
    ensures FormatTime(0, sep) == "00:00:00" + [sep] + "000"
    ensures FormatTime(1000, sep) == "00:00:01" + [sep] + "000"
  {
    var zero, one := NatToString(0), NatToString(1);
    assert zero == "0" && one == "1";
    assert PadStart(zero, 2, '0') == "00" && PadStart(one, 2, '0') == "01";
    assert PadStart(zero, 3, '0') == "000";
    assert Hours(0) == 0 && Minutes(0) == 0 && Seconds(0) == 0 && Millis(0) == 0;
    assert Hours(1000) == 0 && Minutes(1000) == 0 && Seconds(1000) == 1 && Millis(1000) == 0;
    assert FormatTime(0, sep) == "00" + ":" + "00" + ":" + "00" + [sep] + "000";
    assert FormatTime(1000, sep) == "00" + ":" + "00" + ":" + "01" + [sep] + "000";
  }
}
