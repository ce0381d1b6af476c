/**
 * The name and media type under which a converted subtitle is saved:
 * `sanitizeFilename`, the `title_language.format` pattern and the
 * format-to-MIME table of `handleSubtitleDownload`.
 */
module Filenames {
  import opened Strings
  import opened Converter

  /** `substring(0, 255)`: the longest name kept. */
  const MAX_FILENAME_LENGTH: nat := 255

  /** The characters Windows forbids in a file name, the class `[<>:"/\\|?*]`. */
  predicate IsReserved(c: char)
  {
    c in "<>:\"/\\|?*"
  }

  /** The first pass: every reserved character becomes `_`, nothing else moves. */
  function ReplaceReserved(s: string): (r: string)
    ensures |r| == |s|
    ensures forall i :: 0 <= i < |s| ==> r[i] == if IsReserved(s[i]) then '_' else s[i]
  {
    seq(|s|, i requires 0 <= i < |s| => if IsReserved(s[i]) then '_' else s[i])
  }

  /** The second pass, `replace(/\s+/g, '_')`: every maximal run of white space becomes one `_`. */
  function CollapseWhite(s: string): (r: string)
    ensures |r| <= |s|
    ensures forall i :: 0 <= i < |r| ==> !IsWhite(r[i]) && (r[i] == '_' || r[i] in s)
    decreases |s|
  {
    if s == [] then []
    else if IsWhite(s[0]) then
      var rest := TrimStart(s);
      assert rest == [] || rest[0] != s[0];
      "_" + CollapseWhite(rest)
    else [s[0]] + CollapseWhite(s[1..])
  }

  /** `sanitizeFilename`: both passes, then the first 255 characters. */
  function Sanitize(s: string): (r: string)
    ensures |r| <= MAX_FILENAME_LENGTH
    ensures forall i :: 0 <= i < |r| ==> !IsReserved(r[i]) && !IsWhite(r[i])
  {
    var c := CollapseWhite(ReplaceReserved(s));
    if |c| <= MAX_FILENAME_LENGTH then c else c[..MAX_FILENAME_LENGTH]
  }

  /** A name already free of reserved characters and white space is not touched by either pass. */
  predicate IsSafeName(s: string)
  {
    forall i :: 0 <= i < |s| ==> !IsReserved(s[i]) && !IsWhite(s[i])
  }

  lemma {:induction false} CollapseWhiteFree(s: string)
    requires forall i :: 0 <= i < |s| ==> !IsWhite(s[i])
    ensures CollapseWhite(s) == s
    decreases |s|
  {
    if s != [] {
      CollapseWhiteFree(s[1..]);
    }
  }

  /** A run made only of white space collapses to a single `_`. */
  lemma CollapseWhiteRun(w: string)
    requires w != [] && IsBlank(w)
    ensures CollapseWhite(w) == "_"
  {
    assert TrimStart(w) == [];
  }

  /**
   * Collapsing works piece by piece when no run of white space spans the
   * cut: together with `CollapseWhiteFree` and `CollapseWhiteRun` this
   * pins down the pass on every string.
   */
  lemma {:induction false} CollapseWhiteConcat(a: string, b: string)
    requires a == [] || b == [] || !IsWhite(a[|a| - 1]) || !IsWhite(b[0])
    ensures CollapseWhite(a + b) == CollapseWhite(a) + CollapseWhite(b)
    decreases |a|
  {
    if a == [] {
      assert a + b == b;
    } else if b == [] {
      assert a + b == a;
    } else if !IsWhite(a[0]) {
      assert (a + b)[1..] == a[1..] + b;
      CollapseWhiteConcat(a[1..], b);
    } else {
      var ta := TrimStart(a);
      if ta == [] {
        // The whole of `a` is one run; it stops where `b` starts.
        assert !IsWhite(b[0]);
        assert TrimStart(a + b) == b by { TrimStartSkip(a, b); }
      } else {
        assert TrimStart(a + b) == ta + b by { TrimStartSkip(a, b); }
        CollapseWhiteConcat(ta, b);
      }
    }
  }

  /** Skipping leading white space in `a + b` stops inside `a` unless all of `a` is white. */
  lemma {:induction false} TrimStartSkip(a: string, b: string)
    requires b == [] || !IsWhite(b[0]) || TrimStart(a) != []
    ensures TrimStart(a + b) == TrimStart(a) + b
    decreases |a|
  {
    if a == [] {
      assert a + b == b;
    } else if IsWhite(a[0]) {
      assert (a + b)[1..] == a[1..] + b;
      TrimStartSkip(a[1..], b);
    }
  }

  /** A safe name of at most 255 characters is its own sanitized form. */
  lemma SanitizeKeepsSafe(s: string)
    requires IsSafeName(s) && |s| <= MAX_FILENAME_LENGTH
    ensures Sanitize(s) == s
  {
    assert ReplaceReserved(s) == s;
    CollapseWhiteFree(s);
  }

  /** Sanitizing twice gives the same name as sanitizing once. */
  lemma SanitizeIdempotent(s: string)
    ensures Sanitize(Sanitize(s)) == Sanitize(s)
  {
    SanitizeKeepsSafe(Sanitize(s));
  }

  /** `${sanitizeFilename(videoTitle)}_${languageCode}.${format}`; the format keeps the case it was given in. */
  function Filename(videoTitle: string, languageCode: string, format: string): (r: string)
    ensures |r| == |Sanitize(videoTitle)| + |languageCode| + |format| + 2
    ensures r[..|Sanitize(videoTitle)|] == Sanitize(videoTitle)
    ensures r[|Sanitize(videoTitle)|] == '_'
    ensures r[|Sanitize(videoTitle)| + 1..|r| - |format| - 1] == languageCode
    ensures r[|r| - |format| - 1..] == "." + format
  {
    var name := Sanitize(videoTitle);
    NamePattern(name, languageCode, format);
    name + "_" + languageCode + "." + format
  }

  /** Where each part sits in `${name}_${languageCode}.${format}`. */
  lemma NamePattern(name: string, languageCode: string, format: string)
    ensures var r := name + "_" + languageCode + "." + format;
      && |r| == |name| + |languageCode| + |format| + 2
      && r[..|name|] == name
      && r[|name|] == '_'
      && r[|name| + 1..|r| - |format| - 1] == languageCode
      && r[|r| - |format| - 1..] == "." + format
  {
    var r := name + "_" + languageCode + "." + format;
    assert r[..|name|] == name;
    assert r[|name| + 1..|r| - |format| - 1] == languageCode;
    assert r[|r| - |format| - 1..] == "." + format;
  }

  /** The MIME table, keyed by lower-case format name. */
  const MIME_TYPES: map<string, string> := map["srt" := "application/x-subrip", "vtt" := "text/vtt", "txt" := "text/plain"]

  /**
   * `mimeTypes[format.toLowerCase()] || 'text/plain'`. The table agrees
   * with the converter: a format name the converter accepts gets the media
   * type of the format it selects, in any letter case; every other name
   * falls back to plain text.
   */
  function MimeType(format: string): (r: string)
    ensures ParseFormat(format).Some? ==> r == FormatMime(ParseFormat(format).value)
    ensures ParseFormat(format).None? ==> r == "text/plain"
  {
    var key := ToLower(format);
    assert key in MIME_TYPES <==> key == "srt" || key == "vtt" || key == "txt";
    if key in MIME_TYPES then MIME_TYPES[key] else "text/plain"
  }

  /** The media type that belongs to each output format. */
  function FormatMime(f: Format): string
  {
    match f
    case Srt => "application/x-subrip"
    case Vtt => "text/vtt"
    case Txt => "text/plain"
  }
}
