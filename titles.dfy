/**
 * `fetchVideoTitle` once the watch page has been fetched: the first match
 * of `/<title>(.+?)<\/title>/` in the page, with the first ` - YouTube`
 * removed and the ends trimmed; the video id when the page has no match.
 */
module Titles {
  import opened Wrappers
  import opened Strings

  const OPEN_TAG := "<title>"
  const CLOSE_TAG := "</title>"
  const SITE_SUFFIX := " - YouTube"

  /** The characters the regular-expression `.` does not match. */
  predicate IsLineTerminator(c: char)
  {
    c == '\n' || c == '\r' || c == '\U{2028}' || c == '\U{2029}'
  }

  /** `(.+?)<\/title>` can match at `q` with a group of `len` characters. */
  predicate BodyMatch(s: string, q: nat, len: nat)
  {
    && 1 <= len && q + len <= |s|
    && (forall i :: q <= i < q + len ==> !IsLineTerminator(s[i]))
    && OccursAt(s, CLOSE_TAG, q + len)
  }

  /** The whole pattern can match at `p` with a group of `len` characters. */
  predicate TitleMatch(s: string, p: nat, len: nat)
  {
    OccursAt(s, OPEN_TAG, p) && BodyMatch(s, p + |OPEN_TAG|, len)
  }

  /** The lazy group: the shortest length, from `len` on, at which the closing tag follows. */
  function LazyBody(s: string, q: nat, len: nat): (r: Option<nat>)
    requires 1 <= len && q + len - 1 <= |s|
    requires forall i :: q <= i < q + len - 1 ==> !IsLineTerminator(s[i])
    ensures r.Some? ==> len <= r.value && BodyMatch(s, q, r.value)
    ensures r.Some? ==> forall k :: len <= k < r.value ==> !BodyMatch(s, q, k)
    ensures r.None? ==> forall k :: len <= k ==> !BodyMatch(s, q, k)
    decreases |s| - q - len
  {
    if q + len > |s| || IsLineTerminator(s[q + len - 1]) then None
    else if OccursAt(s, CLOSE_TAG, q + len) then Some(len)
    else LazyBody(s, q, len + 1)
  }

  /**
   * The regular-expression search from `p` on: the leftmost position where
   * the pattern matches, with the shortest group there.
   */
  function SearchTitle(s: string, p: nat): (r: Option<(nat, nat)>)
    requires p <= |s|
    ensures r.Some? ==> p <= r.value.0 && TitleMatch(s, r.value.0, r.value.1)
    ensures r.Some? ==> forall k :: 1 <= k < r.value.1 ==> !TitleMatch(s, r.value.0, k)
    ensures r.Some? ==> forall p', k :: p <= p' < r.value.0 ==> !TitleMatch(s, p', k)
    ensures r.None? ==> forall p', k :: p <= p' ==> !TitleMatch(s, p', k)
    decreases |s| - p
  {
    var m := if OccursAt(s, OPEN_TAG, p) then LazyBody(s, p + |OPEN_TAG|, 1) else None;
    if m.Some? then Some((p, m.value))
    else if p == |s| then None
    else SearchTitle(s, p + 1)
  }

  /**
   * The match the regular expression reports: the pattern matches at `p`
   * with a group of `len` characters, nowhere earlier, and with no shorter
   * group at `p`.
   */
  ghost predicate FirstTitleMatch(s: string, p: nat, len: nat)
  {
    && TitleMatch(s, p, len)
    && (forall p': nat, k: nat :: p' < p ==> !TitleMatch(s, p', k))
    && (forall k: nat :: 1 <= k < len ==> !TitleMatch(s, p, k))
  }

  /** `html.match(/<title>(.+?)<\/title>/)[1]`, or nothing when the page has no match. */
  function ExtractTitle(html: string): (r: Option<string>)
    ensures r.None? <==> forall p, k :: !TitleMatch(html, p, k)
    ensures r.Some? ==> exists p: nat :: FirstTitleMatch(html, p, |r.value|) && r.value == html[p + |OPEN_TAG|..p + |OPEN_TAG| + |r.value|]
  {
    match SearchTitle(html, 0)
    case None => None
    case Some((p, len)) =>
      var t := html[p + |OPEN_TAG|..p + |OPEN_TAG| + len];
      assert |t| == len;
      assert FirstTitleMatch(html, p, |t|);
      Some(t)
  }

  /**
   * Laziness: the group ends at the first closing tag that follows its
   * first character, so no `</title>` starts inside the title after its
   * first character; the title itself may begin with one.
   */
  lemma LazyStopsAtFirstClose(html: string)
    requires SearchTitle(html, 0).Some?
    ensures var m := SearchTitle(html, 0).value; var q := m.0 + |OPEN_TAG|;
      forall i :: q < i < q + m.1 ==> !OccursAt(html, CLOSE_TAG, i)
  {
    var m := SearchTitle(html, 0).value;
    var q := m.0 + |OPEN_TAG|;
    forall i | q < i < q + m.1 ensures !OccursAt(html, CLOSE_TAG, i) {
      assert OccursAt(html, CLOSE_TAG, i) ==> BodyMatch(html, q, i - q);
      assert !TitleMatch(html, m.0, i - q);
    }
  }

  /**
   * The first match is unique: wherever the pattern first matches, with
   * its shortest group there, that group is what `match` reports.
   */
  lemma FirstMatchIsExtracted(html: string, p: nat, len: nat)
    requires FirstTitleMatch(html, p, len)
    ensures ExtractTitle(html) == Some(html[p + |OPEN_TAG|..p + |OPEN_TAG| + len])
  {
    var r := ExtractTitle(html);
    assert r.Some? by {
      assert TitleMatch(html, p, len);
    }
    var p': nat :| FirstTitleMatch(html, p', |r.value|) && r.value == html[p' + |OPEN_TAG|..p' + |OPEN_TAG| + |r.value|];
    FirstMatchUnique(html, p, len, p', |r.value|);
  }

  /** Two first matches are the same match. */
  lemma FirstMatchUnique(s: string, p1: nat, len1: nat, p2: nat, len2: nat)
    requires FirstTitleMatch(s, p1, len1) && FirstTitleMatch(s, p2, len2)
    ensures p1 == p2 && len1 == len2
  {
    assert p1 < p2 ==> !TitleMatch(s, p1, len1);
    assert p2 < p1 ==> !TitleMatch(s, p2, len2);
    assert p1 == p2 ==> (len1 < len2 ==> !TitleMatch(s, p2, len1));
    assert p1 == p2 ==> (len2 < len1 ==> !TitleMatch(s, p1, len2));
  }

  /**
   * Scenario: the group must hold at least one character, so in the page
   * `<title></title></title>` the first closing tag is the title itself.
   */
  lemma ClosingTagTitleExample(html: string)
    requires html == OPEN_TAG + CLOSE_TAG + CLOSE_TAG
    ensures ExtractTitle(html) == Some(CLOSE_TAG)
  {
    var q := |OPEN_TAG|;
    var c := |CLOSE_TAG|;
    assert TitleMatch(html, 0, c) by {
      assert html[..q] == OPEN_TAG;
      assert html[q + c..q + c + c] == CLOSE_TAG;
      assert forall i :: q <= i < q + c ==> html[i] == CLOSE_TAG[i - q];
    }
    forall k | 1 <= k < c ensures !TitleMatch(html, 0, k) {
      assert html[q + k] == CLOSE_TAG[k] != '<';
      assert html[q + k..q + k + c][0] == html[q + k];
    }
    assert FirstTitleMatch(html, 0, |CLOSE_TAG|);
    FirstMatchIsExtracted(html, 0, |CLOSE_TAG|);
    assert html[q..q + |CLOSE_TAG|] == CLOSE_TAG;
  }

  /** The matched title with the first ` - YouTube` removed and both ends trimmed. */
  function CleanTitle(t: string): (r: string)
    ensures Trimmed(r)
    ensures (forall j :: !OccursAt(t, SITE_SUFFIX, j)) ==> r == Trim(t)
    ensures forall i: nat :: FirstOccurrence(t, SITE_SUFFIX, i) ==> r == Trim(t[..i] + t[i + |SITE_SUFFIX|..])
  {
    var u := ReplaceFirst(t, SITE_SUFFIX, "");
    assert forall i: nat :: FirstOccurrence(t, SITE_SUFFIX, i) ==> u == t[..i] + t[i + |SITE_SUFFIX|..] by {
      forall i: nat | FirstOccurrence(t, SITE_SUFFIX, i) ensures u == t[..i] + t[i + |SITE_SUFFIX|..] {
        RemoveFirst(t, SITE_SUFFIX, i);
      }
    }
    Trim(u)
  }

  /** `fetchVideoTitle` after the page is read: the cleaned title, or the video id when there is none. */
  function ResolveTitle(html: string, videoId: string): (r: string)
    ensures ExtractTitle(html).None? ==> r == videoId
  {
    match ExtractTitle(html)
    case None => videoId
    case Some(t) => CleanTitle(t)
  }

  /** Cleaning a title that does not mention the site only trims it. */
  lemma ResolveTitleWithoutSuffix(html: string, videoId: string)
    requires ExtractTitle(html).Some?
    requires forall j :: !OccursAt(ExtractTitle(html).value, SITE_SUFFIX, j)
    ensures ResolveTitle(html, videoId) == Trim(ExtractTitle(html).value)
  {
  }

  /** A page whose only tag pair is one title reads as that title. */
  lemma SingleTitlePage(t: string)
    requires t != [] && forall i :: 0 <= i < |t| ==> !IsLineTerminator(t[i]) && t[i] != '<'
    ensures ExtractTitle(OPEN_TAG + t + CLOSE_TAG) == Some(t)
  {
    var html := OPEN_TAG + t + CLOSE_TAG;
    var q := |OPEN_TAG|;
    assert html[q..q + |t|] == t;
    assert OccursAt(html, OPEN_TAG, 0);
    assert BodyMatch(html, q, |t|) by {
      assert html[q + |t|..q + |t| + |CLOSE_TAG|] == CLOSE_TAG;
    }
    assert TitleMatch(html, 0, |t|);
    forall k | 1 <= k < |t| ensures !TitleMatch(html, 0, k) {
      assert html[q + k] == t[k] && CLOSE_TAG[0] == '<';
      assert !OccursAt(html, CLOSE_TAG, q + k) by {
        if q + k + |CLOSE_TAG| <= |html| {
          assert html[q + k..q + k + |CLOSE_TAG|][0] == html[q + k];
        }
      }
    }
  }

  /**
   * Removing the site name from a title that ends with it: whatever the
   * title holds, as long as the site name does not start earlier, only
   * the final one is dropped.
   */
  lemma DropSiteSuffix(t: string)
    requires forall j :: 0 <= j < |t| ==> !OccursAt(t + SITE_SUFFIX, SITE_SUFFIX, j)
    ensures ReplaceFirst(t + SITE_SUFFIX, SITE_SUFFIX, "") == t
  {
    var s := t + SITE_SUFFIX;
    assert FirstOccurrence(s, SITE_SUFFIX, |t|) by {
      assert s[|t|..|t| + |SITE_SUFFIX|] == SITE_SUFFIX;
    }
    RemoveFirst(s, SITE_SUFFIX, |t|);
    assert s[..|t|] + s[|t| + |SITE_SUFFIX|..] == t;
  }

  /** The site name starts with a space, so it cannot start inside a title that has none. */
  lemma NoSpaceNoEarlySuffix(t: string)
    requires forall i :: 0 <= i < |t| ==> t[i] != ' '
    ensures forall j :: 0 <= j < |t| ==> !OccursAt(t + SITE_SUFFIX, SITE_SUFFIX, j)
  {
    var s := t + SITE_SUFFIX;
    forall j | 0 <= j < |t| ensures !OccursAt(s, SITE_SUFFIX, j) {
      if j + |SITE_SUFFIX| <= |s| {
        assert s[j..j + |SITE_SUFFIX|][0] == s[j] == t[j];
      }
    }
  }

  /**
   * The title of a watch page: a title with trimmed ends and no earlier
   * site name comes back without the site name.
   */
  lemma ResolveWatchPage(t: string, videoId: string)
    requires Trimmed(t)
    requires forall i :: 0 <= i < |t| ==> !IsLineTerminator(t[i]) && t[i] != '<'
    requires forall j :: 0 <= j < |t| ==> !OccursAt(t + SITE_SUFFIX, SITE_SUFFIX, j)
    ensures ResolveTitle(OPEN_TAG + t + SITE_SUFFIX + CLOSE_TAG, videoId) == t
  {
    var page := t + SITE_SUFFIX;
    var html := OPEN_TAG + page + CLOSE_TAG;
    assert OPEN_TAG + t + SITE_SUFFIX + CLOSE_TAG == html;
    SuffixedTitleIsPlain(t);
    SingleTitlePage(page);
    assert ResolveTitle(html, videoId) == CleanTitle(page);
    CleanSuffixedTitle(t);
    TrimKeepsTrimmed(t);
  }

  /** The site name holds no line terminator and no `<`, so appending it keeps a title plain. */
  lemma SuffixedTitleIsPlain(t: string)
    requires forall i :: 0 <= i < |t| ==> !IsLineTerminator(t[i]) && t[i] != '<'
    ensures var page := t + SITE_SUFFIX;
      page != [] && forall i :: 0 <= i < |page| ==> !IsLineTerminator(page[i]) && page[i] != '<'
  {
    var page := t + SITE_SUFFIX;
    forall i | 0 <= i < |page| ensures !IsLineTerminator(page[i]) && page[i] != '<' {
      if i >= |t| {
        assert page[i] == SITE_SUFFIX[i - |t|];
      }
    }
  }

  /** Cleaning a title that ends with the only site name drops it and trims the rest. */
  lemma CleanSuffixedTitle(t: string)
    requires forall j :: 0 <= j < |t| ==> !OccursAt(t + SITE_SUFFIX, SITE_SUFFIX, j)
    ensures CleanTitle(t + SITE_SUFFIX) == Trim(t)
  {
    var s := t + SITE_SUFFIX;
    assert FirstOccurrence(s, SITE_SUFFIX, |t|) by {
      assert s[|t|..|t| + |SITE_SUFFIX|] == SITE_SUFFIX;
    }
    assert s[..|t|] + s[|t| + |SITE_SUFFIX|..] == t;
  }

  /** Scenario: the page `<title>Cats - YouTube</title>` gives the title `Cats`. */
  lemma ResolveTitleExample(html: string, videoId: string)
    requires html == OPEN_TAG + "Cats" + SITE_SUFFIX + CLOSE_TAG
    ensures ResolveTitle(html, videoId) == "Cats"
  {
    NoSpaceNoEarlySuffix("Cats");
    ResolveWatchPage("Cats", videoId);
  }

  /**
   * Scenario: a page titled only with the site name (the title before the
   * suffix is empty) yields an empty title, not the video id.
   */
  lemma EmptyTitleExample(t: string, videoId: string)
    requires t == []
    ensures ResolveTitle(OPEN_TAG + t + SITE_SUFFIX + CLOSE_TAG, videoId) == ""
  {
    NoSpaceNoEarlySuffix(t);
    ResolveWatchPage(t, videoId);
  }
}
