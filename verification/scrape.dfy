/** The text half of `getSoundCloudDownloadURL`: two leftmost regular-expression matches
    of the shape `"key":"([^"]+)"` on the track page, and the `\u0026` rewrite. */
module Scrape {
  import opened Wrappers
  import opened Strings

  const DownloadUrlKey: string := "\"download_url\":\""
  const TitleKey: string := "\"title\":\""
  /** The title used when the page has none. */
  const FallbackTitle: string := "soundcloud_track"

  /** `v` is a run of the class `[^"]`. */
  predicate QuoteFree(v: string) {
    forall i :: 0 <= i < |v| ==> v[i] != '"'
  }

  /** The pattern `key([^"]+)"` matches `s` starting at `i`, capturing `v`. Only one `v`
      can follow a given `i`: the capture runs up to the next quote. */
  ghost predicate MatchAt(s: string, key: string, i: int, v: string) {
    && OccursAt(s, key, i)
    && 0 < |v| && QuoteFree(v)
    && i + |key| + |v| < |s|
    && s[i + |key|..i + |key| + |v|] == v
    && s[i + |key| + |v|] == '"'
  }

  /** The match at `i` is the leftmost one, the one `FindStringSubmatch` reports. */
  ghost predicate LeftmostMatch(s: string, key: string, i: int, v: string) {
    MatchAt(s, key, i, v) && forall j, w :: 0 <= j < i ==> !MatchAt(s, key, j, w)
  }

  /** The index of the first quote at or after `k`, or `|s|` when there is none. */
  function QuoteFrom(s: string, k: nat): (q: nat)
    requires k <= |s|
    ensures k <= q <= |s|
    ensures q < |s| ==> s[q] == '"'
    ensures forall m :: k <= m < q ==> s[m] != '"'
    decreases |s| - k
  {
    if k == |s| || s[k] == '"' then k else QuoteFrom(s, k + 1)
  }

  /** Try the pattern at one start position: the key, then a greedy non-empty run of
      non-quotes, then a quote. */
  function CaptureAt(s: string, key: string, i: nat): Option<string> {
    if i + |key| <= |s| && s[i..i + |key|] == key then
      var k := i + |key|;
      var q := QuoteFrom(s, k);
      if k < q < |s| then Some(s[k..q]) else None
    else None
  }

  /** `CaptureAt` finds exactly the match that starts at `i`, if there is one. */
  lemma CaptureAtCorrect(s: string, key: string, i: nat)
    ensures CaptureAt(s, key, i).Some? ==> MatchAt(s, key, i, CaptureAt(s, key, i).value)
    ensures forall v :: MatchAt(s, key, i, v) ==> CaptureAt(s, key, i) == Some(v)
  {
    forall v | MatchAt(s, key, i, v) ensures CaptureAt(s, key, i) == Some(v) {
      var k := i + |key|;
      var q := QuoteFrom(s, k);
      assert q == k + |v|;
    }
  }

  /** Start positions tried from `i` on, in order. */
  function FindFrom(s: string, key: string, i: nat): Option<string>
    requires i <= |s|
    decreases |s| - i
  {
    match CaptureAt(s, key, i)
    case Some(v) => Some(v)
    case None => if i == |s| then None else FindFrom(s, key, i + 1)
  }

  /** `regexp.MustCompile(key + "([^\"]+)\"").FindStringSubmatch(s)`, keeping the group. */
  function FindSubmatch(s: string, key: string): Option<string> {
    FindFrom(s, key, 0)
  }

  lemma NoMatchPastEnd(s: string, key: string, j: int, w: string)
    requires j >= |s|
    ensures !MatchAt(s, key, j, w)
  {
  }

  lemma {:induction false} FindFromCorrect(s: string, key: string, i: nat)
    requires i <= |s|
    requires forall j, w :: 0 <= j < i ==> !MatchAt(s, key, j, w)
    ensures FindFrom(s, key, i).None? ==> forall j, w :: !MatchAt(s, key, j, w)
    ensures FindFrom(s, key, i).Some? ==> exists j :: LeftmostMatch(s, key, j, FindFrom(s, key, i).value)
    decreases |s| - i
  {
    CaptureAtCorrect(s, key, i);
    match CaptureAt(s, key, i)
    case Some(v) =>
      assert LeftmostMatch(s, key, i, v);
    case None =>
      if i == |s| {
        forall j, w ensures !MatchAt(s, key, j, w) {
          if j >= |s| {
            NoMatchPastEnd(s, key, j, w);
          }
        }
      } else {
        FindFromCorrect(s, key, i + 1);
      }
  }

  /** `FindSubmatch` reports nothing exactly when the pattern matches nowhere, and
      otherwise the capture of the leftmost match. */
  lemma FindSubmatchCorrect(s: string, key: string)
    ensures FindSubmatch(s, key).None? <==> forall j, w :: !MatchAt(s, key, j, w)
    ensures FindSubmatch(s, key).Some? ==> exists j :: LeftmostMatch(s, key, j, FindSubmatch(s, key).value)
  {
    FindFromCorrect(s, key, 0);
  }

  /** The leftmost match, and so its capture, is unique. */
  lemma LeftmostUnique(s: string, key: string, i: int, v: string, j: int, w: string)
    requires LeftmostMatch(s, key, i, v) && LeftmostMatch(s, key, j, w)
    ensures i == j && v == w
  {
    CaptureAtCorrect(s, key, i);
  }

  /** What the page yields: the direct download URL and the track title. */
  datatype Track = Track(downloadUrl: string, title: string)

  /** Scrape a track page; `None` is the "download not available" error. */
  function ScrapeTrackPage(body: string): Option<Track> {
    match FindSubmatch(body, DownloadUrlKey)
    case None => None
    case Some(raw) =>
      Some(Track(UnescapeAmp(raw), FindSubmatch(body, TitleKey).GetOr(FallbackTitle)))
  }

  /** Scraping fails exactly when no `"download_url":"X"` with a non-empty quote-free `X`
      occurs; the title never causes a failure. On success the URL is the leftmost such
      `X` with its escapes rewritten, so that none is left in it, and the title is the
      leftmost `"title":"T"` capture, or the fallback when there is none. */
  lemma ScrapeCorrect(body: string)
    ensures ScrapeTrackPage(body).None? <==> forall i, v :: !MatchAt(body, DownloadUrlKey, i, v)
    ensures ScrapeTrackPage(body).Some? ==>
      exists i, raw :: LeftmostMatch(body, DownloadUrlKey, i, raw)
        && ScrapeTrackPage(body).value.downloadUrl == UnescapeAmp(raw)
    ensures ScrapeTrackPage(body).Some? ==>
      forall i :: !OccursAt(ScrapeTrackPage(body).value.downloadUrl, AmpEscape, i)
    ensures ScrapeTrackPage(body).Some? ==>
      var title := ScrapeTrackPage(body).value.title;
      || ((forall i, v :: !MatchAt(body, TitleKey, i, v)) && title == FallbackTitle)
      || (exists i :: LeftmostMatch(body, TitleKey, i, title))
  {
    FindSubmatchCorrect(body, DownloadUrlKey);
    FindSubmatchCorrect(body, TitleKey);
    if FindSubmatch(body, DownloadUrlKey).Some? {
      UnescapeLeavesNoEscape(FindSubmatch(body, DownloadUrlKey).value);
    }
  }

  /** A page that opens with `key`, a quote-free value and a quote yields that value. */
  lemma MatchAtStart(key: string, v: string, rest: string)
    requires 0 < |v| && QuoteFree(v)
    ensures FindSubmatch(key + v + "\"" + rest, key) == Some(v)
  {
    var s := key + v + "\"" + rest;
    assert s[0..|key|] == key;
    assert s[|key|..|key| + |v|] == v;
    assert MatchAt(s, key, 0, v);
    CaptureAtCorrect(s, key, 0);
  }
}
