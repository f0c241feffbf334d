/**
 * getChapter (src/index.js:337-360) once the provider's decoded JSON is in
 * hand: the response array of page URLs, each tagged with its position.
 */
module Pages {
  import opened Wrappers
  import opened Records
  import opened Decimal

  /** The template `${url}?${word}`, where `word` is the element's index. */
  function PageUrl(url: string, index: nat): string
  {
    url + "?" + NatToDecimal(index)
  }

  /** The chapter data for a response array: one URL per element, in order. */
  function GetChapter(json: seq<string>): (r: ChapterData)
    ensures |r.pageUrls| == |json|
  {
    ChapterData(seq(|json|, i requires 0 <= i < |json| => PageUrl(json[i], i)))
  }

  /** The position of the last occurrence of c in s. */
  function LastIndexOf(s: string, c: char): (r: Option<nat>)
    ensures r.Some? ==> r.value < |s| && s[r.value] == c && c !in s[r.value + 1..]
    ensures r.None? ==> c !in s
  {
    if |s| == 0 then None
    else if s[|s| - 1] == c then Some(|s| - 1)
    else LastIndexOf(s[..|s| - 1], c)
  }

  /**
   * Reads a page URL back into the response URL and the index after its last
   * '?', which must be written as JavaScript writes an index.
   */
  function SplitPageUrl(s: string): Option<(string, nat)>
  {
    match LastIndexOf(s, '?')
    case None => None
    case Some(q) =>
      var suffix := s[q + 1..];
      if IsCanonical(suffix) then Some((s[..q], DecimalValue(suffix))) else None
  }

  /** Every page URL reads back as the response URL at its position and that position. */
  lemma PageUrlRoundTrip(url: string, index: nat)
    ensures SplitPageUrl(PageUrl(url, index)) == Some((url, index))
  {
    var digits := NatToDecimal(index);
    var s := PageUrl(url, index);
    assert s[|url|] == '?';
    assert s[|url| + 1..] == digits;
    assert s[..|url|] == url;
    assert LastIndexOf(s, '?') == Some(|url|);
    DecimalRoundTrip(index);
  }

  /** Whatever reads back as a URL and an index is exactly the page URL made from them. */
  lemma SplitPageUrlSound(s: string, url: string, index: nat)
    requires SplitPageUrl(s) == Some((url, index))
    ensures s == PageUrl(url, index)
  {
    var q := LastIndexOf(s, '?').value;
    var suffix := s[q + 1..];
    CanonicalRoundTrip(suffix);
    assert s == s[..q] + "?" + suffix;
  }

  /** getChapter keeps every response URL, in order, and tags it with its own position. */
  lemma GetChapterRoundTrip(json: seq<string>)
    ensures forall i: nat :: i < |json| ==> SplitPageUrl(GetChapter(json).pageUrls[i]) == Some((json[i], i))
  {
    forall i: nat | i < |json|
      ensures SplitPageUrl(GetChapter(json).pageUrls[i]) == Some((json[i], i))
    {
      PageUrlRoundTrip(json[i], i);
    }
  }
}
