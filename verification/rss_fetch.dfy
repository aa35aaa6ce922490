/** my_rss_telegram.py's `parse_feed_with_auto_encoding`: the downloaded bytes are decoded with
    each of five encodings in turn, and the decoding whose parse yields the most entries wins. */
module RssFetch {
  import opened Wrappers
  import opened Feed

  /** `RUSSIAN_ENCODINGS`, in the order they are tried. */
  const RussianEncodings: seq<string> := ["utf-8", "windows-1251", "cp1251", "koi8-r", "iso-8859-5"]

  /** How many entries parsing the body decoded with `encoding` yields; 0 when decoding or parsing
      raised. `parseAs` stands for `feedparser.parse(response.content.decode(encoding, errors='ignore'))`. */
  function EntryCount(parseAs: string -> Option<seq<Entry>>, encoding: string): nat {
    if parseAs(encoding).Some? then |parseAs(encoding).value| else 0
  }

  /** `parse_feed_with_auto_encoding(url)`. `downloaded` says whether `requests.get` returned;
      `direct` is what the fallback `feedparser.parse(url, ...)` yields (None when it raises).
      Returns the feed's entries, None when the function returns None, and the chosen encoding. */
  method ParseFeedWithAutoEncoding(downloaded: bool, parseAs: string -> Option<seq<Entry>>, direct: Option<seq<Entry>>)
    returns (feed: Option<seq<Entry>>, bestEncoding: string)
    ensures !downloaded ==> feed.None?
    ensures downloaded && (forall k :: 0 <= k < |RussianEncodings| ==> EntryCount(parseAs, RussianEncodings[k]) == 0)
            ==> feed == direct && bestEncoding == "utf-8"
    ensures downloaded && (exists k :: 0 <= k < |RussianEncodings| && EntryCount(parseAs, RussianEncodings[k]) > 0) ==>
      exists k :: 0 <= k < |RussianEncodings|
        && feed == parseAs(RussianEncodings[k]) && bestEncoding == RussianEncodings[k]
        && EntryCount(parseAs, RussianEncodings[k]) > 0
        && (forall j :: 0 <= j < k ==> EntryCount(parseAs, RussianEncodings[j]) < EntryCount(parseAs, RussianEncodings[k]))
        && (forall j :: k < j < |RussianEncodings| ==> EntryCount(parseAs, RussianEncodings[j]) <= EntryCount(parseAs, RussianEncodings[k]))
  {
    if !downloaded {
      return None, "utf-8";
    }
    var bestFeed: Option<seq<Entry>> := None;
    bestEncoding := "utf-8";
    var maxEntries := 0;
    ghost var best: nat := 0;
    var i := 0;
    while i < |RussianEncodings|
      invariant 0 <= i <= |RussianEncodings|
      invariant bestFeed.None? ==> maxEntries == 0 && bestEncoding == "utf-8"
      invariant bestFeed.None? ==> forall j :: 0 <= j < i ==> EntryCount(parseAs, RussianEncodings[j]) == 0
      invariant bestFeed.Some? ==> best < i && bestFeed == parseAs(RussianEncodings[best])
      invariant bestFeed.Some? ==> bestEncoding == RussianEncodings[best]
      invariant bestFeed.Some? ==> maxEntries == EntryCount(parseAs, RussianEncodings[best]) > 0
      invariant bestFeed.Some? ==> forall j :: 0 <= j < best ==> EntryCount(parseAs, RussianEncodings[j]) < maxEntries
      invariant bestFeed.Some? ==> forall j :: best < j < i ==> EntryCount(parseAs, RussianEncodings[j]) <= maxEntries
    {
      var encoding := RussianEncodings[i];
      var parsed := parseAs(encoding);
      if parsed.Some? && parsed.value != [] && |parsed.value| > maxEntries {
        maxEntries := |parsed.value|;
        bestFeed := parsed;
        bestEncoding := encoding;
        best := i;
      }
      i := i + 1;
    }
    if bestFeed.Some? {
      return bestFeed, bestEncoding;
    }
    return direct, bestEncoding;
  }
}
