/** bot.py's `load_rss_feeds`: reading the feed list, one `URL#tag` or `URL` per line. */
module BotFeeds {
  import opened Wrappers
  import opened Text
  import opened BotFormat

  /** Why `load_rss_feeds` gives up (the script then exits with status 1). */
  datatype LoadError = FeedsFileMissing | NoFeeds

  /** What one line of the feed list contributes: None for a blank line or a comment, otherwise
      the URL and its tag. */
  function ParseLine(raw: string): Option<(string, string)> {
    ParseStripped(Strip(raw))
  }

  /** A stripped line: a line with a `#` splits at the first one into URL and tag. */
  function ParseStripped(line: string): Option<(string, string)> {
    if line == [] || line[0] == '#' then None
    else match IndexOf(line, '#')
      case Some(k) => Some((Strip(line[..k]), "#" + Strip(line[k + 1..])))
      case None => Some((line, DefaultHashtag))
  }

  /** Every line, parsed, in file order. */
  function ParseLines(lines: seq<string>): seq<Option<(string, string)>> {
    seq(|lines|, i requires 0 <= i < |lines| => ParseLine(lines[i]))
  }

  lemma ParseLinesAt(lines: seq<string>)
    ensures |ParseLines(lines)| == |lines|
    ensures forall i :: 0 <= i < |lines| ==> ParseLines(lines)[i] == ParseLine(lines[i])
  {
  }

  /** The URLs the parsed lines contribute, in file order, duplicates included (`RSS_FEEDS.append`). */
  function FeedsOf(parsed: seq<Option<(string, string)>>): seq<string> {
    if parsed == [] then []
    else
      var prefix := FeedsOf(parsed[..|parsed| - 1]);
      match parsed[|parsed| - 1]
      case None => prefix
      case Some(p) => prefix + [p.0]
  }

  /** The tag map the parsed lines build; a later line for the same URL overwrites the earlier tag. */
  function TagsOf(parsed: seq<Option<(string, string)>>): map<string, string> {
    if parsed == [] then map[]
    else
      var prefix := TagsOf(parsed[..|parsed| - 1]);
      match parsed[|parsed| - 1]
      case None => prefix
      case Some(p) => prefix[p.0 := p.1]
  }

  /** `load_rss_feeds()`: `file` is the list of lines of `feeds.txt`, None when it does not exist. */
  method LoadRssFeeds(file: Option<seq<string>>) returns (r: Result<(seq<string>, map<string, string>), LoadError>)
    ensures file.None? ==> r == Failure(FeedsFileMissing)
    ensures file.Some? && FeedsOf(ParseLines(file.value)) == [] ==> r == Failure(NoFeeds)
    ensures file.Some? && FeedsOf(ParseLines(file.value)) != [] ==>
      r == Success((FeedsOf(ParseLines(file.value)), TagsOf(ParseLines(file.value))))
  {
    if file.None? {
      return Failure(FeedsFileMissing);
    }
    var lines := file.value;
    ghost var parsed := ParseLines(lines);
    ParseLinesAt(lines);
    var feeds: seq<string> := [];
    var hashtags: map<string, string> := map[];
    var i := 0;
    while i < |lines|
      invariant 0 <= i <= |lines|
      invariant feeds == FeedsOf(parsed[..i]) && hashtags == TagsOf(parsed[..i])
    {
      var line := ParseLine(lines[i]);
      assert line == parsed[i];
      FeedsAndTagsStep(parsed, i);
      match line {
        case Some((url, tag)) =>
          feeds := feeds + [url];
          hashtags := hashtags[url := tag];
        case None =>
      }
      i := i + 1;
    }
    assert parsed[..|lines|] == parsed;
    if feeds == [] {
      return Failure(NoFeeds);
    }
    return Success((feeds, hashtags));
  }

  /** What a non-comment line yields: a non-empty URL without `#`, and a tag starting with `#`. */
  predicate WellFormed(p: Option<(string, string)>) {
    p.Some? ==> p.value.0 != [] && '#' !in p.value.0 && StartsWith(p.value.1, "#")
  }

  /** Blank lines and comments contribute nothing; every other line yields a well-formed pair
      whose URL has no surrounding white space, and a line without `#` gets the default tag. */
  lemma ParseLineShape(raw: string)
    ensures ParseLine(raw).None? <==> Strip(raw) == [] || Strip(raw)[0] == '#'
    ensures WellFormed(ParseLine(raw))
    ensures ParseLine(raw).Some? ==> Trimmed(ParseLine(raw).value.0)
    ensures ParseLine(raw).Some? && '#' !in Strip(raw) ==> ParseLine(raw).value == (Strip(raw), DefaultHashtag)
  {
    StripIsTrimmed(raw);
    ParseStrippedShape(Strip(raw));
  }


  /** ParseLineShape for a line that is already stripped. */
  lemma ParseStrippedShape(line: string)
    requires Trimmed(line)
    ensures ParseStripped(line).None? <==> line == [] || line[0] == '#'
    ensures WellFormed(ParseStripped(line))
    ensures ParseStripped(line).Some? ==> Trimmed(ParseStripped(line).value.0)
    ensures ParseStripped(line).Some? && '#' !in line ==> ParseStripped(line).value == (line, DefaultHashtag)
  {
    if line != [] && line[0] != '#' {
      match IndexOf(line, '#')
      case Some(k) => UrlBeforeHash(line, k);
      case None =>
    }
  }

  /** The URL cut before the first `#` of a stripped, non-comment line. */
  lemma UrlBeforeHash(line: string, k: nat)
    requires 0 < |line| && !IsSpace(line[0]) && line[0] != '#'
    requires IndexOf(line, '#') == Some(k)
    ensures var url := Strip(line[..k]);
      url != [] && '#' !in url && Trimmed(url)
  {
    var head := line[..k];
    assert k > 0;
    StripIsSlice(head);
    assert head[0] == line[0];
  }

  /** A line written as a URL, `#` and a tag reads back as that URL and the stripped tag behind a
      `#`, whatever white space surrounds the tag. */
  lemma ParseLineRoundTrip(url: string, tag: string)
    requires url != [] && '#' !in url && Trimmed(url)
    ensures ParseLine(url + "#" + tag) == Some((url, "#" + Strip(tag)))
  {
    var line := url + "#" + StripRight(tag);
    StripOfTaggedLine(url, tag);
    ParseTaggedLine(url, StripRight(tag));
    StripAfterStripRight(tag);
  }

  /** A stripped line made of a trimmed URL, `#` and a tag splits back into the two. */
  lemma ParseTaggedLine(url: string, rest: string)
    requires url != [] && '#' !in url && Trimmed(url)
    ensures ParseStripped(url + "#" + rest) == Some((url, "#" + Strip(rest)))
  {
    var line := url + "#" + rest;
    assert line[0] == url[0];
    assert line[..|url|] == url;
    IndexOfFirst(line, '#', |url|);
    StripTrimmed(url);
    assert line[|url| + 1..] == rest;
  }

  /** Stripping a line that starts with a trimmed URL touches only the end of the tag. */
  lemma StripOfTaggedLine(url: string, tag: string)
    requires url != [] && Trimmed(url)
    ensures Strip(url + "#" + tag) == url + "#" + StripRight(tag)
  {
    var head := url + "#";
    var raw := head + tag;
    assert raw == url + "#" + tag;
    assert raw[0] == url[0];
    assert StripLeft(raw) == raw;
    StripRightAppend(head, tag);
  }

  /** One more parsed line extends the feed list and the tag map by what that line yields. */
  lemma FeedsAndTagsStep(parsed: seq<Option<(string, string)>>, i: nat)
    requires i < |parsed|
    ensures FeedsOf(parsed[..i + 1]) ==
      (if parsed[i].Some? then FeedsOf(parsed[..i]) + [parsed[i].value.0] else FeedsOf(parsed[..i]))
    ensures TagsOf(parsed[..i + 1]) ==
      (if parsed[i].Some? then TagsOf(parsed[..i])[parsed[i].value.0 := parsed[i].value.1] else TagsOf(parsed[..i]))
  {
    assert parsed[..i + 1][..i] == parsed[..i];
  }

  /** A URL is in the feed list exactly when it has a tag. */
  lemma {:induction false} FeedsAndTagsAgree(parsed: seq<Option<(string, string)>>)
    ensures forall u :: u in TagsOf(parsed) <==> u in FeedsOf(parsed)
  {
    if parsed != [] {
      FeedsAndTagsAgree(parsed[..|parsed| - 1]);
    }
  }

  /** Parsed lines that are all well-formed list only non-empty URLs free of `#`, and tags that
      start with `#`. */
  lemma {:induction false} FeedsOfWellFormed(parsed: seq<Option<(string, string)>>)
    requires forall i :: 0 <= i < |parsed| ==> WellFormed(parsed[i])
    ensures forall u :: u in FeedsOf(parsed) ==> u != [] && '#' !in u
    ensures forall u :: u in TagsOf(parsed) ==> StartsWith(TagsOf(parsed)[u], "#")
  {
    if parsed != [] {
      var prefix := parsed[..|parsed| - 1];
      assert forall i :: 0 <= i < |prefix| ==> prefix[i] == parsed[i];
      FeedsOfWellFormed(prefix);
      assert WellFormed(parsed[|parsed| - 1]);
    }
  }

  /** Whatever the file holds, every loaded URL is non-empty and free of `#`, every tag starts
      with `#`, and the tags are keyed by exactly the loaded URLs. */
  lemma LoadedFeedsShape(lines: seq<string>)
    ensures forall u :: u in FeedsOf(ParseLines(lines)) ==> u != [] && '#' !in u
    ensures forall u :: u in TagsOf(ParseLines(lines)) ==> StartsWith(TagsOf(ParseLines(lines))[u], "#")
    ensures forall u :: u in TagsOf(ParseLines(lines)) <==> u in FeedsOf(ParseLines(lines))
  {
    var parsed := ParseLines(lines);
    ParseLinesAt(lines);
    forall i | 0 <= i < |parsed| ensures WellFormed(parsed[i]) {
      ParseLineShape(lines[i]);
    }
    FeedsOfWellFormed(parsed);
    FeedsAndTagsAgree(parsed);
  }

  /** The last line that names a URL decides its tag. */
  lemma {:induction false} LastLineWins(parsed: seq<Option<(string, string)>>, j: nat, url: string, tag: string)
    requires j < |parsed| && parsed[j] == Some((url, tag))
    requires forall k :: j < k < |parsed| ==> parsed[k].None? || parsed[k].value.0 != url
    ensures url in TagsOf(parsed) && TagsOf(parsed)[url] == tag
  {
    var n := |parsed| - 1;
    var prefix := parsed[..n];
    if j < n {
      assert forall k :: 0 <= k < n ==> prefix[k] == parsed[k];
      LastLineWins(prefix, j, url, tag);
    }
  }
}
