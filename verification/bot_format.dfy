/** bot.py's pure helpers: picking an entry's image, cleaning its description, its date, and the
    text of the Telegram post. */
module BotFormat {
  import opened Wrappers
  import opened Text
  import opened Html
  import opened Feed

  /** Descriptions longer than this are cut and get "..." appended. */
  const DescriptionLimit: nat := 300
  /** Tag of a feed the feed list gives no tag for. */
  const DefaultHashtag: string := "#новости"
  /** `getattr(entry, 'author', ...)` default. */
  const UnknownAuthor: string := "Неизвестный"
  /** `getattr(entry, 'base', ...)` default. */
  const DefaultBase: string := "https://example.com"

  // ---------------------------------------------------------------- images

  function FirstOf(s: seq<Option<string>>): Option<string> {
    if s == [] then None else s[0]
  }

  /** The four candidates, in the order enclosures, media_content, media_thumbnail, image. */
  function ImageCandidates(e: Entry): seq<Option<string>> {
    [FirstOf(e.enclosures), FirstOf(e.mediaContent), FirstOf(e.mediaThumbnail), e.imageHref]
  }

  /** A candidate is taken when it is a non-empty string starting with `http` or `//`. */
  predicate Usable(c: Option<string>) {
    c.Some? && c.value != [] && (StartsWith(c.value, "http") || StartsWith(c.value, "//"))
  }

  /** Index of the first usable candidate. */
  function FirstUsable(cands: seq<Option<string>>): (r: Option<nat>)
    ensures r.Some? ==> r.value < |cands| && Usable(cands[r.value])
    ensures r.Some? ==> forall j :: 0 <= j < r.value ==> !Usable(cands[j])
    ensures r.None? ==> forall j :: 0 <= j < |cands| ==> !Usable(cands[j])
  {
    if cands == [] then None
    else if Usable(cands[0]) then Some(0)
    else match FirstUsable(cands[1..])
      case None => None
      case Some(k) => Some(k + 1)
  }

  /** An ASCII letter, digit, `+`, `-` or `.`: the characters `urlparse` accepts in a scheme. */
  predicate SchemeChar(c: char) {
    'a' <= c <= 'z' || 'A' <= c <= 'Z' || '0' <= c <= '9' || c == '+' || c == '-' || c == '.'
  }

  /** `urlparse(url).scheme`: the lower-cased text before the first `:` when it is non-empty,
      starts with a letter and consists of scheme characters; otherwise empty. */
  function UrlScheme(url: string): string {
    match IndexOf(url, ':')
    case Some(i) =>
      if i > 0 && ('a' <= url[0] <= 'z' || 'A' <= url[0] <= 'Z')
         && forall j :: 0 <= j < i ==> SchemeChar(url[j])
      then Lower(url[..i]) else []
    case None => []
  }

  /** The scheme of a base URL that starts with `http` is empty or itself starts with `http`. */
  lemma HttpBaseScheme(base: string)
    requires StartsWith(base, "http")
    ensures UrlScheme(base) == [] || StartsWith(UrlScheme(base), "http")
  {
    match IndexOf(base, ':')
    case None =>
    case Some(i) =>
      assert base[..4] == "http";
      assert forall k :: 0 <= k < 4 ==> base[k] != ':' by {
        forall k | 0 <= k < 4 ensures base[k] != ':' {
          assert base[k] == base[..4][k];
        }
      }
      assert i >= 4;
      if UrlScheme(base) != [] {
        var s := UrlScheme(base);
        assert s == Lower(base[..i]);
        assert s[..4] == "http" by {
          forall k | 0 <= k < 4 ensures s[k] == "http"[k] {
            assert s[k] == LowerChar(base[k]);
          }
        }
      }
  }

  /** A scheme-relative URL (`//host/...`) gets the base URL's scheme when the base is http(s). */
  function Absolutize(url: string, base: Option<string>): string {
    if StartsWith(url, "//") then
      var b := base.GetOr(DefaultBase);
      if StartsWith(b, "http") then UrlScheme(b) + ":" + url else url
    else url
  }

  /** What an accepted candidate becomes starts with `http`, with `//`, or, when the base URL has
      no parsable scheme, with `://`. */
  lemma AbsolutizeShape(url: string, base: Option<string>)
    requires Usable(Some(url))
    ensures var u := Absolutize(url, base);
      StartsWith(u, "http") || StartsWith(u, "//") || StartsWith(u, "://")
  {
    if StartsWith(url, "//") {
      var b := base.GetOr(DefaultBase);
      if StartsWith(b, "http") {
        HttpBaseScheme(b);
        SchemePrefixShape(UrlScheme(b), url);
      }
    }
  }

  lemma SchemePrefixShape(sch: string, url: string)
    requires sch == [] || StartsWith(sch, "http")
    requires StartsWith(url, "//")
    ensures StartsWith(sch + ":" + url, "http") || StartsWith(sch + ":" + url, "://")
  {
    if sch == [] {
      PrefixConcat(":", url, "//");
      assert sch + ":" + url == ":" + url;
    } else {
      PrefixKept(sch, ":" + url, "http");
      assert sch + ":" + url == sch + (":" + url);
    }
  }

  lemma PrefixConcat(a: string, t: string, p: string)
    requires StartsWith(t, p)
    ensures StartsWith(a + t, a + p)
  {
    assert (a + t)[..|a + p|] == a + t[..|p|];
  }

  lemma PrefixKept(a: string, t: string, p: string)
    requires StartsWith(a, p)
    ensures StartsWith(a + t, p)
  {
    assert (a + t)[..|p|] == a[..|p|];
  }

  /** `get_entry_image(entry)`: the loop over the candidates. */
  function FirstImage(cands: seq<Option<string>>, base: Option<string>): Option<string> {
    match FirstUsable(cands)
    case None => None
    case Some(i) => Some(Absolutize(cands[i].value, base))
  }

  function GetEntryImage(e: Entry): Option<string> {
    FirstImage(ImageCandidates(e), e.base)
  }

  /** Candidate `i` is usable and none before it is. */
  predicate FirstUsableAt(cands: seq<Option<string>>, i: nat)
    requires i < |cands|
  {
    Usable(cands[i]) && forall j :: 0 <= j < i ==> !Usable(cands[j])
  }

  /** The image is the first usable candidate, made absolute, and there is none only when no
      candidate is usable; what comes back starts with `http`, `//` or `://`. */
  lemma FirstImageIsFirstMatch(cands: seq<Option<string>>, base: Option<string>)
    ensures FirstImage(cands, base).None? <==> forall j :: 0 <= j < |cands| ==> !Usable(cands[j])
    ensures FirstImage(cands, base).Some? ==>
      exists i :: 0 <= i < |cands| && FirstUsableAt(cands, i) && FirstImage(cands, base).value == Absolutize(cands[i].value, base)
    ensures FirstImage(cands, base).Some? ==>
      var u := FirstImage(cands, base).value;
      StartsWith(u, "http") || StartsWith(u, "//") || StartsWith(u, "://")
  {
    match FirstUsable(cands)
    case None =>
    case Some(i) =>
      assert FirstUsableAt(cands, i);
      AbsolutizeShape(cands[i].value, base);
  }

  // ---------------------------------------------------------------- description

  /** When `s` starts with a match of the pattern `<[^>]+>`, the index just past it. */
  function TagEnd(s: string): (r: Option<nat>)
    ensures r.Some? ==> 3 <= r.value <= |s| && s[0] == '<' && s[r.value - 1] == '>'
    ensures r.Some? ==> '>' !in s[1..r.value - 1]
  {
    if s == [] || s[0] != '<' then None
    else match IndexOf(s[1..], '>')
      case Some(k) => if k >= 1 then Some(k + 2) else None
      case None => None
  }

  /** No position of `s` starts a match of `<[^>]+>`. */
  predicate NoTag(s: string)
    decreases |s|
  {
    s == [] || (TagEnd(s).None? && NoTag(s[1..]))
  }

  /** A `<` that does not start a match stays harmless in front of what the rest becomes: the
      rest keeps the characters and the first character of `s[1..]` when that is not `<`. */
  lemma KeptCharStartsNoTag(s: string, rest: string)
    requires s != [] && TagEnd(s).None?
    requires forall c :: c in rest ==> c in s[1..]
    requires |s| > 1 && s[1] != '<' ==> rest != [] && rest[0] == s[1]
    ensures TagEnd([s[0]] + rest).None?
  {
    var r := [s[0]] + rest;
    assert r[1..] == rest;
    if s[0] == '<' {
      var k := IndexOf(s[1..], '>');
      if k.None? {
        assert '>' !in rest;
      } else {
        assert k.value == 0 && s[1] == '>';
        assert rest[0] == '>';
      }
    }
  }

  /** `re.sub(r'<[^>]+>', '', s)`: scanning left to right, every match is removed. */
  function StripTags(s: string): (r: string)
    ensures forall c :: c in r ==> c in s
    ensures |s| > 0 && s[0] != '<' ==> r != [] && r[0] == s[0]
    ensures NoTag(r)
    decreases |s|
  {
    if s == [] then []
    else match TagEnd(s)
      case Some(n) => StripTags(s[n..])
      case None =>
        var rest := StripTags(s[1..]);
        var r := [s[0]] + rest;
        assert r[1..] == rest;
        KeptCharStartsNoTag(s, rest);
        r
  }

  /** A match of `<[^>]+>`: a `<`, at least one character other than `>`, and a `>`. */
  predicate IsTag(t: string) {
    |t| >= 3 && t[0] == '<' && t[|t| - 1] == '>' && '>' !in t[1..|t| - 1]
  }

  /** Text without any `<` comes through tag removal unchanged. */
  lemma {:induction false} StripTagsPlain(s: string)
    requires '<' !in s
    ensures StripTags(s) == s
    decreases |s|
  {
    if s != [] {
      StripTagsPlain(s[1..]);
    }
  }

  /** Text before a tag is kept, the tag is dropped, and removal goes on after it. */
  lemma {:induction false} StripTagsKeepsText(a: string, t: string, b: string)
    requires '<' !in a && IsTag(t)
    ensures StripTags(a + t + b) == a + StripTags(b)
    decreases |a|
  {
    var s := a + t + b;
    if a == [] {
      assert s == t + b;
      StripTagsDropsTag(t, b);
    } else {
      assert s[0] == a[0];
      StripTagsKeepsChar(s);
      assert s[1..] == a[1..] + t + b;
      StripTagsKeepsText(a[1..], t, b);
      ConsConcat(a, StripTags(b));
    }
  }

  lemma ConsConcat(a: string, r: string)
    requires a != []
    ensures [a[0]] + (a[1..] + r) == a + r
  {
    assert a == [a[0]] + a[1..];
  }

  /** A leading tag is dropped. */
  lemma StripTagsDropsTag(t: string, b: string)
    requires IsTag(t)
    ensures StripTags(t + b) == StripTags(b)
  {
    TagEndOfTag(t, b);
    assert (t + b)[|t|..] == b;
  }

  /** A leading character other than `<` is kept. */
  lemma StripTagsKeepsChar(s: string)
    requires s != [] && s[0] != '<'
    ensures StripTags(s) == [s[0]] + StripTags(s[1..])
  {
  }

  /** A text that starts with a tag has its first match end exactly where the tag ends. */
  lemma TagEndOfTag(t: string, b: string)
    requires IsTag(t)
    ensures TagEnd(t + b) == Some(|t|)
  {
    var s := t + b;
    var rest := s[1..];
    assert rest[|t| - 2] == '>';
    assert rest[..|t| - 2] == t[1..|t| - 1];
  }

  /** `clean_description(description)`: empty stays empty; otherwise strip, remove tags, escape,
      and cut to 300 characters plus "...". */
  function CleanDescription(d: string): (r: string)
    ensures d == [] ==> r == []
    ensures r == [] <==> StripTags(Strip(d)) == []
    ensures '<' !in r && '>' !in r
    ensures |r| <= DescriptionLimit + 3
    ensures |r| <= DescriptionLimit ==> Unescape(r) == StripTags(Strip(d))
    ensures |r| <= DescriptionLimit ==> EscapeText(Unescape(r)) == r
    ensures |r| > DescriptionLimit <==> |EscapeText(StripTags(Strip(d)))| > DescriptionLimit
    ensures |r| > DescriptionLimit ==>
      |r| == DescriptionLimit + 3 && EndsWith(r, "...") && StartsWith(EscapeText(StripTags(Strip(d))), r[..DescriptionLimit])
  {
    if d == [] then []
    else
      var text := StripTags(Strip(d));
      var body := EscapeText(text);
      EscapeTextRoundTrip(text);
      if |body| > DescriptionLimit then body[..DescriptionLimit] + "..." else body
  }

  // ---------------------------------------------------------------- date and message

  /** `get_entry_date(entry, now)`: the published instant when `published_parsed` is set, else
      the time of observation. */
  function GetEntryDate(e: Entry, now: Instant): Instant {
    if e.publishedParsed.Has? then e.publishedParsed.value.at else now
  }

  /** The feed's configured tag, or the default. */
  function HashtagOf(feedUrl: string, hashtags: map<string, string>): string {
    if feedUrl in hashtags then hashtags[feedUrl] else DefaultHashtag
  }

  /** `getattr(entry, 'author', ...).replace(" ", "")`. */
  function AuthorTag(e: Entry): (a: string)
    ensures ' ' !in a
  {
    ReplaceChar(e.author.GetOr(UnknownAuthor), ' ', "")
  }

  /** `getattr(entry, 'summary', '') or getattr(entry, 'description', '')`. */
  function DescriptionSource(e: Entry): string {
    if e.summary.Some? && e.summary.value != [] then e.summary.value else e.description.GetOr("")
  }

  function Anchor(title: string, link: string): string {
    "<a href=\"" + link + "\">" + EscapeText(title) + "</a>"
  }

  function Footer(hashtag: string, author: string): string {
    "\n\n📌 " + hashtag + " 👤 #" + author
  }

  /** The italic description block between the link and the footer; none for an empty description. */
  function DescriptionBlock(desc: string): string {
    if desc != [] then "\n\n<i>" + desc + "</i>" else ""
  }

  /** The text of the post `send_to_telegram` builds: the link, the cleaned description in italics
      when there is one, and the footer with the tag and the author. */
  function MessageText(title: string, link: string, feedUrl: string, hashtags: map<string, string>,
                       e: Entry): (m: string)
    ensures StartsWith(m, Anchor(title, link))
    ensures EndsWith(m, Footer(HashtagOf(feedUrl, hashtags), AuthorTag(e)))
    ensures |Anchor(title, link)| + |Footer(HashtagOf(feedUrl, hashtags), AuthorTag(e))| <= |m|
    ensures m[|Anchor(title, link)|..|m| - |Footer(HashtagOf(feedUrl, hashtags), AuthorTag(e))|]
            == DescriptionBlock(CleanDescription(DescriptionSource(e)))
    ensures |m| == |Anchor(title, link)| + |Footer(HashtagOf(feedUrl, hashtags), AuthorTag(e))|
            <==> CleanDescription(DescriptionSource(e)) == []
  {
    var head := Anchor(title, link);
    var mid := DescriptionBlock(CleanDescription(DescriptionSource(e)));
    var foot := Footer(HashtagOf(feedUrl, hashtags), AuthorTag(e));
    ThreeParts(head, mid, foot);
    head + mid + foot
  }

  /** A text made of three parts starts with the first, ends with the last, and holds the middle
      one between them. */
  lemma ThreeParts(head: string, mid: string, foot: string)
    ensures var m := head + mid + foot;
      StartsWith(m, head) && EndsWith(m, foot) && m[|head|..|m| - |foot|] == mid
  {
    var m := head + mid + foot;
    assert m[..|head|] == head;
    assert m[|m| - |foot|..] == foot;
    assert m[|head|..|m| - |foot|] == mid;
  }

  /** The title inside the link reads back as the feed's title: the escaping hides no character
      and adds none. */
  lemma AnchorTitleRoundTrip(title: string, link: string)
    ensures var a := Anchor(title, link);
      |link| + 15 <= |a| && Unescape(a[|link| + 11..|a| - 4]) == title && '<' !in a[|link| + 11..|a| - 4]
  {
    var a := Anchor(title, link);
    assert a[|link| + 11..|a| - 4] == EscapeText(title);
    EscapeTextRoundTrip(title);
  }
}
