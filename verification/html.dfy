/** Escaping text for Telegram's HTML parse mode, as both scripts do it with chained `str.replace`
    calls, and the entity decoding that the receiving side applies (the inverse the escaping must
    respect). */
module Html {
  import opened Text

  /** `s.replace('&', '&amp;').replace('<', '&lt;').replace('>', '&gt;')`, used by bot.py for titles
      and descriptions. The ampersand goes first, so the entities the later steps insert are not
      escaped again. */
  function EscapeText(s: string): (r: string)
    ensures '<' !in r && '>' !in r
  {
    ReplaceChar(ReplaceChar(ReplaceChar(s, '&', "&amp;"), '<', "&lt;"), '>', "&gt;")
  }

  /** my_rss_telegram.py's title escaping: the same chain followed by `.replace('"', '&quot;')`. */
  function EscapeQuoted(s: string): (r: string)
    ensures '<' !in r && '>' !in r && '"' !in r
  {
    ReplaceChar(EscapeText(s), '"', "&quot;")
  }

  /** The entity one character becomes; `quote` says whether `"` is escaped too. */
  function EntityOf(c: char, quote: bool): string {
    if c == '&' then "&amp;"
    else if c == '<' then "&lt;"
    else if c == '>' then "&gt;"
    else if c == '"' && quote then "&quot;"
    else [c]
  }

  /** Reference escaping, one character at a time, independent of the replace chain. */
  function EscapeEach(s: string, quote: bool): string {
    if s == [] then [] else EntityOf(s[0], quote) + EscapeEach(s[1..], quote)
  }

  /** Decodes the four entities the scripts produce; every other character, a lone `&` included,
      stands for itself. */
  function Unescape(s: string): string
    decreases |s|
  {
    if s == [] then []
    else if StartsWith(s, "&amp;") then ['&'] + Unescape(s[5..])
    else if StartsWith(s, "&lt;") then ['<'] + Unescape(s[4..])
    else if StartsWith(s, "&gt;") then ['>'] + Unescape(s[4..])
    else if StartsWith(s, "&quot;") then ['"'] + Unescape(s[6..])
    else [s[0]] + Unescape(s[1..])
  }

  lemma EscapeTextAppend(a: string, b: string)
    ensures EscapeText(a + b) == EscapeText(a) + EscapeText(b)
  {
    var a1, b1 := ReplaceChar(a, '&', "&amp;"), ReplaceChar(b, '&', "&amp;");
    ReplaceCharAppend(a, b, '&', "&amp;");
    var a2, b2 := ReplaceChar(a1, '<', "&lt;"), ReplaceChar(b1, '<', "&lt;");
    ReplaceCharAppend(a1, b1, '<', "&lt;");
    ReplaceCharAppend(a2, b2, '>', "&gt;");
  }

  lemma EscapeTextOne(c: char)
    ensures EscapeText([c]) == EntityOf(c, false)
  {
    var r1 := ReplaceChar([c], '&', "&amp;");
    ReplaceCharOne(c, '&', "&amp;");
    var r2 := ReplaceChar(r1, '<', "&lt;");
    if c == '&' {
      ReplaceCharAbsent(r1, '<', "&lt;");
      ReplaceCharAbsent(r2, '>', "&gt;");
    } else {
      ReplaceCharOne(c, '<', "&lt;");
      if c == '<' {
        ReplaceCharAbsent(r2, '>', "&gt;");
      } else {
        ReplaceCharOne(c, '>', "&gt;");
      }
    }
  }

  /** The replace chain escapes each character independently. */
  lemma {:induction false} EscapeTextIsPerChar(s: string)
    ensures EscapeText(s) == EscapeEach(s, false)
  {
    if s != [] {
      assert s == [s[0]] + s[1..];
      EscapeTextAppend([s[0]], s[1..]);
      EscapeTextOne(s[0]);
      EscapeTextIsPerChar(s[1..]);
    }
  }

  lemma {:induction false} EscapeEachAppend(a: string, b: string, quote: bool)
    ensures EscapeEach(a + b, quote) == EscapeEach(a, quote) + EscapeEach(b, quote)
  {
    if a == [] {
      assert a + b == b;
    } else {
      assert (a + b)[1..] == a[1..] + b;
      EscapeEachAppend(a[1..], b, quote);
    }
  }

  /** The quoting chain, too, escapes each character independently. */
  lemma {:induction false} EscapeQuotedIsPerChar(s: string)
    ensures EscapeQuoted(s) == EscapeEach(s, true)
  {
    if s != [] {
      var t := EscapeText(s);
      assert s == [s[0]] + s[1..];
      EscapeTextAppend([s[0]], s[1..]);
      EscapeTextOne(s[0]);
      ReplaceCharAppend(EscapeText([s[0]]), EscapeText(s[1..]), '"', "&quot;");
      var e := EntityOf(s[0], false);
      if s[0] == '"' {
        ReplaceCharOne(s[0], '"', "&quot;");
      } else {
        ReplaceCharAbsent(e, '"', "&quot;");
      }
      EscapeQuotedIsPerChar(s[1..]);
    }
  }

  /** A text that differs from `p` at index `i` does not start with `p`. */
  lemma DiffersAt(s: string, p: string, i: nat)
    requires i < |p| && i < |s| && s[i] != p[i]
    ensures !StartsWith(s, p)
  {
  }

  lemma UnescapeAmp(t: string)
    ensures Unescape("&amp;" + t) == ['&'] + Unescape(t)
  {
    var s := "&amp;" + t;
    assert s[..5] == "&amp;" && s[5..] == t;
  }

  lemma UnescapeLt(t: string)
    ensures Unescape("&lt;" + t) == ['<'] + Unescape(t)
  {
    var s := "&lt;" + t;
    assert s[1] == 'l';
    DiffersAt(s, "&amp;", 1);
    assert s[..4] == "&lt;" && s[4..] == t;
  }

  lemma UnescapeGt(t: string)
    ensures Unescape("&gt;" + t) == ['>'] + Unescape(t)
  {
    var s := "&gt;" + t;
    assert s[1] == 'g';
    DiffersAt(s, "&amp;", 1);
    DiffersAt(s, "&lt;", 1);
    assert s[..4] == "&gt;" && s[4..] == t;
  }

  lemma UnescapeQuot(t: string)
    ensures Unescape("&quot;" + t) == ['"'] + Unescape(t)
  {
    var s := "&quot;" + t;
    assert s[1] == 'q';
    DiffersAt(s, "&amp;", 1);
    DiffersAt(s, "&lt;", 1);
    DiffersAt(s, "&gt;", 1);
    assert s[..6] == "&quot;" && s[6..] == t;
  }

  lemma UnescapePlain(c: char, t: string)
    requires c != '&'
    ensures Unescape([c] + t) == [c] + Unescape(t)
  {
    var s := [c] + t;
    assert s[0] == c && s[1..] == t;
    DiffersAt(s, "&amp;", 0);
    DiffersAt(s, "&lt;", 0);
    DiffersAt(s, "&gt;", 0);
    DiffersAt(s, "&quot;", 0);
  }

  lemma UnescapeEntity(c: char, quote: bool, t: string)
    ensures Unescape(EntityOf(c, quote) + t) == [c] + Unescape(t)
  {
    if c == '&' {
      UnescapeAmp(t);
    } else if c == '<' {
      UnescapeLt(t);
    } else if c == '>' {
      UnescapeGt(t);
    } else if c == '"' && quote {
      UnescapeQuot(t);
    } else {
      UnescapePlain(c, t);
    }
  }

  lemma {:induction false} UnescapeEscapeEach(s: string, quote: bool)
    ensures Unescape(EscapeEach(s, quote)) == s
  {
    if s != [] {
      UnescapeEntity(s[0], quote, EscapeEach(s[1..], quote));
      UnescapeEscapeEach(s[1..], quote);
    }
  }

  /** Round trip: the receiver reads back exactly the original text, so every `&` of the input is
      escaped once, never twice. */
  lemma EscapeTextRoundTrip(s: string)
    ensures Unescape(EscapeText(s)) == s
  {
    EscapeTextIsPerChar(s);
    UnescapeEscapeEach(s, false);
  }

  /** Round trip for the quoting variant. */
  lemma EscapeQuotedRoundTrip(s: string)
    ensures Unescape(EscapeQuoted(s)) == s
  {
    EscapeQuotedIsPerChar(s);
    UnescapeEscapeEach(s, true);
  }
}
