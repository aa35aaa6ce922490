/** my_rss_telegram.py's pure helpers: the Cyrillic-ratio test, the date-validity test, the
    classification of request errors, and the text of the post. */
module RssUtil {
  import opened Wrappers
  import opened Text
  import opened Html
  import opened Feed

  // ---------------------------------------------------------------- is_russian_text

  /** A character of the Unicode Cyrillic block, U+0400 to U+04FF. */
  predicate IsCyrillic(c: char) {
    'Ѐ' <= c <= 'ӿ'
  }

  function CountCyrillic(s: string): (n: nat)
    ensures n <= |s|
  {
    if s == [] then 0 else (if IsCyrillic(s[0]) then 1 else 0) + CountCyrillic(s[1..])
  }

  /** How many characters `isAlpha` (Python's `str.isalpha`) accepts. */
  function CountLetters(s: string, isAlpha: char -> bool): (n: nat)
    ensures n <= |s|
  {
    if s == [] then 0 else (if isAlpha(s[0]) then 1 else 0) + CountLetters(s[1..], isAlpha)
  }

  /** `is_russian_text(text)`: more than 30% of the letters are Cyrillic, among at least three
      letters. `cyrillic / letters > 0.3` is written as `10 * cyrillic > 3 * letters`. */
  function IsRussianText(text: string, isAlpha: char -> bool): bool {
    if text == [] then false
    else
      var cyrillic := CountCyrillic(text);
      var letters := CountLetters(text, isAlpha);
      if letters < 3 then false else 10 * cyrillic > 3 * letters
  }

  lemma {:induction false} CountCyrillicAppend(a: string, b: string)
    ensures CountCyrillic(a + b) == CountCyrillic(a) + CountCyrillic(b)
  {
    if a == [] {
      assert a + b == b;
    } else {
      assert (a + b)[1..] == a[1..] + b;
      CountCyrillicAppend(a[1..], b);
    }
  }

  lemma {:induction false} CountLettersAppend(a: string, b: string, isAlpha: char -> bool)
    ensures CountLetters(a + b, isAlpha) == CountLetters(a, isAlpha) + CountLetters(b, isAlpha)
  {
    if a == [] {
      assert a + b == b;
    } else {
      assert (a + b)[1..] == a[1..] + b;
      CountLettersAppend(a[1..], b, isAlpha);
    }
  }

  lemma {:induction false} CountCyrillicNone(s: string)
    requires forall i :: 0 <= i < |s| ==> !IsCyrillic(s[i])
    ensures CountCyrillic(s) == 0
  {
    if s != [] {
      CountCyrillicNone(s[1..]);
    }
  }

  lemma {:induction false} CountAllCyrillicLetters(s: string, isAlpha: char -> bool)
    requires forall i :: 0 <= i < |s| ==> IsCyrillic(s[i]) && isAlpha(s[i])
    ensures CountCyrillic(s) == |s| && CountLetters(s, isAlpha) == |s|
  {
    if s != [] {
      CountAllCyrillicLetters(s[1..], isAlpha);
    }
  }

  /** A text accepted as Russian has at least three letters, at least one of them Cyrillic. */
  lemma RussianNeedsCyrillic(text: string, isAlpha: char -> bool)
    requires IsRussianText(text, isAlpha)
    ensures CountLetters(text, isAlpha) >= 3 && CountCyrillic(text) >= 1
  {
  }

  /** A text without Cyrillic characters is never taken for Russian, so its title is translated. */
  lemma NoCyrillicNotRussian(text: string, isAlpha: char -> bool)
    requires forall i :: 0 <= i < |text| ==> !IsCyrillic(text[i])
    ensures !IsRussianText(text, isAlpha)
  {
    CountCyrillicNone(text);
  }

  /** Three or more Cyrillic letters and nothing else make a Russian text. */
  lemma AllCyrillicIsRussian(text: string, isAlpha: char -> bool)
    requires |text| >= 3
    requires forall i :: 0 <= i < |text| ==> IsCyrillic(text[i]) && isAlpha(text[i])
    ensures IsRussianText(text, isAlpha)
  {
    CountAllCyrillicLetters(text, isAlpha);
  }

  /** Appending punctuation, digits or spaces (neither letters nor Cyrillic) to a text does not
      change the verdict: only the ratio of letters counts. */
  lemma RussianIgnoresNonLetters(text: string, tail: string, isAlpha: char -> bool)
    requires forall i :: 0 <= i < |tail| ==> !IsCyrillic(tail[i]) && !isAlpha(tail[i])
    ensures IsRussianText(text + tail, isAlpha) == IsRussianText(text, isAlpha)
  {
    CountCyrillicAppend(text, tail);
    CountLettersAppend(text, tail, isAlpha);
    CountCyrillicNone(tail);
    CountLettersNone(tail, isAlpha);
  }

  lemma {:induction false} CountLettersNone(s: string, isAlpha: char -> bool)
    requires forall i :: 0 <= i < |s| ==> !isAlpha(s[i])
    ensures CountLetters(s, isAlpha) == 0
  {
    if s != [] {
      CountLettersNone(s[1..], isAlpha);
    }
  }

  // ---------------------------------------------------------------- has_valid_date

  const Months: seq<string> := ["Jan", "Feb", "Mar", "Apr", "May", "Jun", "Jul", "Aug", "Sep", "Oct", "Nov", "Dec"]

  predicate IsDigit(c: char) {
    '0' <= c <= '9'
  }

  /** Four digits start at index `i` of `s`. */
  predicate DigitsAt(s: string, i: int) {
    0 <= i && i + 4 <= |s| && IsDigit(s[i]) && IsDigit(s[i + 1]) && IsDigit(s[i + 2]) && IsDigit(s[i + 3])
  }

  /** `re.search(r'\d{4}', s)` finds a match. */
  predicate HasFourDigits(s: string)
    decreases |s|
  {
    |s| >= 4 && (DigitsAt(s, 0) || HasFourDigits(s[1..]))
  }

  /** `any(month in s for month in months)`. */
  predicate MentionsMonth(s: string) {
    exists k :: 0 <= k < |Months| && Contains(s, Months[k])
  }

  /** A year from a parsed time struct is accepted when it lies in 2000..2030. */
  predicate YearInRange(t: Attr<ParsedTime>) {
    t.Has? && 2000 <= t.value.year <= 2030
  }

  /** A date string is accepted when it is non-empty, has four digits in a row and names a month. */
  predicate DateStringValid(s: Option<string>) {
    s.Some? && s.value != [] && HasFourDigits(s.value) && MentionsMonth(s.value)
  }

  /** `has_valid_date(entry)`. */
  predicate HasValidDate(e: Entry) {
    YearInRange(e.publishedParsed) || YearInRange(e.updatedParsed)
    || DateStringValid(e.published) || DateStringValid(e.updated) || DateStringValid(e.date)
  }

  /** The scanning search finds four digits exactly when four digits occur somewhere. */
  lemma {:induction false} HasFourDigitsAt(s: string)
    ensures HasFourDigits(s) <==> exists i :: DigitsAt(s, i)
    decreases |s|
  {
    if |s| >= 4 {
      HasFourDigitsAt(s[1..]);
      if HasFourDigits(s[1..]) {
        var i :| DigitsAt(s[1..], i);
        assert DigitsAt(s, i + 1);
      }
      if i :| DigitsAt(s, i) {
        if i > 0 {
          assert DigitsAt(s[1..], i - 1);
        }
      }
    }
  }

  /** A date string passes exactly when it has four digits at some index and a month abbreviation
      at some index. */
  lemma DateStringValidAt(s: string)
    ensures DateStringValid(Some(s)) <==>
      (exists i :: DigitsAt(s, i)) && (exists k, j :: 0 <= k < |Months| && OccursAt(s, Months[k], j))
  {
    HasFourDigitsAt(s);
    forall k | 0 <= k < |Months| {
      ContainsAt(s, Months[k]);
    }
    if exists i :: DigitsAt(s, i) {
      var i :| DigitsAt(s, i);
      assert s != [];
    }
  }

  /** The first letters of the month abbreviations. */
  predicate MonthInitial(c: char) {
    c == 'J' || c == 'F' || c == 'M' || c == 'A' || c == 'S' || c == 'O' || c == 'N' || c == 'D'
  }

  /** A string in which no month abbreviation can start, such as an ISO 8601 timestamp
      (`2023-12-25T14:30:00Z`), is rejected on its own however many digits it has. */
  lemma NoMonthInitialRejected(s: string)
    requires forall i :: 0 <= i < |s| ==> !MonthInitial(s[i])
    ensures !DateStringValid(Some(s))
  {
    forall k, j | 0 <= k < |Months| ensures !OccursAt(s, Months[k], j) {
      MonthStartsWithInitial(k);
      InitialNotOccurring(s, Months[k], j);
    }
    DateStringValidAt(s);
  }

  /** A word whose first letter never appears in `s` does not occur in `s`. */
  lemma InitialNotOccurring(s: string, m: string, j: int)
    requires m != [] && MonthInitial(m[0])
    requires forall i :: 0 <= i < |s| ==> !MonthInitial(s[i])
    ensures !OccursAt(s, m, j)
  {
  }

  lemma MonthStartsWithInitial(k: nat)
    requires k < |Months|
    ensures Months[k] != [] && MonthInitial(Months[k][0])
  {
  }

  /** A date string with four digits and a month, as RFC 822 dates in RSS carry them
      (`Mon, 25 Dec 2023 14:30:00 +0000`), is accepted. */
  lemma DigitsAndMonthAccepted(s: string, i: nat, k: nat, j: nat)
    requires DigitsAt(s, i) && k < |Months| && OccursAt(s, Months[k], j)
    ensures DateStringValid(Some(s))
  {
    DateStringValidAt(s);
  }

  // ---------------------------------------------------------------- handle_request_error

  /** What the exception handler does next. */
  datatype ErrorAction = Skip | Error

  /** Substrings of the lower-cased message that mark a rate limit or a server error. */
  const SkipMarkers: seq<string> := ["429", "too many", "500", "502", "503", "504"]

  /** `handle_request_error`: rate limits and server errors are skipped, anything else is an
      error. The message is lower-cased first. */
  function HandleRequestError(message: string): ErrorAction {
    var lowered := Lower(message);
    if Contains(lowered, "429") || Contains(lowered, "too many") then Skip
    else if Contains(lowered, "500") || Contains(lowered, "502") || Contains(lowered, "503") || Contains(lowered, "504")
    then Skip
    else Error
  }

  /** The classification ignores case. */
  lemma HandleRequestErrorIgnoresCase(message: string)
    ensures HandleRequestError(Lower(message)) == HandleRequestError(message)
  {
    LowerIdempotent(message);
  }

  /** A message is skipped exactly when its lower-cased text contains one of the markers at some
      index. */
  lemma HandleRequestErrorAt(message: string)
    ensures HandleRequestError(message) == Skip <==>
      exists k, j :: 0 <= k < |SkipMarkers| && OccursAt(Lower(message), SkipMarkers[k], j)
  {
    var lowered := Lower(message);
    forall k | 0 <= k < |SkipMarkers| {
      ContainsAt(lowered, SkipMarkers[k]);
    }
    assert SkipMarkers[0] == "429" && SkipMarkers[1] == "too many" && SkipMarkers[2] == "500";
    assert SkipMarkers[3] == "502" && SkipMarkers[4] == "503" && SkipMarkers[5] == "504";
    if HandleRequestError(message) == Skip {
      var k :| 0 <= k < |SkipMarkers| && Contains(lowered, SkipMarkers[k]);
      var j :| OccursAt(lowered, SkipMarkers[k], j);
      assert exists k, j :: 0 <= k < |SkipMarkers| && OccursAt(Lower(message), SkipMarkers[k], j);
    }
    if exists k, j :: 0 <= k < |SkipMarkers| && OccursAt(lowered, SkipMarkers[k], j) {
      var k, j :| 0 <= k < |SkipMarkers| && OccursAt(lowered, SkipMarkers[k], j);
      assert Contains(lowered, SkipMarkers[k]);
      MarkerSkips(message, k);
      assert HandleRequestError(message) == Skip;
    }
  }

  lemma MarkerSkips(message: string, k: nat)
    requires k < |SkipMarkers| && Contains(Lower(message), SkipMarkers[k])
    ensures HandleRequestError(message) == Skip
  {
    var lowered := Lower(message);
    if k == 0 {
      assert SkipMarkers[k] == "429";
    } else if k == 1 {
      assert SkipMarkers[k] == "too many";
    } else if k == 2 {
      assert SkipMarkers[k] == "500";
    } else if k == 3 {
      assert SkipMarkers[k] == "502";
    } else if k == 4 {
      assert SkipMarkers[k] == "503";
    } else {
      assert SkipMarkers[k] == "504";
    }
  }

  lemma {:induction false} LowerAppend(a: string, b: string)
    ensures Lower(a + b) == Lower(a) + Lower(b)
  {
  }

  /** A skipped message stays skipped inside any longer message, such as one wrapping it with the
      URL and the exception's class. */
  lemma SkipSurvivesContext(pre: string, message: string, post: string)
    requires HandleRequestError(message) == Skip
    ensures HandleRequestError(pre + message + post) == Skip
  {
    HandleRequestErrorAt(message);
    var k, j :| 0 <= k < |SkipMarkers| && OccursAt(Lower(message), SkipMarkers[k], j);
    LowerAppend(pre + message, post);
    LowerAppend(pre, message);
    var whole := Lower(pre + message + post);
    assert whole == Lower(pre) + Lower(message) + Lower(post);
    var at := |pre| + j;
    var m := SkipMarkers[k];
    assert whole[at..at + |m|] == Lower(message)[j..j + |m|];
    assert OccursAt(whole, m, at);
    HandleRequestErrorAt(pre + message + post);
  }

  // ---------------------------------------------------------------- send_to_telegram

  /** The opening of the post's link. */
  function LinkOpen(link: string): string {
    "<a href=\"" + link + "\">"
  }

  /** The text `send_to_telegram(title, link)` posts: the escaped title inside a link. */
  function PostText(title: string, link: string): (m: string)
    ensures StartsWith(m, LinkOpen(link)) && EndsWith(m, "</a>")
    ensures |m| >= |LinkOpen(link)| + 4
    ensures var shown := m[|LinkOpen(link)|..|m| - 4];
      Unescape(shown) == title && '<' !in shown && '>' !in shown && '"' !in shown
  {
    var head := LinkOpen(link);
    var shown := EscapeQuoted(title);
    var m := head + shown + "</a>";
    assert m[..|head|] == head;
    assert m[|m| - 4..] == "</a>";
    assert m[|head|..|m| - 4] == shown;
    EscapeQuotedRoundTrip(title);
    m
  }
}
