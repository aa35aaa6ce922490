/** my_rss_telegram.py's `check_feeds` and `initialize_first_run`, as functions of the state and
    the outside world. Each feed has a record: the date of the last entry posted and a count of
    consecutive errors; three errors delete the record. */
module RssSpec {
  import opened Wrappers
  import opened Text
  import opened Feed
  import opened RssUtil

  /** One entry of the `dates` dictionary: `{'last_date': ..., 'error_count': ...}`. */
  datatype Record = Record(lastDate: Instant, errorCount: int)

  /** The `dates` dictionary. */
  type Store = map<string, Record>

  /** The state of a cycle: the records, how many posts went out, and how many sends were
      attempted (the index of the next answer of the send oracle). */
  datatype Pass = Pass(dates: Store, sent: nat, attempts: nat)

  /** The exceptions a feed's turn can raise inside its `try` block: reading `entry.title` or
      `entry.link` when the entry has no such attribute, and slicing a time struct that is None. */
  datatype Raised = NoTitle | NoLink | NotSubscriptable

  /** How one feed's turn ended before the final reset: it was dropped (empty feed or a first entry
      without a valid date), it ran to the end, or it raised. */
  datatype Outcome = Abandoned | Completed | Raise(error: Raised)

  /** A feed's record is deleted once its error count reaches this. */
  const MaxErrors: int := 3

  /** The text `str(e)` gives for each exception. */
  function Message(r: Raised): string {
    match r
    case NoTitle => "object has no attribute 'title'"
    case NoLink => "object has no attribute 'link'"
    case NotSubscriptable => "'NoneType' object is not subscriptable"
  }

  /** The date the script computes for an entry: `published_parsed` when the attribute exists,
      else `updated_parsed`; Success(None) when neither exists; an attribute that exists but is
      None raises. */
  function ParsedDate(e: Entry): Result<Option<Instant>, Raised> {
    match e.publishedParsed
    case Has(t) => Success(Some(t.at))
    case Null => Failure(NotSubscriptable)
    case Missing =>
      match e.updatedParsed
      case Has(t) => Success(Some(t.at))
      case Null => Failure(NotSubscriptable)
      case Missing => Success(None)
  }

  /** One step of the selection loop: an entry with a valid date and a parsed date after the
      cursor is new; one without either attribute is passed over. */
  function Candidate(e: Entry, last: Instant): Result<Option<Pending>, Raised> {
    if !HasValidDate(e) then Success(None)
    else match ParsedDate(e)
      case Failure(r) => Failure(r)
      case Success(None) => Success(None)
      case Success(Some(d)) => Success(if d > last then Some(Pending(e, d)) else None)
  }

  /** An entry the selection keeps: a valid date and a parsed date after the cursor. */
  predicate IsNew(e: Entry, last: Instant) {
    HasValidDate(e) && ParsedDate(e).Success? && ParsedDate(e).value.Some? && ParsedDate(e).value.value > last
  }

  /** The `new_entries` list, built in feed order; the first entry that raises ends the loop. */
  function SelectNew(entries: seq<Entry>, last: Instant): (r: Result<seq<Pending>, Raised>)
    ensures r.Success? ==> forall p :: p in r.value ==>
      p.entry in entries && HasValidDate(p.entry) && ParsedDate(p.entry) == Success(Some(p.date)) && p.date > last
    ensures r.Success? ==> forall e :: e in entries && IsNew(e, last) ==> Pending(e, ParsedDate(e).value.value) in r.value
    ensures r.Failure? <==> exists e :: e in entries && HasValidDate(e) && ParsedDate(e).Failure?
    ensures r.Failure? ==> r.error == NotSubscriptable
  {
    if entries == [] then Success([])
    else
      var init := entries[..|entries| - 1];
      var e := entries[|entries| - 1];
      assert entries == init + [e];
      match SelectNew(init, last)
      case Failure(r) => Failure(r)
      case Success(acc) =>
        match Candidate(e, last)
        case Failure(r) => Failure(r)
        case Success(None) => Success(acc)
        case Success(Some(p)) => Success(acc + [p])
  }

  /** One send: `entry.title` and `entry.link` are read first (a missing one raises), then the post
      goes out; on success the record is rewritten with the entry's date and no errors. */
  function Deliver(p: Pass, url: string, e: Entry, date: Instant, send: nat -> bool): Result<Pass, Raised> {
    if e.title.None? then Failure(NoTitle)
    else if e.link.None? then Failure(NoLink)
    else if send(p.attempts) then Success(Pass(p.dates[url := Record(date, 0)], p.sent + 1, p.attempts + 1))
    else Success(p.(attempts := p.attempts + 1))
  }

  /** The send loop: a failed send does not stop it; a raise does, with the state at that point. */
  function DispatchAll(p: Pass, url: string, items: seq<Pending>, send: nat -> bool): (Pass, Option<Raised>)
    decreases |items|
  {
    if items == [] then (p, None)
    else match Deliver(p, url, items[0].entry, items[0].date, send)
      case Failure(r) => (p, Some(r))
      case Success(q) => DispatchAll(q, url, items[1..], send)
  }

  /** The body of the per-feed `try` after a successful fetch. `last` is the stored `last_date`.
      The date of the first entry is read before either branch. */
  function FeedBody(p: Pass, url: string, last: Option<Instant>, entries: seq<Entry>, send: nat -> bool, now: Instant): (Pass, Outcome) {
    if entries == [] || !HasValidDate(entries[0]) then (p.(dates := p.dates - {url}), Abandoned)
    else match ParsedDate(entries[0])
      case Failure(r) => (p, Raise(r))
      case Success(latest) =>
        match last
        case None => ColdBody(p, url, entries[0], latest.GetOr(now), send)
        case Some(l) => WarmBody(p, url, l, entries, send)
  }

  /** A feed without a record: only the first entry is posted, and a success starts the record. */
  function ColdBody(p: Pass, url: string, e: Entry, latest: Instant, send: nat -> bool): (Pass, Outcome) {
    match Deliver(p, url, e, latest, send)
    case Failure(r) => (p, Raise(r))
    case Success(q) => (q, Completed)
  }

  /** A feed with a record: the new entries are posted oldest first. */
  function WarmBody(p: Pass, url: string, last: Instant, entries: seq<Entry>, send: nat -> bool): (Pass, Outcome) {
    match SelectNew(entries, last)
    case Failure(r) => (p, Raise(r))
    case Success(items) =>
      var (q, raised) := DispatchAll(p, url, SortByDate(items), send);
      (q, if raised.Some? then Raise(raised.value) else Completed)
  }

  /** Adds one error to a feed's record (creating it at `now` when there is none), and deletes the
      record when the count reaches three. */
  function CountError(dates: Store, url: string, errorCount: int, now: Instant): Store {
    var d := if url in dates then dates[url := dates[url].(errorCount := errorCount)] else dates[url := Record(now, errorCount)];
    if errorCount >= MaxErrors then d - {url} else d
  }

  /** The `except` block: a skipped error leaves everything as it was at the raise; any other error
      counts against the feed. `errorCount` is the count read before the turn. */
  function OnRequestError(q: Pass, url: string, errorCount: int, r: Raised, now: Instant): Pass {
    match HandleRequestError(Message(r))
    case Skip => q
    case Error => q.(dates := CountError(q.dates, url, errorCount + 1, now))
  }

  /** A failed fetch: one more error, the stored date kept (or `now` for a new record), and the
      record deleted at three errors. */
  function FetchFailed(p: Pass, url: string, now: Instant): Pass {
    var last := if url in p.dates then p.dates[url].lastDate else now;
    var errorCount := if url in p.dates then p.dates[url].errorCount else 0;
    var d := p.dates[url := Record(last, errorCount + 1)];
    p.(dates := if errorCount + 1 >= MaxErrors then d - {url} else d)
  }

  /** How a turn ends: a completed turn resets the error count of a feed that has a record. */
  function Settle(q: Pass, url: string, errorCount: int, outcome: Outcome, now: Instant): Pass {
    match outcome
    case Abandoned => q
    case Completed => if url in q.dates then q.(dates := q.dates[url := q.dates[url].(errorCount := 0)]) else q
    case Raise(r) => OnRequestError(q, url, errorCount, r, now)
  }

  /** One feed's turn of `check_feeds`. `fetched` is what `parse_feed_with_auto_encoding` returned. */
  function FeedStep(p: Pass, url: string, fetched: Option<seq<Entry>>, send: nat -> bool, now: Instant): Pass {
    match fetched
    case None => FetchFailed(p, url, now)
    case Some(entries) =>
      var last := if url in p.dates then Some(p.dates[url].lastDate) else None;
      var errorCount := if url in p.dates then p.dates[url].errorCount else 0;
      var (q, outcome) := FeedBody(p, url, last, entries, send, now);
      Settle(q, url, errorCount, outcome, now)
  }

  /** The turns of the feeds from position `i` on. */
  function PassFrom(p: Pass, feeds: seq<string>, w: World, i: nat): Pass
    requires i <= |feeds|
    decreases |feeds| - i
  {
    if i == |feeds| then p else PassFrom(FeedStep(p, feeds[i], w.fetched(i), w.send, w.now), feeds, w, i + 1)
  }

  /** One feed's turn of `initialize_first_run`: only the first entry is posted, and its date is
      read after the send; anything that raises is logged and the feed gets no record. */
  function InitStep(p: Pass, url: string, fetched: Option<seq<Entry>>, send: nat -> bool, now: Instant): Pass {
    if fetched.None? || fetched.value == [] || !HasValidDate(fetched.value[0]) then p
    else
      var e := fetched.value[0];
      if e.title.None? || e.link.None? then p
      else if !send(p.attempts) then p.(attempts := p.attempts + 1)
      else match ParsedDate(e)
        case Failure(_) => Pass(p.dates, p.sent + 1, p.attempts + 1)
        case Success(d) => Pass(p.dates[url := Record(d.GetOr(now), 0)], p.sent + 1, p.attempts + 1)
  }

  function InitFrom(p: Pass, feeds: seq<string>, w: World, i: nat): Pass
    requires i <= |feeds|
    decreases |feeds| - i
  {
    if i == |feeds| then p else InitFrom(InitStep(p, feeds[i], w.fetched(i), w.send, w.now), feeds, w, i + 1)
  }

  /** `check_feeds()`: the records afterwards and the number returned. With no stored records the
      cycle is `initialize_first_run`, and the number is how many feeds got a record. */
  function Cycle(feeds: seq<string>, stored: Store, w: World): (Store, nat) {
    if stored == map[] then
      var r := InitFrom(Pass(map[], 0, 0), feeds, w, 0);
      (r.dates, |r.dates|)
    else
      var r := PassFrom(Pass(stored, 0, 0), feeds, w, 0);
      (r.dates, r.sent)
  }

  // ---------------------------------------------------------------- errors

  /** A record is deleted exactly when the new count reaches three; otherwise it carries the new
      count and keeps its date. Other feeds are untouched. */
  lemma CountErrorEvictsAtThree(dates: Store, url: string, errorCount: int, now: Instant)
    ensures var d := CountError(dates, url, errorCount, now);
      && (url in d <==> errorCount < MaxErrors)
      && (url in d ==> d[url] == Record(if url in dates then dates[url].lastDate else now, errorCount))
      && (forall u :: u != url ==> (u in d <==> u in dates) && (u in dates ==> d[u] == dates[u]))
  {
  }

  /** A failed fetch adds one error and keeps the stored date (or starts the record now); the
      record is deleted when the count reaches three. */
  lemma FetchFailureCounts(p: Pass, url: string, send: nat -> bool, now: Instant)
    ensures var q := FeedStep(p, url, None, send, now);
      var before := if url in p.dates then p.dates[url].errorCount else 0;
      && (url in q.dates <==> before + 1 < MaxErrors)
      && (url in q.dates ==> q.dates[url] == Record(if url in p.dates then p.dates[url].lastDate else now, before + 1))
      && q.sent == p.sent && q.attempts == p.attempts
  {
  }

  /** Three failed fetches in a row remove a feed that had no errors, and not before the third. */
  lemma ThreeFailuresEvict(p: Pass, url: string, send: nat -> bool, now: Instant)
    requires url !in p.dates || p.dates[url].errorCount == 0
    ensures var q1 := FeedStep(p, url, None, send, now);
      var q2 := FeedStep(q1, url, None, send, now);
      var q3 := FeedStep(q2, url, None, send, now);
      url in q1.dates && url in q2.dates && url !in q3.dates
  {
    var q1 := FeedStep(p, url, None, send, now);
    FetchFailureCounts(p, url, send, now);
    FetchFailureCounts(q1, url, send, now);
    FetchFailureCounts(FeedStep(q1, url, None, send, now), url, send, now);
  }

  /** A skipped error leaves the state exactly as it was when the exception was raised. */
  lemma SkipKeepsState(q: Pass, url: string, errorCount: int, r: Raised, now: Instant)
    requires HandleRequestError(Message(r)) == Skip
    ensures OnRequestError(q, url, errorCount, r, now) == q
  {
  }

  /** A message with no digit and no letter m in either case. */
  predicate Unmarked(message: string) {
    (forall i :: 0 <= i < |message| ==> !IsDigit(message[i])) && 'm' !in message && 'M' !in message
  }

  /** An unmarked message names no marker, so it is an error. */
  lemma UnmarkedIsError(message: string)
    requires Unmarked(message)
    ensures HandleRequestError(message) == Error
  {
    var l := Lower(message);
    forall i | 0 <= i < |l| ensures !IsDigit(l[i]) && l[i] != 'm' {
      assert l[i] == LowerChar(message[i]);
    }
    HandleRequestErrorAt(message);
    forall k, j | 0 <= k < |SkipMarkers| ensures !OccursAt(l, SkipMarkers[k], j) {
      MarkerHasDigitOrM(k);
      NotOccursAt(l, SkipMarkers[k], j, if k == 1 then 4 else 0);
    }
  }

  /** A pattern with a digit or an m at position `t` does not occur in a text without either. */
  lemma NotOccursAt(l: string, m: string, j: int, t: nat)
    requires t < |m| && (IsDigit(m[t]) || m[t] == 'm')
    requires forall i :: 0 <= i < |l| ==> !IsDigit(l[i]) && l[i] != 'm'
    ensures !OccursAt(l, m, j)
  {
  }

  /** Every marker holds a digit or an m, at position 4 for "too many" and 0 for the others. */
  lemma MarkerHasDigitOrM(k: nat)
    requires k < |SkipMarkers|
    ensures var t := if k == 1 then 4 else 0;
      t < |SkipMarkers[k]| && (IsDigit(SkipMarkers[k][t]) || SkipMarkers[k][t] == 'm')
  {
    if k == 0 {
      assert SkipMarkers[k] == "429";
    } else if k == 1 {
      assert SkipMarkers[k] == "too many";
    } else if k == 2 {
      assert SkipMarkers[k] == "500";
    } else if k == 3 {
      assert SkipMarkers[k] == "502";
    } else if k == 4 {
      assert SkipMarkers[k] == "503";
    } else {
      assert SkipMarkers[k] == "504";
    }
  }

  lemma NoTitleUnmarked() ensures Unmarked("object has no attribute 'title'") {}
  lemma NoLinkUnmarked() ensures Unmarked("object has no attribute 'link'") {}
  lemma NotSubscriptableUnmarked() ensures Unmarked("'NoneType' object is not subscriptable") {}

  /** Every exception the modelled turn can raise is counted as an error: the skip branch of the
      handler is never taken. */
  lemma RaisedAreErrors(r: Raised)
    ensures HandleRequestError(Message(r)) == Error
  {
    RaisedUnmarked(r);
    UnmarkedIsError(Message(r));
  }

  lemma RaisedUnmarked(r: Raised)
    ensures Unmarked(Message(r))
  {
    match r
    case NoTitle => NoTitleUnmarked();
    case NoLink => NoLinkUnmarked();
    case NotSubscriptable => NotSubscriptableUnmarked();
  }

  // ---------------------------------------------------------------- the send loop

  /** The dates the send loop commits, in order. */
  function Committed(p: Pass, url: string, items: seq<Pending>, send: nat -> bool): seq<Instant>
    decreases |items|
  {
    if items == [] then []
    else match Deliver(p, url, items[0].entry, items[0].date, send)
      case Failure(_) => []
      case Success(q) => (if q.sent > p.sent then [items[0].date] else []) + Committed(q, url, items[1..], send)
  }

  /** The send loop touches only this feed's record. Each post commits its entry's date with no
      errors; the committed dates never go backwards and stay above any bound the entries respect;
      the record afterwards holds the last one. */
  lemma {:induction false} DispatchAllCommits(p: Pass, url: string, items: seq<Pending>, send: nat -> bool, lo: Instant)
    requires Ascending(items)
    requires forall j :: 0 <= j < |items| ==> lo < items[j].date
    ensures var (q, _) := DispatchAll(p, url, items, send);
      var c := Committed(p, url, items, send);
      && q.sent >= p.sent && |c| == q.sent - p.sent && q.attempts >= p.attempts
      && (forall i :: 0 <= i < |c| ==> lo < c[i])
      && (forall i, j :: 0 <= i < j < |c| ==> c[i] <= c[j])
      && (c == [] ==> q.dates == p.dates)
      && (c != [] ==> q.dates == p.dates[url := Record(c[|c| - 1], 0)])
    decreases |items|
  {
    if items != [] {
      var tail := items[1..];
      assert forall j :: 0 <= j < |tail| ==> tail[j] == items[j + 1];
      match Deliver(p, url, items[0].entry, items[0].date, send)
      case Failure(_) =>
      case Success(q1) =>
        DispatchAllCommits(q1, url, tail, send, if q1.sent > p.sent then items[0].date - 1 else lo);
        var c1 := Committed(q1, url, tail, send);
        if q1.sent > p.sent {
          forall i | 0 <= i < |c1| ensures items[0].date <= c1[i] {
          }
        }
    }
  }

  /** A failed send does not hold the cursor back: when a later entry of the same turn is posted,
      the cursor passes the failed one, which is then never new again. */
  lemma FailedEntryIsPassedOver(p: Pass, url: string, a: Pending, b: Pending, send: nat -> bool)
    requires a.entry.title.Some? && a.entry.link.Some? && b.entry.title.Some? && b.entry.link.Some?
    requires a.date <= b.date
    requires !send(p.attempts) && send(p.attempts + 1)
    ensures var (q, raised) := DispatchAll(p, url, [a, b], send);
      && raised.None? && q.sent == p.sent + 1
      && url in q.dates && q.dates[url] == Record(b.date, 0)
      && Candidate(a.entry, q.dates[url].lastDate) != Success(Some(a))
  {
    var q1 := p.(attempts := p.attempts + 1);
    assert [a, b][1..] == [b];
    assert [b][1..] == [];
    assert DispatchAll(p, url, [a, b], send) == DispatchAll(q1, url, [b], send);
  }

  // ---------------------------------------------------------------- one turn

  /** Two stores agree on every feed but `url`. */
  ghost predicate SameElsewhere(a: Store, b: Store, url: string) {
    forall u :: u != url ==> (u in a <==> u in b) && (u in a ==> a[u] == b[u])
  }

  lemma {:induction false} DispatchAllFrame(p: Pass, url: string, items: seq<Pending>, send: nat -> bool)
    ensures var (q, _) := DispatchAll(p, url, items, send);
      && SameElsewhere(q.dates, p.dates, url)
      && (url in p.dates ==> url in q.dates)
      && q.sent >= p.sent && q.attempts >= p.attempts
    decreases |items|
  {
    if items != [] {
      match Deliver(p, url, items[0].entry, items[0].date, send)
      case Failure(_) =>
      case Success(q1) => DispatchAllFrame(q1, url, items[1..], send);
    }
  }

  lemma FeedBodyFrame(p: Pass, url: string, last: Option<Instant>, entries: seq<Entry>, send: nat -> bool, now: Instant)
    ensures SameElsewhere(FeedBody(p, url, last, entries, send, now).0.dates, p.dates, url)
    ensures FeedBody(p, url, last, entries, send, now).1.Abandoned? ==> url !in FeedBody(p, url, last, entries, send, now).0.dates
  {
    if entries != [] && HasValidDate(entries[0]) && ParsedDate(entries[0]).Success? && last.Some? {
      match SelectNew(entries, last.value)
      case Failure(_) =>
      case Success(items) => DispatchAllFrame(p, url, SortByDate(items), send);
    }
  }

  lemma SettleFrame(q: Pass, url: string, errorCount: int, outcome: Outcome, now: Instant)
    ensures SameElsewhere(Settle(q, url, errorCount, outcome, now).dates, q.dates, url)
  {
  }

  /** A turn changes no other feed's record. */
  lemma FeedStepFrame(p: Pass, url: string, fetched: Option<seq<Entry>>, send: nat -> bool, now: Instant)
    ensures SameElsewhere(FeedStep(p, url, fetched, send, now).dates, p.dates, url)
  {
    if fetched.Some? {
      var last := if url in p.dates then Some(p.dates[url].lastDate) else None;
      var errorCount := if url in p.dates then p.dates[url].errorCount else 0;
      var (q, outcome) := FeedBody(p, url, last, fetched.value, send, now);
      FeedBodyFrame(p, url, last, fetched.value, send, now);
      SettleFrame(q, url, errorCount, outcome, now);
    }
  }

  /** Whatever the count was, a turn that raises leaves the feed with fewer than three errors. */
  lemma SettleErrorsBelowThree(q: Pass, url: string, errorCount: int, outcome: Outcome, now: Instant)
    requires outcome.Abandoned? ==> url !in q.dates
    ensures var r := Settle(q, url, errorCount, outcome, now);
      url in r.dates ==> r.dates[url].errorCount < MaxErrors
  {
    if outcome.Raise? {
      RaisedAreErrors(outcome.error);
    }
  }

  /** After a turn, a configured feed's record never shows three errors or more: failures either
      stay below three or delete the record, and a completed turn resets the count to zero. */
  lemma FeedStepErrorsBelowThree(p: Pass, url: string, fetched: Option<seq<Entry>>, send: nat -> bool, now: Instant)
    ensures var q := FeedStep(p, url, fetched, send, now);
      url in q.dates ==> q.dates[url].errorCount < MaxErrors
  {
    if fetched.Some? {
      var last := if url in p.dates then Some(p.dates[url].lastDate) else None;
      var errorCount := if url in p.dates then p.dates[url].errorCount else 0;
      var (q, outcome) := FeedBody(p, url, last, fetched.value, send, now);
      FeedBodyFrame(p, url, last, fetched.value, send, now);
      SettleErrorsBelowThree(q, url, errorCount, outcome, now);
    }
  }

  /** A turn that runs to the end leaves the feed with no errors. */
  lemma CompletedTurnResets(p: Pass, url: string, entries: seq<Entry>, send: nat -> bool, now: Instant)
    requires var last := if url in p.dates then Some(p.dates[url].lastDate) else None;
      FeedBody(p, url, last, entries, send, now).1 == Completed
    ensures var q := FeedStep(p, url, Some(entries), send, now);
      url in q.dates ==> q.dates[url].errorCount == 0
  {
  }

  /** The send loop of a feed with a record only moves its date forward. */
  lemma WarmBodyNeverRegresses(p: Pass, url: string, last: Instant, entries: seq<Entry>, send: nat -> bool)
    requires url in p.dates && p.dates[url].lastDate == last
    ensures var q := WarmBody(p, url, last, entries, send).0;
      url in q.dates && q.dates[url].lastDate >= last
  {
    match SelectNew(entries, last)
    case Failure(_) =>
    case Success(items) =>
      var sorted := SortByDate(items);
      forall j | 0 <= j < |sorted| ensures last < sorted[j].date {
        assert sorted[j] in multiset(items);
      }
      DispatchAllCommits(p, url, sorted, send, last);
  }

  /** Settling a turn keeps the date of a record that is still there. */
  lemma SettleKeepsDate(q: Pass, url: string, errorCount: int, outcome: Outcome, now: Instant)
    requires url in q.dates
    ensures var r := Settle(q, url, errorCount, outcome, now);
      url in r.dates ==> r.dates[url].lastDate == q.dates[url].lastDate
  {
  }

  /** A turn on fetched entries is the body followed by its settlement. */
  lemma FeedStepUnfold(p: Pass, url: string, entries: seq<Entry>, send: nat -> bool, now: Instant)
    ensures var last := if url in p.dates then Some(p.dates[url].lastDate) else None;
      var errorCount := if url in p.dates then p.dates[url].errorCount else 0;
      var (q, outcome) := FeedBody(p, url, last, entries, send, now);
      FeedStep(p, url, Some(entries), send, now) == Settle(q, url, errorCount, outcome, now)
  {
  }

  /** A feed with a record whose first entry has a readable date goes through the send loop. */
  lemma FeedBodyWarm(p: Pass, url: string, last: Instant, entries: seq<Entry>, send: nat -> bool, now: Instant)
    requires entries != [] && HasValidDate(entries[0]) && ParsedDate(entries[0]).Success?
    ensures FeedBody(p, url, Some(last), entries, send, now) == WarmBody(p, url, last, entries, send)
  {
  }

  /** While a feed keeps its record, a turn never moves its date backwards: only entries dated after
      it are posted. */
  lemma FeedStepNeverRegresses(p: Pass, url: string, fetched: Option<seq<Entry>>, send: nat -> bool, now: Instant)
    requires url in p.dates
    ensures var q := FeedStep(p, url, fetched, send, now);
      url in q.dates ==> q.dates[url].lastDate >= p.dates[url].lastDate
  {
    if fetched.Some? {
      var entries := fetched.value;
      var last := p.dates[url].lastDate;
      var (q, outcome) := FeedBody(p, url, Some(last), entries, send, now);
      FeedStepUnfold(p, url, entries, send, now);
      if entries != [] && HasValidDate(entries[0]) && ParsedDate(entries[0]).Success? {
        FeedBodyWarm(p, url, last, entries, send, now);
        WarmBodyNeverRegresses(p, url, last, entries, send);
        SettleKeepsDate(q, url, p.dates[url].errorCount, outcome, now);
      }
    }
  }

  /** A feed without a record has only its first entry posted; a successful post starts the record
      at that entry's date with no errors, a failed one leaves the feed without a record. */
  lemma ColdStartPostsFirstEntry(p: Pass, url: string, entries: seq<Entry>, send: nat -> bool, now: Instant)
    requires url !in p.dates
    requires entries != [] && HasValidDate(entries[0])
    requires ParsedDate(entries[0]).Success? && entries[0].title.Some? && entries[0].link.Some?
    ensures var q := FeedStep(p, url, Some(entries), send, now);
      && q.attempts == p.attempts + 1
      && (send(p.attempts) ==> q.sent == p.sent + 1 && url in q.dates)
      && (send(p.attempts) ==> q.dates[url] == Record(ParsedDate(entries[0]).value.GetOr(now), 0))
      && (!send(p.attempts) ==> q.sent == p.sent && url !in q.dates)
  {
  }

  /** An empty feed, or one whose first entry has no valid date, loses its record at once,
      whatever its error count. */
  lemma DroppedFeedLosesRecord(p: Pass, url: string, entries: seq<Entry>, send: nat -> bool, now: Instant)
    requires entries == [] || !HasValidDate(entries[0])
    ensures var q := FeedStep(p, url, Some(entries), send, now);
      url !in q.dates && SameElsewhere(q.dates, p.dates, url) && q.sent == p.sent && q.attempts == p.attempts
  {
    FeedStepUnfold(p, url, entries, send, now);
  }

  /** The first run treats a feed as a cycle treats a feed without a record, as long as the first
      entry has a title, a link and a readable date: the same post and the same record. */
  lemma FirstRunMatchesColdStart(p: Pass, url: string, entries: seq<Entry>, send: nat -> bool, now: Instant)
    requires url !in p.dates
    requires entries != [] && HasValidDate(entries[0]) && ParsedDate(entries[0]).Success?
    requires entries[0].title.Some? && entries[0].link.Some?
    ensures var i := InitStep(p, url, Some(entries), send, now);
      var q := FeedStep(p, url, Some(entries), send, now);
      i.sent == q.sent && i.attempts == q.attempts && (url in i.dates <==> url in q.dates)
      && (url in i.dates ==> i.dates[url] == q.dates[url])
  {
    FeedStepUnfold(p, url, entries, send, now);
  }

  // ---------------------------------------------------------------- the cycle

  /** A pass creates records only for configured feeds, leaves other records alone, and leaves
      every configured feed with fewer than three errors. */
  lemma {:induction false} PassFacts(p: Pass, feeds: seq<string>, w: World, i: nat)
    requires i <= |feeds|
    ensures var r := PassFrom(p, feeds, w, i);
      && (forall u :: u in r.dates && u !in feeds[i..] ==> u in p.dates && r.dates[u] == p.dates[u])
      && (forall u :: u in p.dates && u !in feeds[i..] ==> u in r.dates)
      && (forall u :: u in r.dates && u in feeds[i..] ==> r.dates[u].errorCount < MaxErrors)
    decreases |feeds| - i
  {
    if i < |feeds| {
      var url := feeds[i];
      var q := FeedStep(p, url, w.fetched(i), w.send, w.now);
      FeedStepFrame(p, url, w.fetched(i), w.send, w.now);
      FeedStepErrorsBelowThree(p, url, w.fetched(i), w.send, w.now);
      PassFacts(q, feeds, w, i + 1);
      var r := PassFrom(q, feeds, w, i + 1);
      assert feeds[i..] == [url] + feeds[i + 1..];
      forall u | u in r.dates && u in feeds[i..] ensures r.dates[u].errorCount < MaxErrors {
        if u !in feeds[i + 1..] {
          assert u == url;
        }
      }
    }
  }

  /** The first run gives every record a zero error count and creates records only for the
      configured feeds. */
  lemma {:induction false} InitFacts(p: Pass, feeds: seq<string>, w: World, i: nat)
    requires i <= |feeds|
    requires forall u :: u in p.dates ==> p.dates[u].errorCount == 0
    ensures var r := InitFrom(p, feeds, w, i);
      && (forall u :: u in r.dates ==> r.dates[u].errorCount == 0)
      && (forall u :: u in r.dates ==> u in p.dates || u in feeds[i..])
      && r.sent >= p.sent
    decreases |feeds| - i
  {
    if i < |feeds| {
      var q := InitStep(p, feeds[i], w.fetched(i), w.send, w.now);
      InitFacts(q, feeds, w, i + 1);
      assert feeds[i..] == [feeds[i]] + feeds[i + 1..];
    }
  }

  /** `check_feeds()` as a whole: a first run yields records with no errors for configured feeds
      only and reports how many; a later cycle keeps other records as they were and leaves every
      configured feed with fewer than three errors. */
  lemma CycleFacts(feeds: seq<string>, stored: Store, w: World)
    ensures var (dates, count) := Cycle(feeds, stored, w);
      && (stored == map[] ==> count == |dates| && forall u :: u in dates ==> u in feeds && dates[u].errorCount == 0)
      && (stored != map[] ==> forall u :: u in dates ==> (u in feeds && dates[u].errorCount < MaxErrors) || (u in stored && dates[u] == stored[u]))
      && (stored != map[] ==> forall u :: u in stored && u !in feeds ==> u in dates)
  {
    assert feeds[0..] == feeds;
    if stored == map[] {
      InitFacts(Pass(map[], 0, 0), feeds, w, 0);
    } else {
      PassFacts(Pass(stored, 0, 0), feeds, w, 0);
    }
  }

  /** No URL appears twice in the feed list. */
  predicate NoDuplicates(feeds: seq<string>) {
    forall a, b :: 0 <= a < b < |feeds| ==> feeds[a] != feeds[b]
  }

  /** Over the feeds from position `i` on, listed once each, no record that survives the pass has
      its date moved backwards. */
  lemma {:induction false} PassNeverRegresses(p: Pass, feeds: seq<string>, w: World, i: nat)
    requires i <= |feeds| && NoDuplicates(feeds)
    ensures var r := PassFrom(p, feeds, w, i);
      forall u :: u in p.dates && u in r.dates ==> r.dates[u].lastDate >= p.dates[u].lastDate
    decreases |feeds| - i
  {
    if i < |feeds| {
      var url := feeds[i];
      var q := FeedStep(p, url, w.fetched(i), w.send, w.now);
      FeedStepFrame(p, url, w.fetched(i), w.send, w.now);
      if url in p.dates {
        FeedStepNeverRegresses(p, url, w.fetched(i), w.send, w.now);
      }
      PassNeverRegresses(q, feeds, w, i + 1);
      PassFacts(q, feeds, w, i + 1);
      assert url !in feeds[i + 1..] by {
        assert forall k :: i + 1 <= k < |feeds| ==> feeds[k] != url;
      }
    }
  }

  /** "The cursor never regresses": after a cycle over a feed list without repeated URLs, every
      feed that had a record and still has one has a date no earlier than before. */
  lemma CycleNeverRegresses(feeds: seq<string>, stored: Store, w: World)
    requires NoDuplicates(feeds)
    ensures var (dates, _) := Cycle(feeds, stored, w);
      forall u :: u in stored && u in dates ==> dates[u].lastDate >= stored[u].lastDate
  {
    if stored != map[] {
      PassNeverRegresses(Pass(stored, 0, 0), feeds, w, 0);
    }
  }

  /** With a URL listed twice the date can go backwards: the first turn fails to fetch and the
      third error deletes the record, and the second turn cold-starts from the first entry. */
  lemma DuplicateFeedCanRegress(e: Entry, w: World)
    requires HasValidDate(e) && e.publishedParsed == Has(ParsedTime(2024, 50))
    requires e.title.Some? && e.link.Some?
    requires w.fetched(0).None? && w.fetched(1) == Some([e]) && w.send(0)
    ensures var stored := map["u" := Record(100, 2)];
      var (dates, _) := Cycle(["u", "u"], stored, w);
      "u" in dates && dates["u"] == Record(50, 0) && dates["u"].lastDate < stored["u"].lastDate
  {
    var feeds := ["u", "u"];
    var p0 := Pass(map["u" := Record(100, 2)], 0, 0);
    var p1 := FeedStep(p0, "u", None, w.send, w.now);
    assert p1 == Pass(map[], 0, 0);
    var p2 := FeedStep(p1, "u", Some([e]), w.send, w.now);
    FeedStepUnfold(p1, "u", [e], w.send, w.now);
    assert p2 == Pass(map["u" := Record(50, 0)], 1, 1);
    assert PassFrom(p0, feeds, w, 0) == p2;
  }

  /** A first entry whose `published_parsed` is None raises before anything is posted. */
  lemma FeedBodyNullDate(p: Pass, url: string, entries: seq<Entry>, send: nat -> bool, now: Instant)
    requires entries != [] && HasValidDate(entries[0]) && entries[0].publishedParsed.Null?
    ensures FeedBody(p, url, None, entries, send, now) == (p, Raise(NotSubscriptable))
  {
  }

  /** A new feed whose first entry has a None `published_parsed` gets one error. */
  lemma NullDateCounts(p: Pass, url: string, entries: seq<Entry>, send: nat -> bool, now: Instant)
    requires url !in p.dates
    requires entries != [] && HasValidDate(entries[0]) && entries[0].publishedParsed.Null?
    ensures FeedStep(p, url, Some(entries), send, now) == p.(dates := CountError(p.dates, url, 1, now))
  {
    FeedStepUnfold(p, url, entries, send, now);
    var outcome := FeedBody(p, url, None, entries, send, now).1;
    FeedBodyNullDate(p, url, entries, send, now);
    RaisedAreErrors(outcome.error);
    SettleRaisedError(p, url, 0, outcome, now);
  }

  /** A raise handled as an error counts one more error against the count read before the turn. */
  lemma SettleRaisedError(q: Pass, url: string, errorCount: int, outcome: Outcome, now: Instant)
    requires outcome.Raise? && HandleRequestError(Message(outcome.error)) == Error
    ensures Settle(q, url, errorCount, outcome, now) == q.(dates := CountError(q.dates, url, errorCount + 1, now))
  {
  }

  /** The first run reads an entry's date only after posting it: with a `published_parsed` that
      is None, the entry is posted and the feed gets no record. */
  lemma NullDateFirstRun(p: Pass, url: string, entries: seq<Entry>, send: nat -> bool, now: Instant)
    requires url !in p.dates
    requires entries != [] && HasValidDate(entries[0]) && entries[0].publishedParsed.Null?
    requires entries[0].title.Some? && entries[0].link.Some? && send(p.attempts)
    ensures var i := InitStep(p, url, Some(entries), send, now);
      i.sent == p.sent + 1 && url !in i.dates
  {
  }

  /** A cycle reads the first entry's date before posting: with a `published_parsed` that is None,
      nothing is posted and the new feed's record starts with one error. */
  lemma NullDateCycle(p: Pass, url: string, entries: seq<Entry>, send: nat -> bool, now: Instant)
    requires url !in p.dates
    requires entries != [] && HasValidDate(entries[0]) && entries[0].publishedParsed.Null?
    ensures var q := FeedStep(p, url, Some(entries), send, now);
      q.attempts == p.attempts && q.sent == p.sent && url in q.dates && q.dates[url] == Record(now, 1)
  {
    NullDateCounts(p, url, entries, send, now);
    CountErrorEvictsAtThree(p.dates, url, 1, now);
  }
}
