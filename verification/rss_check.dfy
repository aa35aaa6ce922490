/** my_rss_telegram.py's `check_feeds` and `initialize_first_run` as the loops the script runs,
    each proved equal to its specification in RssSpec. */
module RssCheck {
  import opened Wrappers
  import opened Feed
  import opened RssUtil
  import opened RssSpec

  /** The selection loop of a feed with a record: entries with a valid date after `last`, in feed
      order; reading a None time struct raises. */
  method SelectNewEntries(entries: seq<Entry>, last: Instant) returns (r: Result<seq<Pending>, Raised>)
    ensures r == SelectNew(entries, last)
  {
    var newEntries: seq<Pending> := [];
    var i := 0;
    while i < |entries|
      invariant 0 <= i <= |entries|
      invariant SelectNew(entries[..i], last) == Success(newEntries)
    {
      var entry := entries[i];
      assert entries[..i + 1][..i] == entries[..i];
      if HasValidDate(entry) {
        var date := ParsedDate(entry);
        if date.Failure? {
          SelectNewStopsAtRaise(entries, i + 1, last);
          return Failure(date.error);
        }
        if date.value.Some? && date.value.value > last {
          newEntries := newEntries + [Pending(entry, date.value.value)];
        }
      }
      i := i + 1;
    }
    assert entries[..i] == entries;
    return Success(newEntries);
  }

  /** Once a prefix of the entries raises, the whole selection raises the same exception. */
  lemma SelectNewStopsAtRaise(entries: seq<Entry>, k: nat, last: Instant)
    requires k <= |entries| && SelectNew(entries[..k], last).Failure?
    ensures SelectNew(entries, last) == SelectNew(entries[..k], last)
  {
    var e :| e in entries[..k] && HasValidDate(e) && ParsedDate(e).Failure?;
    assert e in entries;
  }

  /** The send loop: each entry's title and link are read, then the post goes out; a successful
      post rewrites the feed's record. A raise ends the loop with the state at that point. */
  method SendNew(p: Pass, url: string, items: seq<Pending>, send: nat -> bool) returns (q: Pass, raised: Option<Raised>)
    ensures (q, raised) == DispatchAll(p, url, items, send)
  {
    q := p;
    var j := 0;
    while j < |items|
      invariant 0 <= j <= |items|
      invariant DispatchAll(q, url, items[j..], send) == DispatchAll(p, url, items, send)
    {
      assert items[j..][1..] == items[j + 1..];
      var entry := items[j].entry;
      if entry.title.None? {
        return q, Some(NoTitle);
      }
      if entry.link.None? {
        return q, Some(NoLink);
      }
      if send(q.attempts) {
        q := Pass(q.dates[url := Record(items[j].date, 0)], q.sent + 1, q.attempts + 1);
      } else {
        q := q.(attempts := q.attempts + 1);
      }
      j := j + 1;
    }
    return q, None;
  }

  /** The `try` body of one feed after a successful fetch: what it leaves behind and how it ends. */
  method CheckFetched(p: Pass, url: string, last: Option<Instant>, entries: seq<Entry>, send: nat -> bool, now: Instant)
    returns (q: Pass, outcome: Outcome)
    ensures (q, outcome) == FeedBody(p, url, last, entries, send, now)
  {
    q := p;
    if entries == [] || !HasValidDate(entries[0]) {
      if url in q.dates {
        q := q.(dates := q.dates - {url});
      }
      assert q.dates == p.dates - {url};
      return q, Abandoned;
    }
    var entry := entries[0];
    var latest := ParsedDate(entry);
    if latest.Failure? {
      return q, Raise(latest.error);
    }
    if last.None? {
      if entry.title.None? {
        return q, Raise(NoTitle);
      }
      if entry.link.None? {
        return q, Raise(NoLink);
      }
      if send(q.attempts) {
        q := Pass(q.dates[url := Record(latest.value.GetOr(now), 0)], q.sent + 1, q.attempts + 1);
      } else {
        q := q.(attempts := q.attempts + 1);
      }
      return q, Completed;
    }
    var newEntries := SelectNewEntries(entries, last.value);
    if newEntries.Failure? {
      return q, Raise(newEntries.error);
    }
    var sorted := SortByDate(newEntries.value);
    var raised;
    q, raised := SendNew(q, url, sorted, send);
    if raised.Some? {
      return q, Raise(raised.value);
    }
    return q, Completed;
  }

  /** One feed's turn of `check_feeds`: the fetch, the `try` body, the final reset of the error
      count, and the `except` block. */
  method CheckFeed(p: Pass, url: string, fetched: Option<seq<Entry>>, send: nat -> bool, now: Instant) returns (q: Pass)
    ensures q == FeedStep(p, url, fetched, send, now)
  {
    if fetched.None? {
      q := CountFetchFailure(p, url, now);
      return;
    }
    var last: Option<Instant> := None;
    var errorCount := 0;
    if url in p.dates {
      last := Some(p.dates[url].lastDate);
      errorCount := p.dates[url].errorCount;
    }
    FeedStepUnfold(p, url, fetched.value, send, now);
    var outcome;
    q, outcome := CheckFetched(p, url, last, fetched.value, send, now);
    q := SettleTurn(q, url, errorCount, outcome, now);
  }

  /** A failed fetch counts an error against the feed. */
  method CountFetchFailure(p: Pass, url: string, now: Instant) returns (q: Pass)
    ensures q == FetchFailed(p, url, now)
  {
    var last := now;
    var errorCount := 0;
    if url in p.dates {
      last := p.dates[url].lastDate;
      errorCount := p.dates[url].errorCount;
    }
    errorCount := errorCount + 1;
    var dates := p.dates[url := Record(last, errorCount)];
    if errorCount >= MaxErrors {
      dates := dates - {url};
    }
    return p.(dates := dates);
  }

  /** The end of a turn: the reset after a completed body, or the `except` block after a raise. */
  method SettleTurn(q0: Pass, url: string, errorCount: int, outcome: Outcome, now: Instant) returns (q: Pass)
    ensures q == Settle(q0, url, errorCount, outcome, now)
  {
    q := q0;
    match outcome {
      case Abandoned =>
      case Completed =>
        if url in q.dates {
          q := q.(dates := q.dates[url := q.dates[url].(errorCount := 0)]);
        }
      case Raise(r) =>
        q := HandleError(q, url, errorCount, r, now);
    }
  }

  /** The `except` block: `handle_request_error` decides, and an error counts against the feed. */
  method HandleError(q0: Pass, url: string, errorCount: int, r: Raised, now: Instant) returns (q: Pass)
    ensures q == OnRequestError(q0, url, errorCount, r, now)
  {
    q := q0;
    var action := HandleRequestError(Message(r));
    if action == Error {
      var count := errorCount + 1;
      var dates := q.dates;
      if url in dates {
        dates := dates[url := dates[url].(errorCount := count)];
      } else {
        dates := dates[url := Record(now, count)];
      }
      if count >= MaxErrors {
        dates := dates - {url};
      }
      q := q.(dates := dates);
    }
  }

  /** The turns of all configured feeds over stored records. */
  method CheckAll(stored: Store, feeds: seq<string>, w: World) returns (r: Pass)
    ensures r == PassFrom(Pass(stored, 0, 0), feeds, w, 0)
  {
    r := Pass(stored, 0, 0);
    var i := 0;
    while i < |feeds|
      invariant 0 <= i <= |feeds|
      invariant PassFrom(r, feeds, w, i) == PassFrom(Pass(stored, 0, 0), feeds, w, 0)
    {
      ghost var before := r;
      r := CheckFeed(r, feeds[i], w.fetched(i), w.send, w.now);
      assert PassFrom(before, feeds, w, i) == PassFrom(r, feeds, w, i + 1);
      i := i + 1;
    }
    assert PassFrom(r, feeds, w, i) == r;
  }

  /** One feed's turn of `initialize_first_run`. */
  method InitFeed(p: Pass, url: string, fetched: Option<seq<Entry>>, send: nat -> bool, now: Instant) returns (q: Pass)
    ensures q == InitStep(p, url, fetched, send, now)
  {
    q := p;
    if fetched.None? || fetched.value == [] || !HasValidDate(fetched.value[0]) {
      return;
    }
    var entry := fetched.value[0];
    if entry.title.None? || entry.link.None? {
      return;
    }
    if !send(q.attempts) {
      q := q.(attempts := q.attempts + 1);
      return;
    }
    q := q.(sent := q.sent + 1, attempts := q.attempts + 1);
    var date := ParsedDate(entry);
    if date.Success? {
      q := q.(dates := q.dates[url := Record(date.value.GetOr(now), 0)]);
    }
  }

  /** `initialize_first_run()`: posts the first entry, in feed order, of each configured feed and
      records its date. */
  method InitializeFirstRun(feeds: seq<string>, w: World) returns (r: Pass)
    ensures r == InitFrom(Pass(map[], 0, 0), feeds, w, 0)
  {
    r := Pass(map[], 0, 0);
    var i := 0;
    while i < |feeds|
      invariant 0 <= i <= |feeds|
      invariant InitFrom(r, feeds, w, i) == InitFrom(Pass(map[], 0, 0), feeds, w, 0)
    {
      ghost var before := r;
      r := InitFeed(r, feeds[i], w.fetched(i), w.send, w.now);
      assert InitFrom(before, feeds, w, i) == InitFrom(r, feeds, w, i + 1);
      i := i + 1;
    }
    assert InitFrom(r, feeds, w, i) == r;
  }

  /** `check_feeds()`: the records it saves and the number it returns. */
  method CheckFeeds(feeds: seq<string>, stored: Store, w: World) returns (dates: Store, count: nat)
    ensures (dates, count) == Cycle(feeds, stored, w)
  {
    if stored == map[] {
      var r := InitializeFirstRun(feeds, w);
      return r.dates, |r.dates|;
    }
    var r := CheckAll(stored, feeds, w);
    return r.dates, r.sent;
  }
}
