/** bot.py's `check_feeds`: one cycle over the configured feeds. Each feed's cursor (`last_date`)
    selects the entries dated after it; they are sent oldest first, the cursor follows every
    successful send, and the first failed send ends the feed's turn. */
module BotCheck {
  import opened Wrappers
  import opened Feed
  import opened BotFormat

  /** The `dates` dictionary: each feed URL's `last_date`. */
  type Dates = map<string, Instant>

  /** What a cycle has done so far: the cursors, `sent_count`, how many sends were attempted (the
      index of the next answer of the send oracle), and every snapshot `save_dates` wrote. */
  datatype Run = Run(dates: Dates, sent: nat, attempts: nat, saves: seq<Dates>)

  /** The stored `last_date`, or 24 hours before now for a feed seen for the first time. */
  function Threshold(dates: Dates, url: string, now: Instant): Instant {
    if url in dates then dates[url] else now - Day
  }

  /** `getattr(entry, 'link', '')` is non-empty. */
  predicate HasLink(e: Entry) {
    e.link.Some? && e.link.value != []
  }

  /** The `new_entries` list: every entry dated strictly after the threshold, paired with its
      date, in feed order. */
  function SelectNew(entries: seq<Entry>, threshold: Instant, now: Instant): (r: seq<Pending>)
    ensures forall p :: p in r ==> p.entry in entries && p.date == GetEntryDate(p.entry, now) && p.date > threshold
    ensures forall e :: e in entries && GetEntryDate(e, now) > threshold ==> Pending(e, GetEntryDate(e, now)) in r
  {
    if entries == [] then []
    else
      var init := entries[..|entries| - 1];
      var e := entries[|entries| - 1];
      assert entries == init + [e];
      var acc := SelectNew(init, threshold, now);
      var d := GetEntryDate(e, now);
      if d > threshold then acc + [Pending(e, d)] else acc
  }

  /** The send loop: linkless entries are passed over, a successful send moves the cursor and
      saves, the first failed send ends the loop. */
  function Dispatch(s: Run, url: string, items: seq<Pending>, send: nat -> bool): Run
    decreases |items|
  {
    if items == [] then s
    else if !HasLink(items[0].entry) then Dispatch(s, url, items[1..], send)
    else if send(s.attempts) then
      var d := s.dates[url := items[0].date];
      Dispatch(Run(d, s.sent + 1, s.attempts + 1, s.saves + [d]), url, items[1..], send)
    else s.(attempts := s.attempts + 1)
  }

  /** One feed's turn. `parse_feed` yields None for a failed fetch and for a feed without entries. */
  function Visit(s: Run, url: string, fetched: Option<seq<Entry>>, w: World): Run {
    if fetched.None? || fetched.value == [] then s
    else Dispatch(s, url, SortByDate(SelectNew(fetched.value, Threshold(s.dates, url, w.now), w.now)), w.send)
  }

  /** The turns of the feeds from position `i` on. */
  function RunFrom(s: Run, feeds: seq<string>, w: World, i: nat): Run
    requires i <= |feeds|
    decreases |feeds| - i
  {
    if i == |feeds| then s else RunFrom(Visit(s, feeds[i], w.fetched(i), w), feeds, w, i + 1)
  }

  /** The whole cycle, with the final `save_dates`. */
  function Cycle(feeds: seq<string>, stored: Dates, w: World): Run {
    var r := RunFrom(Run(stored, 0, 0, []), feeds, w, 0);
    r.(saves := r.saves + [r.dates])
  }

  /** The loop that fills `new_entries`. */
  method CollectNew(entries: seq<Entry>, threshold: Instant, now: Instant) returns (newEntries: seq<Pending>)
    ensures newEntries == SelectNew(entries, threshold, now)
  {
    newEntries := [];
    var k := 0;
    while k < |entries|
      invariant 0 <= k <= |entries|
      invariant newEntries == SelectNew(entries[..k], threshold, now)
    {
      assert entries[..k + 1][..k] == entries[..k];
      var entryDate := GetEntryDate(entries[k], now);
      if entryDate > threshold {
        newEntries := newEntries + [Pending(entries[k], entryDate)];
      }
      k := k + 1;
    }
    assert entries[..|entries|] == entries;
  }

  /** The send loop over the sorted `new_entries`, from the state `s`. */
  method SendNew(s: Run, url: string, newEntries: seq<Pending>, send: nat -> bool) returns (r: Run)
    ensures r == Dispatch(s, url, newEntries, send)
  {
    var dates, sentCount, attempts, saves := s.dates, s.sent, s.attempts, s.saves;
    var j := 0;
    while j < |newEntries|
      invariant 0 <= j <= |newEntries|
      invariant Dispatch(Run(dates, sentCount, attempts, saves), url, newEntries[j..], send)
                == Dispatch(s, url, newEntries, send)
    {
      assert newEntries[j..][1..] == newEntries[j + 1..];
      var pending := newEntries[j];
      if !HasLink(pending.entry) {
        j := j + 1;
        continue;
      }
      if send(attempts) {
        attempts, sentCount := attempts + 1, sentCount + 1;
        dates := dates[url := pending.date];
        saves := saves + [dates];
      } else {
        attempts := attempts + 1;
        break;
      }
      j := j + 1;
    }
    return Run(dates, sentCount, attempts, saves);
  }

  /** `check_feeds()`: `stored` is what `load_dates` read, `w` the outside world. Returns the
      final cursors, `sent_count`, and the snapshots written. */
  method CheckFeeds(feeds: seq<string>, stored: Dates, w: World) returns (dates: Dates, sentCount: nat, saves: seq<Dates>)
    ensures dates == Cycle(feeds, stored, w).dates
    ensures sentCount == Cycle(feeds, stored, w).sent
    ensures saves == Cycle(feeds, stored, w).saves
  {
    var run := Run(stored, 0, 0, []);
    var i := 0;
    while i < |feeds|
      invariant 0 <= i <= |feeds|
      invariant RunFrom(run, feeds, w, i) == RunFrom(Run(stored, 0, 0, []), feeds, w, 0)
    {
      ghost var before := run;
      run := VisitFeed(run, feeds[i], w.fetched(i), w);
      assert RunFrom(before, feeds, w, i) == RunFrom(run, feeds, w, i + 1);
      i := i + 1;
    }
    assert RunFrom(run, feeds, w, i) == run;
    dates, sentCount, saves := run.dates, run.sent, run.saves + [run.dates];
  }

  /** One feed's turn: the threshold, the fetch, the selection, the sort and the sends. */
  method VisitFeed(run: Run, url: string, feed: Option<seq<Entry>>, w: World) returns (r: Run)
    ensures r == Visit(run, url, feed, w)
  {
    r := run;
    var threshold := if url in run.dates then run.dates[url] else w.now - Day;
    if feed.Some? && feed.value != [] {
      var newEntries := CollectNew(feed.value, threshold, w.now);
      newEntries := SortByDate(newEntries);
      r := SendNew(run, url, newEntries, w.send);
    }
  }

  // ---------------------------------------------------------------- properties of one feed's turn

  /** The sends touch only this feed's cursor; they add it when something was sent and keep it
      otherwise; there is one snapshot per successful send and the last one is the final state. */
  lemma {:induction false} DispatchFrame(s: Run, url: string, items: seq<Pending>, send: nat -> bool)
    ensures var r := Dispatch(s, url, items, send);
      && r.sent >= s.sent && r.attempts >= s.attempts
      && (forall u :: u != url ==> (u in r.dates <==> u in s.dates) && (u in s.dates ==> r.dates[u] == s.dates[u]))
      && (url in s.dates || r.sent > s.sent <==> url in r.dates)
      && |r.saves| - |s.saves| == r.sent - s.sent && r.saves[..|s.saves|] == s.saves
      && (r.sent == s.sent ==> r.dates == s.dates)
      && (r.sent > s.sent ==> r.dates == r.saves[|r.saves| - 1])
    decreases |items|
  {
    if items != [] {
      if !HasLink(items[0].entry) {
        DispatchFrame(s, url, items[1..], send);
      } else if send(s.attempts) {
        var d := s.dates[url := items[0].date];
        var s1 := Run(d, s.sent + 1, s.attempts + 1, s.saves + [d]);
        DispatchFrame(s1, url, items[1..], send);
        var r := Dispatch(s1, url, items[1..], send);
        assert r.saves[..|s1.saves|] == s1.saves;
        assert r.saves[..|s.saves|] == s1.saves[..|s.saves|];
      }
    }
  }

  /** Every snapshot written after `before` holds a cursor for `url` no earlier than `lo`. */
  predicate SavesAtLeast(before: Run, after: Run, url: string, lo: Instant) {
    forall k :: |before.saves| <= k < |after.saves| ==> url in after.saves[k] && lo <= after.saves[k][url]
  }

  /** The cursors for `url` in the snapshots written after `before` never go backwards. */
  predicate SavesAscending(before: Run, after: Run, url: string) {
    forall k1, k2 :: |before.saves| <= k1 < k2 < |after.saves| ==>
      url in after.saves[k1] && url in after.saves[k2] && after.saves[k1][url] <= after.saves[k2][url]
  }

  /** Every snapshot the sends write holds this feed's cursor at the date of an entry sent, so it
      is never below a bound all the entries respect. */
  lemma {:induction false} DispatchBounds(s: Run, url: string, items: seq<Pending>, send: nat -> bool, lo: Instant)
    requires forall j :: 0 <= j < |items| ==> lo <= items[j].date
    ensures SavesAtLeast(s, Dispatch(s, url, items, send), url, lo)
    decreases |items|
  {
    if items != [] {
      assert forall j :: 0 <= j < |items[1..]| ==> items[1..][j] == items[j + 1];
      DispatchFrame(s, url, items, send);
      if !HasLink(items[0].entry) {
        assert Dispatch(s, url, items, send) == Dispatch(s, url, items[1..], send);
        DispatchBounds(s, url, items[1..], send, lo);
      } else if send(s.attempts) {
        var d := s.dates[url := items[0].date];
        var s1 := Run(d, s.sent + 1, s.attempts + 1, s.saves + [d]);
        DispatchBounds(s1, url, items[1..], send, lo);
        DispatchFrame(s1, url, items[1..], send);
        var r := Dispatch(s1, url, items[1..], send);
        assert r.saves[|s.saves|] == r.saves[..|s1.saves|][|s.saves|];
      }
    }
  }

  /** Sent oldest first, the committed cursors never go backwards from one snapshot to the next. */
  lemma {:induction false} DispatchAscending(s: Run, url: string, items: seq<Pending>, send: nat -> bool)
    requires Ascending(items)
    ensures SavesAscending(s, Dispatch(s, url, items, send), url)
    decreases |items|
  {
    if items != [] {
      var tail := items[1..];
      assert forall j :: 0 <= j < |tail| ==> tail[j] == items[j + 1];
      DispatchFrame(s, url, items, send);
      if !HasLink(items[0].entry) {
        assert Dispatch(s, url, items, send) == Dispatch(s, url, tail, send);
        DispatchAscending(s, url, tail, send);
      } else if send(s.attempts) {
        var d := s.dates[url := items[0].date];
        var s1 := Run(d, s.sent + 1, s.attempts + 1, s.saves + [d]);
        DispatchAscending(s1, url, tail, send);
        DispatchBounds(s1, url, tail, send, items[0].date);
        DispatchBounds(s, url, items, send, items[0].date);
        DispatchFrame(s1, url, tail, send);
        var r := Dispatch(s1, url, tail, send);
        assert r.saves[|s.saves|] == r.saves[..|s1.saves|][|s.saves|];
      }
    }
  }

  /** Linked entries other than those passed over, in order; what the send loop looks at. */
  function Linked(items: seq<Pending>): seq<Pending> {
    if items == [] then []
    else (if HasLink(items[0].entry) then [items[0]] else []) + Linked(items[1..])
  }

  /** Passing over the linkless entries is the same as sending from the list without them. */
  lemma {:induction false} DispatchSkipsLinkless(s: Run, url: string, items: seq<Pending>, send: nat -> bool)
    ensures Dispatch(s, url, items, send) == Dispatch(s, url, Linked(items), send)
    decreases |items|
  {
    if items != [] {
      var rest := Linked(items[1..]);
      if HasLink(items[0].entry) {
        assert Linked(items) == [items[0]] + rest;
        assert Linked(items)[1..] == rest;
        if send(s.attempts) {
          var d := s.dates[url := items[0].date];
          DispatchSkipsLinkless(Run(d, s.sent + 1, s.attempts + 1, s.saves + [d]), url, items[1..], send);
        }
      } else {
        assert Linked(items) == rest;
        DispatchSkipsLinkless(s, url, items[1..], send);
      }
    }
  }

  /** Nothing is sent past the first failure: every attempt but possibly the last one succeeded,
      at most one failed, and when none of the attempts fails every linked entry is sent. */
  lemma {:induction false} DispatchStopsAtFirstFailure(s: Run, url: string, items: seq<Pending>, send: nat -> bool)
    ensures var r := Dispatch(s, url, items, send);
      && (forall k :: s.attempts <= k < r.attempts - 1 ==> send(k))
      && (r.sent - s.sent == r.attempts - s.attempts
          || (r.attempts > s.attempts && r.sent - s.sent == r.attempts - s.attempts - 1 && !send(r.attempts - 1)))
      && ((forall k :: s.attempts <= k < s.attempts + |Linked(items)| ==> send(k)) ==> r.sent - s.sent == |Linked(items)|)
    decreases |items|
  {
    if items != [] {
      DispatchFrame(s, url, items, send);
      if !HasLink(items[0].entry) {
        assert Linked(items) == Linked(items[1..]);
        DispatchStopsAtFirstFailure(s, url, items[1..], send);
      } else {
        assert Linked(items) == [items[0]] + Linked(items[1..]);
        if send(s.attempts) {
          var d := s.dates[url := items[0].date];
          var s1 := Run(d, s.sent + 1, s.attempts + 1, s.saves + [d]);
          DispatchStopsAtFirstFailure(s1, url, items[1..], send);
        }
      }
    }
  }

  /** The snapshots written after `s` hold, in order, the dates of the first linked entries: the
      k-th new snapshot sets this feed's cursor to the k-th linked entry's date. */
  predicate CommitsInOrder(s: Run, r: Run, url: string, linked: seq<Pending>) {
    && |s.saves| <= |r.saves| <= |s.saves| + |linked|
    && forall j :: |s.saves| <= j < |r.saves| ==> url in r.saves[j] && r.saves[j][url] == linked[j - |s.saves|].date
  }

  /** Each successful send commits exactly the date of the entry it posted, and the posts are the
      linked entries taken from the front, so no entry is marked as seen before it is sent. */
  lemma {:induction false} DispatchCommitsInOrder(s: Run, url: string, items: seq<Pending>, send: nat -> bool)
    ensures CommitsInOrder(s, Dispatch(s, url, items, send), url, Linked(items))
    decreases |items|
  {
    if items != [] {
      var rest := Linked(items[1..]);
      if !HasLink(items[0].entry) {
        assert Linked(items) == rest;
        DispatchCommitsInOrder(s, url, items[1..], send);
      } else if send(s.attempts) {
        var d := s.dates[url := items[0].date];
        var s1 := Run(d, s.sent + 1, s.attempts + 1, s.saves + [d]);
        DispatchCommitsInOrder(s1, url, items[1..], send);
        DispatchKeepsSaves(s1, url, items[1..], send);
        CommitsAfterPost(s, s1, Dispatch(s1, url, items[1..], send), url, items);
      }
    }
  }

  /** The sends only append snapshots. */
  lemma {:induction false} DispatchKeepsSaves(s: Run, url: string, items: seq<Pending>, send: nat -> bool)
    ensures var r := Dispatch(s, url, items, send);
      |s.saves| <= |r.saves| && r.saves[..|s.saves|] == s.saves
    decreases |items|
  {
    if items != [] {
      if !HasLink(items[0].entry) {
        DispatchKeepsSaves(s, url, items[1..], send);
      } else if send(s.attempts) {
        var d := s.dates[url := items[0].date];
        var s1 := Run(d, s.sent + 1, s.attempts + 1, s.saves + [d]);
        DispatchKeepsSaves(s1, url, items[1..], send);
        var r := Dispatch(s1, url, items[1..], send);
        assert r.saves[..|s.saves|] == r.saves[..|s1.saves|][..|s.saves|];
      }
    }
  }

  /** The step of `DispatchCommitsInOrder` after a successful post of `items[0]`. */
  lemma CommitsAfterPost(s: Run, s1: Run, r: Run, url: string, items: seq<Pending>)
    requires items != [] && HasLink(items[0].entry)
    requires s1.saves == s.saves + [s.dates[url := items[0].date]]
    requires CommitsInOrder(s1, r, url, Linked(items[1..]))
    requires r.saves[..|s1.saves|] == s1.saves
    ensures CommitsInOrder(s, r, url, Linked(items))
  {
    var rest := Linked(items[1..]);
    assert Linked(items) == [items[0]] + rest;
    assert r.saves[|s.saves|] == r.saves[..|s1.saves|][|s.saves|];
    forall j | |s1.saves| <= j < |r.saves|
      ensures r.saves[j][url] == Linked(items)[j - |s.saves|].date
    {
      assert Linked(items)[j - |s.saves|] == rest[j - |s1.saves|];
    }
  }

  /** One feed's turn touches only that feed's cursor, never moves it backwards, starts a new
      feed's cursor within the last 24 hours, saves once per post, and fails at most once. */
  lemma VisitFacts(s: Run, url: string, fetched: Option<seq<Entry>>, w: World)
    ensures var r := Visit(s, url, fetched, w);
      && (forall u :: u != url ==> (u in r.dates <==> u in s.dates) && (u in s.dates ==> r.dates[u] == s.dates[u]))
      && (url in s.dates ==> url in r.dates && r.dates[url] >= s.dates[url])
      && (url !in s.dates && url in r.dates ==> r.dates[url] > w.now - Day)
      && r.sent >= s.sent && |r.saves| - |s.saves| == r.sent - s.sent && r.saves[..|s.saves|] == s.saves
      && r.attempts - r.sent <= s.attempts - s.sent + 1
  {
    if !(fetched.None? || fetched.value == []) {
      var t := Threshold(s.dates, url, w.now);
      var selected := SelectNew(fetched.value, t, w.now);
      var items := SortByDate(selected);
      forall j | 0 <= j < |items| ensures t + 1 <= items[j].date {
        assert items[j] in multiset(selected);
      }
      DispatchFrame(s, url, items, w.send);
      DispatchBounds(s, url, items, w.send, t + 1);
      DispatchStopsAtFirstFailure(s, url, items, w.send);
      var r := Dispatch(s, url, items, w.send);
      if r.sent > s.sent {
        assert r.saves[|r.saves| - 1][url] >= t + 1;
      }
    }
  }

  // ---------------------------------------------------------------- properties of the cycle

  lemma {:induction false} RunFacts(s: Run, feeds: seq<string>, w: World, i: nat)
    requires i <= |feeds|
    ensures var r := RunFrom(s, feeds, w, i);
      && (forall u :: u in s.dates ==> u in r.dates && r.dates[u] >= s.dates[u])
      && (forall u :: u in r.dates && u !in s.dates ==> u in feeds[i..] && r.dates[u] > w.now - Day)
      && r.sent >= s.sent && |r.saves| - |s.saves| == r.sent - s.sent && r.saves[..|s.saves|] == s.saves
      && r.attempts - r.sent <= s.attempts - s.sent + (|feeds| - i)
    decreases |feeds| - i
  {
    if i < |feeds| {
      var s1 := Visit(s, feeds[i], w.fetched(i), w);
      VisitFacts(s, feeds[i], w.fetched(i), w);
      RunFacts(s1, feeds, w, i + 1);
      var r := RunFrom(s1, feeds, w, i + 1);
      assert r.saves[..|s.saves|] == r.saves[..|s1.saves|][..|s.saves|];
      forall u | u in r.dates && u !in s.dates
        ensures u in feeds[i..] && r.dates[u] > w.now - Day
      {
        if u in s1.dates {
          assert u == feeds[i] && feeds[i] == feeds[i..][0];
        } else {
          assert feeds[i + 1..] == feeds[i..][1..];
        }
      }
    }
  }

  /** A cycle forgets no feed and moves no cursor backwards; a cursor it creates belongs to a
      configured feed and lies within the last 24 hours; it saves after every post and once at the
      end, and at most one send fails per feed. */
  lemma CycleNeverRegresses(feeds: seq<string>, stored: Dates, w: World)
    ensures var r := Cycle(feeds, stored, w);
      && (forall u :: u in stored ==> u in r.dates && r.dates[u] >= stored[u])
      && (forall u :: u in r.dates && u !in stored ==> u in feeds && r.dates[u] > w.now - Day)
      && |r.saves| == r.sent + 1 && r.saves[|r.saves| - 1] == r.dates
      && r.attempts - r.sent <= |feeds|
  {
    RunFacts(Run(stored, 0, 0, []), feeds, w, 0);
    assert feeds[0..] == feeds;
  }

  /** An entry without `published_parsed` is dated at the moment of the check, so it counts as new
      whenever its feed's cursor lies in the past: it is posted again on every cycle. */
  lemma UndatedEntryAlwaysNew(entries: seq<Entry>, e: Entry, dates: Dates, url: string, now: Instant)
    requires e in entries && !e.publishedParsed.Has?
    requires url in dates ==> dates[url] < now
    ensures Pending(e, now) in SelectNew(entries, Threshold(dates, url, now), now)
  {
  }
}
