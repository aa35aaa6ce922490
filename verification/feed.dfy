/** What both relay scripts see of the outside world: feed entries as the feed parser hands them
    over, instants, and the oracles that stand for the network (fetch, send) and the clock. */
module Feed {
  import opened Wrappers

  /** Seconds since the epoch, UTC. */
  type Instant = int

  /** `timedelta(hours=24)` in seconds. */
  const Day: int := 24 * 60 * 60

  /** A parsed time struct (`published_parsed`, `updated_parsed`): its year field (index 0) and the
      instant `datetime(*t[:6], tzinfo=timezone.utc)` denotes. */
  datatype ParsedTime = ParsedTime(year: int, at: Instant)

  /** An entry attribute that can be absent (`hasattr` is false), present but None, or set. */
  datatype Attr<T> = Missing | Null | Has(value: T)

  /** One feed entry with the attributes the scripts read. Image candidates are the `href`/`url` of
      each element of `enclosures`, `media_content` and `media_thumbnail` (empty when the attribute is
      absent) and the `href` of `image`. */
  datatype Entry = Entry(
    title: Option<string>,
    link: Option<string>,
    author: Option<string>,
    summary: Option<string>,
    description: Option<string>,
    publishedParsed: Attr<ParsedTime>,
    updatedParsed: Attr<ParsedTime>,
    published: Option<string>,
    updated: Option<string>,
    date: Option<string>,
    enclosures: seq<Option<string>>,
    mediaContent: seq<Option<string>>,
    mediaThumbnail: seq<Option<string>>,
    imageHref: Option<string>,
    base: Option<string>)

  /** An `(entry, date)` pair of the `new_entries` list. */
  datatype Pending = Pending(entry: Entry, date: Instant)

  /** The outside world during one cycle: `fetched(i)` is what fetching the i-th configured feed
      yields (None when the fetch raised), `send(k)` whether the k-th delivery attempt of the cycle
      succeeds, and `now` the clock. */
  datatype World = World(fetched: nat -> Option<seq<Entry>>, send: nat -> bool, now: Instant)

  /** Dates never decrease along `s`. */
  predicate Ascending(s: seq<Pending>) {
    forall i, j :: 0 <= i < j < |s| ==> s[i].date <= s[j].date
  }

  /** Inserts `x` after every element whose date is not later than its own. */
  function Insert(x: Pending, s: seq<Pending>): (r: seq<Pending>)
    ensures multiset(r) == multiset(s) + multiset{x}
  {
    if s == [] || x.date < s[0].date then [x] + s
    else
      assert s == [s[0]] + s[1..];
      [s[0]] + Insert(x, s[1..])
  }

  /** Inserting into an ascending sequence keeps it ascending. */
  lemma {:induction false} InsertAscending(x: Pending, s: seq<Pending>)
    requires Ascending(s)
    ensures Ascending(Insert(x, s))
  {
    if s != [] && x.date >= s[0].date {
      var rest := Insert(x, s[1..]);
      InsertAscending(x, s[1..]);
      forall k | 0 <= k < |rest| ensures s[0].date <= rest[k].date {
        assert rest[k] in multiset(rest);
        if rest[k] != x {
          assert rest[k] in multiset(s[1..]);
          var j :| 0 <= j < |s[1..]| && s[1..][j] == rest[k];
          assert s[j + 1] == rest[k];
        }
      }
      assert Insert(x, s) == [s[0]] + rest;
    }
  }

  /** `new_entries.sort(key=lambda x: x[1])`: a stable sort by date (insertion sort, each element
      placed after the earlier ones with the same date). */
  function SortByDate(s: seq<Pending>): (r: seq<Pending>)
    ensures Ascending(r)
    ensures multiset(r) == multiset(s)
  {
    if s == [] then []
    else
      assert s == s[..|s| - 1] + [s[|s| - 1]];
      InsertAscending(s[|s| - 1], SortByDate(s[..|s| - 1]));
      Insert(s[|s| - 1], SortByDate(s[..|s| - 1]))
  }
}
