# Feed-to-channel relay, modelled in Dafny

Two Python scripts relay RSS feeds to a Telegram channel. Each keeps one record per feed URL:
the date of the last entry it posted. Each cycle fetches every configured feed, picks the entries
dated after that record and posts them oldest first. After every successful post, it moves the
record to that post's date.

- `bot.py` reads its feed list from `feeds.txt` and gives new feeds a 24-hour window. It stops a
  feed's posts at the first failed send.
- `my_rss_telegram.py` also counts consecutive errors per feed and deletes a feed's record at the
  third. With no stored records, it runs a first-run pass that posts only the first entry of
  each feed in feed order, whatever its date.

The model treats the outside world as inputs:

- a fetch is the optional list of entries it yields, per feed position;
- a send is a boolean oracle indexed by the number of sends attempted so far;
- "now" is a parameter.

Module layout:

- `Wrappers`, `Text`, `Html`, `Feed`: option and result types; stripping, searching and
  lower-casing strings; HTML escaping and its inverse; entries and the stable sort by date.
- `BotFormat`, `BotFeeds`, `BotCheck`: `bot.py`.
  - `BotCheck` specifies a cycle by functions (`SelectNew`, `Dispatch`, `Cycle`).
  - `CollectNew`, `SendNew` and `CheckFeeds` are the script's loops, proved equal to those
    functions.
- `RssUtil`, `RssFetch`, `RssSpec`, `RssCheck`: `my_rss_telegram.py`.
  - `RssSpec` specifies one feed's turn (`FeedStep`), the cycle (`PassFrom`), the first run
    (`InitFrom`) and `check_feeds` (`Cycle`).
  - `RssCheck` holds the loops and the `try`/`except` bodies, each proved equal to its function.
    The straight-line methods among them (`CheckFetched`, `CheckFeed`, `CountFetchFailure`,
    `SettleTurn`, `HandleError`, `InitFeed`, `CheckFeeds`, and `BotCheck.VisitFeed`) follow the
    script's statements and early returns one by one. The functions they equal are the form the
    lemmas reason about.

Every exception that a turn of `check_feeds` in `my_rss_telegram.py` can raise here is one of
these:

- a missing `title` attribute;
- a missing `link` attribute;
- a `published_parsed`/`updated_parsed` that is None.

`handle_request_error` classifies all three as "error" (`RssSpec.RaisedAreErrors`). Network
errors are caught inside `parse_feed_with_auto_encoding` and `send_to_telegram` and never reach
it. So within the model its "skip" branch is never taken.

## Model

| member | source | states |
|---|---|---|
| Text.StripLeft | bot.py:136 | the result is a suffix of the input, everything removed is white space, and the result does not start with white space |
| Text.StripRight | bot.py:136 | the result is a prefix of the input, everything removed is white space, and the result does not end with white space |
| Text.IndexOf | bot.py:139-140 | the index of the first occurrence of the character, or None exactly when it does not occur |
| Text.StripRightAppend | bot.py:136 | `rstrip` of a text whose first part ends in a non-space character removes only trailing white space of the second part |
| Text.StripLeftRightCommute | bot.py:136 | `lstrip` and `rstrip` can be applied in either order |
| Text.StripAfterStripRight | bot.py:142 | stripping a text after `rstrip` is the same as stripping it |
| Text.StripIsTrimmed | bot.py:136 | a stripped text has no white space at either end |
| Text.IndexOfFirst | bot.py:140 | `find` returns the first position holding the character |
| Text.ContainsAt | my_rss_telegram.py:257 | the substring test `p in s` holds exactly when `p` occurs at some index of `s` |
| Text.Lower | my_rss_telegram.py:255 | lower-casing keeps the length and maps each character on its own |
| Text.LowerIdempotent | my_rss_telegram.py:255 | lower-casing twice is lower-casing once |
| Text.ReplaceChar | bot.py:63 | `str.replace` of one character: it removes every occurrence when the replacement lacks it, and it only adds characters from the input or from the replacement |
| Text.ReplaceCharAppend | bot.py:63 | replacing a character distributes over concatenation |
| Html.EscapeText | bot.py:74 | the `&`, `<`, `>` replacement chain leaves no raw `<` or `>` |
| Html.EscapeQuoted | my_rss_telegram.py:167-171 | the `&`, `<`, `>`, `"` replacement chain leaves no raw `<`, `>` or `"` |
| Html.EscapeTextIsPerChar | bot.py:74 | replacing `&` first makes the chain the same as escaping each character on its own, so no input `&` is escaped twice |
| Html.EscapeQuotedIsPerChar | my_rss_telegram.py:167-171 | the same for the four-step chain |
| Html.EscapeTextRoundTrip | bot.py:74 | unescaping the escaped text gives the input back |
| Html.EscapeQuotedRoundTrip | my_rss_telegram.py:167-171 | unescaping the escaped title gives the title back |
| Feed.SortByDate | my_rss_telegram.py:434 | `list.sort(key=date)` gives dates in ascending order and a permutation of the entries |
| Feed.Insert | bot.py:232 | one insertion step adds exactly the one element, as a multiset |
| Feed.InsertAscending | bot.py:232 | inserting into entries in ascending date order keeps them in ascending date order |
| BotFormat.FirstUsable | bot.py:48-49 | the index of the first candidate that is non-empty and starts with `http` or `//`, and none before it qualifies; None when none qualifies |
| BotFormat.FirstImageIsFirstMatch | bot.py:40-56 | `get_entry_image` returns None exactly when no candidate qualifies; otherwise it returns the first qualifying candidate, absolutized, and the result starts with `http`, `//` or `://` |
| BotFormat.GetEntryImage | bot.py:40-56 | `get_entry_image`: the four candidates in the source's order, passed to `FirstImage`; `FirstImageIsFirstMatch` states what comes back |
| BotFormat.FirstImage | bot.py:48-56 | the loop over the candidates: the first usable one, made absolute, or None; `FirstImageIsFirstMatch` states it |
| BotFormat.Absolutize | bot.py:50-55 | a URL starting with `//` gets the base URL's scheme and `:` in front when the base (default `https://example.com`) starts with `http`; other URLs are kept; `AbsolutizeShape` states the possible results |
| BotFormat.UrlScheme | bot.py:52-53 | `urlparse(...).scheme`: the lower-cased text before the first `:` when it is a valid scheme, else empty; `HttpBaseScheme` states it for http bases |
| BotFormat.AbsolutizeShape | bot.py:50-55 | an accepted candidate, once made absolute, starts with `http` or `//`, or with `://` when the base URL has no parsable scheme |
| BotFormat.HttpBaseScheme | bot.py:52-53 | a base URL that starts with `http` has an empty scheme or a scheme that starts with `http` |
| BotFormat.StripTags | bot.py:62 | removing `<…>` spans adds no characters, leaves no complete tag, and keeps a first character that is not `<` |
| BotFormat.StripTagsPlain | bot.py:62 | a text without `<` comes through unchanged |
| BotFormat.StripTagsKeepsText | bot.py:62 | text without `<` before a tag is kept, the tag is dropped, and removal goes on after it |
| BotFormat.TagEndOfTag | bot.py:62 | the first match in a text starting with a tag ends where that tag ends |
| BotFormat.CleanDescription | bot.py:58-64 | empty input gives `''`; the result has no raw `<` or `>`; it has at most 303 characters; it is shortened exactly when the escaped text exceeds 300 characters; an unshortened result is fully escaped and unescapes to the stripped, untagged input; a shortened one has 303 characters, the first 300 escaped characters followed by `...` |
| BotFormat.AuthorTag | bot.py:76 | the author tag has no spaces |
| BotFormat.GetEntryDate | bot.py:189-193 | the instant of `published_parsed` when set, else now; `BotCheck.UndatedEntryAlwaysNew` states the fallback |
| BotFormat.MessageText | bot.py:81-84 | the message is the link anchor, then the cleaned description in `<i>` after two newlines when it is not empty, then the hashtag/author footer; it has no description part exactly when the cleaned description is empty |
| BotFormat.AnchorTitleRoundTrip | bot.py:74-81 | the text between the anchor's opening and closing tags unescapes to the title and has no `<` |
| BotFeeds.LoadRssFeeds | bot.py:130-155 | a missing file and an empty feed list are the two exits; otherwise the result is the URLs in file order and the tag map the lines build |
| BotFeeds.ParseLine | bot.py:136-145 | one line of `feeds.txt`: strip it, skip it when blank or a comment, else split at the first `#`; `ParseLineShape` and `ParseLineRoundTrip` state the results |
| BotFeeds.ParseStripped | bot.py:137-145 | the same for a stripped line; `ParseStrippedShape` states it |
| BotFeeds.FeedsOf | bot.py:141-144 | the `RSS_FEEDS.append` calls in file order; `LoadRssFeeds`, `FeedsAndTagsAgree` and `FeedsOfWellFormed` state it |
| BotFeeds.TagsOf | bot.py:142-145 | the `HASHTAGS[url] = tag` assignments in file order; `LastLineWins` and `FeedsAndTagsAgree` state it |
| BotFeeds.ParseLineShape | bot.py:136-145 | blank lines and `#` lines yield nothing; other lines yield a non-empty URL without `#` or surrounding white space, and a tag starting with `#`; a line without `#` gets `#новости` |
| BotFeeds.ParseStrippedShape | bot.py:137-145 | the same for a line that is already stripped |
| BotFeeds.UrlBeforeHash | bot.py:140-141 | the stripped URL before the first `#` of a non-comment line is non-empty, free of `#` and trimmed |
| BotFeeds.ParseLineRoundTrip | bot.py:139-142 | a line written as a trimmed, `#`-free URL, `#` and a tag reads back as that URL and `#` plus the stripped tag |
| BotFeeds.FeedsAndTagsAgree | bot.py:141-145 | a URL has a tag exactly when it is in the feed list |
| BotFeeds.FeedsOfWellFormed | bot.py:139-145 | well-formed lines give non-empty URLs without `#` and tags starting with `#` |
| BotFeeds.LoadedFeedsShape | bot.py:134-145 | whatever the file holds, every loaded URL is non-empty and free of `#`, every tag starts with `#`, and the tags are keyed by exactly the loaded URLs |
| BotFeeds.LastLineWins | bot.py:142-145 | the last line that names a URL decides its tag |
| BotCheck.Threshold | bot.py:209-216 | the stored date, or 24 hours before now for a feed without a record; `VisitFacts` states that new records lie within 24 hours |
| BotCheck.Dispatch | bot.py:234-248 | the send loop as a function: skip linkless entries, commit each successful post, stop at the first failure; `DispatchFrame`, `DispatchBounds`, `DispatchAscending`, `DispatchSkipsLinkless`, `DispatchStopsAtFirstFailure` and `DispatchCommitsInOrder` state it |
| BotCheck.Visit | bot.py:205-252 | one feed's turn as a function; `VisitFacts` states it |
| BotCheck.RunFrom | bot.py:205-252 | the turns of the remaining feeds; `RunFacts` states them |
| BotCheck.Cycle | bot.py:196-258 | `check_feeds` as a function; `CycleNeverRegresses` states it |
| BotCheck.SelectNew | bot.py:224-228 | an entry is selected exactly when its date (`published_parsed`, else now) is after the threshold |
| BotCheck.CollectNew | bot.py:224-228 | the selection loop computes `SelectNew` |
| BotCheck.SendNew | bot.py:234-248 | the send loop computes `Dispatch` |
| BotCheck.VisitFeed | bot.py:205-252 | one feed's turn (threshold, selection, sort, sends) computes `Visit` |
| BotCheck.CheckFeeds | bot.py:196-258 | the whole cycle computes `Cycle`: the records, the count of posts, and every saved snapshot |
| BotCheck.DispatchFrame | bot.py:234-248 | the send loop touches only this feed's record; one snapshot is saved per post; with no post the records are unchanged; otherwise they are the last snapshot |
| BotCheck.DispatchBounds | bot.py:227-244 | every committed date is at least the lowest selected date |
| BotCheck.DispatchAscending | bot.py:232-244 | sent in ascending order, the committed dates never go backwards |
| BotCheck.DispatchSkipsLinkless | bot.py:235-238 | entries with an empty link are passed over as if absent |
| BotCheck.DispatchStopsAtFirstFailure | bot.py:242-248 | every send before the last succeeded; at most one send fails and it is the last; if every send succeeds, every linked entry is posted |
| BotCheck.DispatchCommitsInOrder | bot.py:234-245 | after each successful send the cursor becomes that entry's date: the k-th new snapshot holds the k-th linked entry's date, so no later entry is committed before it is sent |
| BotCheck.VisitFacts | bot.py:205-252 | one feed's turn changes only its record; a stored date never decreases; a new record lies within the last 24 hours; at most one send fails |
| BotCheck.RunFacts | bot.py:205-252 | the same, over the remaining feeds of the cycle |
| BotCheck.CycleNeverRegresses | bot.py:196-258 | after a cycle no stored date has gone backwards; new records belong to configured feeds and lie within 24 hours; the final save holds the final records |
| BotCheck.UndatedEntryAlwaysNew | bot.py:189-193 | an entry without `published_parsed` is dated now and so is always new when the stored date is in the past |
| RssUtil.CountCyrillic | my_rss_telegram.py:133 | the Cyrillic count never exceeds the length |
| RssUtil.CountLetters | my_rss_telegram.py:134 | the letter count never exceeds the length |
| RssUtil.IsRussianText | my_rss_telegram.py:130-137 | `is_russian_text`: false for empty text or fewer than 3 letters, else more than 30% of the letters Cyrillic; `RussianNeedsCyrillic`, `NoCyrillicNotRussian`, `AllCyrillicIsRussian` and `RussianIgnoresNonLetters` state it |
| RssUtil.RussianNeedsCyrillic | my_rss_telegram.py:130-137 | text judged Russian has at least 3 letters and at least one Cyrillic character |
| RssUtil.NoCyrillicNotRussian | my_rss_telegram.py:133-137 | text without Cyrillic characters is never Russian |
| RssUtil.AllCyrillicIsRussian | my_rss_telegram.py:130-137 | three or more Cyrillic letters and nothing else make Russian text |
| RssUtil.RussianIgnoresNonLetters | my_rss_telegram.py:133-137 | appending characters that are neither letters nor Cyrillic does not change the verdict |
| RssUtil.CountCyrillicAppend | my_rss_telegram.py:133 | the Cyrillic count adds up over concatenation |
| RssUtil.CountLettersAppend | my_rss_telegram.py:134 | the letter count adds up over concatenation |
| RssUtil.HasValidDate | my_rss_telegram.py:196-216 | `has_valid_date`: a time struct with a year in 2000-2030, or a date string with four digits and a month; `DateStringValidAt`, `NoMonthInitialRejected` and `DigitsAndMonthAccepted` state the string test |
| RssUtil.HasFourDigitsAt | my_rss_telegram.py:210 | `re.search(r'\d{4}', s)` succeeds exactly when four digits occur in a row somewhere |
| RssUtil.DateStringValidAt | my_rss_telegram.py:208-214 | a date string is accepted exactly when it has four digits in a row and contains a month abbreviation |
| RssUtil.NoMonthInitialRejected | my_rss_telegram.py:211-213 | a string without any month abbreviation's first letter is rejected |
| RssUtil.DigitsAndMonthAccepted | my_rss_telegram.py:208-214 | four digits and a month abbreviation anywhere make a string accepted |
| RssUtil.HandleRequestError | my_rss_telegram.py:254-267 | `handle_request_error`'s verdict on the lower-cased message; `HandleRequestErrorAt`, `HandleRequestErrorIgnoresCase` and `SkipSurvivesContext` state it |
| RssUtil.HandleRequestErrorAt | my_rss_telegram.py:254-267 | the result is "skip" exactly when the lower-cased message contains `429`, `too many`, `500`, `502`, `503` or `504` |
| RssUtil.HandleRequestErrorIgnoresCase | my_rss_telegram.py:255 | the classification does not depend on letter case |
| RssUtil.SkipSurvivesContext | my_rss_telegram.py:255-264 | a skipped message stays skipped inside any longer message |
| RssUtil.PostText | my_rss_telegram.py:167-173 | the post is the link anchor around a shown title that unescapes to the title and has no raw `<`, `>` or `"` |
| RssFetch.ParseFeedWithAutoEncoding | my_rss_telegram.py:218-252 | a failed download gives None; if every decoding yields no entries, the direct parse is returned; otherwise the chosen encoding has the strictly largest positive count of all before it, and at least the count of all after it |
| RssSpec.SelectNew | my_rss_telegram.py:418-429 | an entry is selected exactly when it has a valid date and a readable `published_parsed`/`updated_parsed` after the stored date; the selection raises exactly when some entry with a valid date has a None time struct, and then it raises the None-slicing error |
| RssSpec.Deliver | my_rss_telegram.py:437-451 | one entry of the send loop: reading a missing title or link raises; a successful send records the entry's date with no errors; every send counts as an attempt; `DispatchAllCommits` states the loop |
| RssSpec.DispatchAll | my_rss_telegram.py:436-451 | the send loop as a function, ending at the first raise; `DispatchAllCommits`, `DispatchAllFrame` and `FailedEntryIsPassedOver` state it |
| RssSpec.FeedBody | my_rss_telegram.py:373-451 | the `try` body after a fetch: drop the feed on an empty list or an undated first entry, raise on a None time struct, else a cold or warm start; `FeedBodyFrame`, `DroppedFeedLosesRecord` and `FeedBodyNullDate` state it |
| RssSpec.ColdBody | my_rss_telegram.py:400-415 | a feed without a record posts its first entry only; `ColdStartPostsFirstEntry` states it |
| RssSpec.WarmBody | my_rss_telegram.py:418-451 | a feed with a record posts the new entries oldest first; `WarmBodyNeverRegresses` and `DispatchAllCommits` state it |
| RssSpec.CountError | my_rss_telegram.py:469-482 | one more error on the feed's record, deleted at 3; `CountErrorEvictsAtThree` states it |
| RssSpec.OnRequestError | my_rss_telegram.py:463-486 | the `except` block: `handle_request_error` decides, an "error" counts; `SkipKeepsState` and `SettleRaisedError` state it |
| RssSpec.FetchFailed | my_rss_telegram.py:358-371 | a failed fetch counts an error; `FetchFailureCounts` and `ThreeFailuresEvict` state it |
| RssSpec.Settle | my_rss_telegram.py:457-486 | the end of a turn: the error reset after a completed body, or the `except` block after a raise; `SettleFrame`, `SettleErrorsBelowThree` and `SettleKeepsDate` state it |
| RssSpec.FeedStep | my_rss_telegram.py:346-486 | one feed's turn of `check_feeds`; `FeedStepFrame`, `FeedStepErrorsBelowThree`, `FeedStepNeverRegresses` and `CompletedTurnResets` state it |
| RssSpec.PassFrom | my_rss_telegram.py:344-486 | the turns of the remaining feeds; `PassFacts` and `PassNeverRegresses` state them |
| RssSpec.InitStep | my_rss_telegram.py:272-319 | one feed of `initialize_first_run`; `FirstRunMatchesColdStart` and `NullDateFirstRun` state it |
| RssSpec.InitFrom | my_rss_telegram.py:268-322 | `initialize_first_run` over the feeds; `InitFacts` states it |
| RssSpec.Cycle | my_rss_telegram.py:325-495 | `check_feeds`: the first run on an empty store, else a pass; `CycleFacts` and `CycleNeverRegresses` state it |
| RssSpec.CountErrorEvictsAtThree | my_rss_telegram.py:469-482 | counting an error deletes the record exactly when the count reaches 3; otherwise the record keeps its date (or starts now) with the new count; other feeds are untouched |
| RssSpec.FetchFailureCounts | my_rss_telegram.py:358-371 | a failed fetch adds one error and keeps the stored date (or starts now); the record is gone exactly when the count reaches 3; nothing is posted |
| RssSpec.ThreeFailuresEvict | my_rss_telegram.py:358-371 | a feed with no errors survives two failed fetches and loses its record at the third |
| RssSpec.SkipKeepsState | my_rss_telegram.py:466-468 | a skipped error leaves the state, error counts included, as it was at the raise |
| RssSpec.UnmarkedIsError | my_rss_telegram.py:254-267 | a message without digits and without the letter m is classified "error" |
| RssSpec.RaisedAreErrors | my_rss_telegram.py:254-267 | every exception the modelled turn can raise is classified "error" |
| RssSpec.DispatchAllCommits | my_rss_telegram.py:436-451 | the send loop commits one date per successful post and nothing else; the committed dates are ascending and above the stored date; the record afterwards holds the last one with no errors, or is unchanged when nothing was posted |
| RssSpec.FailedEntryIsPassedOver | my_rss_telegram.py:443-451 | when a send fails and a later one succeeds, the cursor passes the failed entry, which is then never selected again |
| RssSpec.DispatchAllFrame | my_rss_telegram.py:436-451 | the send loop touches only this feed's record and never removes it |
| RssSpec.FeedStepFrame | my_rss_telegram.py:346-486 | a feed's turn changes no other feed's record |
| RssSpec.FeedStepErrorsBelowThree | my_rss_telegram.py:358-482 | after a turn the feed's record, if any, shows fewer than 3 errors |
| RssSpec.CompletedTurnResets | my_rss_telegram.py:457-459 | a turn that runs to the end leaves the feed with no errors |
| RssSpec.FeedStepNeverRegresses | my_rss_telegram.py:418-451 | while a feed keeps its record, a turn never moves its date backwards |
| RssSpec.ColdStartPostsFirstEntry | my_rss_telegram.py:392-415 | a feed without a record has only its first entry posted; a success starts its record at that entry's date with no errors, and a failure leaves it without a record |
| RssSpec.DroppedFeedLosesRecord | my_rss_telegram.py:373-390 | an empty feed, or one whose first entry has no valid date, loses its record at once, and nothing else changes |
| RssSpec.FirstRunMatchesColdStart | my_rss_telegram.py:289-311 | for an entry with a title, a link and a readable date, the first run posts and records exactly what a cycle does for a feed without a record |
| RssSpec.PassFacts | my_rss_telegram.py:346-486 | a pass creates records only for configured feeds, keeps the others as they were, and leaves every configured feed with fewer than 3 errors |
| RssSpec.InitFacts | my_rss_telegram.py:269-322 | the first run gives every record a zero error count, creates records only for configured feeds, and never un-counts a post |
| RssSpec.CycleFacts | my_rss_telegram.py:325-495 | a first run returns the number of records, all for configured feeds and with no errors; a later cycle keeps unconfigured records as they were and leaves configured feeds with fewer than 3 errors |
| RssSpec.PassNeverRegresses | my_rss_telegram.py:344-486 | over feeds listed once each, no record that survives the pass has its date moved backwards |
| RssSpec.CycleNeverRegresses | my_rss_telegram.py:325-495 | after a cycle over a feed list without repeated URLs, every feed that had a record and still has one has a date no earlier than before |
| RssSpec.DuplicateFeedCanRegress | my_rss_telegram.py:358-415 | with a URL listed twice, a failed fetch that deletes the record at the third error followed by a cold start moves the date from 100 back to 50 |
| RssSpec.NullDateFirstRun | my_rss_telegram.py:297-305 | the first run reads the date after posting: an entry whose `published_parsed` is None is posted and the feed gets no record |
| RssSpec.NullDateCycle | my_rss_telegram.py:392-482 | a cycle reads the date before posting: the same entry posts nothing and the new feed's record starts with one error |
| RssCheck.SelectNewEntries | my_rss_telegram.py:418-429 | the selection loop computes `RssSpec.SelectNew`, leaving at the first raise |
| RssCheck.SelectNewStopsAtRaise | my_rss_telegram.py:418-429 | once a prefix raises, the whole selection raises the same exception |
| RssCheck.SendNew | my_rss_telegram.py:436-451 | the send loop computes `RssSpec.DispatchAll` |
| RssCheck.CheckFetched | my_rss_telegram.py:373-451 | the `try` body after a fetch computes `RssSpec.FeedBody` |
| RssCheck.CountFetchFailure | my_rss_telegram.py:358-371 | the fetch-failure branch computes `RssSpec.FetchFailed` |
| RssCheck.SettleTurn | my_rss_telegram.py:457-486 | the reset and the `except` block compute `RssSpec.Settle` |
| RssCheck.HandleError | my_rss_telegram.py:463-484 | the `except` block computes `RssSpec.OnRequestError` |
| RssCheck.CheckFeed | my_rss_telegram.py:346-486 | one feed's turn computes `RssSpec.FeedStep` |
| RssCheck.CheckAll | my_rss_telegram.py:344-486 | the loop over configured feeds computes `RssSpec.PassFrom` |
| RssCheck.InitFeed | my_rss_telegram.py:272-319 | one feed of the first run computes `RssSpec.InitStep` |
| RssCheck.InitializeFirstRun | my_rss_telegram.py:268-322 | the first run computes `RssSpec.InitFrom` |
| RssCheck.CheckFeeds | my_rss_telegram.py:325-495 | `check_feeds` computes `RssSpec.Cycle`: the first run when nothing is stored, a pass otherwise |

## Left out

- Network access is not modelled: `requests`, the Telegram API, image download and `sendPhoto`,
  and `translate_text`. A send is a boolean oracle. A fetch is the optional entry list that
  `parse_feed`/`parse_feed_with_auto_encoding` yields.
- `feedparser` is not modelled; entries are records with optional fields. Attribute probing is
  modelled by `Attr` (missing, None, present) for the time structs and by `Option` elsewhere.
- JSON files are not modelled: `dates.json`, `feeds.txt` reading beyond its lines,
  `fromisoformat`/`isoformat`, and `load_dotenv`.
  - The store is an in-memory map.
  - `bot.py`'s saves are recorded as snapshots.
  - In `my_rss_telegram.py` only the final state is modelled, not the intermediate `save_dates`
    calls.
- Sleeps, random delays and user agents, logging, the Flask routes, the scheduler thread and the
  `is_checking`/`last_check_time` globals are not modelled. They do not change the records.
- `datetime.now()` is a parameter and one value per cycle. Dates are integer seconds; the
  calendar conversion of a time struct and the errors it can raise are not modelled.
- RssUtil.IsRussianText: `str.isalpha` is a parameter, and the float ratio `> 0.3` is stated as
  `10·cyr > 3·letters`.
- RssUtil.HasValidDate: `\d` matches only ASCII digits.
- Text.Lower: lowers ASCII letters only. This does not change the classification: the markers
  hold no letter that a non-ASCII character lowers to.
- BotFormat.UrlScheme: the tab and newline removal of `urlparse` is not modelled.
- BotFormat.GetEntryImage: a missing `enclosures` attribute, which raises inside `send_to_telegram`
  and makes that send fail, is modelled as an empty list.
- Feed.SortByDate: the sort is a stable insertion sort, but stability itself is not proved.
- RssSpec.CycleNeverRegresses: holds only for a feed list without repeated URLs;
  `RssSpec.DuplicateFeedCanRegress` shows a repeated URL can move a date back. `RSS_FEEDS` in
  `my_rss_telegram.py` repeats no URL.
- RssSpec.FeedStep: only the exceptions raised by the modelled code are represented. Errors from
  `is_russian_text` on a non-string title and from the translation are not. Records in
  `dates.json` without `last_date` are not modelled either.
- The 23-entry `RSS_FEEDS` list of `my_rss_telegram.py` is not copied. The feed list is a parameter
  of `RssCheck.CheckFeeds`.
