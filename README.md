# Vijesti feed engine — a Dafny model

This project models the episode-extraction and feed-merge engine of the
Vijesti podcast scraper (`scripts_v/feed.py`), together with the feed
checker in `tests/test_scraper.py`.

- **Extraction (module `Extract`).** The scraper reads the JSON embedded in
  the broadcaster's page. `parse_next` turns the first record of
  `props.pageProps.episodes.data.lastAvailableEpisodes` into an episode
  `(mp3, title, desc, dt)`. `parse_all_episodes` turns every record that
  parses into one and skips the rest. The model follows Python's semantics:
  `.get` with defaults, truthiness, and `x[0]` on lists, strings and dicts.
  Errors are kept apart by kind: a missing key, an index out of range, a
  wrong type, a date that does not parse.
- **Feed merge (module `Feed`).** `latest_id` reads the first stored id.
- **Incremental update.** `update` does nothing when the id is already
  stored. Otherwise it adds the new episode first, followed by at most
  `MAX_EPISODES - 1` stored entries in stored order.
- **Full refresh.** `update_with_all_episodes` sorts the caller's list in
  place, newest first. It keeps the first `MAX_EPISODES` and adds them. The
  generator is a class whose entry list grows with each `add_entry`, and the
  sort is an in-place insertion sort over an array.
- **Runs (module `Run`).** The two modes of `main` are modelled. The
  incremental mode short-circuits when the new id equals the latest stored
  one. The full-refresh mode replaces the feed with at most `MAX_EPISODES`
  of the records that parse, newest first, and writes nothing when one of
  those has an mp3 that is not a string.
- **Checking (module `Validate`).** `validate_feed` and the checker's `main`
  are modelled over a parsed element tree.

JSON values are the datatype `Json.Value`. dateutil's parser is a function
parameter (`DateParser`) that returns the wall-clock reading and the written
UTC offset, if any. The clock is an integer parameter: one reading for
`parse_next`, one reading per record position for `parse_all_episodes`.

Where the code behaves otherwise than a reader of a podcast scraper might
expect, the model follows the code:
- `update` neither sorts nor deduplicates. It prepends the new episode to the
  stored entries as they are.
- The full refresh does not deduplicate by id (`Feed.RefreshKeepsRepeats`).
- There is no fallback that reads a 14-digit date from the mp3 URL. A record
  without a truthy `broadcastStart` is stamped with the current time.
- `parse_next` takes the first record of the list, not the newest one.
- A parsed date's zone is *replaced* by UTC rather than converted to it: the
  wall-clock reading is kept and any written offset is dropped.
- Titles are rendered as `"{title} (HRT)"`, without a local time of day.
- Sort ties keep extraction order, because Python's sort is stable
  (`Feed.SortIsStable`).

## Model

| member | source | states |
|---|---|---|
| Json.Get | scripts_v/feed.py:134-135 | `.get` succeeds exactly on a dict; a present key gives its stored value (null included), an absent key gives the default |
| Json.First | scripts_v/feed.py:140 | `x[0]`: the first item of a non-empty list, the first character (a str) of a non-empty str, IndexError on an empty list or str, KeyError on a dict, TypeError otherwise |
| Extract.DigAgreesWithStrict | scripts_v/feed.py:134-135 | the `.get(…, {})` chain finds what a strict walk finds, gives a falsy default when a key is absent, and raises only when it meets a non-dict |
| Extract.EpisodeList | scripts_v/feed.py:127-138 | no script gives "Could not find __NEXT_DATA__", bad JSON gives the JSON error, a falsy or absent list gives "No episodes found", a non-dict on the path raises; a success is truthy |
| Extract.Timestamp | scripts_v/feed.py:151-160 | falsy broadcastStart gives the current time; a truthy one must be a string that parses, and gives its wall clock as UTC; otherwise BadDate or TypeError |
| Extract.ParseRecord | scripts_v/feed.py:143-163 | a record parses exactly when its metadata is truthy, the first metadata item is a dict with a truthy `path`, the bag lookups succeed and the timestamp rule succeeds; audio-lookup failures and falsy metadata fail first; a success's mp3 is `metadata[0].get('path')`, its title the caption or "Untitled Episode", its description the intro or "", and its date the timestamp rule's |
| Extract.MinimalRecordParses | scripts_v/feed.py:143-165 | a record with only `audio.metadata[0].path` set parses to that path, "Untitled Episode", "" and the current time |
| Extract.FaultIsolationOutcomes | scripts_v/feed.py:270-272 | on a five-record page, the record without audio metadata fails and the other four parse |
| Extract.KeepSkipsMiddle | scripts_v/feed.py:289-294 | a failure between successes is dropped and the successes are kept in order |
| Extract.FaultIsolationExample | scripts_v/feed.py:265-296 | on that page, parse_all returns the four good records' episodes in page order |
| Extract.ParseNext | scripts_v/feed.py:124-168 | list errors propagate; otherwise the result is what the FIRST record parses to; a success comes from a list and has a truthy mp3 |
| Extract.KeptIndicesIncrease | scripts_v/feed.py:265-294 | the positions of the kept records are in range and strictly increasing |
| Extract.KeptIndicesExact | scripts_v/feed.py:267-294 | fault isolation: a record is kept exactly when it parses on its own |
| Extract.KeepFollowsKeptIndices | scripts_v/feed.py:265-296 | the k-th episode returned is what the k-th kept record parses to, so order is preserved |
| Extract.AllSkippedGivesEmpty | scripts_v/feed.py:265-296 | the result is empty exactly when every record fails; failures are never raised |
| Extract.Harvest | scripts_v/feed.py:265-296 | at most one episode per record, every one with a truthy mp3 |
| Extract.StringRecordsAreSkipped | scripts_v/feed.py:267-270 | a record that is a string fails with the AttributeError of `.get`, so it is skipped |
| Extract.AllEpisodes | scripts_v/feed.py:249-299 | list errors propagate; for a list the result is the harvest of its items |
| Extract.ParseAllEpisodes | scripts_v/feed.py:249-299 | the method returns exactly `AllEpisodes` |
| Extract.CollectParsed | scripts_v/feed.py:265-296 | the append loop returns exactly the harvest of the records |
| Extract.NextIsFirstOfAll | scripts_v/feed.py:140 | when parse_next succeeds, parse_all succeeds and its first episode is the same one; list errors are the same for both |
| Feed.VijestiChannel | scripts_v/feed.py:202-218 | the fixed Vijesti texts; the public URL is the link; one artwork URL under it is both the RSS image and the iTunes image |
| Feed.DefaultArtwork | scripts_v/feed.py:209-218 | for the default feed name "v", the artwork is `https://{DOMAIN}/vijesti/vijesti.jpg` |
| Feed.FeedGenerator.constructor | scripts_v/feed.py:198-218 | a new generator has the channel and no entries |
| Feed.FeedGenerator.AddEntry | scripts_v/feed.py:221-228 | `add_entry` appends one entry at the end and keeps the channel |
| Feed.Take | scripts_v/feed.py:231 | `s[:k]` is the prefix of length min(k, len(s)) |
| Feed.LatestId | scripts_v/feed.py:170-179 | the first stored id when the file parses with entries, None otherwise |
| Feed.Render | scripts_v/feed.py:220-228 | id and enclosure are the mp3 URL; the title ends in " (HRT)" after the shown title; the description is the shown intro followed by the footer; the date is the UTC instant |
| Feed.Carry | scripts_v/feed.py:232-239 | a stored entry is copied exactly when its date re-parses with a zone; id, title and description are kept, and the enclosure is the first href or the id |
| Feed.CarryAll | scripts_v/feed.py:231-239 | all stored entries are copied, pointwise and in order, or the copy fails when any one fails |
| Feed.UpdateSpec | scripts_v/feed.py:181-247 | "already exists" exactly when a stored id equals the mp3; "Failed to generate feed" exactly when the id is new and a carried date fails or the mp3 is not a string |
| Feed.UpdatedFeedShape | scripts_v/feed.py:220-244 | a written feed has the new entry first, then the first `M-1` stored entries in order with their ids and titles; at most `M` entries; the new id appears once |
| Feed.Update | scripts_v/feed.py:181-247 | the generator loop returns exactly `UpdateSpec` |
| Feed.UpdateIdempotent | scripts_v/feed.py:183-192 | after a write, an update with the same episode against any file holding that id is a no-op |
| Feed.NewestFirstAt | scripts_v/feed.py:332 | neighbour order gives newest-first between any two positions |
| Feed.InsertByDate | scripts_v/feed.py:332 | inserting adds one element, placed first or after the old head |
| Feed.InsertKeepsNewestFirst | scripts_v/feed.py:332 | inserting into a newest-first list keeps it newest first |
| Feed.InsertAddsOne | scripts_v/feed.py:332 | inserting adds exactly that episode to the multiset |
| Feed.SortByDate | scripts_v/feed.py:332 | the sorted list is newest first and a permutation of the input |
| Feed.WithDateInsert | scripts_v/feed.py:332 | inserting never reorders episodes that share a timestamp |
| Feed.SortIsStable | scripts_v/feed.py:332 | stability: the episodes with each timestamp keep their input order |
| Feed.InsertInto | scripts_v/feed.py:332 | one in-place step leaves the prefix alone and inserts `a[i]` into the sorted suffix |
| Feed.ShiftNewer | scripts_v/feed.py:332 | the inner loop shifts the strictly newer run left and frees the slot where `x` belongs |
| Feed.SortEpisodesByDate | scripts_v/feed.py:332 | the in-place sort leaves the array equal to `SortByDate` of its old contents |
| Feed.RefreshSpec | scripts_v/feed.py:301-354 | an empty list writes nothing; a non-empty list fails exactly when a chosen episode's mp3 is not a str, and is written otherwise; a written feed has the channel and one rendered entry per chosen episode, in chosen order |
| Feed.UpdateWithAll | scripts_v/feed.py:301-354 | sorts the caller's array in place and returns exactly `RefreshSpec` of the old contents |
| Feed.AddAll | scripts_v/feed.py:337-346 | the loop adds one rendered entry per chosen episode, in order |
| Feed.ChosenAreNewest | scripts_v/feed.py:331-335 | min(M, n) episodes are kept, newest first; kept and dropped together are the input, and no dropped one is newer than a kept one |
| Feed.SplitNewestFirst | scripts_v/feed.py:335 | cutting a newest-first list leaves nothing after the cut that is newer than something before it |
| Feed.RefreshedNewestFirst | scripts_v/feed.py:331-346 | the written entries' dates never increase |
| Feed.RefreshExample | scripts_v/feed.py:331-335 | timestamps [3, 1, 2] with a cap of 2 publish the episodes at 3 and 2, in that order |
| Feed.RefreshKeepsRepeats | scripts_v/feed.py:335-346 | the same episode listed twice is published twice: there is no dedup |
| Validate.Lower | tests/test_scraper.py:13 | same length; each capital becomes the small letter at the same place in the alphabet; no capital is left; every other character is kept |
| Validate.LowerIdempotent | tests/test_scraper.py:13 | lower-casing twice is lower-casing once |
| Validate.RssTagCaseInsensitive | tests/test_scraper.py:13 | the root test accepts exactly the tags whose last three characters are r, s, s in any case |
| Validate.FirstWithTag | tests/test_scraper.py:17 | `find` picks the first child with the tag: none before it has that tag |
| Validate.FindAll | tests/test_scraper.py:27-28 | every child returned has the tag, and there are as many as there are children with the tag; empty exactly when no child has it |
| Validate.Check | tests/test_scraper.py:5-33 | only an unparsable file is reported as unparsable; the count a valid verdict prints is the number of `item` children of the channel, at least one |
| Validate.ValidateFeed | tests/test_scraper.py:5-33 | True exactly when the file parses, the root tag ends in "rss", the first channel has a title with a non-space character, and there is an item |
| Validate.FirstFailureDecides | tests/test_scraper.py:5-30 | each failure (unparsable, root not rss, no channel, missing or blank title, no item) happens exactly when its check fails after the earlier ones passed; a valid feed counts at least one item |
| Validate.ValidateAll | tests/test_scraper.py:35-47 | fails with no files; otherwise checks every file with no early exit and passes exactly when all are valid |
| Run.IsNew | scripts_v/feed.py:403 | for a truthy mp3, the test is Python's `!=` between the mp3 and the str or None latest_id returns |
| Run.Decide | scripts_v/feed.py:397-411 | a parse failure fails the run; "no new episodes" exactly when the id equals the latest stored one; a new id gives `update`'s own outcome; a written feed starts with the new episode and holds at most `M` entries |
| Run.RunIncremental | scripts_v/feed.py:393-411 | the incremental branch returns exactly the outcome of parse_next, latest_id and update |
| Run.ShortCircuitOnlySkipsNoOps | scripts_v/feed.py:402-411 | whenever `main` skips `update` because of the latest id, `update` would have returned False |
| Run.DecideIdempotent | scripts_v/feed.py:402-409 | once an episode is written, running again with it against a file holding its id writes nothing |
| Run.ParseRecordClockIndependent | scripts_v/feed.py:151-160 | the `now` stamp only fills in the date: whether a record parses, and its mp3, title and description, are independent of it |
| Run.ParseNextClockIndependent | scripts_v/feed.py:124-168 | whether parse_next succeeds, and the mp3 it finds, are independent of the `now` stamp |
| Run.IncrementalIdempotent | scripts_v/feed.py:396-411 | a second incremental run on the same page, with any later `now` stamp, against a file holding the written id, writes nothing |
| Run.FullRefreshSpec | scripts_v/feed.py:376-391 | a parse error fails the run; the outcome is `NothingFound` exactly when the page lists no episode that parses; otherwise it is update_with_all_episodes' outcome, and a written feed has the Vijesti channel and the min(M, n) chosen episodes rendered in order |
| Run.RunFullRefresh | scripts_v/feed.py:376-391 | the full-refresh branch returns exactly `FullRefreshSpec` |
| Run.WrittenFeedsValidate | scripts_v/feed.py:202 | a feed with the Vijesti channel and at least one entry passes `validate_feed` |
| Run.IncrementalWritesValidFeed | scripts_v/feed.py:402-407 | every feed the incremental mode writes passes `validate_feed` |
| Run.FullRefreshWritesValidFeed | scripts_v/feed.py:383-387 | every feed the full refresh writes passes `validate_feed` |

## Left out

- Telegram notifications (`send_telegram_notification`) and quiet mode: outbound I/O with no effect on the feed.
- `fetch_html`: the network fetch with three attempts and a five-second pause between them. The page's content is an input.
- The `__NEXT_DATA__` regex search and `json.loads`: their outcome is the `Embedded` input. dateutil's parser and the clock are parameters.
- Logging, `argparse`, `sys.exit` and the exit code: a run ends in a `Run.Outcome`.
- The directory and log-file setup at import time, and reading `DOMAIN`, `FEED_NAME` and `MAX_EPISODES` from the environment. These are the `Feed.Config` input, and the model assumes `MAX_EPISODES >= 1`.
- feedparser reading the stored file: its outcome is the `Feed.FeedFile` input. Stored entries always carry an id and a title; feedparser raising on a missing attribute is not modelled.
- How feedgen serialises the feed to XML and in which order it writes the entries. A feed is its channel plus the `add_entry` calls in order.
- Run.Serialize: keeps only what `validate_feed` reads (root, channel, title, items), so `Run.WrittenFeedsValidate` relies on feedgen writing that shape.
- Feed.UpdateSpec: a non-string mp3 is assumed to make the write fail, since feedgen's XML layer writes only strings. A stored date without a zone fails, since feedgen refuses naive dates.
- `ET.parse` and `glob`: a checked file is its parsed element tree, or None when it is not well-formed, and the files are a sequence. The checker's messages are the `Validate.Verdict` values.
- Json.Show: Python's `str()` is modelled for None, booleans, integers and strings. A list or dict shown inside a title or description is rendered as "".
- Validate.Lower: lower-cases ASCII letters only. A non-ASCII letter cannot turn into "rss" under `str.lower()`, so the root-tag test is unaffected.
- Extract.DateParser: dateutil fills the fields a date string leaves out from today's date, so in the program the reading of a partial string such as "12:30", and whether a string such as "31" parses at all, depend on the day of the run. The model's parser depends on the string alone. Run.ParseRecordClockIndependent, Run.ParseNextClockIndependent and Run.IncrementalIdempotent are therefore about the `now` stamp only, and hold in the program for dates written out in full.
- Run.ParseRecordClockIndependent, Run.ParseNextClockIndependent, Run.IncrementalIdempotent: independence from the `now` stamp only, not from the day of the run that dateutil reads for partial date strings (see Extract.DateParser above).
- JSON numbers are integers. Floats on the path only matter for truthiness, and 0.0 would be falsy like 0.
- Extract.Records: iterating over a dict visits its keys, which are strings and always skipped (`Extract.StringRecordsAreSkipped`). The model takes a dict as visiting nothing.
