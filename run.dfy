/**
  The two modes of `main` in scripts_v/feed.py. Fetching the page, the
  notifications, logging and the exit code are not modelled: a run starts from
  what the page's script block decoded to and ends in an `Outcome`.
 */
module Run {
  import opened Wrappers
  import opened Json
  import opened Extract
  import opened Feed
  import Validate

  datatype Outcome =
    | Failed               // logged, notified, exit code 1
    | UpToDate             // "No new episodes found": update is not called
    | AlreadyThere         // update returned False
    | NothingFound         // full refresh found no episode to add
    | Updated(feed: Feed)  // a feed was written

  /** The latest id as a Python value: a str, or None. */
  function AsValue(latest: Option<string>): Value {
    match latest
    case Some(id) => Str(id)
    case None => Null
  }

  /**
    `mp3 != current_latest`. For the truthy mp3 parse_next returns, this is
    Python's `!=` between the JSON value and the str or None from latest_id.
   */
  predicate IsNew(mp3: Value, latest: Option<string>)
    ensures Truthy(mp3) ==> (IsNew(mp3, latest) <==> mp3 != AsValue(latest))
  {
    !(latest.Some? && mp3 == Str(latest.value))
  }

  // ---------------------------------------------------------------------------
  // Incremental check (the default mode)

  /** What the incremental branch does with the outcome of parse_next. */
  function Decide(parsed: Result<Episode, ParseError>, file: FeedFile, dates: DateParser,
                  maxEpisodes: int, channel: Channel): (r: Outcome)
    requires maxEpisodes >= 1
    ensures parsed.Failure? ==> r == Failed
    ensures parsed.Success? ==> (r == UpToDate <==> !IsNew(parsed.value.mp3, LatestId(file)))
    ensures parsed.Success? && IsNew(parsed.value.mp3, LatestId(file)) ==>
              r == match UpdateSpec(file, parsed.value, maxEpisodes, dates, channel)
                   case AlreadyPresent => AlreadyThere
                   case Written(feed) => Updated(feed)
                   case GenerateFailed => Failed
    ensures r.Updated? ==> 1 <= |r.feed.entries| <= maxEpisodes && r.feed.entries[0] == Render(parsed.value)
  {
    match parsed
    case Failure(_) => Failed
    case Success(ep) =>
      if !IsNew(ep.mp3, LatestId(file)) then UpToDate
      else
        match UpdateSpec(file, ep, maxEpisodes, dates, channel)
        case AlreadyPresent => AlreadyThere
        case Written(feed) =>
          UpdatedFeedShape(file, ep, maxEpisodes, dates, channel);
          Updated(feed)
        case GenerateFailed => Failed
  }

  /** The incremental branch of `main` on a page. */
  function IncrementalSpec(page: Embedded, file: FeedFile, dates: DateParser, now: int, config: Config): Outcome
    requires config.maxEpisodes >= 1
  {
    Decide(ParseNext(page, dates, now), file, dates, config.maxEpisodes, VijestiChannel(config))
  }

  /** The incremental branch of `main`: parse_next, latest_id, and update only for a new id. */
  method RunIncremental(page: Embedded, file: FeedFile, dates: DateParser, now: int, config: Config)
    returns (r: Outcome)
    requires config.maxEpisodes >= 1
    ensures r == IncrementalSpec(page, file, dates, now, config)
  {
    var parsed := ParseNext(page, dates, now);
    var channel := VijestiChannel(config);
    if parsed.Failure? {
      return Failed;
    }
    var ep := parsed.value;
    var latest := LatestId(file);
    if !IsNew(ep.mp3, latest) {
      return UpToDate;
    }
    var updated := Update(file, ep, config.maxEpisodes, dates, channel);
    match updated
    case AlreadyPresent => r := AlreadyThere;
    case Written(feed) => r := Updated(feed);
    case GenerateFailed => r := Failed;
  }

  /**
    The short-circuit on the latest id only skips work: whenever `main` does
    not call `update`, `update` would have found the episode and returned
    False.
   */
  lemma ShortCircuitOnlySkipsNoOps(parsed: Result<Episode, ParseError>, file: FeedFile, dates: DateParser,
                                   maxEpisodes: int, channel: Channel)
    requires maxEpisodes >= 1
    requires Decide(parsed, file, dates, maxEpisodes, channel) == UpToDate
    ensures UpdateSpec(file, parsed.value, maxEpisodes, dates, channel) == AlreadyPresent
  {
    assert parsed.value.mp3 == Str(Existing(file)[0].id);
  }

  /**
    Idempotence: once an episode has been written, a second run with the same
    episode against a file that reads back with its id, in any position,
    writes nothing.
   */
  lemma DecideIdempotent(ep: Episode, file: FeedFile, dates: DateParser, maxEpisodes: int, channel: Channel,
                         next: FeedFile)
    requires maxEpisodes >= 1
    requires Decide(Success(ep), file, dates, maxEpisodes, channel).Updated?
    requires exists i :: 0 <= i < |Existing(next)| &&
               Existing(next)[i].id == Decide(Success(ep), file, dates, maxEpisodes, channel).feed.entries[0].id
    ensures Decide(Success(ep), next, dates, maxEpisodes, channel) in {UpToDate, AlreadyThere}
  {
    UpdatedFeedShape(file, ep, maxEpisodes, dates, channel);
    assert HasEpisode(Existing(next), ep.mp3);
  }

  /**
    The clock reading only stamps an episode whose broadcastStart is falsy:
    whether a record parses, and everything but its timestamp, does not
    depend on it.
   */
  lemma ParseRecordClockIndependent(ep: Value, dates: DateParser, now: int, later: int)
    ensures ParseRecord(ep, dates, now).Success? == ParseRecord(ep, dates, later).Success?
    ensures ParseRecord(ep, dates, now).Success? ==>
              var a := ParseRecord(ep, dates, now).value;
              var b := ParseRecord(ep, dates, later).value;
              a.mp3 == b.mp3 && a.title == b.title && a.desc == b.desc
  {
    if AudioMetadata(ep).Success? && Truthy(AudioMetadata(ep).value) && BroadcastStart(ep).Success? {
      var start := BroadcastStart(ep).value;
      assert Timestamp(start, dates, now).Success? == Timestamp(start, dates, later).Success?;
    }
  }

  /** Which record parse_next reads and whether it parses does not depend on the clock reading. */
  lemma ParseNextClockIndependent(page: Embedded, dates: DateParser, now: int, later: int)
    ensures ParseNext(page, dates, now).Success? == ParseNext(page, dates, later).Success?
    ensures ParseNext(page, dates, now).Success? ==>
              ParseNext(page, dates, now).value.mp3 == ParseNext(page, dates, later).value.mp3
  {
    var listed := EpisodeList(page);
    if listed.Success? && First(listed.value).Success? {
      ParseRecordClockIndependent(First(listed.value).value, dates, now, later);
    }
  }

  /**
    Idempotence of the whole incremental run: on the same page, at any later
    time, against a file that reads back with the written id, nothing is
    written.
   */
  lemma IncrementalIdempotent(page: Embedded, file: FeedFile, dates: DateParser, now: int, later: int,
                              config: Config, next: FeedFile)
    requires config.maxEpisodes >= 1
    requires IncrementalSpec(page, file, dates, now, config).Updated?
    requires exists i :: 0 <= i < |Existing(next)| &&
               Existing(next)[i].id == IncrementalSpec(page, file, dates, now, config).feed.entries[0].id
    ensures IncrementalSpec(page, next, dates, later, config) in {UpToDate, AlreadyThere}
  {
    ParseNextClockIndependent(page, dates, now, later);
    var ep := ParseNext(page, dates, now).value;
    var channel := VijestiChannel(config);
    DecideIdempotent(ep, file, dates, config.maxEpisodes, channel, next);
    var ep' := ParseNext(page, dates, later).value;
    assert Decide(Success(ep'), next, dates, config.maxEpisodes, channel)
        == Decide(Success(ep), next, dates, config.maxEpisodes, channel) by {
      assert ep'.mp3 == ep.mp3;
    }
  }

  // ---------------------------------------------------------------------------
  // Full refresh (--fetch-all)

  function FullRefreshSpec(page: Embedded, dates: DateParser, clock: nat -> int, config: Config): (r: Outcome)
    requires config.maxEpisodes >= 1
    ensures AllEpisodes(page, dates, clock).Failure? ==> r == Failed
    ensures r == NothingFound <==> AllEpisodes(page, dates, clock) == Success([])
    ensures AllEpisodes(page, dates, clock).Success? && AllEpisodes(page, dates, clock).value != [] ==>
              r == Refresh(RefreshSpec(AllEpisodes(page, dates, clock).value, config.maxEpisodes, VijestiChannel(config)))
    ensures r.Updated? ==>
              var episodes := AllEpisodes(page, dates, clock).value;
              var chosen := Chosen(episodes, config.maxEpisodes);
              && |r.feed.entries| == |chosen| == (if config.maxEpisodes < |episodes| then config.maxEpisodes else |episodes|)
              && (forall k :: 0 <= k < |chosen| ==> r.feed.entries[k] == Render(chosen[k]))
              && r.feed.channel == VijestiChannel(config)
  {
    match AllEpisodes(page, dates, clock)
    case Failure(_) => Failed
    case Success(episodes) =>
      if episodes == [] then NothingFound
      else
        ChosenAreNewest(episodes, config.maxEpisodes);
        Refresh(RefreshSpec(episodes, config.maxEpisodes, VijestiChannel(config)))
  }

  /** The outcome `main` reports for what update_with_all_episodes returned on a non-empty list. */
  function Refresh(refreshed: RefreshResult): Outcome {
    if refreshed.Refreshed? then Updated(refreshed.feed) else Failed
  }

  /** The full-refresh branch of `main`: every episode on the page replaces the feed. */
  method RunFullRefresh(page: Embedded, dates: DateParser, clock: nat -> int, config: Config)
    returns (r: Outcome)
    requires config.maxEpisodes >= 1
    ensures r == FullRefreshSpec(page, dates, clock, config)
  {
    var parsed := ParseAllEpisodes(page, dates, clock);
    if parsed.Failure? {
      return Failed;
    }
    var episodes := parsed.value;
    if episodes == [] {
      return NothingFound;
    }
    var list := new Episode[|episodes|](i requires 0 <= i < |episodes| => episodes[i]);
    assert list[..] == episodes;
    var refreshed := UpdateWithAll(list, config.maxEpisodes, VijestiChannel(config));
    r := Refresh(refreshed);
  }

  // ---------------------------------------------------------------------------
  // What the written feed looks like to tests/test_scraper.py

  /**
    The element structure feedgen writes for a feed, as far as the checker
    looks at it: an `rss` root with one `channel` holding the title and one
    `item` per entry.
   */
  function Serialize(feed: Feed): Validate.Element {
    var items := seq(|feed.entries|, i requires 0 <= i < |feed.entries| =>
      Validate.Element("item", None, [Validate.Element("guid", Some(feed.entries[i].id), [])]));
    var title := Validate.Element("title", Some(feed.channel.title), []);
    Validate.Element("rss", None, [Validate.Element("channel", None, [title] + items)])
  }

  /** Every feed either mode writes passes `validate_feed`. */
  lemma WrittenFeedsValidate(feed: Feed, config: Config)
    requires feed.channel == VijestiChannel(config)
    requires feed.entries != []
    ensures Validate.ValidateFeed(Some(Serialize(feed)))
  {
    var root := Serialize(feed);
    assert Validate.Lower("rss") == "rss";
    var channel := root.children[0];
    assert channel.children[1].tag == "item";
    assert !Validate.IsSpace(feed.channel.title[0]);
  }

  lemma IncrementalWritesValidFeed(page: Embedded, file: FeedFile, dates: DateParser, now: int, config: Config)
    requires config.maxEpisodes >= 1
    requires IncrementalSpec(page, file, dates, now, config).Updated?
    ensures Validate.ValidateFeed(Some(Serialize(IncrementalSpec(page, file, dates, now, config).feed)))
  {
    var ep := ParseNext(page, dates, now).value;
    UpdatedFeedShape(file, ep, config.maxEpisodes, dates, VijestiChannel(config));
    WrittenFeedsValidate(IncrementalSpec(page, file, dates, now, config).feed, config);
  }

  lemma FullRefreshWritesValidFeed(page: Embedded, dates: DateParser, clock: nat -> int, config: Config)
    requires config.maxEpisodes >= 1
    requires FullRefreshSpec(page, dates, clock, config).Updated?
    ensures Validate.ValidateFeed(Some(Serialize(FullRefreshSpec(page, dates, clock, config).feed)))
  {
    var episodes := AllEpisodes(page, dates, clock).value;
    ChosenAreNewest(episodes, config.maxEpisodes);
    WrittenFeedsValidate(FullRefreshSpec(page, dates, clock, config).feed, config);
  }
}
