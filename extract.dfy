/**
  The two extractors of scripts_v/feed.py: `parse_next`, which turns the first
  record of the page's episode list into an episode, and `parse_all_episodes`,
  which turns every record it can into one and skips the rest.

  The regex search for the `__NEXT_DATA__` script and `json.loads` are not
  modelled: their outcome is the `Embedded` value the extractors start from.
  dateutil's parser is the `DateParser` parameter and the clock is a parameter.
 */
module Extract {
  import opened Wrappers
  import opened Json

  /**
    A date as dateutil parses it: the wall-clock reading, in seconds counted
    as if it were UTC, and the UTC offset written in the text, if there was one.
   */
  datatype WallTime = WallTime(clock: int, offset: Option<int>)

  /** dateutil's `parse`: None when it raises ParserError. */
  type DateParser = string -> Option<WallTime>

  /** What the regex and `json.loads` produced from the page. */
  datatype Embedded =
    | NoScript           // no `<script id="__NEXT_DATA__">` block
    | NotJson            // json.loads raised JSONDecodeError
    | Decoded(data: Value)

  /** The ways extraction fails; every one ends the run with exit code 1. */
  datatype ParseError =
    | NoNextData         // "Could not find __NEXT_DATA__ script tag"
    | InvalidJson
    | NoEpisodes         // "No episodes found in data"
    | NoAudioMetadata    // "No audio metadata found"
    | NoMp3              // "No MP3 URL found"
    | BadDate            // dateutil's ParserError, a ValueError
    | Lookup(fault: Fault)

  /** The `(mp3, title, desc, dt)` tuple; `dt` is a UTC instant in seconds. */
  datatype Episode = Episode(mp3: Value, title: Value, desc: Value, dt: int)

  const UntitledEpisode: string := "Untitled Episode"

  /** `props → pageProps → episodes → data → lastAvailableEpisodes` */
  const EpisodesPath: seq<string> := ["props", "pageProps", "episodes", "data", "lastAvailableEpisodes"]

  function Lift<T>(r: Result<T, Fault>): Result<T, ParseError> {
    match r
    case Success(v) => Success(v)
    case Failure(f) => Failure(Lookup(f))
  }

  // ---------------------------------------------------------------------------
  // Navigating to the episode list

  /**
    The chain `v.get(k1, {}).get(k2, {})…get(kn, [])`: every key but the last
    defaults to an empty dict, the last one to an empty list.
   */
  function Dig(v: Value, keys: seq<string>): Result<Value, Fault>
    requires keys != []
    decreases |keys|
  {
    if |keys| == 1 then Get(v, keys[0], EmptyArr)
    else
      var next :- Get(v, keys[0], EmptyObj);
      Dig(next, keys[1..])
  }

  /** What a strict walk along a path finds: no defaults at all. */
  datatype Walk = Found(value: Value) | KeyAbsent | NotADict

  /** The reference for `Dig`: follow the keys, stopping at the first absent key or non-dict. */
  function Strict(v: Value, keys: seq<string>): Walk
    requires keys != []
    decreases |keys|
  {
    if !v.Obj? then NotADict
    else if keys[0] !in v.fields then KeyAbsent
    else if |keys| == 1 then Found(v.fields[keys[0]])
    else Strict(v.fields[keys[0]], keys[1..])
  }

  /**
    The defensive navigation agrees with the strict walk where the path is
    there, gives a falsy default where a key is missing, and raises only when
    it meets something that is not a dict.
   */
  lemma {:induction false} DigAgreesWithStrict(v: Value, keys: seq<string>)
    requires keys != []
    ensures Strict(v, keys).Found? ==> Dig(v, keys) == Success(Strict(v, keys).value)
    ensures Strict(v, keys).KeyAbsent? ==> Dig(v, keys).Success? && !Truthy(Dig(v, keys).value)
    ensures Strict(v, keys).NotADict? ==> Dig(v, keys) == Failure(WrongType)
    decreases |keys|
  {
    if v.Obj? && |keys| > 1 {
      if keys[0] in v.fields {
        DigAgreesWithStrict(v.fields[keys[0]], keys[1..]);
      } else {
        DigAgreesWithStrict(EmptyObj, keys[1..]);
      }
    }
  }

  /**
    The episode list both extractors start from, or the error they raise
    before looking at any record.
   */
  function EpisodeList(page: Embedded): (r: Result<Value, ParseError>)
    ensures page.NoScript? ==> r == Failure(NoNextData)
    ensures page.NotJson? ==> r == Failure(InvalidJson)
    ensures page.Decoded? ==>
      match Strict(page.data, EpisodesPath)
      case Found(x) => r == (if Truthy(x) then Success(x) else Failure(NoEpisodes))
      case KeyAbsent => r == Failure(NoEpisodes)
      case NotADict => r == Failure(Lookup(WrongType))
    ensures r.Success? ==> Truthy(r.value)
  {
    match page
    case NoScript => Failure(NoNextData)
    case NotJson => Failure(InvalidJson)
    case Decoded(data) =>
      DigAgreesWithStrict(data, EpisodesPath);
      var episodes :- Lift(Dig(data, EpisodesPath));
      if !Truthy(episodes) then Failure(NoEpisodes) else Success(episodes)
  }

  // ---------------------------------------------------------------------------
  // One record

  /** `ep.get('audio', {}).get('metadata', [])` */
  function AudioMetadata(ep: Value): Result<Value, Fault> {
    var audio :- Get(ep, "audio", EmptyObj);
    Get(audio, "metadata", EmptyArr)
  }

  /** `bag.contentItems[0].broadcastStart`, or None when contentItems is falsy. */
  function BroadcastStart(ep: Value): Result<Value, Fault> {
    var bag :- Get(ep, "bag", EmptyObj);
    var items :- Get(bag, "contentItems", EmptyArr);
    if !Truthy(items) then Success(Null)
    else
      var first :- First(items);
      Get(first, "broadcastStart", Null)
  }

  /**
    The timestamp rule: a truthy broadcastStart is parsed and its zone is
    REPLACED by UTC (the wall-clock reading is kept, any offset is dropped);
    otherwise the episode is stamped with the current time.
   */
  function Timestamp(start: Value, dates: DateParser, now: int): (r: Result<int, ParseError>)
    ensures !Truthy(start) ==> r == Success(now)
    ensures Truthy(start) && r.Success? ==>
              start.Str? && dates(start.s).Some? && r.value == dates(start.s).value.clock
    ensures r.Failure? <==> Truthy(start) && (start.Str? ==> dates(start.s).None?)
    ensures r.Failure? ==> r.error == (if start.Str? then BadDate else Lookup(WrongType))
  {
    if !Truthy(start) then Success(now)
    else
      match start
      case Str(s) =>
        (match dates(s)
         case Some(w) => Success(w.clock)
         case None => Failure(BadDate))
      case _ => Failure(Lookup(WrongType))  // dateutil accepts only strings
  }

  /**
    One raw record as both extractors read it. The checks run in the source's
    order: audio metadata first, then mp3/title/description, then the
    timestamp, and the falsy-mp3 check last.
   */
  function ParseRecord(ep: Value, dates: DateParser, now: int): (r: Result<Episode, ParseError>)
    ensures AudioMetadata(ep).Failure? ==> r == Failure(Lookup(AudioMetadata(ep).error))
    ensures AudioMetadata(ep).Success? && !Truthy(AudioMetadata(ep).value) ==> r == Failure(NoAudioMetadata)
    ensures r.Success? <==>
              && AudioMetadata(ep).Success? && Truthy(AudioMetadata(ep).value)
              && First(AudioMetadata(ep).value).Success?
              && Get(First(AudioMetadata(ep).value).value, "path", Null).Success?
              && Truthy(Get(First(AudioMetadata(ep).value).value, "path", Null).value)
              && BroadcastStart(ep).Success?
              && Timestamp(BroadcastStart(ep).value, dates, now).Success?
    ensures r.Success? ==> Truthy(r.value.mp3)
    ensures r.Success? ==>
              Get(First(AudioMetadata(ep).value).value, "path", Null) == Success(r.value.mp3)
    ensures r.Success? ==>
              && ep.Obj?
              && r.value.title == (if "caption" in ep.fields then ep.fields["caption"] else Str(UntitledEpisode))
              && r.value.desc == (if "intro" in ep.fields then ep.fields["intro"] else Str(""))
              && BroadcastStart(ep).Success?
              && Timestamp(BroadcastStart(ep).value, dates, now) == Success(r.value.dt)
  {
    var metadata :- Lift(AudioMetadata(ep));
    if !Truthy(metadata) then Failure(NoAudioMetadata)
    else
      var firstFile :- Lift(First(metadata));
      var mp3 :- Lift(Get(firstFile, "path", Null));
      // the audio lookup succeeded, so `ep` is a dict and its `.get` calls cannot raise
      var title := if "caption" in ep.fields then ep.fields["caption"] else Str(UntitledEpisode);
      var desc := if "intro" in ep.fields then ep.fields["intro"] else Str("");
      var start :- Lift(BroadcastStart(ep));
      var dt :- Timestamp(start, dates, now);
      if !Truthy(mp3) then Failure(NoMp3)
      else Success(Episode(mp3, title, desc, dt))
  }

  /** The smallest record that parses: only `audio.metadata[0].path` is set. */
  const MinimalRecord: Value :=
    Obj(map["audio" := Obj(map["metadata" := Arr([Obj(map["path" := Str("a.mp3")])])])])

  /**
    The minimal record parses to its path, the default title and description,
    and the current time (it has no `bag`).
   */
  lemma MinimalRecordParses(dates: DateParser, now: int)
    ensures ParseRecord(MinimalRecord, dates, now) == Success(Episode(Str("a.mp3"), Str(UntitledEpisode), Str(""), now))
  {
    var metadata := Arr([Obj(map["path" := Str("a.mp3")])]);
    assert AudioMetadata(MinimalRecord) == Success(metadata);
    assert BroadcastStart(MinimalRecord) == Success(Null);
  }

  // ---------------------------------------------------------------------------
  // parse_next

  /** `parse_next`: the first record of the list, and no other, becomes the episode. */
  function ParseNext(page: Embedded, dates: DateParser, now: int): (r: Result<Episode, ParseError>)
    ensures EpisodeList(page).Failure? ==> r == Failure(EpisodeList(page).error)
    ensures EpisodeList(page).Success? && EpisodeList(page).value.Arr? ==>
              r == ParseRecord(EpisodeList(page).value.items[0], dates, now)
    ensures r.Success? ==> Truthy(r.value.mp3)
    ensures r.Success? ==> EpisodeList(page).Success? && EpisodeList(page).value.Arr?
  {
    var episodes :- EpisodeList(page);
    var ep :- Lift(First(episodes));
    ParseRecord(ep, dates, now)
  }

  // ---------------------------------------------------------------------------
  // parse_all_episodes

  /** What each record parses to on its own; record i is stamped, if it needs the clock, with `clock(i)`. */
  function Outcomes(records: seq<Value>, dates: DateParser, clock: nat -> int): (r: seq<Result<Episode, ParseError>>)
    ensures |r| == |records|
  {
    seq(|records|, i requires 0 <= i < |records| => ParseRecord(records[i], dates, clock(i)))
  }

  /** The episodes of the outcomes that succeeded, in order: a failure is skipped, never raised. */
  function Keep(outcomes: seq<Result<Episode, ParseError>>): seq<Episode>
    decreases |outcomes|
  {
    if outcomes == [] then []
    else
      var n := |outcomes| - 1;
      Keep(outcomes[..n]) + (if outcomes[n].Success? then [outcomes[n].value] else [])
  }

  /** The positions of the outcomes that `Keep` keeps. */
  function KeptIndices(outcomes: seq<Result<Episode, ParseError>>): seq<nat>
    decreases |outcomes|
  {
    if outcomes == [] then []
    else
      var n := |outcomes| - 1;
      KeptIndices(outcomes[..n]) + (if outcomes[n].Success? then [n] else [])
  }

  /** The indices are in range and strictly increasing. */
  lemma {:induction false} KeptIndicesIncrease(outcomes: seq<Result<Episode, ParseError>>)
    ensures forall k :: 0 <= k < |KeptIndices(outcomes)| ==> KeptIndices(outcomes)[k] < |outcomes|
    ensures forall k, l :: 0 <= k < l < |KeptIndices(outcomes)| ==> KeptIndices(outcomes)[k] < KeptIndices(outcomes)[l]
    decreases |outcomes|
  {
    if outcomes != [] {
      KeptIndicesIncrease(outcomes[..|outcomes| - 1]);
    }
  }

  /** Fault isolation: an outcome is kept exactly when it is a success. */
  lemma {:induction false} KeptIndicesExact(outcomes: seq<Result<Episode, ParseError>>)
    ensures forall i :: 0 <= i < |outcomes| ==> (outcomes[i].Success? <==> i in KeptIndices(outcomes))
    decreases |outcomes|
  {
    if outcomes != [] {
      var n := |outcomes| - 1;
      var prefix := outcomes[..n];
      KeptIndicesExact(prefix);
      KeptIndicesIncrease(prefix);
      assert forall i :: 0 <= i < n ==> outcomes[i] == prefix[i];
    }
  }

  /**
    Order: the k-th kept episode is the k-th successful outcome, so the
    episodes come out in their original order.
   */
  lemma {:induction false} KeepFollowsKeptIndices(outcomes: seq<Result<Episode, ParseError>>)
    ensures |Keep(outcomes)| == |KeptIndices(outcomes)|
    ensures forall k :: 0 <= k < |Keep(outcomes)| ==>
              var i := KeptIndices(outcomes)[k];
              i < |outcomes| && outcomes[i] == Success(Keep(outcomes)[k])
    decreases |outcomes|
  {
    KeptIndicesIncrease(outcomes);
    if outcomes != [] {
      var n := |outcomes| - 1;
      var prefix := outcomes[..n];
      KeepFollowsKeptIndices(prefix);
      KeptIndicesIncrease(prefix);
      assert forall i :: 0 <= i < n ==> outcomes[i] == prefix[i];
    }
  }

  /** Every outcome is a failure exactly when nothing is kept. */
  lemma AllSkippedGivesEmpty(outcomes: seq<Result<Episode, ParseError>>)
    ensures Keep(outcomes) == [] <==> forall i :: 0 <= i < |outcomes| ==> outcomes[i].Failure?
  {
    KeepFollowsKeptIndices(outcomes);
    KeptIndicesExact(outcomes);
    var idx := KeptIndices(outcomes);
    if Keep(outcomes) != [] {
      assert idx[0] < |outcomes| && outcomes[idx[0]].Success?;
    } else {
      forall i | 0 <= i < |outcomes| ensures outcomes[i].Failure? {
        assert i !in idx;
      }
    }
  }

  /**
    The episodes kept from `records`, in record order: every record that
    parses on its own, and only those.
   */
  function Harvest(records: seq<Value>, dates: DateParser, clock: nat -> int): (r: seq<Episode>)
    ensures |r| <= |records|
    ensures forall k :: 0 <= k < |r| ==> Truthy(r[k].mp3)
  {
    var outcomes := Outcomes(records, dates, clock);
    KeepFollowsKeptIndices(outcomes);
    KeptIndicesIncrease(outcomes);
    KeptIndicesBound(outcomes);
    Keep(outcomes)
  }

  /** There are no more kept positions than outcomes. */
  lemma {:induction false} KeptIndicesBound(outcomes: seq<Result<Episode, ParseError>>)
    ensures |KeptIndices(outcomes)| <= |outcomes|
    decreases |outcomes|
  {
    if outcomes != [] {
      KeptIndicesBound(outcomes[..|outcomes| - 1]);
    }
  }

  /** The episode the minimal record parses to at time `t`. */
  function MinimalEpisode(t: int): Episode {
    Episode(Str("a.mp3"), Str(UntitledEpisode), Str(""), t)
  }

  /** The per-record outcomes of the five-record page below. */
  lemma FaultIsolationOutcomes(dates: DateParser, clock: nat -> int)
    ensures var outcomes := Outcomes([MinimalRecord, MinimalRecord, EmptyObj, MinimalRecord, MinimalRecord], dates, clock);
            && |outcomes| == 5
            && (forall i :: 0 <= i < 5 && i != 2 ==> outcomes[i] == Success(MinimalEpisode(clock(i))))
            && outcomes[2] == Failure(NoAudioMetadata)
  {
    var records := [MinimalRecord, MinimalRecord, EmptyObj, MinimalRecord, MinimalRecord];
    var outcomes := Outcomes(records, dates, clock);
    forall i | 0 <= i < 5 && i != 2 ensures outcomes[i] == Success(MinimalEpisode(clock(i))) {
      assert outcomes[i] == ParseRecord(MinimalRecord, dates, clock(i));
      MinimalRecordParses(dates, clock(i));
    }
    assert outcomes[2] == ParseRecord(EmptyObj, dates, clock(2));
    assert AudioMetadata(EmptyObj) == Success(EmptyArr);
  }

  /** `Keep` on two successes, a failure and two more successes keeps the four successes, in order. */
  lemma KeepSkipsMiddle(o: seq<Result<Episode, ParseError>>)
    requires |o| == 5 && o[2].Failure?
    requires forall i :: 0 <= i < 5 && i != 2 ==> o[i].Success?
    ensures Keep(o) == [o[0].value, o[1].value, o[3].value, o[4].value]
  {
    assert Keep(o[..1]) == [o[0].value] by {
      assert o[..1][..0] == [];
    }
    assert Keep(o[..2]) == [o[0].value, o[1].value] by {
      assert o[..2][..1] == o[..1];
    }
    assert Keep(o[..3]) == [o[0].value, o[1].value] by {
      assert o[..3][..2] == o[..2];
    }
    assert Keep(o[..4]) == [o[0].value, o[1].value, o[3].value] by {
      assert o[..4][..3] == o[..3];
    }
    assert o[..4] == o[..|o| - 1];
  }

  /**
    Fault isolation on a page of five records where the middle one has no
    audio metadata: the other four are kept, in order.
   */
  lemma FaultIsolationExample(dates: DateParser, clock: nat -> int)
    ensures Harvest([MinimalRecord, MinimalRecord, EmptyObj, MinimalRecord, MinimalRecord], dates, clock)
         == [MinimalEpisode(clock(0)), MinimalEpisode(clock(1)), MinimalEpisode(clock(3)), MinimalEpisode(clock(4))]
  {
    FaultIsolationOutcomes(dates, clock);
    KeepSkipsMiddle(Outcomes([MinimalRecord, MinimalRecord, EmptyObj, MinimalRecord, MinimalRecord], dates, clock));
  }

  /** A str has no `.get`, so a record that is a string is always skipped. */
  lemma StringRecordsAreSkipped(s: string, dates: DateParser, now: int)
    ensures ParseRecord(Str(s), dates, now) == Failure(Lookup(WrongType))
  {
  }

  /**
    The records `for ep in episodes` visits: the items of a list, the
    one-character strings of a str. Iterating a dict visits its keys, strs
    again, which `StringRecordsAreSkipped` shows are all skipped, so a dict is
    taken as visiting nothing; anything else is not iterable (TypeError).
   */
  function Records(episodes: Value): Result<seq<Value>, ParseError> {
    match episodes
    case Arr(items) => Success(items)
    case Str(s) => Success(seq(|s|, i requires 0 <= i < |s| => Str([s[i]])))
    case Obj(_) => Success([])
    case _ => Failure(Lookup(WrongType))
  }

  /** What `parse_all_episodes` returns or raises. */
  function AllEpisodes(page: Embedded, dates: DateParser, clock: nat -> int): (r: Result<seq<Episode>, ParseError>)
    ensures EpisodeList(page).Failure? ==> r == Failure(EpisodeList(page).error)
    ensures EpisodeList(page).Success? && EpisodeList(page).value.Arr? ==>
              r == Success(Harvest(EpisodeList(page).value.items, dates, clock))
  {
    var episodes :- EpisodeList(page);
    var records :- Records(episodes);
    Success(Harvest(records, dates, clock))
  }

  /** `parse_all_episodes`: looks up the list, then collects every record that parses. */
  method ParseAllEpisodes(page: Embedded, dates: DateParser, clock: nat -> int)
    returns (r: Result<seq<Episode>, ParseError>)
    ensures r == AllEpisodes(page, dates, clock)
  {
    var listed := EpisodeList(page);
    if listed.Failure? {
      return Failure(listed.error);
    }
    var found := Records(listed.value);
    if found.Failure? {
      return Failure(found.error);
    }
    var parsed := CollectParsed(found.value, dates, clock);
    return Success(parsed);
  }

  /** The loop of `parse_all_episodes`: appends each record that parses, skips the rest. */
  method CollectParsed(records: seq<Value>, dates: DateParser, clock: nat -> int) returns (parsed: seq<Episode>)
    ensures parsed == Harvest(records, dates, clock)
  {
    ghost var outcomes := Outcomes(records, dates, clock);
    parsed := [];
    var i := 0;
    while i < |records|
      invariant 0 <= i <= |records|
      invariant parsed == Keep(outcomes[..i])
    {
      assert outcomes[..i + 1][..i] == outcomes[..i];
      var one := ParseRecord(records[i], dates, clock(i));
      assert one == outcomes[..i + 1][i];
      if one.Success? {
        parsed := parsed + [one.value];
      }
      i := i + 1;
    }
    assert outcomes[..|records|] == outcomes;
  }

  /**
    The two extractors agree: when parse_next finds an episode, parse_all
    (with the same clock reading for the first record) succeeds and puts that
    same episode first; when the page itself is wrong, both raise the same
    error.
   */
  lemma {:induction false} NextIsFirstOfAll(page: Embedded, dates: DateParser, clock: nat -> int)
    ensures ParseNext(page, dates, clock(0)).Success? ==>
              var all := AllEpisodes(page, dates, clock);
              all.Success? && all.value != [] && all.value[0] == ParseNext(page, dates, clock(0)).value
    ensures EpisodeList(page).Failure? ==>
              && ParseNext(page, dates, clock(0)) == Failure(EpisodeList(page).error)
              && AllEpisodes(page, dates, clock) == Failure(EpisodeList(page).error)
  {
    var next := ParseNext(page, dates, clock(0));
    if next.Success? {
      var items := EpisodeList(page).value.items;
      assert next == ParseRecord(items[0], dates, clock(0));
      var outcomes := Outcomes(items, dates, clock);
      assert outcomes[0] == next;
      KeepFollowsKeptIndices(outcomes);
      KeptIndicesExact(outcomes);
      KeptIndicesIncrease(outcomes);
      assert 0 in KeptIndices(outcomes);
    }
  }
}
