/**
  The feed side of scripts_v/feed.py: `latest_id`, the incremental `update`,
  and the full refresh `update_with_all_episodes`, with the FeedGenerator they
  fill. A feed is modelled as its channel and the sequence of `add_entry`
  calls; how feedgen orders and serialises them on disk, and how feedparser
  reads the file back, are not part of this model.
 */
module Feed {
  import opened Wrappers
  import opened Json
  import opened Extract

  // ---------------------------------------------------------------------------
  // Configuration and constants

  /** The environment settings the feed depends on. */
  datatype Config = Config(domain: string, feedName: string, maxEpisodes: int)

  /** `PATH_MAP.get(FEED_NAME, FEED_NAME)` with `PATH_MAP = {'v': 'vijesti'}` */
  function Slug(feedName: string): string {
    if feedName == "v" then "vijesti" else feedName
  }

  /** `PUBLIC_URL` */
  function PublicUrl(c: Config): string {
    "https://" + c.domain + "/" + Slug(c.feedName)
  }

  const HrtSuffix: string := " (HRT)"
  const Footer: string := "\n\n---\nSadržaj: © HRT | Neslužbena RSS distribucija"
  const AudioMpeg: string := "audio/mpeg"

  // ---------------------------------------------------------------------------
  // Stored and generated entries

  /** An entry of the existing feed file as feedparser hands it back. */
  datatype StoredEntry = StoredEntry(
    id: string,
    title: string,
    description: Option<string>,
    enclosures: seq<string>,     // the hrefs of its enclosures
    published: Option<string>)

  /** The feed file as the run finds it. */
  datatype FeedFile =
    | NoFile
    | Unreadable                 // feedparser raised
    | Parsed(entries: seq<StoredEntry>)

  datatype Enclosure = Enclosure(url: string, length: int, mime: string)

  /** One `fg.add_entry()` with everything set on it. */
  datatype FeedEntry = FeedEntry(
    id: string,
    title: string,
    description: string,
    enclosure: Enclosure,
    pubDate: WallTime,
    author: string,
    explicit: string)

  datatype Category = Category(term: string, text: string)
  datatype Image = Image(url: string, title: string, link: string)

  /** The channel metadata both update paths set. */
  datatype Channel = Channel(
    title: string,
    link: string,
    description: string,
    language: string,
    copyright: string,
    category: Category,
    image: Image,
    itunesAuthor: string,
    itunesCategory: string,
    itunesExplicit: string,
    itunesSummary: string,
    itunesImage: string)

  /** A generated feed: the channel and the entries in the order they were added. */
  datatype Feed = Feed(channel: Channel, entries: seq<FeedEntry>)

  const ChannelTitle: string := "Vijesti (Neslužbeno)"
  const ChannelDescription: string :=
    "Neslužbena RSS distribucija emisije Vijesti (HRT). Petominutna informativna emisija, svaki puni sat prati sve relevantne događaje u zemlji i inozemstvu."
  const ChannelRights: string := "© Sadržaj: HRT | RSS distribucija: HRT"
  const ChannelAuthor: string := "HRT (Neslužbeno)"
  const ChannelSummary: string :=
    "Neslužbena RSS distribucija emisije Vijesti. Sadržaj je vlasništvo HRT-a, distribucija je neslužbena."

  /**
    The channel metadata both update paths set: the fixed Vijesti texts, the
    public URL as link, and one artwork file under it used both as the RSS
    image and as the iTunes image.
   */
  function VijestiChannel(c: Config): (r: Channel)
    ensures r.title == ChannelTitle && r.description == ChannelDescription && r.copyright == ChannelRights
    ensures r.link == PublicUrl(c) && r.image.link == r.link && r.image.title == "Vijesti"
    ensures r.image.url == r.itunesImage == PublicUrl(c) + "/" + Slug(c.feedName) + ".jpg"
    ensures r.language == "hr" && r.category == Category("News", "News")
    ensures r.itunesAuthor == ChannelAuthor && r.itunesCategory == "News" && r.itunesExplicit == "no"
    ensures r.itunesSummary == ChannelSummary
  {
    var url := PublicUrl(c);
    var artwork := url + "/" + Slug(c.feedName) + ".jpg";
    Channel(ChannelTitle, url, ChannelDescription, "hr", ChannelRights, Category("News", "News"),
            Image(artwork, "Vijesti", url), ChannelAuthor, "News", "no", ChannelSummary, artwork)
  }

  /** For the default feed name "v" the artwork is named after the slug: `/vijesti/vijesti.jpg`, not `v.jpg`. */
  lemma DefaultArtwork(domain: string, maxEpisodes: int)
    ensures VijestiChannel(Config(domain, "v", maxEpisodes)).itunesImage
         == "https://" + domain + "/vijesti/vijesti.jpg"
  {
    assert "https://" + domain + "/" + "vijesti" + "/" + "vijesti" + ".jpg" == "https://" + domain + "/vijesti/vijesti.jpg";
  }

  /** feedgen's FeedGenerator, reduced to its channel and its `add_entry` calls. */
  class FeedGenerator {
    var channel: Channel
    var entries: seq<FeedEntry>

    constructor (channel: Channel)
      ensures this.channel == channel && entries == []
    {
      this.channel := channel;
      entries := [];
    }

    method AddEntry(e: FeedEntry)
      modifies this
      ensures channel == old(channel)
      ensures entries == old(entries) + [e]
    {
      entries := entries + [e];
    }

    function Contents(): Feed
      reads this
    {
      Feed(channel, entries)
    }
  }

  // ---------------------------------------------------------------------------
  // Python helpers

  /** `s[:k]` for a non-negative k. */
  function Take<T>(s: seq<T>, k: nat): (r: seq<T>)
    ensures |r| == if k < |s| then k else |s|
    ensures r == s[..|r|]
  {
    if k < |s| then s[..k] else s
  }

  // ---------------------------------------------------------------------------
  // latest_id

  /** The entries `update` starts from: none unless the file exists and parses. */
  function Existing(file: FeedFile): seq<StoredEntry> {
    if file.Parsed? then file.entries else []
  }

  /** `latest_id`: the id of the first stored entry, if there is one. */
  function LatestId(file: FeedFile): (r: Option<string>)
    ensures r.Some? <==> Existing(file) != []
    ensures r.Some? ==> r.value == Existing(file)[0].id
  {
    match file
    case Parsed(entries) => if entries != [] then Some(entries[0].id) else None
    case _ => None
  }

  // ---------------------------------------------------------------------------
  // Rendering

  /**
    A new episode as an entry: the mp3 URL is both the id and the enclosure,
    the title gets the " (HRT)" suffix and the description the footer.
   */
  function Render(ep: Episode): (e: FeedEntry)
    ensures e.id == Show(ep.mp3) && e.enclosure == Enclosure(e.id, 0, AudioMpeg)
    ensures |e.title| >= |HrtSuffix| && e.title[|e.title| - |HrtSuffix|..] == HrtSuffix
    ensures e.title[..|e.title| - |HrtSuffix|] == Show(ep.title)
    ensures |e.description| == |Show(ep.desc)| + |Footer|
    ensures e.description[..|Show(ep.desc)|] == Show(ep.desc) && e.description[|Show(ep.desc)|..] == Footer
    ensures e.pubDate == WallTime(ep.dt, Some(0))
  {
    FeedEntry(Show(ep.mp3), Show(ep.title) + HrtSuffix, Show(ep.desc) + Footer,
              Enclosure(Show(ep.mp3), 0, AudioMpeg), WallTime(ep.dt, Some(0)), "HRT", "no")
  }

  /**
    A stored entry copied into the new feed: id, title and description as
    stored, the first enclosure (or the id), and the re-parsed publication
    date, which must parse and carry a zone (feedgen refuses naive dates).
   */
  function Carry(s: StoredEntry, dates: DateParser): (r: Option<FeedEntry>)
    ensures r.Some? <==> s.published.Some? && dates(s.published.value).Some?
                         && dates(s.published.value).value.offset.Some?
    ensures r.Some? ==> r.value.id == s.id && r.value.title == s.title
                        && r.value.description == s.description.GetOr("")
                        && r.value.enclosure.url == (if s.enclosures != [] then s.enclosures[0] else s.id)
                        && r.value.pubDate == dates(s.published.value).value
  {
    if s.published.None? then None
    else match dates(s.published.value)
      case None => None
      case Some(w) =>
        if w.offset.None? then None
        else
          var href := if s.enclosures != [] then s.enclosures[0] else s.id;
          Some(FeedEntry(s.id, s.title, s.description.GetOr(""),
                         Enclosure(href, 0, AudioMpeg), w, "HRT", "no"))
  }

  /** Copying entries one by one; the first one that fails aborts the feed. */
  function CarryAll(stored: seq<StoredEntry>, dates: DateParser): (r: Option<seq<FeedEntry>>)
    ensures r.Some? <==> forall i :: 0 <= i < |stored| ==> Carry(stored[i], dates).Some?
    ensures r.Some? ==> |r.value| == |stored|
                        && forall i :: 0 <= i < |stored| ==> Some(r.value[i]) == Carry(stored[i], dates)
    decreases |stored|
  {
    if stored == [] then Some([])
    else
      var n := |stored| - 1;
      var front := CarryAll(stored[..n], dates);
      assert forall i :: 0 <= i < n ==> stored[..n][i] == stored[i];
      match (front, Carry(stored[n], dates))
      case (Some(done), Some(e)) => Some(done + [e])
      case _ => None
  }

  // ---------------------------------------------------------------------------
  // update

  /** Whether a stored entry has the id `mp3` (`entry.id == mp3` compares a str with the JSON value). */
  predicate HasEpisode(stored: seq<StoredEntry>, mp3: Value) {
    exists i :: 0 <= i < |stored| && mp3 == Str(stored[i].id)
  }

  datatype UpdateResult =
    | AlreadyPresent     // returns False
    | Written(feed: Feed)  // returns True after writing the feed
    | GenerateFailed     // raises "Failed to generate feed"

  /**
    What `update` does: an episode already in the file changes nothing;
    writing fails when a stored date cannot be re-read or the mp3 URL is not a
    string (feedgen writes only strings); otherwise the feed is written.
   */
  function UpdateSpec(file: FeedFile, ep: Episode, maxEpisodes: int, dates: DateParser, channel: Channel)
    : (r: UpdateResult)
    requires maxEpisodes >= 1
    ensures HasEpisode(Existing(file), ep.mp3) <==> r == AlreadyPresent
    ensures r.GenerateFailed? <==>
              !HasEpisode(Existing(file), ep.mp3)
              && (!ep.mp3.Str? || CarryAll(Take(Existing(file), maxEpisodes - 1), dates).None?)
  {
    var existing := Existing(file);
    if HasEpisode(existing, ep.mp3) then AlreadyPresent
    else
      match CarryAll(Take(existing, maxEpisodes - 1), dates)
      case None => GenerateFailed
      case Some(carried) =>
        if !ep.mp3.Str? then GenerateFailed
        else Written(Feed(channel, [Render(ep)] + carried))
  }

  /**
    The feed `update` writes: the new episode first, then at most
    `maxEpisodes - 1` stored entries in their stored order with their ids and
    titles as stored. The new id is not among them, so it appears exactly
    once, and the feed never exceeds `maxEpisodes` entries.
   */
  lemma UpdatedFeedShape(file: FeedFile, ep: Episode, maxEpisodes: int, dates: DateParser, channel: Channel)
    requires maxEpisodes >= 1
    requires UpdateSpec(file, ep, maxEpisodes, dates, channel).Written?
    ensures
      var feed := UpdateSpec(file, ep, maxEpisodes, dates, channel).feed;
      var kept := Take(Existing(file), maxEpisodes - 1);
      && ep.mp3.Str?
      && feed.channel == channel
      && |feed.entries| == 1 + |kept| <= maxEpisodes
      && feed.entries[0] == Render(ep)
      && feed.entries[0].id == ep.mp3.s
      && (forall i :: 1 <= i < |feed.entries| ==>
            feed.entries[i].id == kept[i - 1].id
            && feed.entries[i].title == kept[i - 1].title
            && feed.entries[i].id != ep.mp3.s)
  {
    var existing := Existing(file);
    var kept := Take(existing, maxEpisodes - 1);
    var feed := UpdateSpec(file, ep, maxEpisodes, dates, channel).feed;
    assert !HasEpisode(existing, ep.mp3) && ep.mp3.Str? && CarryAll(kept, dates).Some?;
    var carried := CarryAll(kept, dates).value;
    assert feed.entries == [Render(ep)] + carried;
    assert |carried| == |kept| <= |existing|;
    forall i | 1 <= i < |feed.entries|
      ensures feed.entries[i].id == kept[i - 1].id && feed.entries[i].title == kept[i - 1].title
      ensures feed.entries[i].id != ep.mp3.s
    {
      assert feed.entries[i] == carried[i - 1];
      assert kept[i - 1] == existing[i - 1];
      assert ep.mp3 != Str(existing[i - 1].id);
    }
  }

  /** `update`: adds the new entry, then the stored ones in a loop, then writes. */
  method Update(file: FeedFile, ep: Episode, maxEpisodes: int, dates: DateParser, channel: Channel)
    returns (r: UpdateResult)
    requires maxEpisodes >= 1
    ensures r == UpdateSpec(file, ep, maxEpisodes, dates, channel)
  {
    var existing := Existing(file);
    if HasEpisode(existing, ep.mp3) {
      return AlreadyPresent;
    }
    var fg := new FeedGenerator(channel);
    fg.AddEntry(Render(ep));
    var kept := Take(existing, maxEpisodes - 1);
    var i := 0;
    while i < |kept|
      invariant 0 <= i <= |kept|
      invariant CarryAll(kept[..i], dates).Some?
      invariant fg.channel == channel
      invariant fg.entries == [Render(ep)] + CarryAll(kept[..i], dates).value
    {
      var carried := Carry(kept[i], dates);
      if carried.None? {
        return GenerateFailed;
      }
      assert kept[..i + 1][..i] == kept[..i];
      fg.AddEntry(carried.value);
      i := i + 1;
    }
    assert kept[..i] == kept;
    if !ep.mp3.Str? {
      return GenerateFailed;
    }
    r := Written(fg.Contents());
  }

  /**
    Idempotence: once an update has written the episode, a later update with
    the same episode against any file that reads back with that id (in any
    order) is a no-op.
   */
  lemma UpdateIdempotent(file: FeedFile, ep: Episode, maxEpisodes: int, dates: DateParser, channel: Channel,
                         later: FeedFile)
    requires maxEpisodes >= 1
    requires UpdateSpec(file, ep, maxEpisodes, dates, channel).Written?
    requires exists i :: 0 <= i < |Existing(later)| &&
               Existing(later)[i].id == UpdateSpec(file, ep, maxEpisodes, dates, channel).feed.entries[0].id
    ensures UpdateSpec(later, ep, maxEpisodes, dates, channel) == AlreadyPresent
  {
  }

  // ---------------------------------------------------------------------------
  // update_with_all_episodes: stable sort, newest first

  /** Each episode is at least as new as the next one. */
  predicate NewestFirst(s: seq<Episode>) {
    forall i :: 0 < i < |s| ==> s[i - 1].dt >= s[i].dt
  }

  /** Newest-first order between neighbours gives it between any two positions. */
  lemma {:induction false} NewestFirstAt(s: seq<Episode>, i: nat, j: nat)
    requires NewestFirst(s)
    requires i <= j < |s|
    ensures s[i].dt >= s[j].dt
    decreases j - i
  {
    if i < j {
      NewestFirstAt(s, i, j - 1);
    }
  }

  /** Puts `x` before the first episode that is not strictly newer than it. */
  function InsertByDate(x: Episode, s: seq<Episode>): (r: seq<Episode>)
    ensures |r| == |s| + 1
    ensures r[0] == x || (s != [] && r[0] == s[0])
    decreases |s|
  {
    if s == [] || s[0].dt <= x.dt then [x] + s
    else [s[0]] + InsertByDate(x, s[1..])
  }

  lemma {:induction false} InsertKeepsNewestFirst(x: Episode, s: seq<Episode>)
    requires NewestFirst(s)
    ensures NewestFirst(InsertByDate(x, s))
    decreases |s|
  {
    if s != [] && s[0].dt > x.dt {
      var rest := InsertByDate(x, s[1..]);
      InsertKeepsNewestFirst(x, s[1..]);
      var r := [s[0]] + rest;
      assert InsertByDate(x, s) == r;
      forall i | 0 < i < |r| ensures r[i - 1].dt >= r[i].dt {
        if i > 1 {
          assert r[i - 1] == rest[i - 2] && r[i] == rest[i - 1];
        }
      }
    }
  }

  lemma {:induction false} InsertAddsOne(x: Episode, s: seq<Episode>)
    ensures multiset(InsertByDate(x, s)) == multiset(s) + multiset{x}
    decreases |s|
  {
    if s != [] && s[0].dt > x.dt {
      InsertAddsOne(x, s[1..]);
      assert s == [s[0]] + s[1..];
    }
  }

  /**
    `episodes.sort(key=dt, reverse=True)`: Python's sort is stable also when
    reversed, so episodes with equal timestamps keep their relative order
    (`SortIsStable`).
   */
  function SortByDate(s: seq<Episode>): (r: seq<Episode>)
    ensures NewestFirst(r)
    ensures multiset(r) == multiset(s)
    decreases |s|
  {
    if s == [] then []
    else
      var rest := SortByDate(s[1..]);
      InsertKeepsNewestFirst(s[0], rest);
      InsertAddsOne(s[0], rest);
      assert s == [s[0]] + s[1..];
      InsertByDate(s[0], rest)
  }

  /** The episodes with timestamp `t`, in order. */
  function WithDate(s: seq<Episode>, t: int): seq<Episode>
    decreases |s|
  {
    if s == [] then []
    else (if s[0].dt == t then [s[0]] else []) + WithDate(s[1..], t)
  }

  lemma {:induction false} WithDateInsert(x: Episode, s: seq<Episode>, t: int)
    ensures WithDate(InsertByDate(x, s), t) == (if x.dt == t then [x] else []) + WithDate(s, t)
    decreases |s|
  {
    if s == [] || s[0].dt <= x.dt {
      assert InsertByDate(x, s) == [x] + s;
      assert ([x] + s)[1..] == s;
    } else {
      var rest := InsertByDate(x, s[1..]);
      assert InsertByDate(x, s) == [s[0]] + rest;
      WithDateInsert(x, s[1..], t);
      assert ([s[0]] + rest)[1..] == rest;
      assert WithDate(s, t) == (if s[0].dt == t then [s[0]] else []) + WithDate(s[1..], t);
    }
  }

  /** Stability: for every timestamp, the episodes carrying it stay in input order. */
  lemma {:induction false} SortIsStable(s: seq<Episode>, t: int)
    ensures WithDate(SortByDate(s), t) == WithDate(s, t)
    decreases |s|
  {
    if s != [] {
      SortIsStable(s[1..], t);
      WithDateInsert(s[0], SortByDate(s[1..]), t);
    }
  }

  /** The insertion point of `x` splits `t` where the strictly newer prefix ends. */
  lemma {:induction false} InsertAt(x: Episode, t: seq<Episode>, m: nat)
    requires m <= |t|
    requires forall k :: 0 <= k < m ==> t[k].dt > x.dt
    requires m == |t| || t[m].dt <= x.dt
    ensures InsertByDate(x, t) == t[..m] + [x] + t[m..]
    decreases m
  {
    if m > 0 {
      InsertAt(x, t[1..], m - 1);
      assert t[..m] == [t[0]] + t[1..][..m - 1];
      assert t[m..] == t[1..][m - 1..];
    }
  }

  /** One step of the in-place sort: moves `a[i]` into the sorted run after it. */
  method InsertInto(a: array<Episode>, i: nat)
    requires i < a.Length
    modifies a
    ensures a[..i] == old(a[..i])
    ensures a[i..] == InsertByDate(old(a[i]), old(a[i + 1..]))
  {
    var x := a[i];
    ghost var pre := a[..];
    ghost var t := a[i + 1..];
    var j := ShiftNewer(a, i, x, t);
    a[j] := x;
    InsertAt(x, t, j - i);
    Reassembled(a[..], i, j - i, x, t);
    assert a[..i] == pre[..i];
  }

  /**
    The inner loop: shifts the entries after `i` that are strictly newer than
    `x` one place to the left and returns the slot left free for `x`.
   */
  method ShiftNewer(a: array<Episode>, i: nat, x: Episode, ghost t: seq<Episode>) returns (j: nat)
    requires i < a.Length && t == a[i + 1..]
    modifies a
    ensures i <= j < a.Length
    ensures forall k :: 0 <= k < i ==> a[k] == old(a[k])
    ensures forall k :: i <= k < j ==> a[k] == t[k - i]
    ensures forall k :: j < k < a.Length ==> a[k] == t[k - i - 1]
    ensures forall k :: 0 <= k < j - i ==> t[k].dt > x.dt
    ensures j - i == |t| || t[j - i].dt <= x.dt
  {
    j := i;
    while j + 1 < a.Length && a[j + 1].dt > x.dt
      invariant i <= j < a.Length
      invariant forall k :: 0 <= k < i ==> a[k] == old(a[k])
      invariant forall k :: i <= k < j ==> a[k] == t[k - i]
      invariant forall k :: j < k < a.Length ==> a[k] == t[k - i - 1]
      invariant forall k :: 0 <= k < j - i ==> t[k].dt > x.dt
    {
      a[j] := a[j + 1];
      j := j + 1;
    }
  }

  /** After the shift, the tail from `i` is `t` with `x` placed at offset `m`. */
  lemma Reassembled(b: seq<Episode>, i: nat, m: nat, x: Episode, t: seq<Episode>)
    requires |b| == i + 1 + |t| && m <= |t|
    requires forall k :: i <= k < i + m ==> b[k] == t[k - i]
    requires b[i + m] == x
    requires forall k :: i + m < k < |b| ==> b[k] == t[k - i - 1]
    ensures b[i..] == t[..m] + [x] + t[m..]
  {
    var inserted := t[..m] + [x] + t[m..];
    assert forall k :: i <= k < |b| ==> b[k] == inserted[k - i];
  }

  /** The in-place sort of the caller's list, by insertion from the right. */
  method SortEpisodesByDate(a: array<Episode>)
    modifies a
    ensures a[..] == SortByDate(old(a[..]))
  {
    ghost var input := a[..];
    var i := a.Length;
    while i > 0
      invariant 0 <= i <= a.Length
      invariant a[..i] == input[..i]
      invariant a[i..] == SortByDate(input[i..])
    {
      i := i - 1;
      ghost var before := a[..];
      assert before[..i] == input[..i] && before[i] == input[i] by {
        assert before[..i] == before[..i + 1][..i];
        assert input[..i] == input[..i + 1][..i];
      }
      assert before[i + 1..] == SortByDate(input[i + 1..]);
      assert input[i..][1..] == input[i + 1..];
      assert SortByDate(input[i..]) == InsertByDate(input[i], SortByDate(input[i + 1..]));
      InsertInto(a, i);
    }
    assert a[..] == a[0..] && input == input[0..];
  }

  datatype RefreshResult =
    | NothingToAdd         // returns False without writing
    | Refreshed(feed: Feed)
    | RefreshFailed        // raises "Failed to generate feed"

  /** The episodes a full refresh publishes: newest first, at most `maxEpisodes`. */
  function Chosen(episodes: seq<Episode>, maxEpisodes: int): seq<Episode>
    requires maxEpisodes >= 1
  {
    Take(SortByDate(episodes), maxEpisodes)
  }

  /**
    What `update_with_all_episodes` produces: nothing for an empty list,
    otherwise one rendered entry per chosen episode, in the chosen order.
   */
  function RefreshSpec(episodes: seq<Episode>, maxEpisodes: int, channel: Channel): (r: RefreshResult)
    requires maxEpisodes >= 1
    ensures r.NothingToAdd? <==> episodes == []
    ensures r.RefreshFailed? <==>
              episodes != [] && exists k :: 0 <= k < |Chosen(episodes, maxEpisodes)| && !Chosen(episodes, maxEpisodes)[k].mp3.Str?
    ensures r.Refreshed? ==>
              var chosen := Chosen(episodes, maxEpisodes);
              && r.feed.channel == channel
              && |r.feed.entries| == |chosen|
              && forall k :: 0 <= k < |chosen| ==> r.feed.entries[k] == Render(chosen[k])
  {
    if episodes == [] then NothingToAdd
    else
      var chosen := Chosen(episodes, maxEpisodes);
      if exists k :: 0 <= k < |chosen| && !chosen[k].mp3.Str? then RefreshFailed
      else Refreshed(Feed(channel, seq(|chosen|, k requires 0 <= k < |chosen| => Render(chosen[k]))))
  }

  /**
    `update_with_all_episodes`: sorts the caller's list in place, keeps the
    first `maxEpisodes`, and adds an entry for each.
   */
  method UpdateWithAll(episodes: array<Episode>, maxEpisodes: int, channel: Channel)
    returns (r: RefreshResult)
    requires maxEpisodes >= 1
    modifies episodes
    ensures episodes[..] == SortByDate(old(episodes[..]))
    ensures r == RefreshSpec(old(episodes[..]), maxEpisodes, channel)
  {
    ghost var before := episodes[..];
    if episodes.Length == 0 {
      return NothingToAdd;
    }
    SortEpisodesByDate(episodes);
    var chosen := Take(episodes[..], maxEpisodes);
    assert chosen == Chosen(before, maxEpisodes);
    var feed := AddAll(chosen, channel);
    if exists k :: 0 <= k < |chosen| && !chosen[k].mp3.Str? {
      return RefreshFailed;
    }
    r := Refreshed(feed);
  }

  /** The loop of update_with_all_episodes: one entry per chosen episode, in order. */
  method AddAll(chosen: seq<Episode>, channel: Channel) returns (feed: Feed)
    ensures feed.channel == channel
    ensures feed.entries == seq(|chosen|, k requires 0 <= k < |chosen| => Render(chosen[k]))
  {
    var fg := new FeedGenerator(channel);
    var i := 0;
    while i < |chosen|
      modifies fg
      invariant 0 <= i <= |chosen|
      invariant fg.channel == channel
      invariant |fg.entries| == i
      invariant forall k :: 0 <= k < i ==> fg.entries[k] == Render(chosen[k])
    {
      fg.AddEntry(Render(chosen[i]));
      i := i + 1;
    }
    feed := fg.Contents();
  }

  /**
    A full refresh publishes the newest episodes: at most `maxEpisodes`
    (exactly that many when there are enough), newest first, and none left
    out is newer than one kept. Nothing is deduplicated: chosen and dropped
    episodes together are the input, repeats included.
   */
  lemma {:induction false} ChosenAreNewest(episodes: seq<Episode>, maxEpisodes: int)
    requires maxEpisodes >= 1
    ensures
      var sorted := SortByDate(episodes);
      var chosen := Chosen(episodes, maxEpisodes);
      var dropped := sorted[|chosen|..];
      && |chosen| == (if maxEpisodes < |episodes| then maxEpisodes else |episodes|)
      && NewestFirst(chosen)
      && multiset(chosen) + multiset(dropped) == multiset(episodes)
      && (forall c, d :: c in chosen && d in dropped ==> c.dt >= d.dt)
  {
    var sorted := SortByDate(episodes);
    var chosen := Chosen(episodes, maxEpisodes);
    assert |sorted| == |episodes| by {
      assert |multiset(sorted)| == |multiset(episodes)|;
    }
    assert sorted == chosen + sorted[|chosen|..];
    SplitNewestFirst(sorted, |chosen|);
  }

  /** Cutting a newest-first list leaves both halves newest first, and nothing after the cut is newer. */
  lemma SplitNewestFirst(s: seq<Episode>, n: nat)
    requires NewestFirst(s) && n <= |s|
    ensures NewestFirst(s[..n]) && NewestFirst(s[n..])
    ensures forall c, d :: c in s[..n] && d in s[n..] ==> c.dt >= d.dt
  {
    forall c, d | c in s[..n] && d in s[n..] ensures c.dt >= d.dt {
      var i :| 0 <= i < n && s[..n][i] == c;
      var j :| 0 <= j < |s| - n && s[n..][j] == d;
      NewestFirstAt(s, i, n + j);
    }
  }

  /** The refreshed feed lists its entries newest first. */
  lemma RefreshedNewestFirst(episodes: seq<Episode>, maxEpisodes: int, channel: Channel)
    requires maxEpisodes >= 1
    requires RefreshSpec(episodes, maxEpisodes, channel).Refreshed?
    ensures var entries := RefreshSpec(episodes, maxEpisodes, channel).feed.entries;
            forall i :: 0 < i < |entries| ==> entries[i - 1].pubDate.clock >= entries[i].pubDate.clock
  {
    ChosenAreNewest(episodes, maxEpisodes);
  }

  /** The example: timestamps [3, 1, 2] with a cap of 2 publish the ones at 3 and 2, in that order. */
  lemma RefreshExample(a: Episode, b: Episode, c: Episode)
    requires a.dt == 3 && b.dt == 1 && c.dt == 2
    ensures Chosen([a, b, c], 2) == [a, c]
  {
    assert [a, b, c][1..] == [b, c];
    assert [b, c][1..] == [c];
    assert [c][1..] == [];
  }

  /** No dedup by id: the same episode listed twice is published twice. */
  lemma RefreshKeepsRepeats(e: Episode, channel: Channel)
    requires e.mp3.Str?
    ensures RefreshSpec([e, e], 2, channel).Refreshed?
    ensures |RefreshSpec([e, e], 2, channel).feed.entries| == 2
  {
    assert [e, e][1..] == [e];
    assert [e][1..] == [];
    assert Chosen([e, e], 2) == [e, e];
  }
}
