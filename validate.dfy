/**
  The feed check of tests/test_scraper.py: `validate_feed` over a parsed XML
  tree, and the script's `main`, which checks every feed file. `ET.parse` and
  `glob` are not modelled: a file is given as its parsed tree, or None when it
  is not well-formed XML, and the files as a sequence.
 */
module Validate {
  import opened Wrappers

  /** An ElementTree element: tag, text and child elements in document order. */
  datatype Element = Element(tag: string, text: Option<string>, children: seq<Element>)

  /** Which check decided; only `Valid` makes `validate_feed` return True. */
  datatype Verdict =
    | Unparsable     // "FAILED to parse XML"
    | NotRss         // "Root tag is not <rss>"
    | NoChannel      // "No <channel> element found"
    | EmptyTitle     // "Empty <title> in channel"
    | NoItems        // "No <item> entries found"
    | Valid(items: nat)

  // ---------------------------------------------------------------------------
  // String helpers

  const Capitals: string := "ABCDEFGHIJKLMNOPQRSTUVWXYZ"
  const Smalls: string := "abcdefghijklmnopqrstuvwxyz"

  /**
    `str.lower()` on ASCII letters: each capital becomes the small letter at
    the same place in the alphabet, no capital is left, and every other
    character is kept.
   */
  function Lower(s: string): (r: string)
    ensures |r| == |s|
    ensures forall i, k :: 0 <= i < |s| && 0 <= k < 26 && s[i] == Capitals[k] ==> r[i] == Smalls[k]
    ensures forall i :: 0 <= i < |s| ==> !('A' <= r[i] <= 'Z')
    ensures forall i :: 0 <= i < |s| && !('A' <= s[i] <= 'Z') ==> r[i] == s[i]
  {
    seq(|s|, i requires 0 <= i < |s| => if 'A' <= s[i] <= 'Z' then (s[i] as int + 32) as char else s[i])
  }

  /** Lower-casing twice is lower-casing once. */
  lemma LowerIdempotent(s: string)
    ensures Lower(Lower(s)) == Lower(s)
  {
  }

  predicate EndsWith(s: string, suffix: string) {
    |suffix| <= |s| && s[|s| - |suffix|..] == suffix
  }

  /**
    The root-tag test `tag.lower().endswith('rss')`: the tag's last three
    characters spell "rss" in any mix of cases (a namespaced `{…}rss` passes).
   */
  lemma RssTagCaseInsensitive(tag: string)
    ensures EndsWith(Lower(tag), "rss") <==>
              && |tag| >= 3
              && tag[|tag| - 3] in {'r', 'R'}
              && tag[|tag| - 2] in {'s', 'S'}
              && tag[|tag| - 1] in {'s', 'S'}
  {
    var low := Lower(tag);
    if |tag| >= 3 {
      assert low[|tag| - 3..] == [low[|tag| - 3], low[|tag| - 2], low[|tag| - 1]];
    }
  }

  /** The characters Python's `str.isspace()` accepts, which `strip()` removes. */
  predicate IsSpace(c: char) {
    || c == ' '
    || '\t' <= c <= '\r'                  // tab, line feed, vertical tab, form feed, carriage return
    || '\U{1C}' <= c <= '\U{1F}'          // information separators
    || c == '\U{85}' || c == '\U{A0}' || c == '\U{1680}'
    || '\U{2000}' <= c <= '\U{200A}'
    || c == '\U{2028}' || c == '\U{2029}' || c == '\U{202F}' || c == '\U{205F}' || c == '\U{3000}'
  }

  /** `not s.strip()`: nothing but whitespace (the empty string included). */
  predicate Blank(s: string) {
    forall i :: 0 <= i < |s| ==> IsSpace(s[i])
  }

  // ---------------------------------------------------------------------------
  // ElementTree lookups

  /** The position of the first child with that tag, or the number of children if none has it. */
  function FirstWithTag(children: seq<Element>, tag: string): (r: nat)
    ensures r <= |children|
    ensures forall k :: 0 <= k < r ==> children[k].tag != tag
    ensures r < |children| ==> children[r].tag == tag
    decreases |children|
  {
    if children == [] || children[0].tag == tag then 0
    else 1 + FirstWithTag(children[1..], tag)
  }

  /** `e.find(tag)`: the first child with that tag. */
  function FindChild(children: seq<Element>, tag: string): Option<Element> {
    var i := FirstWithTag(children, tag);
    if i < |children| then Some(children[i]) else None
  }

  /** `e.findtext(tag)`: None without such a child, "" for a child with no text. */
  function FindText(e: Element, tag: string): Option<string> {
    match FindChild(e.children, tag)
    case None => None
    case Some(child) => Some(child.text.GetOr(""))
  }

  /** The positions of the children with that tag. */
  ghost function TagPositions(children: seq<Element>, tag: string): set<int> {
    set i | 0 <= i < |children| && children[i].tag == tag
  }

  /** `e.findall(tag)`: every child with that tag, in order. */
  function FindAll(children: seq<Element>, tag: string): (r: seq<Element>)
    ensures |r| <= |children|
    ensures |r| == 0 <==> forall i :: 0 <= i < |children| ==> children[i].tag != tag
    ensures forall k :: 0 <= k < |r| ==> r[k].tag == tag
    ensures |r| == |TagPositions(children, tag)|
    decreases |children|
  {
    if children == [] then []
    else
      var init := children[..|children| - 1];
      var last := children[|children| - 1];
      assert TagPositions(children, tag) ==
             TagPositions(init, tag) + (if last.tag == tag then {|children| - 1} else {});
      FindAll(init, tag) + (if last.tag == tag then [last] else [])
  }

  // ---------------------------------------------------------------------------
  // validate_feed

  /**
    The guard checks in their order; the first that fails decides. Only an
    unparsable file gives `Unparsable`, and a valid verdict counts the items,
    at least one.
   */
  function Check(doc: Option<Element>): (r: Verdict)
    ensures r == Unparsable <==> doc.None?
    ensures r.Valid? ==>
              && doc.Some? && FindChild(doc.value.children, "channel").Some?
              && 0 < r.items <= |FindChild(doc.value.children, "channel").value.children|
              && r.items == |TagPositions(FindChild(doc.value.children, "channel").value.children, "item")|
  {
    match doc
    case None => Unparsable
    case Some(root) =>
      if !EndsWith(Lower(root.tag), "rss") then NotRss
      else
        match FindChild(root.children, "channel")
        case None => NoChannel
        case Some(channel) =>
          var title := FindText(channel, "title");
          if title.None? || Blank(title.value) then EmptyTitle
          else
            var items := FindAll(channel.children, "item");
            if |items| == 0 then NoItems else Valid(|items|)
  }

  /**
    `validate_feed`: True exactly when the file parses, the root tag ends in
    "rss" (any case), and its first `channel` child has a title with
    something besides whitespace and at least one `item` child.
   */
  function ValidateFeed(doc: Option<Element>): (ok: bool)
    ensures ok <==>
              && doc.Some?
              && EndsWith(Lower(doc.value.tag), "rss")
              && FindChild(doc.value.children, "channel").Some?
              && var channel := FindChild(doc.value.children, "channel").value;
                 && FindText(channel, "title").Some?
                 && (exists i :: 0 <= i < |FindText(channel, "title").value| && !IsSpace(FindText(channel, "title").value[i]))
                 && (exists i :: 0 <= i < |channel.children| && channel.children[i].tag == "item")
  {
    Check(doc).Valid?
  }

  /** Whether each check fails for the reason it names, with every earlier check passed. */
  lemma FirstFailureDecides(doc: Option<Element>)
    ensures Check(doc) == Unparsable <==> doc.None?
    ensures Check(doc) == NotRss <==> doc.Some? && !EndsWith(Lower(doc.value.tag), "rss")
    ensures Check(doc) == NoChannel <==>
              doc.Some? && EndsWith(Lower(doc.value.tag), "rss")
              && forall i :: 0 <= i < |doc.value.children| ==> doc.value.children[i].tag != "channel"
    ensures Check(doc) == EmptyTitle <==>
              && doc.Some? && EndsWith(Lower(doc.value.tag), "rss")
              && FindChild(doc.value.children, "channel").Some?
              && var title := FindText(FindChild(doc.value.children, "channel").value, "title");
                 title.None? || forall i :: 0 <= i < |title.value| ==> IsSpace(title.value[i])
    ensures Check(doc) == NoItems <==>
              && doc.Some? && EndsWith(Lower(doc.value.tag), "rss")
              && FindChild(doc.value.children, "channel").Some?
              && var channel := FindChild(doc.value.children, "channel").value;
                 && FindText(channel, "title").Some? && !Blank(FindText(channel, "title").value)
                 && FindAll(channel.children, "item") == []
    ensures Check(doc).Valid? ==> Check(doc).items > 0
  {
  }

  // ---------------------------------------------------------------------------
  // The script's main

  /**
    `main`: with no files it fails at once; otherwise every file is checked
    (there is no early exit) and it fails if any one is invalid.
   */
  method ValidateAll(files: seq<Option<Element>>) returns (ok: bool, verdicts: seq<Verdict>)
    ensures ok <==> files != [] && forall i :: 0 <= i < |files| ==> ValidateFeed(files[i])
    ensures files != [] ==> |verdicts| == |files| && forall i :: 0 <= i < |files| ==> verdicts[i] == Check(files[i])
    ensures files == [] ==> verdicts == []
  {
    verdicts := [];
    if files == [] {
      return false, verdicts;
    }
    var allOk := true;
    var i := 0;
    while i < |files|
      invariant 0 <= i <= |files|
      invariant |verdicts| == i
      invariant forall k :: 0 <= k < i ==> verdicts[k] == Check(files[k])
      invariant allOk <==> forall k :: 0 <= k < i ==> ValidateFeed(files[k])
    {
      var verdict := Check(files[i]);
      if !verdict.Valid? {
        allOk := false;
      }
      verdicts := verdicts + [verdict];
      i := i + 1;
    }
    ok := allOk;
  }
}
