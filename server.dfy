/** The scraper API's page helpers (api/src/server.ts): the about record, the extra-info
    dictionary, the episode list, and the choice among the mirror sites.  What the HTML
    selectors match is given as plain values. */
module Server {
  import opened Wrappers
  import opened Text

  /** The error the helpers throw when anything goes wrong that is not a request failure */
  datatype HttpError = HttpError(status: nat, message: string)

  const InternalServerError := HttpError(500, "Internal server error")

  /** `x || null` on a string: the empty string becomes null */
  function NullIfEmpty(s: string): (r: Option<string>)
    ensures r.None? <==> s == ""
    ensures r.Some? ==> r.value == s
  {
    if s == "" then None else Some(s)
  }

  /** JavaScript's `${x}` on a string that may be undefined */
  function Render(x: Option<string>): string
  {
    match x
    case Some(s) => s
    case None => "undefined"
  }

  // ---------------------------------------------------------------- sub or dub

  /** What the about record says about the available tracks */
  function SubDubLabel(hasSub: bool, hasDub: bool): (r: Option<string>)
    ensures r == Some("both") <==> hasSub && hasDub
    ensures r == Some("sub") <==> hasSub && !hasDub
    ensures r == Some("dub") <==> !hasSub && hasDub
    ensures r.None? <==> !hasSub && !hasDub
  {
    if hasSub && hasDub then Some("both")
    else if hasSub then Some("sub")
    else if hasDub then Some("dub")
    else None
  }

  /** The `subDub` variable of `extract_about_info`, reassigned by three `if`s in turn */
  method ClassifySubDub(hasSub: bool, hasDub: bool) returns (subDub: Option<string>)
    ensures subDub == SubDubLabel(hasSub, hasDub)
    ensures subDub == Some("both") <==> hasSub && hasDub
    ensures subDub == Some("sub") <==> hasSub && !hasDub
    ensures subDub == Some("dub") <==> !hasSub && hasDub
    ensures subDub.None? <==> !hasSub && !hasDub
  {
    subDub := None;
    if hasSub {
      subDub := Some("sub");
    }
    if hasDub {
      subDub := Some("dub");
    }
    if hasSub && hasDub {
      subDub := Some("both");
    }
  }

  // ---------------------------------------------------------------- ids from links

  /** The anime id of the play button's link: the last '-' piece of the last '/' piece;
      an empty id, or no link, is null */
  function AnimeIdFromHref(href: Option<string>): (r: Option<string>)
    ensures r.Some? ==> r.value != "" && '-' !in r.value
  {
    match href
    case None => None
    case Some(h) => NullIfEmpty(LastPiece(LastPiece(h, '/'), '-'))
  }

  /** A play link `<anything>/<slug>-<id>` names the anime `<id>`. */
  lemma AnimeIdOfPlayHref(prefix: string, slug: string, id: string)
    requires '/' !in slug && '/' !in id && '-' !in id && id != ""
    ensures AnimeIdFromHref(Some(prefix + "/" + slug + "-" + id)) == Some(id)
  {
    assert prefix + "/" + slug + "-" + id == prefix + ['/'] + (slug + ['-'] + id);
    assert '/' !in slug + ['-'] + id;
    LastPieceAfter(prefix, '/', slug + ['-'] + id);
    LastPieceAfter(slug, '-', id);
  }

  /** The episode list endpoint for the anime page `id`, numbered by the last '-' piece of `id` */
  function EpisodeListUrl(ajax: string, id: string): string
  {
    ajax + "/v2/episode/list/" + LastPiece(id, '-')
  }

  /** The episode list and the play link number an anime by the same last '-' piece. */
  lemma EpisodeListUrlOfPage(ajax: string, slug: string, id: string)
    requires '/' !in slug && '/' !in id && '-' !in id && id != ""
    ensures EpisodeListUrl(ajax, slug + "-" + id) == ajax + "/v2/episode/list/" + id
    ensures AnimeIdFromHref(Some("/watch/" + slug + "-" + id)) == Some(id)
  {
    assert slug + "-" + id == slug + ['-'] + id;
    LastPieceAfter(slug, '-', id);
    assert "/watch/" + slug + "-" + id == "/watch" + "/" + slug + "-" + id;
    AnimeIdOfPlayHref("/watch", slug, id);
  }

  // ---------------------------------------------------------------- the about record

  /** The `#syncData` JSON, its ids rendered as text; None when it does not parse */
  datatype SyncData = SyncData(malId: Option<string>, anilistId: Option<string>)

  /** What the about selectors match on a page */
  datatype AboutPage = AboutPage(
    syncData: Option<SyncData>, hasSub: bool, hasDub: bool,
    playHref: Option<string>, nameText: string, posterSrc: Option<string>,
    ratingText: string, qualityText: string, subText: string, dubText: string,
    epsText: string, tickText: string, descriptionText: string)

  /** The about record; numbers are kept as the text they are read from */
  datatype AboutInfo = AboutInfo(
    id: Option<string>, malId: Option<string>, alId: Option<string>,
    title: Option<string>, image: Option<string>, rating: Option<string>,
    totalEpisodes: Option<string>, subEpisodes: Option<string>, dubEpisodes: Option<string>,
    category: Option<string>, quality: Option<string>, description: Option<string>,
    subOrDub: Option<string>)

  /** The record of a page on which nothing matched: every field null, but the tracks "sub" */
  const FallbackAboutInfo := AboutInfo(None, None, None, None, None, None, None, None, None,
                                       None, None, None, Some("sub"))

  /** `replace(/[\s\n]+/g, " ")`: every run of white space becomes one space */
  function CollapseWhitespace(s: string): (r: string)
    ensures |r| > 0 <==> |s| > 0
    ensures |r| > 0 ==> r[0] == if IsWhitespace(JavaScript, s[0]) then ' ' else s[0]
    ensures forall i :: 0 <= i < |r| && IsWhitespace(JavaScript, r[i]) ==> r[i] == ' '
    ensures forall i :: 0 <= i < |r| - 1 ==> !(r[i] == ' ' && r[i + 1] == ' ')
    decreases |s|
  {
    if |s| == 0 then ""
    else if IsWhitespace(JavaScript, s[0]) then
      var rest := TrimStart(JavaScript, s);
      TrimStartDropsLeadingSpace(JavaScript, s);
      [' '] + CollapseWhitespace(rest)
    else
      [s[0]] + CollapseWhitespace(s[1..])
  }

  /** A text without white space is left as it is. */
  lemma {:induction false} CollapseWithoutWhitespace(w: string)
    requires forall i :: 0 <= i < |w| ==> !IsWhitespace(JavaScript, w[i])
    ensures CollapseWhitespace(w) == w
  {
    if |w| > 0 {
      CollapseWithoutWhitespace(w[1..]);
    }
  }

  /** A run of white space at the front becomes one space. */
  lemma CollapseLeadingRun(ws: string, b: string)
    requires |ws| > 0 && forall i :: 0 <= i < |ws| ==> IsWhitespace(JavaScript, ws[i])
    requires |b| > 0 ==> !IsWhitespace(JavaScript, b[0])
    ensures CollapseWhitespace(ws + b) == " " + CollapseWhitespace(b)
  {
    assert (ws + b)[0] == ws[0];
    TrimStartSpaceRun(JavaScript, ws, b);
  }

  /** Collapsing distributes over a point where non-space text meets white space. */
  lemma {:induction false} CollapseSplit(a: string, t: string)
    requires |a| > 0 ==> !IsWhitespace(JavaScript, a[|a| - 1])
    requires |t| > 0 && IsWhitespace(JavaScript, t[0])
    ensures CollapseWhitespace(a + t) == CollapseWhitespace(a) + CollapseWhitespace(t)
    decreases |a|
  {
    if |a| == 0 {
      assert a + t == t;
    } else if IsWhitespace(JavaScript, a[0]) {
      TrimStartAppend(JavaScript, a, t);
      var u := TrimStart(JavaScript, a);
      assert (a + t)[0] == a[0];
      CollapseSplit(u, t);
    } else {
      assert (a + t)[0] == a[0];
      assert (a + t)[1..] == a[1..] + t;
      CollapseSplit(a[1..], t);
    }
  }

  /** A run of white space between two texts becomes one space, and each side is collapsed
      on its own. */
  lemma CollapseAround(a: string, ws: string, b: string)
    requires |ws| > 0 && forall i :: 0 <= i < |ws| ==> IsWhitespace(JavaScript, ws[i])
    requires |a| > 0 ==> !IsWhitespace(JavaScript, a[|a| - 1])
    requires |b| > 0 ==> !IsWhitespace(JavaScript, b[0])
    ensures CollapseWhitespace(a + ws + b) == CollapseWhitespace(a) + " " + CollapseWhitespace(b)
  {
    ConcatAssoc(a, ws, b);
    ConcatAssoc(CollapseWhitespace(a), " ", CollapseWhitespace(b));
    var t := ws + b;
    assert t[0] == ws[0];
    CollapseSplit(a, t);
    CollapseLeadingRun(ws, b);
  }

  /** The category of the tick line: the next-to-last word, or null */
  function Category(tickText: string): Option<string>
  {
    var words := Split(CollapseWhitespace(Trim(JavaScript, tickText)), ' ');
    if |words| >= 2 then NullIfEmpty(words[|words| - 2]) else None
  }

  /** A tick line that ends in `<category> <duration>`, the words parted by any white space,
      has that category, whatever the counts before it are. */
  lemma CategoryOfTickLine(counts: string, gap: string, category: string, gap2: string, duration: string)
    requires |counts| > 0 && !IsWhitespace(JavaScript, counts[0]) && !IsWhitespace(JavaScript, counts[|counts| - 1])
    requires |gap| > 0 && forall i :: 0 <= i < |gap| ==> IsWhitespace(JavaScript, gap[i])
    requires |gap2| > 0 && forall i :: 0 <= i < |gap2| ==> IsWhitespace(JavaScript, gap2[i])
    requires |category| > 0 && forall i :: 0 <= i < |category| ==> !IsWhitespace(JavaScript, category[i])
    requires |duration| > 0 && forall i :: 0 <= i < |duration| ==> !IsWhitespace(JavaScript, duration[i])
    ensures Category(counts + gap + category + gap2 + duration) == Some(category)
  {
    var tail := category + gap2 + duration;
    ConcatAssoc(counts + gap, category, gap2);
    ConcatAssoc(counts + gap, category + gap2, duration);
    var tick := counts + gap + tail;
    assert tick[0] == counts[0] && tick[|tick| - 1] == duration[|duration| - 1];
    TrimOfTrimmed(JavaScript, tick);
    CollapseWithoutWhitespace(category);
    CollapseWithoutWhitespace(duration);
    CollapseAround(category, gap2, duration);
    CollapseAround(counts, gap, tail);
    var front := CollapseWhitespace(counts);
    var words := category + [' '] + duration;
    assert ' ' !in category && ' ' !in duration by {
      assert IsWhitespace(JavaScript, ' ');
    }
    assert CollapseWhitespace(tick) == front + [' '] + words;
    SplitAround(category, duration, ' ');
    SplitWithoutSeparator(category, ' ');
    SplitWithoutSeparator(duration, ' ');
    SplitAround(front, words, ' ');
  }


  /** The record that one matched element builds */
  function AboutInfoOf(page: AboutPage, sync: SyncData): (r: AboutInfo)
    ensures r.id == AnimeIdFromHref(page.playHref) && r.malId == sync.malId && r.alId == sync.anilistId
    ensures r.title.Some? && r.image.Some? && r.description.Some?
    ensures page.posterSrc.None? ==> r.image == Some("UNKNOWN")
    ensures r.rating.Some? ==> r.rating.value != ""
    ensures r.quality.Some? ==> r.quality.value != ""
    ensures r.category == Category(page.tickText)
    ensures r.subOrDub == SubDubLabel(page.hasSub, page.hasDub)
  {
    AboutInfo(
      AnimeIdFromHref(page.playHref), sync.malId, sync.anilistId,
      Some(Trim(JavaScript, page.nameText)),
      Some(if page.posterSrc.Some? then Trim(JavaScript, page.posterSrc.value) else "UNKNOWN"),
      NullIfEmpty(Trim(JavaScript, page.ratingText)),
      NullIfEmpty(Trim(JavaScript, page.epsText)),
      NullIfEmpty(Trim(JavaScript, page.subText)),
      NullIfEmpty(Trim(JavaScript, page.dubText)),
      Category(page.tickText),
      NullIfEmpty(Trim(JavaScript, page.qualityText)),
      Some(Trim(JavaScript, page.descriptionText)),
      SubDubLabel(page.hasSub, page.hasDub))
  }

  /** `extract_about_info` for a page where `matched` elements match the selectors; every
      element rebuilds the same record from the whole page */
  method ExtractAboutInfo(matched: nat, page: AboutPage) returns (r: Result<AboutInfo, HttpError>)
    ensures matched == 0 ==> r == Ok(FallbackAboutInfo)
    ensures matched > 0 && page.syncData.None? ==> r == Err(InternalServerError)
    ensures matched > 0 && page.syncData.Some? ==> r == Ok(AboutInfoOf(page, page.syncData.value))
  {
    var info: Option<AboutInfo> := None;
    for i := 0 to matched
      invariant i == 0 ==> info.None?
      invariant i > 0 ==> page.syncData.Some? && info == Some(AboutInfoOf(page, page.syncData.value))
    {
      if page.syncData.None? {
        return Err(InternalServerError);
      }
      var sync := page.syncData.value;
      var subDub := ClassifySubDub(page.hasSub, page.hasDub);
      info := Some(AboutInfo(
        AnimeIdFromHref(page.playHref), sync.malId, sync.anilistId,
        Some(Trim(JavaScript, page.nameText)),
        Some(if page.posterSrc.Some? then Trim(JavaScript, page.posterSrc.value) else "UNKNOWN"),
        NullIfEmpty(Trim(JavaScript, page.ratingText)),
        NullIfEmpty(Trim(JavaScript, page.epsText)),
        NullIfEmpty(Trim(JavaScript, page.subText)),
        NullIfEmpty(Trim(JavaScript, page.dubText)),
        Category(page.tickText),
        NullIfEmpty(Trim(JavaScript, page.qualityText)),
        Some(Trim(JavaScript, page.descriptionText)),
        subDub));
    }
    if info.None? {
      info := Some(FallbackAboutInfo);
    }
    r := Ok(info.value);
  }

  /** The fallback claims a sub track although no tick says so; a matched page with no tick
      claims none. */
  lemma FallbackClaimsSub(page: AboutPage)
    requires page.syncData.Some? && !page.hasSub && !page.hasDub
    ensures FallbackAboutInfo.subOrDub == Some("sub")
    ensures AboutInfoOf(page, page.syncData.value).subOrDub.None?
  {
  }

  // ---------------------------------------------------------------- the extra-info dictionary

  /** The dictionary key of an info heading: the text before its first ':', lowercased, with
      its first space (only) replaced by '_' */
  function NormalizeKey(key: string): (r: string)
    ensures |r| == |Split(key, ':')[0]|
  {
    ReplaceFirst(ToLowerAscii(Split(key, ':')[0]), " ", "_")
  }

  /** Lower-casing keeps spaces and colons where they were. */
  lemma LowerAsciiKeeps(p: string)
    ensures forall i :: 0 <= i < |p| ==> (ToLowerAscii(p)[i] == ' ' <==> p[i] == ' ')
    ensures forall i :: 0 <= i < |p| ==> (ToLowerAscii(p)[i] == ':' <==> p[i] == ':')
  {
  }

  /** Character by character, the key is the heading before its first ':' in lower case,
      except that its first space is '_'. */
  lemma NormalizeKeyShape(key: string)
    ensures var p := Split(key, ':')[0];
      var k := NormalizeKey(key);
      && |p| <= |key| && key[..|p|] == p && (|p| < |key| ==> key[|p|] == ':')
      && |k| == |p|
      && ':' !in k
      && forall i :: 0 <= i < |p| ==> k[i] == if FirstOccurrence(p, ' ', i) then '_' else LowerAscii(p[i])
  {
    var p := Split(key, ':')[0];
    SplitFirstPiece(key, ':');
    SplitPiecesLackSeparator(key, ':');
    var lower := ToLowerAscii(p);
    LowerAsciiKeeps(p);
    ReplaceFirstChar(lower, ' ', '_');
    assert forall i :: 0 <= i < |p| ==> (FirstOccurrence(lower, ' ', i) <==> FirstOccurrence(p, ' ', i));
  }

  /** One `.item-title` element: the texts of its `.item-head` and `.name` children */
  datatype InfoItem = InfoItem(headText: string, nameText: string)

  const ProducersKey := "Producers:"
  const OverviewKey := "Overview:"
  const JapaneseKey := "Japanese:"

  /** What one item contributes, told apart by its trimmed heading */
  datatype InfoEntry =
    | Ordinary(key: string, value: string)
    | ProducersItem
    | OverviewItem
    | JapaneseItem(value: string)

  /** The entry of an item: "Producers:", "Overview:" and "Japanese:" headings are special,
      any other heading is an ordinary key, normalised */
  function EntryOf(item: InfoItem): (e: InfoEntry)
    ensures e.ProducersItem? <==> Trim(JavaScript, item.headText) == ProducersKey
    ensures e.OverviewItem? <==> Trim(JavaScript, item.headText) == OverviewKey
    ensures e.JapaneseItem? <==> Trim(JavaScript, item.headText) == JapaneseKey
    ensures e.Ordinary? ==> e.key == NormalizeKey(Trim(JavaScript, item.headText))
    ensures e.Ordinary? || e.JapaneseItem? ==> e.value == Trim(JavaScript, item.nameText)
  {
    var key := Trim(JavaScript, item.headText);
    var value := Trim(JavaScript, item.nameText);
    if key != ProducersKey && key != OverviewKey && key != JapaneseKey then Ordinary(NormalizeKey(key), value)
    else if key == ProducersKey then ProducersItem
    else if key == JapaneseKey then JapaneseItem(value)
    else OverviewItem
  }

  /** The entries of the items, in page order */
  function Entries(items: seq<InfoItem>): (r: seq<InfoEntry>)
    ensures |r| == |items|
    ensures forall i :: 0 <= i < |r| ==> r[i] == EntryOf(items[i])
  {
    seq(|items|, i requires 0 <= i < |items| => EntryOf(items[i]))
  }

  /** The texts of anchors, each trimmed, in order */
  function TrimAll(texts: seq<string>): (r: seq<string>)
    ensures |r| == |texts|
    ensures forall i :: 0 <= i < |r| ==> r[i] == Trim(JavaScript, texts[i])
  {
    seq(|texts|, i requires 0 <= i < |texts| => Trim(JavaScript, texts[i]))
  }

  /** The dictionary and the producers list after one entry; `producers` are the trimmed
      texts of all anchors under any `.item-title` of the page */
  function ApplyEntry(info: (map<string, string>, seq<string>), e: InfoEntry, producers: seq<string>)
    : (map<string, string>, seq<string>)
  {
    match e
    case Ordinary(key, value) => (info.0[key := value], info.1)
    case ProducersItem => (info.0, info.1 + producers)
    case JapaneseItem(value) => (info.0["japanese_title" := value], info.1)
    case OverviewItem => info
  }

  /** The entries in page order */
  function ApplyEntries(entries: seq<InfoEntry>, producers: seq<string>): (map<string, string>, seq<string>)
  {
    if |entries| == 0 then (map[], [])
    else ApplyEntry(ApplyEntries(entries[..|entries| - 1], producers), Last(entries), producers)
  }

  /** The dictionary built from the entries and the trimmed anchor texts */
  function InfoOfEntries(entries: seq<InfoEntry>, producers: seq<string>, genres: seq<string>)
    : map<string, string>
  {
    var (m, pushed) := ApplyEntries(entries, producers);
    m["genres" := Join(genres, ",")]["producers" := Join(pushed, ",")]
  }

  /** The dictionary `extract_extra_about_info` returns */
  function ExtraInfo(items: seq<InfoItem>, producerAnchors: seq<string>, genreAnchors: seq<string>)
    : map<string, string>
  {
    InfoOfEntries(Entries(items), TrimAll(producerAnchors), TrimAll(genreAnchors))
  }

  /** The number of "Producers:" entries */
  function CountProducers(entries: seq<InfoEntry>): nat
  {
    if |entries| == 0 then 0
    else CountProducers(entries[..|entries| - 1]) + (if Last(entries).ProducersItem? then 1 else 0)
  }

  function Repeat(xs: seq<string>, n: nat): seq<string>
  {
    if n == 0 then [] else Repeat(xs, n - 1) + xs
  }

  /** Every "Producers:" item pushes all producer anchors once more, and no other item
      touches the list. */
  lemma {:induction false} ProducersPerItem(entries: seq<InfoEntry>, producers: seq<string>)
    ensures ApplyEntries(entries, producers).1 == Repeat(producers, CountProducers(entries))
  {
    if |entries| > 0 {
      var prefix := entries[..|entries| - 1];
      ProducersPerItem(prefix, producers);
      if !Last(entries).ProducersItem? {
        assert ApplyEntries(entries, producers).1 == ApplyEntries(prefix, producers).1;
      }
    }
  }

  lemma EntriesAppend(items: seq<InfoItem>, item: InfoItem)
    ensures Entries(items + [item]) == Entries(items) + [EntryOf(item)]
  {
    assert forall i :: 0 <= i < |items| ==> (items + [item])[i] == items[i];
  }

  lemma ApplyEntriesAppend(entries: seq<InfoEntry>, e: InfoEntry, producers: seq<string>)
    ensures ApplyEntries(entries + [e], producers) == ApplyEntry(ApplyEntries(entries, producers), e, producers)
  {
    assert (entries + [e])[..|entries|] == entries;
  }

  /** An "Overview:" item leaves everything as it was. */
  lemma OverviewIsDropped(items: seq<InfoItem>, item: InfoItem, producers: seq<string>)
    requires Trim(JavaScript, item.headText) == OverviewKey
    ensures ApplyEntries(Entries(items + [item]), producers) == ApplyEntries(Entries(items), producers)
  {
    EntriesAppend(items, item);
    ApplyEntriesAppend(Entries(items), EntryOf(item), producers);
  }

  /** A "Japanese:" item sets `japanese_title`, any other ordinary item its normalised key,
      and a "Producers:" item leaves the dictionary as it was. */
  lemma ItemWrites(items: seq<InfoItem>, item: InfoItem, producers: seq<string>)
    ensures var key := Trim(JavaScript, item.headText);
      var before := ApplyEntries(Entries(items), producers).0;
      var after := ApplyEntries(Entries(items + [item]), producers).0;
      && (key == JapaneseKey ==> after == before["japanese_title" := Trim(JavaScript, item.nameText)])
      && (key != ProducersKey && key != OverviewKey && key != JapaneseKey ==>
            after == before[NormalizeKey(key) := Trim(JavaScript, item.nameText)])
      && (key == ProducersKey ==> after == before)
  {
    EntriesAppend(items, item);
    ApplyEntriesAppend(Entries(items), EntryOf(item), producers);
  }

  /** The genres entry lists every genre, and the producers entry lists the producers once
      for every "Producers:" item. */
  lemma InfoLists(entries: seq<InfoEntry>, producers: seq<string>, genres: seq<string>)
    ensures var info := InfoOfEntries(entries, producers, genres);
      && "genres" in info && info["genres"] == Join(genres, ",")
      && "producers" in info && info["producers"] == Join(Repeat(producers, CountProducers(entries)), ",")
  {
    ProducersPerItem(entries, producers);
  }

  /** The trimmed texts of anchors pushed one by one onto `list` */
  method PushTrimmed(list: seq<string>, anchors: seq<string>) returns (pushed: seq<string>)
    ensures pushed == list + TrimAll(anchors)
  {
    ghost var trimmed := TrimAll(anchors);
    pushed := list;
    for k := 0 to |anchors|
      invariant pushed == list + trimmed[..k]
    {
      var text := Trim(JavaScript, anchors[k]);
      assert text == trimmed[k];
      assert trimmed[..k + 1] == trimmed[..k] + [text];
      assert list + trimmed[..k + 1] == (list + trimmed[..k]) + [text];
      pushed := pushed + [text];
    }
    assert trimmed[..|anchors|] == trimmed;
  }

  /** The body of the `.item-title` loop for one item */
  method ApplyItemStep(moreInfo: map<string, string>, producers: seq<string>, item: InfoItem, producerAnchors: seq<string>)
    returns (info: map<string, string>, pushed: seq<string>)
    ensures (info, pushed) == ApplyEntry((moreInfo, producers), EntryOf(item), TrimAll(producerAnchors))
  {
    info, pushed := moreInfo, producers;
    var animeKey := Trim(JavaScript, item.headText);
    var animeValue := Trim(JavaScript, item.nameText);
    if animeKey != ProducersKey && animeKey != OverviewKey && animeKey != JapaneseKey {
      info := info[NormalizeKey(animeKey) := animeValue];
    } else if animeKey == ProducersKey {
      pushed := PushTrimmed(pushed, producerAnchors);
    } else if animeKey == JapaneseKey {
      info := info["japanese_title" := animeValue];
    }
  }

  /** `extract_extra_about_info` */
  method ExtractExtraAboutInfo(items: seq<InfoItem>, producerAnchors: seq<string>, genreAnchors: seq<string>)
    returns (moreInfo: map<string, string>)
    ensures moreInfo == ExtraInfo(items, producerAnchors, genreAnchors)
    ensures "genres" in moreInfo && moreInfo["genres"] == Join(TrimAll(genreAnchors), ",")
    ensures "producers" in moreInfo
    ensures moreInfo["producers"] == Join(Repeat(TrimAll(producerAnchors), CountProducers(Entries(items))), ",")
  {
    moreInfo := map[];
    var producers := [];
    ghost var entries := Entries(items);
    for i := 0 to |items|
      invariant (moreInfo, producers) == ApplyEntries(entries[..i], TrimAll(producerAnchors))
    {
      assert entries[..i + 1][..i] == entries[..i] && Last(entries[..i + 1]) == EntryOf(items[i]);
      moreInfo, producers := ApplyItemStep(moreInfo, producers, items[i], producerAnchors);
    }
    assert entries[..|items|] == entries;
    var genres := PushTrimmed([], genreAnchors);
    assert genres == TrimAll(genreAnchors);
    moreInfo := moreInfo["genres" := Join(genres, ",")];
    moreInfo := moreInfo["producers" := Join(producers, ",")];
    assert moreInfo == InfoOfEntries(entries, TrimAll(producerAnchors), TrimAll(genreAnchors));
    InfoLists(entries, TrimAll(producerAnchors), TrimAll(genreAnchors));
  }

  // ---------------------------------------------------------------- the episode list

  /** One `.ss-list a` anchor of the episode list */
  datatype EpisodeAnchor = EpisodeAnchor(title: Option<string>, dataNumber: Option<string>,
                                         href: Option<string>, isFiller: bool)

  /** An episode of the scraped list; the number is kept as the text it is read from */
  datatype ScrapedEpisode = ScrapedEpisode(title: Option<string>, episodeNo: Option<string>,
                                           id: Option<string>, isFiller: bool)

  /** The episode id: the third '/' piece of the link, its first "?ep=" replaced by
      "$episode$", then "$" and the track label */
  function EpisodeId(href: Option<string>, subOrDub: Option<string>): (r: Option<string>)
    ensures r.Some? <==> href.Some? && |Split(href.value, '/')| >= 3
  {
    match href
    case None => None
    case Some(h) =>
      var pieces := Split(h, '/');
      if |pieces| < 3 then None
      else
        Some(ReplaceFirst(pieces[2], "?ep=", "$episode$") + "$" + Render(subOrDub))
  }

  /** The link `/watch/<slug>?ep=<n>` gives the id `<slug>$episode$<n>$<label>`. */
  lemma EpisodeIdOfWatchLink(slug: string, n: string, subOrDub: Option<string>)
    requires '/' !in slug && '?' !in slug && '/' !in n
    ensures EpisodeId(Some("/watch/" + slug + "?ep=" + n), subOrDub)
         == Some(slug + "$episode$" + n + "$" + Render(subOrDub))
  {
    var rest := slug + "?ep=" + n;
    assert '/' !in rest;
    assert "/watch/" + slug + "?ep=" + n == "" + ['/'] + "watch" + ['/'] + rest;
    SplitThree("", "watch", rest, '/');
    ReplaceFirstAfter(slug, "?ep=", "$episode$", n);
  }

  /** An anime without any track tick labels its episodes "undefined". */
  lemma EpisodeIdWithoutTracks(slug: string, n: string)
    requires '/' !in slug && '?' !in slug && '/' !in n
    ensures EpisodeId(Some("/watch/" + slug + "?ep=" + n), SubDubLabel(false, false))
         == Some(slug + "$episode$" + n + "$undefined")
  {
    var tracks := SubDubLabel(false, false);
    assert Render(tracks) == "undefined";
    EpisodeIdOfWatchLink(slug, n, tracks);
    assert slug + "$episode$" + n + "$" + "undefined" == slug + "$episode$" + n + "$undefined";
  }

  /** The episode one anchor gives: an empty title becomes null */
  function EpisodeOf(anchor: EpisodeAnchor, subOrDub: Option<string>): (r: ScrapedEpisode)
    ensures r.id == EpisodeId(anchor.href, subOrDub)
    ensures r.episodeNo == anchor.dataNumber && r.isFiller == anchor.isFiller
    ensures anchor.title.None? ==> r.title.None?
    ensures r.title.Some? ==> r.title.value != ""
  {
    ScrapedEpisode(
      if anchor.title.Some? then NullIfEmpty(Trim(JavaScript, anchor.title.value)) else None,
      anchor.dataNumber, EpisodeId(anchor.href, subOrDub), anchor.isFiller)
  }

  /** `extract_episodes_info`: one episode per anchor, in page order */
  method ExtractEpisodesInfo(anchors: seq<EpisodeAnchor>, subOrDub: Option<string>)
    returns (episodes: seq<ScrapedEpisode>)
    ensures |episodes| == |anchors|
    ensures forall i :: 0 <= i < |anchors| ==> episodes[i] == EpisodeOf(anchors[i], subOrDub)
  {
    episodes := [];
    for i := 0 to |anchors|
      invariant |episodes| == i
      invariant forall j :: 0 <= j < i ==> episodes[j] == EpisodeOf(anchors[j], subOrDub)
    {
      var anchor := anchors[i];
      episodes := episodes + [ScrapedEpisode(
        if anchor.title.Some? then NullIfEmpty(Trim(JavaScript, anchor.title.value)) else None,
        anchor.dataNumber, EpisodeId(anchor.href, subOrDub), anchor.isFiller)];
    }
  }

  // ---------------------------------------------------------------- mirrors

  /** A site of `websites_collection`: its address and its named lists of clones */
  datatype WebsiteConfig = WebsiteConfig(base: string, clones: Option<seq<(string, seq<string>)>>)

  const AniWatchBase := "https://aniwatchtv.to"

  const WebsitesCollection: map<string, WebsiteConfig> := map[
    "AniWatch" := WebsiteConfig(AniWatchBase, Some([("HiAnime", ["https://hianime.to", "https://hianime.nz", "https://hianime.sx"])])),
    "GogoAnime" := WebsiteConfig("https://gogoanime3.co", None)]

  /** The clone lists one after another, in key order */
  function Flatten(lists: seq<(string, seq<string>)>): seq<string>
  {
    if |lists| == 0 then [] else Flatten(lists[..|lists| - 1]) + Last(lists).1
  }

  /** `clones_array`: the site's own address, then every clone */
  method BuildClonesArray(site: WebsiteConfig) returns (clonesArray: seq<string>)
    ensures clonesArray == [site.base] + if site.clones.Some? then Flatten(site.clones.value) else []
  {
    clonesArray := [];
    clonesArray := clonesArray + [site.base];
    if site.clones.Some? {
      var siteClones := site.clones.value;
      for k := 0 to |siteClones|
        invariant clonesArray == [site.base] + Flatten(siteClones[..k])
      {
        assert siteClones[..k + 1][..k] == siteClones[..k];
        var values := siteClones[k].1;
        clonesArray := clonesArray + values;
      }
      assert siteClones[..|siteClones|] == siteClones;
    }
  }

  /** The mirrors probed, in order: AniWatch, then the three HiAnime addresses. */
  lemma AniWatchMirrors()
    ensures var site := WebsitesCollection["AniWatch"];
      [site.base] + Flatten(site.clones.value)
      == ["https://aniwatchtv.to", "https://hianime.to", "https://hianime.nz", "https://hianime.sx"]
  {
    var lists := WebsitesCollection["AniWatch"].clones.value;
    assert lists[..0] == [];
  }

  /** The endpoints of a mirror */
  datatype AniWatchConfig = AniWatchConfig(base: string, home: string, search: string, genre: string, ajax: string)

  /** The path below a base */
  predicate Below(base: string, url: string, path: string)
  {
    url == base + path
  }

  /** `makeAniWatchObj`: every endpoint lies below the base, and no two of them coincide */
  function MakeAniWatchObj(aniwatchBase: string): (c: AniWatchConfig)
    ensures c.base == aniwatchBase
    ensures Below(aniwatchBase, c.home, "/home") && Below(aniwatchBase, c.search, "/search")
    ensures Below(aniwatchBase, c.genre, "/genre") && Below(aniwatchBase, c.ajax, "/ajax")
    ensures c.home != c.search && c.home != c.genre && c.home != c.ajax
    ensures c.search != c.genre && c.search != c.ajax && c.genre != c.ajax
  {
    var c := AniWatchConfig(aniwatchBase, aniwatchBase + "/home", aniwatchBase + "/search",
                            aniwatchBase + "/genre", aniwatchBase + "/ajax");
    var n := |aniwatchBase|;
    assert c.home[n + 1] == 'h' && c.search[n + 1] == 's' && c.genre[n + 1] == 'g' && c.ajax[n + 1] == 'a';
    c
  }

  /** The first reachable address of `urls` */
  function FirstReachable(urls: seq<string>, reachable: string -> bool): (r: Option<nat>)
    ensures r.Some? ==> r.value < |urls| && reachable(urls[r.value])
    ensures r.Some? ==> forall j :: 0 <= j < r.value ==> !reachable(urls[j])
    ensures r.None? <==> forall j :: 0 <= j < |urls| ==> !reachable(urls[j])
  {
    if |urls| == 0 then None
    else if reachable(urls[0]) then Some(0)
    else
      match FirstReachable(urls[1..], reachable)
      case None => None
      case Some(k) => Some(k + 1)
  }

  /** The module state of the scraper: the mirror in use and the mirrors to probe */
  class AniWatchSites {
    var aniwatchBase: string
    var clonesArray: seq<string>

    /** The module's start-up: AniWatch's own address, and its clones after it */
    constructor ()
      ensures aniwatchBase == AniWatchBase
      ensures clonesArray == ["https://aniwatchtv.to", "https://hianime.to", "https://hianime.nz", "https://hianime.sx"]
    {
      var aniwatch := WebsitesCollection["AniWatch"];
      aniwatchBase := aniwatch.base;
      var mirrors := BuildClonesArray(aniwatch);
      AniWatchMirrors();
      clonesArray := mirrors;
    }

    /** `URL_fn`: move to the first reachable mirror, or stay on the current one when none
        answers; `reachable` is the outcome of the HEAD probe of each address */
    method UrlFn(reachable: string -> bool) returns (config: AniWatchConfig)
      modifies this
      ensures clonesArray == old(clonesArray)
      ensures aniwatchBase == match FirstReachable(old(clonesArray), reachable)
                              case Some(i) => old(clonesArray)[i]
                              case None => old(aniwatchBase)
      ensures config == MakeAniWatchObj(aniwatchBase)
    {
      var i := 0;
      while i < |clonesArray|
        invariant 0 <= i <= |clonesArray|
        invariant clonesArray == old(clonesArray) && aniwatchBase == old(aniwatchBase)
        invariant forall j :: 0 <= j < i ==> !reachable(clonesArray[j])
      {
        var url := clonesArray[i];
        if reachable(url) {
          aniwatchBase := url;
          break;
        }
        i := i + 1;
      }
      config := MakeAniWatchObj(aniwatchBase);
    }
  }
}
