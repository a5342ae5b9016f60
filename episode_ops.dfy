/** The proxy pool, the retrying detail fetch, the `episodes` table and the chunked batch that
    stores every harvested anime with its episodes (src/operations/episode_ops.rs). */
module EpisodeOps {
  import opened Wrappers
  import opened Text
  import opened Transport
  import opened AnimeOps

  // ---------------------------------------------------------------- proxy pool

  /** An outbound proxy, as the address text of one line of a proxy list */
  datatype Proxy = Proxy(address: string)

  /** An address as the list parser produces it: non-empty, no whitespace at either end */
  predicate WellTrimmed(address: string)
  {
    |address| > 0 && !IsWhitespace(Rust, address[0]) && !IsWhitespace(Rust, Last(address))
  }

  /** The `filter_map` of `fetch_proxy_list` over a list of lines */
  function ProxiesOfLines(lines: seq<string>): (r: seq<Proxy>)
    ensures |r| <= |lines|
    ensures forall i :: 0 <= i < |r| ==> WellTrimmed(r[i].address)
  {
    if |lines| == 0 then []
    else
      var line := Trim(Rust, lines[0]);
      var rest := ProxiesOfLines(lines[1..]);
      if line == [] then rest
      else
        TrimShape(Rust, lines[0]);
        assert WellTrimmed(line);
        assert forall i :: 1 <= i < |rest| + 1 ==> ([Proxy(line)] + rest)[i] == rest[i - 1];
        [Proxy(line)] + rest
  }

  /** The proxies of a downloaded list: the trimmed lines that are not blank, in order */
  function ParseProxyList(text: string): (r: seq<Proxy>)
    ensures |r| <= |Split(text, '\n')|
    ensures forall i :: 0 <= i < |r| ==> WellTrimmed(r[i].address)
  {
    ProxiesOfLines(Split(text, '\n'))
  }

  lemma {:induction false} ProxiesOfLinesAppend(a: seq<string>, b: seq<string>)
    ensures ProxiesOfLines(a + b) == ProxiesOfLines(a) + ProxiesOfLines(b)
  {
    if |a| > 0 {
      assert (a + b)[1..] == a[1..] + b;
      ProxiesOfLinesAppend(a[1..], b);
    } else {
      assert a + b == b;
    }
  }

  /** Parsing two texts joined by a newline gives the proxies of the first, then those of the second. */
  lemma ParseProxyListAppend(a: string, b: string)
    ensures ParseProxyList(a + "\n" + b) == ParseProxyList(a) + ParseProxyList(b)
  {
    assert a + "\n" + b == a + ['\n'] + b;
    SplitAround(a, b, '\n');
    ProxiesOfLinesAppend(Split(a, '\n'), Split(b, '\n'));
  }

  /** A single line gives its trimmed text, or nothing when it is blank. */
  lemma ParseProxyListLine(line: string)
    requires '\n' !in line
    ensures ParseProxyList(line) == if Trim(Rust, line) == [] then [] else [Proxy(Trim(Rust, line))]
  {
    SplitWithoutSeparator(line, '\n');
  }

  /** `fetch_proxy_list`: the body is parsed whatever the status; only a failed request or
      a failed body read is an error */
  function FetchProxyList(reply: Reply<string>): (r: Result<seq<Proxy>, CustomError>)
    ensures r.Ok? <==> reply.Response? && reply.body.Decoded?
    ensures r.Ok? ==> r.value == ParseProxyList(reply.body.value)
    ensures r.Err? ==> r.error.ReqwestError?
  {
    match reply
    case TransportFailure(e) => Err(ReqwestError(e))
    case Response(_, Malformed(e)) => Err(ReqwestError(e))
    case Response(_, Decoded(text)) => Ok(ParseProxyList(text))
  }

  /** `load_proxies`: the three lists are all needed; the pool is the SOCKS5 list, then the
      SOCKS4 list, then the HTTP list, with nothing removed */
  method LoadProxies(sock5: Reply<string>, sock4: Reply<string>, http: Reply<string>)
    returns (r: Result<seq<Proxy>, CustomError>)
    ensures r.Ok? <==> FetchProxyList(sock5).Ok? && FetchProxyList(sock4).Ok? && FetchProxyList(http).Ok?
    ensures r.Ok? ==> r.value == FetchProxyList(sock5).value + FetchProxyList(sock4).value + FetchProxyList(http).value
    ensures r.Err? ==> r.error.ReqwestError?
  {
    var sock5Proxies := FetchProxyList(sock5);
    var sock4Proxies := FetchProxyList(sock4);
    var httpProxies := FetchProxyList(http);
    if sock5Proxies.Err? {
      return Err(sock5Proxies.error);
    }
    if sock4Proxies.Err? {
      return Err(sock4Proxies.error);
    }
    if httpProxies.Err? {
      return Err(httpProxies.error);
    }
    r := Ok(sock5Proxies.value + sock4Proxies.value + httpProxies.value);
  }

  /** `get_random_proxy`; the random number generator's draw is `pick` */
  function GetRandomProxy(proxies: seq<Proxy>, pick: nat): (r: Option<Proxy>)
    ensures r.None? <==> |proxies| == 0
    ensures r.Some? ==> r.value in proxies
  {
    if |proxies| == 0 then None else Some(proxies[pick % |proxies|])
  }

  /** Every proxy of the pool is returned by some draw. */
  lemma EveryProxyCanBeDrawn(proxies: seq<Proxy>, i: nat)
    requires i < |proxies|
    ensures GetRandomProxy(proxies, i) == Some(proxies[i])
  {
    assert i % |proxies| == i;
  }

  // ---------------------------------------------------------------- the decoded detail record

  /** One episode of a detail payload (`EpisodeDetails`); every field is optional */
  datatype EpisodeDetails = EpisodeDetails(
    id: Option<string>, title: Option<string>, isFiller: Option<bool>, episodeNo: Option<Int32>)

  /** A detail payload (`AnimeDetails`): a required id and optional everything else */
  datatype AnimeDetails = AnimeDetails(
    id: Int32, title: Option<string>, description: Option<string>,
    malId: Option<Int32>, alId: Option<Int32>, japaneseTitle: Option<string>,
    synonyms: Option<string>, image: Option<string>, category: Option<string>,
    rating: Option<string>, quality: Option<string>, duration: Option<string>,
    premiered: Option<string>, aired: Option<string>, status: Option<string>,
    malScore: Option<string>, studios: Option<string>, producers: Option<string>,
    genres: Option<string>, subEpisodes: Option<Int32>, dubEpisodes: Option<Int32>,
    totalEpisodes: Option<Int32>, subOrDub: Option<string>,
    episodes: Option<seq<EpisodeDetails>>)

  /** A row of the `episodes` table */
  datatype Episode = Episode(id: string, title: string, isFiller: bool, episodeNo: Int32, animeId: Int32)

  const UnknownTitle := "Unknown Title"
  const NoDescription := "No description available"

  /** The `Anime` row the batch builds from a payload: a missing title or description gets
      its placeholder, every other missing field its type's default */
  function ToAnimeRecord(d: AnimeDetails): (a: Anime)
    ensures a.id == d.id
  {
    var title := d.title.Or(Some(UnknownTitle));
    var description := d.description.Or(Some(NoDescription));
    Anime(
      d.id, title.UnwrapOr(""), description.UnwrapOr(""),
      d.malId.UnwrapOr(0), d.alId.UnwrapOr(0),
      Some(d.japaneseTitle.UnwrapOr("")), Some(d.synonyms.UnwrapOr("")),
      d.image.UnwrapOr(""), d.category.UnwrapOr(""), d.rating.UnwrapOr(""),
      d.quality.UnwrapOr(""), d.duration.UnwrapOr(""), d.premiered.UnwrapOr(""),
      d.aired.UnwrapOr(""), d.status.UnwrapOr(""), d.malScore.UnwrapOr(""),
      d.studios.UnwrapOr(""), d.producers.UnwrapOr(""), d.genres.UnwrapOr(""),
      d.subEpisodes.UnwrapOr(0), d.dubEpisodes.UnwrapOr(0), d.totalEpisodes.UnwrapOr(0),
      d.subOrDub.UnwrapOr(""))
  }

  /** The `Episode` row built from an episode of a payload whose id is `animeId` */
  function ToEpisodeRecord(e: EpisodeDetails, animeId: Int32): (r: Episode)
    ensures r.animeId == animeId
  {
    Episode(e.id.UnwrapOr(""), e.title.UnwrapOr(""), e.isFiller.UnwrapOr(false),
            e.episodeNo.UnwrapOr(0), animeId)
  }

  /** The payload that carries every column of a row */
  function DetailsOf(a: Anime, episodes: Option<seq<EpisodeDetails>>): AnimeDetails
  {
    AnimeDetails(
      a.id, Some(a.title), Some(a.description), Some(a.malId), Some(a.alId),
      a.japaneseTitle, a.synonyms, Some(a.image), Some(a.category), Some(a.rating),
      Some(a.quality), Some(a.duration), Some(a.premiered), Some(a.aired), Some(a.status),
      Some(a.malScore), Some(a.studios), Some(a.producers), Some(a.genres),
      Some(a.subEpisodes), Some(a.dubEpisodes), Some(a.totalEpisodes), Some(a.subOrDub),
      episodes)
  }

  /** A payload that carries every field maps to the row it came from. */
  lemma RecordOfFullDetails(a: Anime, episodes: Option<seq<EpisodeDetails>>)
    requires a.japaneseTitle.Some? && a.synonyms.Some?
    ensures ToAnimeRecord(DetailsOf(a, episodes)) == a
  {
  }

  /** A payload with nothing but its id maps to the placeholder row. */
  lemma RecordOfBareDetails(id: Int32)
    ensures ToAnimeRecord(AnimeDetails(id, None, None, None, None, None, None, None, None,
                                       None, None, None, None, None, None, None, None, None,
                                       None, None, None, None, None, None))
         == Anime(id, "Unknown Title", "No description available", 0, 0, Some(""), Some(""),
                  "", "", "", "", "", "", "", "", "", "", "", "", 0, 0, 0, "")
  {
  }

  /** A present title or description is kept as it is, even when it is empty. */
  lemma RecordKeepsPresentText(d: AnimeDetails)
    ensures d.title.Some? ==> ToAnimeRecord(d).title == d.title.value
    ensures d.title.None? ==> ToAnimeRecord(d).title == UnknownTitle
    ensures d.description.Some? ==> ToAnimeRecord(d).description == d.description.value
    ensures d.description.None? ==> ToAnimeRecord(d).description == NoDescription
    ensures ToAnimeRecord(d).japaneseTitle.Some? && ToAnimeRecord(d).synonyms.Some?
  {
  }

  // ---------------------------------------------------------------- the episodes table

  /** The `episodes` table, keyed by the episode id string */
  class EpisodeTable {
    var rows: map<string, Episode>

    ghost predicate Valid()
      reads this
    {
      forall k :: k in rows ==> rows[k].id == k
    }

    constructor ()
      ensures Valid() && rows == map[]
    {
      rows := map[];
    }

    /** `add_new_episode`: check for the id, then update every other column or insert */
    method AddNewEpisode(newEpisode: Episode, fault: Option<string>) returns (r: Result<(), string>)
      requires Valid()
      modifies this
      ensures Valid()
      ensures fault.Some? ==> r == Err(fault.value) && rows == old(rows)
      ensures fault.None? ==> r == Ok(()) && rows == old(rows)[newEpisode.id := newEpisode]
    {
      if fault.Some? {
        return Err(fault.value);
      }
      var found := newEpisode.id in rows;
      if found {
        var row := rows[newEpisode.id];
        rows := rows[newEpisode.id := row.(title := newEpisode.title, isFiller := newEpisode.isFiller,
                                           episodeNo := newEpisode.episodeNo, animeId := newEpisode.animeId)];
      } else {
        rows := rows[newEpisode.id := newEpisode];
      }
      r := Ok(());
    }
  }

  /** Storing an episode twice leaves the table as storing it once. */
  method ReingestEpisode(table: EpisodeTable, e: Episode)
    requires table.Valid()
    modifies table
    ensures table.Valid()
    ensures table.rows == old(table.rows)[e.id := e]
    ensures e.id in table.rows && table.rows[e.id] == e
  {
    var _ := table.AddNewEpisode(e, None);
    ghost var once := table.rows;
    var _ := table.AddNewEpisode(e, None);
    assert table.rows == once;
  }

  // ---------------------------------------------------------------- the retrying fetch

  /** `max_attempts` of `fetch_anime_details` */
  const MaxAttempts: nat := 5

  /** The outcome of a fetch and the proxies through which a request was sent, in order */
  datatype Trace<T> = Trace(result: Result<T, CustomError>, used: seq<Proxy>)

  function Prepend<T>(used: seq<Proxy>, t: Trace<T>): Trace<T>
  {
    Trace(t.result, used + t.used)
  }

  /** The retry loop from attempt `attempts` on.  Attempt k draws `pick(k)` and its request
      produces `net(k, proxy)`. */
  function FetchRun<T>(proxies: seq<Proxy>, pick: nat -> nat, net: (nat, Proxy) -> Attempt<T>,
                       attempts: nat, max: nat): (t: Trace<T>)
    ensures attempts + |t.used| <= max || t.used == []
    ensures forall i :: 0 <= i < |t.used| ==> t.used[i] in proxies
    decreases max - attempts
  {
    if attempts >= max then Trace(Err(FailedToFetchAfterRetries), [])
    else
      match GetRandomProxy(proxies, pick(attempts))
      case None => Trace(Err(NoProxiesAvailable), [])
      case Some(proxy) =>
        match net(attempts, proxy)
        case ClientBuildFailed(e) => Trace(Err(ReqwestError(e)), [])
        case Sent(TransportFailure(_)) => Prepend([proxy], FetchRun(proxies, pick, net, attempts + 1, max))
        case Sent(Response(status, body)) =>
          if !IsSuccess(status) then Prepend([proxy], FetchRun(proxies, pick, net, attempts + 1, max))
          else
            match body
            case Decoded(v) => Trace(Ok(v), [proxy])
            case Malformed(e) => Trace(Err(ReqwestError(e)), [proxy])
  }

  /** The proxy drawn at attempt k */
  function Drawn(proxies: seq<Proxy>, pick: nat -> nat, k: nat): Proxy
    requires |proxies| > 0
  {
    proxies[pick(k) % |proxies|]
  }

  /** One attempt of the loop, case by case */
  lemma FetchRunStep<T>(proxies: seq<Proxy>, pick: nat -> nat, net: (nat, Proxy) -> Attempt<T>,
                        attempts: nat, max: nat)
    requires attempts < max
    ensures var t := FetchRun(proxies, pick, net, attempts, max);
      && (|proxies| == 0 ==> t == Trace(Err(NoProxiesAvailable), []))
      && (|proxies| > 0 ==>
            var p := Drawn(proxies, pick, attempts);
            var a := net(attempts, p);
            && (a.ClientBuildFailed? ==> t == Trace(Err(ReqwestError(a.reason)), []))
            && (Retryable(a) ==> t == Prepend([p], FetchRun(proxies, pick, net, attempts + 1, max)))
            && (a.Sent? && a.reply.Response? && IsSuccess(a.reply.status) ==>
                  t == Trace(if a.reply.body.Decoded? then Ok(a.reply.body.value)
                             else Err(ReqwestError(a.reply.body.reason)), [p])))
  {
  }

  /** `fetch_anime_details`: up to five attempts, each through a freshly drawn proxy */
  method FetchAnimeDetails(proxies: seq<Proxy>, pick: nat -> nat, net: (nat, Proxy) -> Attempt<AnimeDetails>)
    returns (r: Result<AnimeDetails, CustomError>, used: seq<Proxy>)
    ensures Trace(r, used) == FetchRun(proxies, pick, net, 0, MaxAttempts)
    ensures |used| <= MaxAttempts
    ensures forall i :: 0 <= i < |used| ==> used[i] in proxies
  {
    var attempts: nat := 0;
    used := [];
    while attempts < MaxAttempts
      invariant attempts <= MaxAttempts && |used| == attempts
      invariant FetchRun(proxies, pick, net, 0, MaxAttempts)
             == Prepend(used, FetchRun(proxies, pick, net, attempts, MaxAttempts))
    {
      FetchRunStep(proxies, pick, net, attempts, MaxAttempts);
      var chosen := GetRandomProxy(proxies, pick(attempts));
      if chosen.None? {
        return Err(NoProxiesAvailable), used;
      }
      var proxy := chosen.value;
      var attempt := net(attempts, proxy);
      if attempt.ClientBuildFailed? {
        return Err(ReqwestError(attempt.reason)), used;
      }
      PrependTwice(used, proxy, FetchRun(proxies, pick, net, attempts + 1, MaxAttempts));
      used := used + [proxy];
      var reply := attempt.reply;
      if reply.Response? && IsSuccess(reply.status) {
        match reply.body
        case Decoded(v) =>
          return Ok(v), used;
        case Malformed(e) =>
          return Err(ReqwestError(e)), used;
      }
      attempts := attempts + 1;
    }
    r := Err(FailedToFetchAfterRetries);
  }

  lemma PrependTwice<T>(used: seq<Proxy>, p: Proxy, t: Trace<T>)
    ensures Prepend(used, Prepend([p], t)) == Prepend(used + [p], t)
  {
    assert used + ([p] + t.used) == (used + [p]) + t.used;
  }

  /** An empty pool ends the fetch before any request, whatever attempt it is. */
  lemma FetchRunEmptyPool<T>(pick: nat -> nat, net: (nat, Proxy) -> Attempt<T>, attempts: nat, max: nat)
    requires attempts < max
    ensures FetchRun([], pick, net, attempts, max) == Trace(Err(NoProxiesAvailable), [])
  {
  }

  /** When every request fails in transport or with a non-2xx status, the loop makes exactly
      one request per remaining attempt and then gives up. */
  lemma {:induction false} FetchRunRetryCap<T>(proxies: seq<Proxy>, pick: nat -> nat,
                                             net: (nat, Proxy) -> Attempt<T>, attempts: nat, max: nat)
    requires |proxies| > 0 && attempts <= max
    requires forall k, p :: attempts <= k < max && p in proxies ==> Retryable(net(k, p))
    ensures FetchRun(proxies, pick, net, attempts, max).result == Err(FailedToFetchAfterRetries)
    ensures |FetchRun(proxies, pick, net, attempts, max).used| == max - attempts
    decreases max - attempts
  {
    if attempts < max {
      FetchRunRetryCap(proxies, pick, net, attempts + 1, max);
    }
  }

  /** The shape of a run from attempt `attempts` on: request j went through the proxy drawn
      at attempt `attempts + j`; every request but the last was retried; a success is the
      decoded body of a 2xx reply to the last request. */
  ghost predicate RunShaped<T>(proxies: seq<Proxy>, pick: nat -> nat, net: (nat, Proxy) -> Attempt<T>,
                               attempts: nat, t: Trace<T>)
  {
    && (forall j :: 0 <= j < |t.used| ==> |proxies| > 0 && t.used[j] == Drawn(proxies, pick, attempts + j))
    && (forall j :: 0 <= j < |t.used| - 1 ==> Retryable(net(attempts + j, t.used[j])))
    && (t.result.Ok? ==>
          && |t.used| > 0
          && var last := net(attempts + |t.used| - 1, Last(t.used));
             last.Sent? && last.reply.Response? && IsSuccess(last.reply.status)
             && last.reply.body == Decoded(t.result.value))
  }

  /** A retried request in front of a shaped run gives a shaped run. */
  lemma ShapedPrepend<T>(proxies: seq<Proxy>, pick: nat -> nat, net: (nat, Proxy) -> Attempt<T>,
                         attempts: nat, rest: Trace<T>)
    requires |proxies| > 0 && Retryable(net(attempts, Drawn(proxies, pick, attempts)))
    requires RunShaped(proxies, pick, net, attempts + 1, rest)
    ensures RunShaped(proxies, pick, net, attempts, Prepend([Drawn(proxies, pick, attempts)], rest))
  {
    var proxy := Drawn(proxies, pick, attempts);
    var t := Prepend([proxy], rest);
    forall j | 1 <= j < |t.used|
      ensures t.used[j] == Drawn(proxies, pick, attempts + j)
    {
      assert t.used[j] == rest.used[j - 1];
    }
    forall j | 0 <= j < |t.used| - 1
      ensures Retryable(net(attempts + j, t.used[j]))
    {
      if j > 0 {
        assert t.used[j] == rest.used[j - 1];
      }
    }
    if t.result.Ok? {
      assert Last(t.used) == Last(rest.used);
    }
  }

  /** Every run has that shape. */
  lemma {:induction false} FetchRunShape<T>(proxies: seq<Proxy>, pick: nat -> nat,
                                          net: (nat, Proxy) -> Attempt<T>, attempts: nat, max: nat)
    ensures RunShaped(proxies, pick, net, attempts, FetchRun(proxies, pick, net, attempts, max))
    decreases max - attempts
  {
    if attempts < max {
      FetchRunStep(proxies, pick, net, attempts, max);
      if |proxies| > 0 && Retryable(net(attempts, Drawn(proxies, pick, attempts))) {
        FetchRunShape(proxies, pick, net, attempts + 1, max);
        ShapedPrepend(proxies, pick, net, attempts, FetchRun(proxies, pick, net, attempts + 1, max));
      }
    }
  }

  /** The first 2xx reply ends the run at once: it is the outcome, after one request. */
  lemma FetchRunStopsAtSuccess<T>(proxies: seq<Proxy>, pick: nat -> nat,
                                  net: (nat, Proxy) -> Attempt<T>, attempts: nat, max: nat)
    requires |proxies| > 0 && attempts < max
    requires var a := net(attempts, Drawn(proxies, pick, attempts));
      a.Sent? && a.reply.Response? && IsSuccess(a.reply.status)
    ensures var a := net(attempts, Drawn(proxies, pick, attempts));
      var t := FetchRun(proxies, pick, net, attempts, max);
      && t.used == [Drawn(proxies, pick, attempts)]
      && t.result == match a.reply.body
                     case Decoded(v) => Ok(v)
                     case Malformed(e) => Err(ReqwestError(e))
  {
  }

  /** A client that cannot be built ends the run at once, before its request. */
  lemma FetchRunStopsAtBuildFailure<T>(proxies: seq<Proxy>, pick: nat -> nat,
                                       net: (nat, Proxy) -> Attempt<T>, attempts: nat, max: nat)
    requires |proxies| > 0 && attempts < max
    requires net(attempts, Drawn(proxies, pick, attempts)).ClientBuildFailed?
    ensures FetchRun(proxies, pick, net, attempts, max)
         == Trace(Err(ReqwestError(net(attempts, Drawn(proxies, pick, attempts)).reason)), [])
  {
  }

  // ---------------------------------------------------------------- the chunked batch

  /** `chunk_size` of `store_anime_and_episode_data` */
  const ChunkSize: nat := 100

  /** The slices `list[count..min(count + ChunkSize, |list|)]` for count = 0, ChunkSize, 2 ChunkSize, ... */
  function Chunks(list: seq<string>): (r: seq<seq<string>>)
    ensures |r| == (|list| + ChunkSize - 1) / ChunkSize
    ensures forall i :: 0 <= i < |r| ==> 0 < |r[i]| <= ChunkSize
    decreases |list|
  {
    if |list| == 0 then []
    else
      var end := if ChunkSize < |list| then ChunkSize else |list|;
      [list[..end]] + Chunks(list[end..])
  }

  function Flatten(chunks: seq<seq<string>>): seq<string>
  {
    if |chunks| == 0 then [] else chunks[0] + Flatten(chunks[1..])
  }

  /** The chunks put back together are the list: every id is in exactly one chunk, in order. */
  lemma {:induction false} FlattenChunks(list: seq<string>)
    ensures Flatten(Chunks(list)) == list
    decreases |list|
  {
    if |list| > 0 {
      var end := if ChunkSize < |list| then ChunkSize else |list|;
      FlattenChunks(list[end..]);
      var c := Chunks(list);
      assert c[1..] == Chunks(list[end..]);
      assert list == list[..end] + list[end..];
    }
  }

  lemma SliceOfSuffix<T>(s: seq<T>, k: nat, a: nat, b: nat)
    requires k <= |s| && a <= b <= |s| - k
    ensures s[k..][a..b] == s[a + k..b + k]
  {
  }

  lemma NextChunkStart(i: nat)
    requires i > 0
    ensures i * ChunkSize == (i - 1) * ChunkSize + ChunkSize
  {
  }

  /** Chunk i is `list[i * ChunkSize .. min(i * ChunkSize + ChunkSize, |list|)]`. */
  lemma {:induction false} ChunkAt(list: seq<string>, i: nat)
    requires i < |Chunks(list)|
    ensures i * ChunkSize < |list|
    ensures Chunks(list)[i] == list[i * ChunkSize .. if i * ChunkSize + ChunkSize < |list| then i * ChunkSize + ChunkSize else |list|]
    decreases |list|
  {
    if i > 0 {
      var rest := list[ChunkSize..];
      assert Chunks(list)[i] == Chunks(rest)[i - 1];
      ChunkAt(rest, i - 1);
      var start := (i - 1) * ChunkSize;
      NextChunkStart(i);
      var end := if start + ChunkSize < |rest| then start + ChunkSize else |rest|;
      SliceOfSuffix(list, ChunkSize, start, end);
    }
  }

  /** The store as one ingestion run sees it */
  datatype Tables = Tables(anime: map<Int32, Anime>, episodes: map<string, Episode>)

  /** Everything outside the model during a run: the draws and the network per anime name,
      and which writes the store refuses */
  datatype Env = Env(
    pick: string -> nat -> nat,
    net: string -> (nat, Proxy) -> Attempt<AnimeDetails>,
    animeFault: Anime -> Option<string>,
    episodeFault: Episode -> Option<string>)

  /** The inner episode loop: stores the episodes in order, stopping at the first failing write */
  function StoreEpisodes(rows: map<string, Episode>, list: seq<EpisodeDetails>, animeId: Int32,
                         fault: Episode -> Option<string>): (r: (map<string, Episode>, Option<string>))
    ensures r.1.None? <==> forall i :: 0 <= i < |list| ==> fault(ToEpisodeRecord(list[i], animeId)).None?
    ensures r.1.Some? ==> exists i :: 0 <= i < |list| && fault(ToEpisodeRecord(list[i], animeId)) == r.1
    decreases |list|
  {
    if |list| == 0 then (rows, None)
    else
      var e := ToEpisodeRecord(list[0], animeId);
      match fault(e)
      case Some(msg) => (rows, Some(msg))
      case None =>
        var rest := StoreEpisodes(rows[e.id := e], list[1..], animeId, fault);
        assert forall i :: 0 <= i < |list| - 1 ==> list[1..][i] == list[i + 1];
        rest
  }

  /** One anime of a chunk: a failed fetch changes nothing and lets the chunk go on; a failed
      write stops the chunk with its error */
  function IngestAnime(t: Tables, name: string, proxies: seq<Proxy>, env: Env): (r: (Tables, Option<CustomError>))
  {
    match FetchRun(proxies, env.pick(name), env.net(name), 0, MaxAttempts).result
    case Err(_) => (t, None)
    case Ok(d) =>
      var a := ToAnimeRecord(d);
      match env.animeFault(a)
      case Some(msg) => (t, Some(DieselError(msg)))
      case None =>
        var stored := t.(anime := t.anime[a.id := a]);
        match d.episodes
        case None => (stored, None)
        case Some(list) =>
          var (rows, failed) := StoreEpisodes(stored.episodes, list, d.id, env.episodeFault);
          (stored.(episodes := rows), if failed.Some? then Some(DieselError(failed.value)) else None)
  }

  /** An anime that cannot be fetched leaves both tables alone and is no error; the only error
      one anime can raise is a failed write */
  lemma IngestAnimeOutcome(t: Tables, name: string, proxies: seq<Proxy>, env: Env)
    ensures FetchRun(proxies, env.pick(name), env.net(name), 0, MaxAttempts).result.Err? ==>
      IngestAnime(t, name, proxies, env) == (t, None)
    ensures IngestAnime(t, name, proxies, env).1.Some? ==> IngestAnime(t, name, proxies, env).1.value.DieselError?
  {
  }

  /** The task of one chunk: its anime in order, ending at the first failed write */
  function RunChunk(t: Tables, chunk: seq<string>, proxies: seq<Proxy>, env: Env): (r: (Tables, TaskResult))
    ensures r.1.Err? ==> r.1.error.DieselError?
    decreases |chunk|
  {
    if |chunk| == 0 then (t, Ok(()))
    else
      var (next, failed) := IngestAnime(t, chunk[0], proxies, env);
      if failed.Some? then (next, Err(failed.value))
      else RunChunk(next, chunk[1..], proxies, env)
  }

  /** The chunk tasks one after another in spawn order, with the result of each */
  function RunChunks(t: Tables, chunks: seq<seq<string>>, proxies: seq<Proxy>, env: Env)
    : (r: (Tables, seq<TaskResult>))
    ensures |r.1| == |chunks|
    decreases |chunks|
  {
    if |chunks| == 0 then (t, [])
    else
      var first := RunChunk(t, chunks[0], proxies, env);
      var rest := RunChunks(first.0, chunks[1..], proxies, env);
      (rest.0, [first.1] + rest.1)
  }

  /** A chunk whose first anime cannot be fetched goes straight on with the next one. */
  lemma ChunkSkipsFailedFetch(t: Tables, chunk: seq<string>, proxies: seq<Proxy>, env: Env)
    requires |chunk| > 0
    requires FetchRun(proxies, env.pick(chunk[0]), env.net(chunk[0]), 0, MaxAttempts).result.Err?
    ensures RunChunk(t, chunk, proxies, env) == RunChunk(t, chunk[1..], proxies, env)
  {
  }

  /** A failed write ends the chunk: the anime after it are not attempted. */
  lemma ChunkStopsAtWriteError(t: Tables, chunk: seq<string>, proxies: seq<Proxy>, env: Env)
    requires |chunk| > 0 && IngestAnime(t, chunk[0], proxies, env).1.Some?
    ensures RunChunk(t, chunk, proxies, env)
         == (IngestAnime(t, chunk[0], proxies, env).0, Err(IngestAnime(t, chunk[0], proxies, env).1.value))
  {
  }

  /** The store refuses no write */
  ghost predicate NoWriteFaults(env: Env)
  {
    (forall a :: env.animeFault(a).None?) && (forall e :: env.episodeFault(e).None?)
  }

  /** An anime of the chunk whose fetch succeeds */
  ghost predicate Fetched(name: string, proxies: seq<Proxy>, env: Env)
  {
    FetchRun(proxies, env.pick(name), env.net(name), 0, MaxAttempts).result.Ok?
  }

  function FetchedId(name: string, proxies: seq<Proxy>, env: Env): Int32
    requires Fetched(name, proxies, env)
  {
    FetchRun(proxies, env.pick(name), env.net(name), 0, MaxAttempts).result.value.id
  }

  /** Every episode that came with a fetched anime has a row in `rows` */
  ghost predicate EpisodesStored(name: string, proxies: seq<Proxy>, env: Env, rows: map<string, Episode>)
  {
    var d := FetchRun(proxies, env.pick(name), env.net(name), 0, MaxAttempts).result;
    d.Ok? && d.value.episodes.Some? ==>
      forall j :: 0 <= j < |d.value.episodes.value| ==>
        ToEpisodeRecord(d.value.episodes.value[j], d.value.id).id in rows
  }

  /** When the store refuses nothing, the episode loop succeeds, keeps every row and writes one
      row for every episode of the list. */
  lemma {:induction false} StoreEpisodesNoFaults(rows: map<string, Episode>, list: seq<EpisodeDetails>,
                                                animeId: Int32, fault: Episode -> Option<string>)
    requires forall e :: fault(e).None?
    ensures StoreEpisodes(rows, list, animeId, fault).1.None?
    ensures rows.Keys <= StoreEpisodes(rows, list, animeId, fault).0.Keys
    ensures forall i :: 0 <= i < |list| ==>
      ToEpisodeRecord(list[i], animeId).id in StoreEpisodes(rows, list, animeId, fault).0
    decreases |list|
  {
    if |list| > 0 {
      var e := ToEpisodeRecord(list[0], animeId);
      StoreEpisodesNoFaults(rows[e.id := e], list[1..], animeId, fault);
      forall i | 0 <= i < |list|
        ensures ToEpisodeRecord(list[i], animeId).id in StoreEpisodes(rows, list, animeId, fault).0
      {
        if i > 0 {
          assert list[i] == list[1..][i - 1];
        }
      }
    }
  }

  /** One anime with a store that refuses nothing: no error, no row lost, and a fetched anime
      has its row and a row for each of its episodes. */
  lemma IngestAnimeNoFaults(t: Tables, name: string, proxies: seq<Proxy>, env: Env)
    requires NoWriteFaults(env)
    ensures var step := IngestAnime(t, name, proxies, env);
      && step.1.None?
      && t.anime.Keys <= step.0.anime.Keys
      && t.episodes.Keys <= step.0.episodes.Keys
      && (Fetched(name, proxies, env) ==> FetchedId(name, proxies, env) in step.0.anime)
      && EpisodesStored(name, proxies, env, step.0.episodes)
  {
    var d := FetchRun(proxies, env.pick(name), env.net(name), 0, MaxAttempts).result;
    if d.Ok? && d.value.episodes.Some? {
      StoreEpisodesNoFaults(t.episodes, d.value.episodes.value, d.value.id, env.episodeFault);
    }
  }

  /** Partial-failure isolation: when the store refuses nothing, the chunk reports success and
      every anime whose fetch succeeded has its row, whatever happened to the others. */
  lemma {:induction false} ChunkStoresEveryFetchedAnime(t: Tables, chunk: seq<string>, proxies: seq<Proxy>, env: Env)
    requires NoWriteFaults(env)
    ensures RunChunk(t, chunk, proxies, env).1 == Ok(())
    ensures t.anime.Keys <= RunChunk(t, chunk, proxies, env).0.anime.Keys
    ensures forall i :: 0 <= i < |chunk| && Fetched(chunk[i], proxies, env) ==>
      FetchedId(chunk[i], proxies, env) in RunChunk(t, chunk, proxies, env).0.anime
    decreases |chunk|
  {
    if |chunk| > 0 {
      var step := IngestAnime(t, chunk[0], proxies, env);
      IngestAnimeNoFaults(t, chunk[0], proxies, env);
      ChunkStoresEveryFetchedAnime(step.0, chunk[1..], proxies, env);
      forall i | 0 <= i < |chunk| && Fetched(chunk[i], proxies, env)
        ensures FetchedId(chunk[i], proxies, env) in RunChunk(t, chunk, proxies, env).0.anime
      {
        if i > 0 {
          assert chunk[i] == chunk[1..][i - 1];
        }
      }
    }
  }

  /** When the store refuses nothing, every episode that came with a fetched anime of the chunk
      has its row once the chunk is done, and no episode row is lost. */
  lemma {:induction false} ChunkStoresEveryEpisode(t: Tables, chunk: seq<string>, proxies: seq<Proxy>, env: Env)
    requires NoWriteFaults(env)
    ensures t.episodes.Keys <= RunChunk(t, chunk, proxies, env).0.episodes.Keys
    ensures forall i :: 0 <= i < |chunk| ==>
      EpisodesStored(chunk[i], proxies, env, RunChunk(t, chunk, proxies, env).0.episodes)
    decreases |chunk|
  {
    if |chunk| > 0 {
      var step := IngestAnime(t, chunk[0], proxies, env);
      IngestAnimeNoFaults(t, chunk[0], proxies, env);
      ChunkStoresEveryEpisode(step.0, chunk[1..], proxies, env);
      forall i | 0 <= i < |chunk|
        ensures EpisodesStored(chunk[i], proxies, env, RunChunk(t, chunk, proxies, env).0.episodes)
      {
        if i > 0 {
          assert chunk[i] == chunk[1..][i - 1];
        }
      }
    }
  }

  /** The whole batch with a store that refuses nothing: every chunk task reports success, and
      every anime of any chunk whose fetch succeeded has its row at the end. */
  lemma {:induction false} ChunksStoreEveryFetchedAnime(t: Tables, chunks: seq<seq<string>>, proxies: seq<Proxy>, env: Env)
    requires NoWriteFaults(env)
    ensures forall j :: 0 <= j < |chunks| ==> RunChunks(t, chunks, proxies, env).1[j] == Ok(())
    ensures t.anime.Keys <= RunChunks(t, chunks, proxies, env).0.anime.Keys
    ensures forall name :: name in Flatten(chunks) && Fetched(name, proxies, env) ==>
      FetchedId(name, proxies, env) in RunChunks(t, chunks, proxies, env).0.anime
    decreases |chunks|
  {
    if |chunks| > 0 {
      var first := RunChunk(t, chunks[0], proxies, env);
      ChunkStoresEveryFetchedAnime(t, chunks[0], proxies, env);
      ChunksStoreEveryFetchedAnime(first.0, chunks[1..], proxies, env);
      var last := RunChunks(t, chunks, proxies, env);
      forall j | 0 <= j < |chunks|
        ensures last.1[j] == Ok(())
      {
        if j > 0 {
          assert last.1[j] == RunChunks(first.0, chunks[1..], proxies, env).1[j - 1];
        }
      }
      forall name | name in Flatten(chunks) && Fetched(name, proxies, env)
        ensures FetchedId(name, proxies, env) in last.0.anime
      {
        if name in chunks[0] {
          var i :| 0 <= i < |chunks[0]| && chunks[0][i] == name;
        }
      }
    }
  }

  /** The whole batch with a store that refuses nothing: every episode that came with a fetched
      anime of any chunk has its row at the end. */
  lemma {:induction false} ChunksStoreEveryEpisode(t: Tables, chunks: seq<seq<string>>, proxies: seq<Proxy>, env: Env)
    requires NoWriteFaults(env)
    ensures t.episodes.Keys <= RunChunks(t, chunks, proxies, env).0.episodes.Keys
    ensures forall name :: name in Flatten(chunks) ==>
      EpisodesStored(name, proxies, env, RunChunks(t, chunks, proxies, env).0.episodes)
    decreases |chunks|
  {
    if |chunks| > 0 {
      var first := RunChunk(t, chunks[0], proxies, env);
      ChunkStoresEveryEpisode(t, chunks[0], proxies, env);
      ChunksStoreEveryEpisode(first.0, chunks[1..], proxies, env);
      var last := RunChunks(t, chunks, proxies, env);
      forall name | name in Flatten(chunks)
        ensures EpisodesStored(name, proxies, env, last.0.episodes)
      {
        if name in chunks[0] {
          var i :| 0 <= i < |chunks[0]| && chunks[0][i] == name;
          assert EpisodesStored(name, proxies, env, first.0.episodes);
        }
      }
    }
  }

  /** The batch over a whole id list with a store that refuses nothing: every chunk task
      succeeds, and every id whose fetch succeeded has its anime row and a row for each of its
      episodes, whichever chunk it fell into. */
  lemma BatchStoresEveryFetchedAnime(t: Tables, list: seq<string>, proxies: seq<Proxy>, env: Env)
    requires NoWriteFaults(env)
    ensures var r := RunChunks(t, Chunks(list), proxies, env);
      && (forall j :: 0 <= j < |r.1| ==> r.1[j] == Ok(()))
      && (forall k :: 0 <= k < |list| && Fetched(list[k], proxies, env) ==>
            FetchedId(list[k], proxies, env) in r.0.anime)
      && (forall k :: 0 <= k < |list| ==> EpisodesStored(list[k], proxies, env, r.0.episodes))
  {
    FlattenChunks(list);
    ChunksStoreEveryFetchedAnime(t, Chunks(list), proxies, env);
    ChunksStoreEveryEpisode(t, Chunks(list), proxies, env);
  }

  /** The episode rows a run writes all point at the anime they came with; other rows keep their values. */
  lemma {:induction false} StoreEpisodesPointAtParent(rows: map<string, Episode>, list: seq<EpisodeDetails>,
                                                     animeId: Int32, fault: Episode -> Option<string>)
    ensures var after := StoreEpisodes(rows, list, animeId, fault).0;
      && rows.Keys <= after.Keys
      && forall k :: k in after ==> (k in rows && after[k] == rows[k]) || after[k].animeId == animeId
    decreases |list|
  {
    if |list| > 0 {
      var e := ToEpisodeRecord(list[0], animeId);
      if fault(e).None? {
        StoreEpisodesPointAtParent(rows[e.id := e], list[1..], animeId, fault);
      }
    }
  }

  /** The episodes of a stored anime: the inner loop of a chunk task */
  method StoreEpisodesOf(table: EpisodeTable, list: seq<EpisodeDetails>, animeId: Int32,
                         fault: Episode -> Option<string>) returns (failed: Option<string>)
    requires table.Valid()
    modifies table
    ensures table.Valid()
    ensures (table.rows, failed) == StoreEpisodes(old(table.rows), list, animeId, fault)
  {
    var k := 0;
    while k < |list|
      invariant 0 <= k <= |list|
      invariant table.Valid()
      invariant StoreEpisodes(table.rows, list[k..], animeId, fault) == StoreEpisodes(old(table.rows), list, animeId, fault)
    {
      assert list[k..][1..] == list[k + 1..];
      var episode := ToEpisodeRecord(list[k], animeId);
      var stored := table.AddNewEpisode(episode, fault(episode));
      if stored.Err? {
        return Some(stored.error);
      }
      k := k + 1;
    }
    failed := None;
  }

  /** The task spawned for one chunk */
  method RunChunkTask(animes: AnimeTable, episodes: EpisodeTable, chunk: seq<string>,
                      proxies: seq<Proxy>, env: Env) returns (r: TaskResult)
    requires animes.Valid() && episodes.Valid()
    modifies animes, episodes
    ensures animes.Valid() && episodes.Valid()
    ensures (Tables(animes.rows, episodes.rows), r)
         == RunChunk(Tables(old(animes.rows), old(episodes.rows)), chunk, proxies, env)
  {
    var k := 0;
    while k < |chunk|
      invariant 0 <= k <= |chunk|
      invariant animes.Valid() && episodes.Valid()
      invariant RunChunk(Tables(animes.rows, episodes.rows), chunk[k..], proxies, env)
             == RunChunk(Tables(old(animes.rows), old(episodes.rows)), chunk, proxies, env)
    {
      assert chunk[k..][1..] == chunk[k + 1..];
      var name := chunk[k];
      var fetched, _ := FetchAnimeDetails(proxies, env.pick(name), env.net(name));
      if fetched.Ok? {
        var details := fetched.value;
        var animeDetail := ToAnimeRecord(details);
        var stored := animes.AddNewAnime(animeDetail, env.animeFault(animeDetail));
        if stored.Err? {
          return Err(DieselError(stored.error));
        }
        if details.episodes.Some? {
          var failed := StoreEpisodesOf(episodes, details.episodes.value, details.id, env.episodeFault);
          if failed.Some? {
            return Err(DieselError(failed.value));
          }
        }
      }
      k := k + 1;
    }
    r := Ok(());
  }

  /** Chunk `count / ChunkSize` of the list comes first in the chunking of `list[count..]`. */
  lemma ChunksFrom(list: seq<string>, count: nat)
    requires count < |list|
    ensures var end := if count + ChunkSize < |list| then count + ChunkSize else |list|;
      Chunks(list[count..]) == [list[count..end]] + Chunks(list[end..])
  {
    var end := if count + ChunkSize < |list| then count + ChunkSize else |list|;
    assert list[count..][..end - count] == list[count..end];
    assert list[count..][end - count..] == list[end..];
  }

  /** Running the first chunk, then the others */
  lemma RunChunksStep(t: Tables, chunks: seq<seq<string>>, done: seq<TaskResult>, result: TaskResult,
                      next: Tables, proxies: seq<Proxy>, env: Env)
    requires |chunks| > 0 && (next, result) == RunChunk(t, chunks[0], proxies, env)
    ensures var later := RunChunks(t, chunks, proxies, env);
      var tail := RunChunks(next, chunks[1..], proxies, env);
      later.0 == tail.0 && done + later.1 == (done + [result]) + tail.1
  {
    var tail := RunChunks(next, chunks[1..], proxies, env);
    assert done + ([result] + tail.1) == (done + [result]) + tail.1;
  }

  /** The spawn loop of the batch: one task per chunk of `ChunkSize` ids, in order */
  method SpawnChunkTasks(animes: AnimeTable, episodes: EpisodeTable, animeList: seq<string>,
                         proxies: seq<Proxy>, env: Env) returns (tasks: seq<TaskResult>)
    requires animes.Valid() && episodes.Valid()
    modifies animes, episodes
    ensures animes.Valid() && episodes.Valid()
    ensures (Tables(animes.rows, episodes.rows), tasks)
         == RunChunks(Tables(old(animes.rows), old(episodes.rows)), Chunks(animeList), proxies, env)
  {
    tasks := [];
    var n := |animeList|;
    ghost var whole := RunChunks(Tables(animes.rows, episodes.rows), Chunks(animeList), proxies, env);
    ghost var remaining := Chunks(animeList);
    var count: nat := 0;
    assert animeList[0..] == animeList;
    assert whole.1 == tasks + whole.1;
    while count < n
      invariant animes.Valid() && episodes.Valid()
      invariant count < n ==> remaining == Chunks(animeList[count..])
      invariant count >= n ==> remaining == []
      invariant var later := RunChunks(Tables(animes.rows, episodes.rows), remaining, proxies, env);
        whole.0 == later.0 && whole.1 == tasks + later.1
    {
      var end := if count + ChunkSize < n then count + ChunkSize else n;
      var chunk := animeList[count..end];
      ChunksFrom(animeList, count);
      ghost var cur := Tables(animes.rows, episodes.rows);
      var result := RunChunkTask(animes, episodes, chunk, proxies, env);
      RunChunksStep(cur, remaining, tasks, result, Tables(animes.rows, episodes.rows), proxies, env);
      tasks := tasks + [result];
      remaining := remaining[1..];
      count := count + ChunkSize;
      if count >= n {
        assert animeList[end..] == [];
      }
    }
    assert tasks + [] == tasks;
  }

  /** `store_anime_and_episode_data`: the ids from the `anime_id` table and the proxy pool, then
      one task per chunk of 100 ids.  The tasks run here one after another in spawn order; the
      join loop only logs their errors, so the batch itself succeeds. */
  method StoreAnimeAndEpisodeData(ids: AnimeIdTable, loadFault: Option<string>,
                                  sock5: Reply<string>, sock4: Reply<string>, http: Reply<string>,
                                  animes: AnimeTable, episodes: EpisodeTable, env: Env)
    returns (r: Result<(), CustomError>, tasks: seq<TaskResult>)
    requires ids.Valid() && animes.Valid() && episodes.Valid()
    modifies animes, episodes
    ensures animes.Valid() && episodes.Valid()
    ensures loadFault.Some? ==> r == Err(DieselError(loadFault.value))
    ensures loadFault.None? ==>
      (r.Ok? <==> FetchProxyList(sock5).Ok? && FetchProxyList(sock4).Ok? && FetchProxyList(http).Ok?)
    ensures loadFault.None? && r.Err? ==> r.error.ReqwestError?
    ensures r.Err? ==> tasks == [] && animes.rows == old(animes.rows) && episodes.rows == old(episodes.rows)
    ensures r.Ok? ==>
      && loadFault.None?
      && |tasks| == (|ids.names| + ChunkSize - 1) / ChunkSize
      && (Tables(animes.rows, episodes.rows), tasks)
         == RunChunks(Tables(old(animes.rows), old(episodes.rows)), Chunks(ids.names),
                      FetchProxyList(sock5).value + FetchProxyList(sock4).value + FetchProxyList(http).value, env)
  {
    tasks := [];
    var loaded := ids.LoadAllAnimeIds(loadFault);
    if loaded.Err? {
      return Err(DieselError(loaded.error)), tasks;
    }
    var proxies := LoadProxies(sock5, sock4, http);
    if proxies.Err? {
      return Err(proxies.error), tasks;
    }
    tasks := SpawnChunkTasks(animes, episodes, loaded.value, proxies.value, env);
    r := Ok(());
  }
}
