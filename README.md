# Anime ingestion pipeline — a Dafny model

This project models the core of an anime-catalogue ingestion service in Dafny.

The Rust crate has four parts:
- It reads the number of pages of an A-Z listing.
- It harvests every anime name from those pages, in waves of ten concurrent tasks, into an `anime_id` table.
- It fetches a detail record for each stored name. Each fetch goes through a randomly drawn proxy from a pool built from three downloaded proxy lists, with up to five attempts. The records go into the `anime` and `episodes` tables, in chunks of 100 names.
- It stores the staff of an anime, fetched from the Jikan API, in the `staff` and `anime_staff` tables. Positions are merged by ordered union.

The TypeScript scraper API builds, from a page's HTML:
- the "about" record of an anime;
- a dictionary of extra information;
- the episode list.

It also picks the first reachable mirror among a site and its clones.

Modules, one per source file, plus three shared helpers:

| module | file | models |
|---|---|---|
| `Wrappers` | `wrappers.dfy` | `Option`, `Result`, the `i32`/`u16` ranges |
| `Text` | `text.dfy` | `split`, `join`, `trim` (Rust and JavaScript white space), ASCII lower-casing, first-occurrence `replace`, decimal numerals |
| `Transport` | `transport.dfy` | what one HTTP request produced: no response, or a status and a body that decodes or not |
| `AtozOps` | `atoz_ops.dfy` | `src/operations/atoz_ops.rs` |
| `AnimeOps` | `anime_ops.dfy` | `src/operations/anime_ops.rs` |
| `EpisodeOps` | `episode_ops.dfy` | `src/operations/episode_ops.rs` |
| `StaffOps` | `staff_ops.dfy` | `src/operations/staff_ops.rs` |
| `Server` | `server.dfy` | `api/src/server.ts` |

How the model is built:
- **Tables.** Each database table is a class whose field holds its rows, as a map keyed by the table's natural key. For `anime_id` it is a sequence of names in row order. Each upsert is a method with a `modifies` clause that states the whole new table.
- **Database failures.** A failing Diesel statement is a `fault` parameter. When it is set the call returns the error and writes nothing.
- **Network.** Every request is replaced by the `Reply` it produced, or by a function from attempt number and proxy to that reply. So every branch the code takes on a reply can be reached by choosing the reply.
- **Randomness.** The random draw of `get_random_proxy` is a `pick` parameter.
- **Concurrency.** The spawned tokio tasks run one after another, in spawn order.
- **HTML.** What a CSS selector matched is passed in as plain values: texts, attributes and the number of matched elements.

## Model

| member | source | states |
|---|---|---|
| AtozOps.LastPageNo | src/operations/atoz_ops.rs:42-60 | only a failed fetch or a rejected selector is an error; no matched link gives 212; otherwise the page number of the last matched link, or 212 when it yields none |
| AtozOps.ParseU16Decimal | src/operations/atoz_ops.rs:53 | `parse::<u16>` gives back every `u16` from its decimal numeral, with or without a leading '+' |
| AtozOps.ParseU16Overflow | src/operations/atoz_ops.rs:53 | a numeral above 65535 does not parse |
| AtozOps.LastPageFromQuery | src/operations/atoz_ops.rs:50-54 | a last link whose `href` ends in "=n" gives page n, whatever precedes the '=' |
| AtozOps.ParseU16 | src/operations/atoz_ops.rs:53 | a numeral that parses is an optional '+' followed by decimal digits only; the empty text and a lone '+' do not parse |
| AtozOps.PageOfLink | src/operations/atoz_ops.rs:51-55 | a link without an `href` gives no page number; an `href` without '=' is parsed whole |
| AtozOps.LastPageWithoutEquals | src/operations/atoz_ops.rs:52-53 | an `href` without '=' is parsed whole, with 212 when it does not parse |
| AtozOps.LastPageEmptySuffix | src/operations/atoz_ops.rs:52-60 | an `href` ending in '=' leaves an empty suffix and falls back to 212 |
| AnimeOps.Display | src/operations/anime_ops.rs:36-47 | the text of a wrapped error ends with the message it wraps |
| AnimeOps.DisplayFixedMessages | src/operations/anime_ops.rs:36-47 | `NoProxiesAvailable` and `FailedToFetchAfterRetries` display as their fixed texts, and no wrapped Join, Diesel or Reqwest error displays like either, for any message (all six pairs) |
| AnimeOps.DisplayDistinguishesVariants | src/operations/anime_ops.rs:36-47 | apart from `Other`, two errors that display alike are the same variant with the same message |
| AnimeOps.DisplayOtherIsVerbatim | src/operations/anime_ops.rs:44 | `Other` prints its message verbatim, so it can look like a fixed variant |
| AnimeOps.AnimeTable.AddNewAnime | src/operations/anime_ops.rs:79-123 | after success the row for the id equals the new record in every column (update or insert) and no other row changes; a failing statement leaves the table as it was |
| AnimeOps.ReingestAnime | src/operations/anime_ops.rs:79-123 | storing the same record twice leaves the table as storing it once |
| AnimeOps.AnimeTable.DeleteAnimeById | src/operations/anime_ops.rs:125-133 | removes exactly the row with that id and reports 1 or 0 rows deleted; other rows are untouched |
| AnimeOps.WithName | src/operations/anime_ops.rs:239-251 | the name is present afterwards; the names are unchanged exactly when it was present and grow by one exactly when not; no duplicate is ever created |
| AnimeOps.AnimeIdTable.InsertIntoAnimeId | src/operations/anime_ops.rs:235-254 | an existing name changes nothing, a new one adds exactly one row, names stay distinct; a failing statement adds nothing |
| AnimeOps.AnimeIdTable.LoadAllAnimeIds | src/operations/anime_ops.rs:147-154 | returns the stored names, all different, or the Diesel error |
| AnimeOps.ToAnimeIds | src/operations/anime_ops.rs:186-191 | one `AnimeID` per listing entry, same length and order, named by the entry's `id` |
| AnimeOps.FetchData | src/operations/anime_ops.rs:177-194 | success exactly for a reply whose status is not a client or server error (4xx or 5xx, as `error_for_status` rejects) and whose body decodes, giving its entries' ids; every failure is a Reqwest error |
| AnimeOps.InsertAll | src/operations/anime_ops.rs:210-212 | the only error of the insert loop is a Diesel error |
| AnimeOps.InsertAllOutcome | src/operations/anime_ops.rs:210-212 | the insert loop succeeds exactly when no insert of the page fails; otherwise its error is the Diesel error of a failing insert |
| AnimeOps.InsertAllStoresIds | src/operations/anime_ops.rs:210-212 | the insert loop keeps names distinct, loses no name and adds only ids of the page; when no insert fails, every id of the page is stored |
| AnimeOps.InsertPage | src/operations/anime_ops.rs:210-212 | the page's ids are inserted in order and the loop stops at the first failing insert, as the specification fold says |
| AnimeOps.PageTask | src/operations/anime_ops.rs:205-218 | the only error a page task returns is a Diesel error of an insert |
| AnimeOps.PageTaskStep | src/operations/anime_ops.rs:205-218 | a page past the last one does nothing; a failed page fetch is only logged and gives Ok; otherwise the page's ids are inserted; it reports the page it fetched, which is exactly a page at most the last one |
| AnimeOps.SpawnTask | src/operations/anime_ops.rs:205-219 | one task of a wave: the pages requested so far grow by the page the task fetched, which is page `done + 1` exactly when it is at most the last page, and the task runs as the specification says |
| AnimeOps.SpawnWave | src/operations/anime_ops.rs:204-220 | a wave spawns ten tasks, for pages count+1..count+10 |
| AnimeOps.FirstError | src/operations/anime_ops.rs:225-227 | Ok exactly when every task succeeded; otherwise the error of the first failed task in spawn order |
| AnimeOps.JoinTasks | src/operations/anime_ops.rs:225-227 | the join loop returns the first task error in spawn order, or Ok |
| AnimeOps.TasksPastLastPage | src/operations/anime_ops.rs:206-207 | the tasks spawned beyond the last page change nothing and all return Ok |
| AnimeOps.RunTasks | src/operations/anime_ops.rs:203-222 | the tasks for pages 1..count give one result each, in spawn order |
| AnimeOps.RunTasksStoresListedNames | src/operations/anime_ops.rs:203-222 | no stored name is lost; every stored name was stored before or is the id of an entry of a fetched page 1..N; names never repeat; when no insert fails, every name listed on a fetched page 1..N is stored |
| AnimeOps.WaveCount | src/operations/anime_ops.rs:203-221 | the counter stops at 10·ceil(N/10) |
| AnimeOps.AddNewAnimeWithAnimeId | src/operations/anime_ops.rs:197-232 | a failed page-count lookup is the error and nothing runs; otherwise pages 1..N are requested exactly once each, in order; 10·ceil(N/10) tasks are spawned; the table is what the tasks for pages 1..N leave; the result is the first task error |
| AnimeOps.WaveCounterSteps | src/operations/anime_ops.rs:201-221 | the `u16` counter of a release build starts at 0 and each wave steps it by a wrapping `count += 10` |
| AnimeOps.WaveCounterStaysEven | src/operations/anime_ops.rs:201-221 | after any number of waves the wrapping counter is even, so it is below 65535 |
| AnimeOps.WaveCounterBelowTop | src/operations/anime_ops.rs:203-221 | with N = 65535 the guard `count < N` holds after every wave, so the loop as written never ends |
| AnimeOps.WaveCounterOverflowsAtTop | src/operations/anime_ops.rs:201-221 | with N = 65535 the `u16` counter reaches 65530 < N; page 65536 is outside `u16`, and `count += 10` wraps to 4 < N |
| EpisodeOps.ProxiesOfLines | src/operations/episode_ops.rs:31-43 | at most one proxy per line, each non-empty and with no white space at either end |
| EpisodeOps.ParseProxyList | src/operations/episode_ops.rs:31-43 | at most one proxy per line of the text, each non-empty and with no white space at either end |
| EpisodeOps.ProxiesOfLinesAppend | src/operations/episode_ops.rs:31-43 | the parse works line by line: the proxies of two line lists are those of the first, then those of the second |
| EpisodeOps.ParseProxyListAppend | src/operations/episode_ops.rs:30-43 | a text made of two texts joined by a newline gives the proxies of the first, then those of the second |
| EpisodeOps.ParseProxyListLine | src/operations/episode_ops.rs:33-42 | one line gives its trimmed text, or nothing when it is blank |
| EpisodeOps.FetchProxyList | src/operations/episode_ops.rs:28-45 | the body is parsed whatever the status; only no response or an unreadable body is an error, and that error is from reqwest |
| EpisodeOps.LoadProxies | src/operations/episode_ops.rs:48-67 | succeeds exactly when all three lists load; the pool is SOCKS5 ++ SOCKS4 ++ HTTP, with nothing removed |
| EpisodeOps.GetRandomProxy | src/operations/episode_ops.rs:23-25 | None exactly for an empty pool, otherwise a member of it |
| EpisodeOps.EveryProxyCanBeDrawn | src/operations/episode_ops.rs:23-25 | every proxy of the pool is returned by some draw |
| EpisodeOps.ToAnimeRecord | src/operations/episode_ops.rs:246-247 | the row keeps the payload's id |
| EpisodeOps.RecordOfFullDetails | src/operations/episode_ops.rs:246-270 | a payload that carries every column maps back to the row it came from |
| EpisodeOps.RecordOfBareDetails | src/operations/episode_ops.rs:241-270 | a payload with only an id gives "Unknown Title", "No description available", and the type default in every other field |
| EpisodeOps.RecordKeepsPresentText | src/operations/episode_ops.rs:241-253 | a present title or description is kept, even if empty; a missing one gets its placeholder; Japanese title and synonyms are always set |
| EpisodeOps.ToEpisodeRecord | src/operations/episode_ops.rs:276-282 | every episode row points at the anime it came with |
| EpisodeOps.EpisodeTable.AddNewEpisode | src/operations/episode_ops.rs:150-177 | after success the row for the episode id equals the new episode and no other row changes; a failing statement leaves the table as it was |
| EpisodeOps.ReingestEpisode | src/operations/episode_ops.rs:150-177 | storing an episode twice leaves the table as storing it once |
| EpisodeOps.FetchRun | src/operations/episode_ops.rs:189-218 | a run makes no more requests than attempts remain, and only through proxies of the pool |
| EpisodeOps.FetchRunStep | src/operations/episode_ops.rs:189-216 | one attempt: an empty pool ends with `NoProxiesAvailable`; a client that cannot be built ends with its error; no response or a non-2xx status retries; a 2xx reply ends with its decoded body or its decode error |
| EpisodeOps.FetchAnimeDetails | src/operations/episode_ops.rs:180-219 | the loop's outcome and its proxies are those of the retry specification; at most five requests, all through pool proxies |
| EpisodeOps.FetchRunEmptyPool | src/operations/episode_ops.rs:210-212 | an empty pool returns `NoProxiesAvailable` before any request |
| EpisodeOps.FetchRunRetryCap | src/operations/episode_ops.rs:184-218 | when every reply is a transport failure or non-2xx, the loop makes exactly one request per remaining attempt, then returns `FailedToFetchAfterRetries` |
| EpisodeOps.FetchRunShape | src/operations/episode_ops.rs:189-216 | request j goes through the proxy drawn at attempt j; every request but the last was retried; a success is the decoded body of a 2xx reply to the last request |
| EpisodeOps.FetchRunStopsAtSuccess | src/operations/episode_ops.rs:199-203 | the first 2xx reply ends the loop after that one request, with its body or its decode error |
| EpisodeOps.FetchRunStopsAtBuildFailure | src/operations/episode_ops.rs:191-194 | a proxy or client that cannot be built ends the loop at once, before its request |
| EpisodeOps.Chunks | src/operations/episode_ops.rs:227-233 | ceil(n/100) chunks, each non-empty and at most 100 long |
| EpisodeOps.FlattenChunks | src/operations/episode_ops.rs:231-233 | the chunks put back together are the list, so every id is in exactly one chunk, in order |
| EpisodeOps.ChunkAt | src/operations/episode_ops.rs:231-233 | chunk i is `list[100·i .. min(100·i + 100, n)]` |
| EpisodeOps.StoreEpisodes | src/operations/episode_ops.rs:274-285 | the episode loop fails exactly when the write of one of the episodes fails, and then with that write's error |
| EpisodeOps.IngestAnimeOutcome | src/operations/episode_ops.rs:238-287 | an anime whose fetch fails leaves both tables as they were and is no error; the only error one anime raises is the Diesel error of a failed write |
| EpisodeOps.RunChunk | src/operations/episode_ops.rs:237-291 | the only error a chunk task returns is the Diesel error of a failed write |
| EpisodeOps.RunChunks | src/operations/episode_ops.rs:231-295 | one task result per chunk |
| EpisodeOps.ChunkSkipsFailedFetch | src/operations/episode_ops.rs:239-287 | an anime whose fetch fails changes nothing, and the chunk goes on with the next one |
| EpisodeOps.ChunkStopsAtWriteError | src/operations/episode_ops.rs:271-284 | a failed anime or episode write ends the chunk's task with that error; the anime after it are not attempted |
| EpisodeOps.StoreEpisodesNoFaults | src/operations/episode_ops.rs:274-285 | when the store refuses nothing, the episode loop succeeds, loses no row and writes a row for every episode of the list |
| EpisodeOps.IngestAnimeNoFaults | src/operations/episode_ops.rs:239-288 | when the store refuses nothing, one anime raises no error, loses no row, and a fetched anime gets its row and a row per episode |
| EpisodeOps.ChunkStoresEveryFetchedAnime | src/operations/episode_ops.rs:238-290 | when the store refuses nothing, the chunk succeeds and every anime whose fetch succeeded has its row, whatever happened to the others |
| EpisodeOps.ChunkStoresEveryEpisode | src/operations/episode_ops.rs:238-290 | when the store refuses nothing, every episode that came with a fetched anime of the chunk has its row once the chunk is done |
| EpisodeOps.ChunksStoreEveryFetchedAnime | src/operations/episode_ops.rs:227-302 | when the store refuses nothing, every chunk task of the batch reports success, and every anime of any chunk whose fetch succeeded has its row at the end |
| EpisodeOps.ChunksStoreEveryEpisode | src/operations/episode_ops.rs:227-302 | when the store refuses nothing, every episode that came with a fetched anime of any chunk has its row at the end |
| EpisodeOps.BatchStoresEveryFetchedAnime | src/operations/episode_ops.rs:227-302 | over the chunks of a whole id list with no refused write: every task is Ok, and every id whose fetch succeeded has its anime row and a row per episode, whichever chunk it fell into |
| EpisodeOps.StoreEpisodesPointAtParent | src/operations/episode_ops.rs:274-285 | every episode row the loop writes points at the parent anime; other rows keep their values |
| EpisodeOps.StoreEpisodesOf | src/operations/episode_ops.rs:274-285 | the episode loop stores the episodes in order and stops at the first failing write, as the specification fold says |
| EpisodeOps.RunChunkTask | src/operations/episode_ops.rs:237-291 | the task of one chunk leaves the tables, and returns the result, that the specification of one chunk gives |
| EpisodeOps.SpawnChunkTasks | src/operations/episode_ops.rs:231-295 | the spawn loop runs one task per chunk, in order, as the specification of all chunks gives |
| EpisodeOps.StoreAnimeAndEpisodeData | src/operations/episode_ops.rs:222-307 | a failed id load is a Diesel error, and a failed proxy list load (`load_proxies`, taken from the three list replies) a Reqwest error; either writes nothing. Otherwise the pool is the three lists concatenated, ceil(n/100) chunk tasks run in order over it, and the batch returns Ok whatever they returned, because the join loop only logs task errors |
| StaffOps.ConvertVecStringToVecOptionString | src/operations/staff_ops.rs:154-156 | same length; element i is `Some` of position i |
| StaffOps.PresentValuesOfConverted | src/operations/staff_ops.rs:154-156 | unwrapping the converted list gives the positions back |
| StaffOps.MergePositions | src/operations/staff_ops.rs:66-72 | the merge is at least as long as the stored positions and at most as long as both lists together |
| StaffOps.MergeKeepsExisting | src/operations/staff_ops.rs:61-72 | the stored positions are an unchanged prefix of the merge; nothing is removed or reordered |
| StaffOps.MergeIsUnion | src/operations/staff_ops.rs:66-72 | every fetched position is in the merge, and the merge holds only stored or fetched positions |
| StaffOps.MergeAppendsNoDuplicate | src/operations/staff_ops.rs:68-71 | a position is appended only when not yet held, counting positions appended earlier in the same loop |
| StaffOps.MergeOfHeldPositions | src/operations/staff_ops.rs:68-71 | merging positions that are all held changes nothing |
| StaffOps.MergeIdempotent | src/operations/staff_ops.rs:66-79 | merging the same fetched list twice gives the result of merging it once |
| StaffOps.MergeAppendStep | src/operations/staff_ops.rs:66-72 | one more fetched position extends the merge by that position exactly when the merge does not hold it yet, so the appended tail keeps the fetched order |
| StaffOps.MergeExample | src/operations/staff_ops.rs:66-72 | a stored "Producer" merged with "Producer", "Director" gains only "Director" |
| StaffOps.MergeNewPositions | src/operations/staff_ops.rs:66-72 | the in-place push loop computes the merge specification |
| StaffOps.NewStaff | src/operations/staff_ops.rs:81-88 | a new staff row has the person's id, name, url and image, and position i is Some(payload position i), with the same length |
| StaffOps.StaffTable.InsertOrUpdateStaff | src/operations/staff_ops.rs:50-96 | a stored person keeps name, url and image and gets the merged positions; a new person is inserted from the payload; no other row changes; a failing statement writes nothing |
| StaffOps.ReingestStaff | src/operations/staff_ops.rs:50-96 | storing the same staff entry twice leaves the table as storing it once |
| StaffOps.AnimeStaffTable.InsertIntoAnimeStaff | src/operations/staff_ops.rs:99-129 | an existing (staff, anime) pair changes nothing, even with other positions; otherwise exactly one row is inserted |
| StaffOps.RelinkAnimeStaff | src/operations/staff_ops.rs:105-126 | a second link of the same pair, with possibly different positions, leaves the table as the first link left it: a stored pair keeps its row, a new pair gets exactly one row with the first link's positions, and no other row changes |
| StaffOps.StaffUrlSegments | src/operations/staff_ops.rs:136 | the last three path segments of the staff URL are "anime", the id in decimal and "staff" |
| StaffOps.FetchJikanStaffResponse | src/operations/staff_ops.rs:131-152 | success exactly for a 2xx reply that decodes; no response or a non-2xx status is `FailedToFetchAfterRetries`; a 2xx that does not decode is its Reqwest error |
| StaffOps.StaffFetchIsOneAttempt | src/operations/staff_ops.rs:137-151 | the staff request classifies its reply exactly as a one-attempt run of the detail-fetch loop would |
| Server.NullIfEmpty | api/src/server.ts:192-196 | null exactly for the empty string, otherwise the string |
| Server.SubDubLabel | api/src/server.ts:226-235 | "both" exactly when both ticks are present, "sub" or "dub" exactly when only that one is, undefined exactly when neither |
| Server.ClassifySubDub | api/src/server.ts:226-235 | "both" exactly when both ticks are present, "sub" or "dub" exactly when only that one is, undefined exactly when neither |
| Server.AnimeIdFromHref | api/src/server.ts:176-181 | an anime id, when there is one, is non-empty and contains no '-' |
| Server.AnimeIdOfPlayHref | api/src/server.ts:176-181 | a play link `…/<slug>-<id>` gives the id `<id>` |
| Server.EpisodeListUrlOfPage | api/src/server.ts:58-59 | the episode-list URL and the play link number an anime by the same last '-' piece |
| Server.CollapseWhitespace | api/src/server.ts:206-212 | empty exactly when the input is; a leading white-space character becomes a space and any other first character is kept; the only white space left is the plain space, and no two spaces are adjacent |
| Server.CollapseWithoutWhitespace | api/src/server.ts:206-212 | a text without white space is left unchanged |
| Server.CollapseLeadingRun | api/src/server.ts:206-212 | a leading white-space run becomes one space in front of the collapsed rest |
| Server.CollapseSplit | api/src/server.ts:206-212 | where text that does not end in white space meets white space, collapsing each side on its own gives the same result |
| Server.CollapseAround | api/src/server.ts:206-212 | `a + ws + b`, with `ws` a white-space run between two non-white-space ends, collapses to the collapsed `a`, one space and the collapsed `b` |
| Server.CategoryOfTickLine | api/src/server.ts:206-212 | a tick line ending in `<category> <duration>`, with the words parted by any white space, has that category, whatever counts come before |
| Server.AboutInfoOf | api/src/server.ts:165-251 | the record keeps the page's anime id and the sync ids; title, image and description are always set; a missing poster gives "UNKNOWN"; an empty rating or quality is null; the category and the track label are those of the tick line and the tick flags |
| Server.ExtractAboutInfo | api/src/server.ts:165-287 | no match gives the fallback record; a matched page whose `#syncData` does not parse throws the internal-server error; otherwise the record built from the page |
| Server.FallbackClaimsSub | api/src/server.ts:226-270 | the fallback record claims a "sub" track, while a matched page with no tick claims none |
| Server.NormalizeKey | api/src/server.ts:307 | the key is as long as the heading before its first ':' |
| Server.NormalizeKeyShape | api/src/server.ts:307 | the key is the heading before its first ':', lowercased, with only its first space turned into '_'; it holds no ':' |
| Server.EntryOf | api/src/server.ts:300-315 | the trimmed heading decides the item's kind ("Producers:", "Overview:", "Japanese:", or ordinary with its normalised key); the value is the trimmed `.name` text |
| Server.ProducersPerItem | api/src/server.ts:308-312 | every "Producers:" item pushes all producer anchors once more, and no other item pushes any |
| Server.OverviewIsDropped | api/src/server.ts:305-315 | an "Overview:" item changes neither the dictionary nor the producers |
| Server.ItemWrites | api/src/server.ts:305-315 | "Japanese:" sets `japanese_title`, any other ordinary heading its normalised key, and "Producers:" writes no key |
| Server.InfoLists | api/src/server.ts:318-324 | "genres" is the genre texts joined with ","; "producers" is the producer texts, once per "Producers:" item, joined with "," |
| Server.PushTrimmed | api/src/server.ts:309-312 | pushing anchors appends their trimmed texts, in order |
| Server.ApplyItemStep | api/src/server.ts:300-316 | one pass of the `.item-title` loop gives the dictionary and producers list of the item's entry |
| Server.ExtractExtraAboutInfo | api/src/server.ts:291-326 | the loops build the dictionary the entry fold gives, whose "genres" and "producers" hold the comma-joined lists |
| Server.EpisodeId | api/src/server.ts:455-458 | an episode has an id exactly when its link has at least three '/' pieces |
| Server.EpisodeIdOfWatchLink | api/src/server.ts:455-458 | the link `/watch/<slug>?ep=<n>` gives the id `<slug>$episode$<n>$<label>` |
| Server.EpisodeIdWithoutTracks | api/src/server.ts:455-458 | an anime without any track tick labels its episode ids "…$undefined" |
| Server.EpisodeOf | api/src/server.ts:451-459 | the episode carries the anchor's number, filler flag and the id of its link; a missing or empty title is null |
| Server.ExtractEpisodesInfo | api/src/server.ts:443-463 | one episode per anchor, in page order |
| Server.BuildClonesArray | api/src/server.ts:378-392 | the site's own address, then every clone list in key order |
| Server.AniWatchMirrors | api/src/server.ts:364-392 | the probed mirrors are AniWatch's address and then the three HiAnime addresses, in that order |
| Server.MakeAniWatchObj | api/src/server.ts:398-408 | BASE is the given base; HOME, SEARCH, GENRE and AJAX are the base followed by "/home", "/search", "/genre" and "/ajax", and no two coincide |
| Server.FirstReachable | api/src/server.ts:413-418 | the position of the first reachable address: reachable, with none reachable before it; None exactly when none is reachable |
| Server.AniWatchSites.constructor | api/src/server.ts:376-392 | start-up state: the AniWatch base, and the four mirrors to probe |
| Server.AniWatchSites.UrlFn | api/src/server.ts:411-419 | the base moves to the first reachable mirror, or stays as it was when none answers; the endpoints are built from the new base; the mirror list is unchanged |
| Text.TrimShape | src/operations/episode_ops.rs:34 | a trim is a slice of its input with no white space at either end, empty exactly when the input is all white space |
| Text.SplitFirstPiece | api/src/server.ts:307 | `split(":")[0]` is the text before the first ':', or the whole string when it has none |
| Text.ReplaceFirstChar | api/src/server.ts:307 | replacing a one-character pattern changes its first occurrence and nothing else |
| Text.LastPieceAfter | api/src/server.ts:59 | `split(sep).pop()` is what follows the last separator |

## Left out

- Network I/O (reqwest, axios, the `fetch` HEAD probe, the Jikan client, timeouts) is not modelled. Each request is the reply value it produced.
- HTML parsing and CSS selection (the `scraper` crate, cheerio) are left out. The matched texts, attributes and match counts are parameters.
- Diesel, SQL and database connections are left out. The tables are in-memory maps, and a failing statement is a `fault` parameter.
- tokio spawning and joining are modelled as sequential execution in spawn order. So the check-then-act race between concurrent upserts is not captured. A panicking task (`JoinError`) is not modelled, nor which of three failing `try_join!` branches reports its error (`load_proxies` here reports the SOCKS5 one first).
- The randomness of `get_random_proxy` is left out: the draw is a parameter, reduced modulo the pool size.
- `dotenv` and `env::var` configuration, including the panics of `expect` on a missing variable, are left out. The URLs are plain parameters.
- The Express routes, `app.listen`, `fetchAbout` and the staff route of `api/src/server.ts` are only request wiring around the modelled helpers, and are left out.
- `load_all_anime`: it only prints the table, so it is left out.
- `get_curl_data` is not modelled separately. It is the `FetchFailed` case of `AzListPage`.
- `impl Default for AnimeDetails` and `impl Default for EpisodeDetails` are not modelled: nothing calls them. The batch's `unwrap_or_default` uses the field types' defaults, so a missing `mal_score` becomes "" and never the "n/a" of that impl.
- `Number(...)` coercions and NaN in `api/src/server.ts` are not modelled. The numeric fields (`id`, `mal_id`, `al_id`, episode counts, `episode_no`) stay as the text they were read from.
- `toLowerCase` is modelled on ASCII letters only.
- JSON object key order in the extra-info dictionary is not modelled: it is a map.
- `Server.AniWatchSites.UrlFn`: every mirror's reachability is fixed for the duration of one call, and a probe that throws counts as unreachable, as `isSiteReachable` does.
- `EpisodeOps.ParseProxyList`: Rust's `lines()` also splits at "\r\n". Here the text is split at '\n', and the trailing '\r' is then removed by the trim. One difference remains: `lines()` yields no final empty piece, while the split does. That piece is blank and is dropped, so the proxies are the same.
- `EpisodeOps.FetchRun`: the `?` on `reqwest::Proxy::http` and on `ClientBuilder::build` are one outcome, `ClientBuildFailed`. Both return at once, before any request.
- `EpisodeOps.LoadProxies`: no separate length clause. The pool equals the concatenation of the three lists, which fixes its length as their sum.
- The record shape of the `anime` table follows the columns `add_new_anime` writes and the row `store_anime_and_episode_data` builds. `src/model.rs` and `src/schema.rs` declare other shapes and are not part of this model.
- `AtozOps.LastPageNo`: a failure of the page fetch and a selector rejection are both carried as a message. The `Box<dyn Error>` is otherwise not modelled.
- `AnimeOps.AnimeIdTable.LoadAllAnimeIds` returns the names in insertion order. The Diesel query has no `ORDER BY`, so PostgreSQL may return them in any order, and which names share a 100-name chunk depends on it. That order is not modelled.
- `AnimeOps.AddNewAnimeWithAnimeId` models its page counter unbounded, which is the intended behaviour for every N (see Findings). The release-build `u16` arithmetic is exhibited separately by `AnimeOps.WaveCounterOverflowsAtTop`.

Further behaviour of the code that the model keeps:
- `fetch_jikan_staff_response` makes a single request, with no proxy and no retry. A missing response or a non-2xx status gives `FailedToFetchAfterRetries`; a 2xx reply whose body does not decode gives its Reqwest error.
- `fetch_proxy_list` parses the body whatever the HTTP status.
- A proxy that cannot be turned into a client ends `fetch_anime_details` at once with that error, without a retry.

## Findings

| source | as written | input that shows it | evidently intended | confidence | as-written member | corrected member |
|---|---|---|---|---|---|---|
| src/operations/anime_ops.rs:200-222 | the wave counter `count` and the page number `count + i + 1` are `u16` | a last page number N of 65531 to 65535, which `parse::<u16>` accepts. Take N = 65535: the last wave starts at `count` = 65530 < N, the task for i = 5 computes page 65536, and `count += 10` reaches 65540. A debug build panics. A release build wraps to page 0 and `count` 4 < N, so the wave loop starts over and never ends (`AnimeOps.WaveCounterBelowTop`) | exactly the pages 1..N are fetched, once each, in 10·ceil(N/10) tasks, with the loop ending | not executed | AnimeOps.WaveCounterOverflowsAtTop | AnimeOps.AddNewAnimeWithAnimeId |
