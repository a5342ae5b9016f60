/** The `anime` and `anime_id` tables, the error type shared by the crate, the listing-page
    fetch and the wave loop that harvests anime names (src/operations/anime_ops.rs). */
module AnimeOps {
  import opened Wrappers
  import opened Text
  import opened Transport

  /** `CustomError`.  The wrapped library errors are represented by their display text. */
  datatype CustomError =
    | JoinError(message: string)
    | DieselError(message: string)
    | ReqwestError(message: string)
    | NoProxiesAvailable
    | FailedToFetchAfterRetries
    | Other(message: string)

  /** `impl fmt::Display for CustomError`: a wrapped error's text ends with its message */
  function Display(e: CustomError): (r: string)
    ensures e.JoinError? || e.DieselError? || e.ReqwestError? || e.Other? ==>
      |e.message| <= |r| && r[|r| - |e.message|..] == e.message
  {
    match e
    case JoinError(m) => "Join Error: " + m
    case DieselError(m) => "Diesel Error: " + m
    case ReqwestError(m) => "Reqwest Error: " + m
    case NoProxiesAvailable => "No proxies available"
    case FailedToFetchAfterRetries => "Failed to fetch after retries"
    case Other(m) => m
  }

  /** The two fixed messages, and no wrapped library error displays like either of them. */
  lemma DisplayFixedMessages(m: string)
    ensures Display(NoProxiesAvailable) == "No proxies available"
    ensures Display(FailedToFetchAfterRetries) == "Failed to fetch after retries"
    ensures Display(JoinError(m)) != Display(NoProxiesAvailable)
    ensures Display(JoinError(m)) != Display(FailedToFetchAfterRetries)
    ensures Display(DieselError(m)) != Display(NoProxiesAvailable)
    ensures Display(DieselError(m)) != Display(FailedToFetchAfterRetries)
    ensures Display(ReqwestError(m)) != Display(NoProxiesAvailable)
    ensures Display(ReqwestError(m)) != Display(FailedToFetchAfterRetries)
  {
    assert Display(JoinError(m))[0] == 'J';
    assert Display(DieselError(m))[0] == 'D';
    assert Display(ReqwestError(m))[0] == 'R';
  }

  /** Apart from `Other`, the text shown names the variant and the message it wraps. */
  lemma DisplayDistinguishesVariants(e1: CustomError, e2: CustomError)
    requires !e1.Other? && !e2.Other?
    requires Display(e1) == Display(e2)
    ensures e1 == e2
  {
    var d := Display(e1);
    assert |d| > 0 && d[0] == Display(e2)[0];
  }

  /** `Other` shows its message verbatim, so it can display exactly like a fixed variant. */
  lemma DisplayOtherIsVerbatim()
    ensures Display(Other("No proxies available")) == Display(NoProxiesAvailable)
  {
  }

  /** A row of the `anime` table: the columns `add_new_anime` inserts and updates */
  datatype Anime = Anime(
    id: Int32, title: string, description: string, malId: Int32, alId: Int32,
    japaneseTitle: Option<string>, synonyms: Option<string>, image: string,
    category: string, rating: string, quality: string, duration: string,
    premiered: string, aired: string, status: string, malScore: string,
    studios: string, producers: string, genres: string,
    subEpisodes: Int32, dubEpisodes: Int32, totalEpisodes: Int32, subOrDub: string)

  /** The `anime` table.  Each call that writes to it may fail as a whole: `fault` is the
      Diesel error of the statement that fails, if one does. */
  class AnimeTable {
    /** The rows, keyed by the primary key `id` */
    var rows: map<Int32, Anime>

    ghost predicate Valid()
      reads this
    {
      forall k :: k in rows ==> rows[k].id == k
    }

    constructor ()
      ensures Valid() && rows == map[]
    {
      rows := map[];
    }

    /** `add_new_anime`: check for the id, then update every column or insert the row */
    method AddNewAnime(newAnime: Anime, fault: Option<string>) returns (r: Result<(), string>)
      requires Valid()
      modifies this
      ensures Valid()
      ensures fault.Some? ==> r == Err(fault.value) && rows == old(rows)
      ensures fault.None? ==> r == Ok(()) && rows == old(rows)[newAnime.id := newAnime]
    {
      if fault.Some? {
        return Err(fault.value);
      }
      var found := newAnime.id in rows;
      if found {
        var row := rows[newAnime.id];
        var updated := row.(
          title := newAnime.title, description := newAnime.description,
          malId := newAnime.malId, alId := newAnime.alId,
          japaneseTitle := newAnime.japaneseTitle, synonyms := newAnime.synonyms,
          image := newAnime.image, category := newAnime.category, rating := newAnime.rating,
          quality := newAnime.quality, duration := newAnime.duration,
          premiered := newAnime.premiered, aired := newAnime.aired, status := newAnime.status,
          malScore := newAnime.malScore, studios := newAnime.studios,
          producers := newAnime.producers, genres := newAnime.genres,
          subEpisodes := newAnime.subEpisodes, dubEpisodes := newAnime.dubEpisodes,
          totalEpisodes := newAnime.totalEpisodes, subOrDub := newAnime.subOrDub);
        rows := rows[newAnime.id := updated];
      } else {
        rows := rows[newAnime.id := newAnime];
      }
      r := Ok(());
    }

    /** `delete_anime_by_id`: removes the rows with that id and reports how many there were */
    method DeleteAnimeById(animeId: Int32, fault: Option<string>) returns (r: Result<nat, string>)
      requires Valid()
      modifies this
      ensures Valid()
      ensures fault.Some? ==> r == Err(fault.value) && rows == old(rows)
      ensures fault.None? ==> r == Ok(if animeId in old(rows) then 1 else 0)
      ensures fault.None? ==> rows == old(rows) - {animeId}
    {
      if fault.Some? {
        return Err(fault.value);
      }
      var deleted := if animeId in rows then 1 else 0;
      rows := rows - {animeId};
      r := Ok(deleted);
    }
  }

  /** Ingesting the same record twice leaves the table as ingesting it once. */
  method ReingestAnime(table: AnimeTable, a: Anime)
    requires table.Valid()
    modifies table
    ensures table.Valid()
    ensures table.rows == old(table.rows)[a.id := a]
    ensures a.id in table.rows && table.rows[a.id] == a
  {
    var _ := table.AddNewAnime(a, None);
    ghost var once := table.rows;
    var _ := table.AddNewAnime(a, None);
    assert table.rows == once;
  }

  /** A row of the `anime_id` table */
  datatype AnimeID = AnimeID(animeName: string)

  predicate Distinct(names: seq<string>)
  {
    forall i, j :: 0 <= i < j < |names| ==> names[i] != names[j]
  }

  /** The names after `insert_into_anime_id`: unchanged when present, appended otherwise */
  function WithName(names: seq<string>, name: string): (r: seq<string>)
    ensures name in r
    ensures forall n :: n in r <==> n in names || n == name
    ensures Distinct(names) ==> Distinct(r)
    ensures name in names <==> r == names
    ensures name !in names <==> |r| == |names| + 1
  {
    if name in names then names else names + [name]
  }

  /** The `anime_id` table: a surrogate key (the row's position) and a unique `anime_name` */
  class AnimeIdTable {
    /** `anime_name` of each row, in row order */
    var names: seq<string>

    ghost predicate Valid()
      reads this
    {
      Distinct(names)
    }

    constructor ()
      ensures Valid() && names == []
    {
      names := [];
    }

    /** `insert_into_anime_id`: do nothing when the name exists, otherwise insert one row */
    method InsertIntoAnimeId(entry: AnimeID, fault: Option<string>) returns (r: Result<(), string>)
      requires Valid()
      modifies this
      ensures Valid()
      ensures fault.Some? ==> r == Err(fault.value) && names == old(names)
      ensures fault.None? ==> r == Ok(()) && names == WithName(old(names), entry.animeName)
    {
      if fault.Some? {
        return Err(fault.value);
      }
      var found := entry.animeName in names;
      if found {
        return Ok(());
      }
      names := names + [entry.animeName];
      r := Ok(());
    }

    /** `load_all_anime_ids`: the `anime_name` column */
    method LoadAllAnimeIds(fault: Option<string>) returns (r: Result<seq<string>, string>)
      requires Valid()
      ensures fault.Some? ==> r == Err(fault.value)
      ensures fault.None? ==> r == Ok(names) && Distinct(r.value)
    {
      if fault.Some? {
        return Err(fault.value);
      }
      r := Ok(names);
    }
  }

  /** The `episodes` counts of a listing entry */
  datatype EpisodeCounts = EpisodeCounts(eps: Option<nat>, sub: Option<nat>, dub: Option<nat>)

  /** One entry of a listing page (`AnimeName`) */
  datatype AnimeName = AnimeName(
    id: string, name: string, img: string, episodes: EpisodeCounts, duration: string, rated: bool)

  /** The `map` in `fetch_data`: one `AnimeID` per entry, named by the entry's `id` */
  function ToAnimeIds(list: seq<AnimeName>): (r: seq<AnimeID>)
    ensures |r| == |list|
    ensures forall i :: 0 <= i < |list| ==> r[i].animeName == list[i].id
  {
    if |list| == 0 then [] else [AnimeID(list[0].id)] + ToAnimeIds(list[1..])
  }

  /** The text of the error `error_for_status` gives for a status */
  function StatusErrorMessage(status: nat): string
  {
    "HTTP status " + DecimalString(status)
  }

  /** `fetch_data`: one GET of a listing page; a transport failure, a 4xx or 5xx status and a
      malformed body are all reqwest errors, and any other status has its body read */
  function FetchData(reply: Reply<seq<AnimeName>>): (r: Result<seq<AnimeID>, CustomError>)
    ensures r.Ok? <==> reply.Response? && !IsErrorStatus(reply.status) && reply.body.Decoded?
    ensures r.Ok? ==> r.value == ToAnimeIds(reply.body.value)
    ensures r.Err? ==> r.error.ReqwestError?
  {
    match reply
    case TransportFailure(e) => Err(ReqwestError(e))
    case Response(status, body) =>
      if IsErrorStatus(status) then Err(ReqwestError(StatusErrorMessage(status)))
      else
        match body
        case Malformed(e) => Err(ReqwestError(e))
        case Decoded(list) => Ok(ToAnimeIds(list))
  }

  /** What a spawned task returns */
  type TaskResult = Result<(), CustomError>

  /** The inner `for anime_id in anime_ids { insert_into_anime_id(&anime_id)?; }`: inserts in
      order and stops at the first insert that fails */
  function InsertAll(names: seq<string>, ids: seq<AnimeID>, fault: string -> Option<string>)
    : (r: (seq<string>, TaskResult))
    ensures r.1.Err? ==> r.1.error.DieselError?
    decreases |ids|
  {
    if |ids| == 0 then (names, Ok(()))
    else
      match fault(ids[0].animeName)
      case Some(e) => (names, Err(DieselError(e)))
      case None => InsertAll(WithName(names, ids[0].animeName), ids[1..], fault)
  }

  /** The insert loop succeeds exactly when no insert fails, and otherwise ends with the error
      of a failing insert. */
  lemma {:induction false} InsertAllOutcome(names: seq<string>, ids: seq<AnimeID>, fault: string -> Option<string>)
    ensures var r := InsertAll(names, ids, fault).1;
      && (r.Ok? <==> forall i :: 0 <= i < |ids| ==> fault(ids[i].animeName).None?)
      && (r.Err? ==> exists i :: 0 <= i < |ids| && fault(ids[i].animeName).Some?
                                 && r == Err(DieselError(fault(ids[i].animeName).value)))
    decreases |ids|
  {
    if |ids| > 0 && fault(ids[0].animeName).None? {
      InsertAllOutcome(WithName(names, ids[0].animeName), ids[1..], fault);
      assert forall i :: 0 <= i < |ids| - 1 ==> ids[1..][i] == ids[i + 1];
    }
  }

  /** One spawned task of the wave loop: a page past the last returns Ok without fetching,
      a failed fetch is logged and returns Ok, an insert error ends the task with it */
  function PageTask(names: seq<string>, page: nat, lastPage: nat,
                    pages: nat -> Reply<seq<AnimeName>>, fault: string -> Option<string>)
    : (r: (seq<string>, TaskResult))
    ensures r.1.Err? ==> r.1.error.DieselError?
  {
    if page > lastPage then (names, Ok(()))
    else
      match FetchData(pages(page))
      case Err(_) => (names, Ok(()))
      case Ok(ids) => InsertAll(names, ids, fault)
  }

  /** The tasks for pages 1..count run one after another in spawn order */
  function RunTasks(names: seq<string>, count: nat, lastPage: nat,
                    pages: nat -> Reply<seq<AnimeName>>, fault: string -> Option<string>)
    : (r: (seq<string>, seq<TaskResult>))
    ensures |r.1| == count
  {
    if count == 0 then (names, [])
    else
      var before := RunTasks(names, count - 1, lastPage, pages, fault);
      var last := PageTask(before.0, count, lastPage, pages, fault);
      (last.0, before.1 + [last.1])
  }

  /** The join loop `for handle in handles { handle.await??; }`: the first error in spawn order */
  function FirstError(tasks: seq<TaskResult>): (r: TaskResult)
    ensures r.Ok? <==> forall i :: 0 <= i < |tasks| ==> tasks[i].Ok?
    ensures r.Err? ==> exists i :: 0 <= i < |tasks| && tasks[i] == r && forall j :: 0 <= j < i ==> tasks[j].Ok?
  {
    if |tasks| == 0 then Ok(())
    else if tasks[0].Err? then tasks[0]
    else
      var rest := FirstError(tasks[1..]);
      assert forall i :: 1 <= i < |tasks| ==> tasks[i] == tasks[1..][i - 1];
      rest
  }

  /** The tasks spawned past the last page change nothing and all return Ok. */
  lemma {:induction false} TasksPastLastPage(names: seq<string>, count: nat, lastPage: nat,
                                             pages: nat -> Reply<seq<AnimeName>>, fault: string -> Option<string>)
    requires lastPage <= count
    ensures RunTasks(names, count, lastPage, pages, fault).0 == RunTasks(names, lastPage, lastPage, pages, fault).0
    ensures RunTasks(names, count, lastPage, pages, fault).1[..lastPage]
         == RunTasks(names, lastPage, lastPage, pages, fault).1
    ensures forall i :: lastPage <= i < count ==> RunTasks(names, count, lastPage, pages, fault).1[i].Ok?
  {
    if count > lastPage {
      TasksPastLastPage(names, count - 1, lastPage, pages, fault);
      var before := RunTasks(names, count - 1, lastPage, pages, fault);
      assert (before.1 + [Ok(())])[..lastPage] == before.1[..lastPage];
    } else {
      assert RunTasks(names, count, lastPage, pages, fault).1[..lastPage]
          == RunTasks(names, count, lastPage, pages, fault).1;
    }
  }

  /** Every name stored by the wave loop is the `id` of an entry of a page that was fetched,
      or was stored already; names never repeat and none is lost; and when no insert fails,
      every entry of every fetched page up to the last is stored. */
  lemma {:induction false} RunTasksStoresListedNames(names: seq<string>, count: nat, lastPage: nat,
                                                     pages: nat -> Reply<seq<AnimeName>>, fault: string -> Option<string>)
    requires Distinct(names)
    ensures Distinct(RunTasks(names, count, lastPage, pages, fault).0)
    ensures forall n :: n in names ==> n in RunTasks(names, count, lastPage, pages, fault).0
    ensures forall n :: n in RunTasks(names, count, lastPage, pages, fault).0 ==>
      n in names || exists p :: 1 <= p <= count && p <= lastPage && ListedOn(pages(p), n)
    ensures (forall n :: fault(n).None?) ==>
      forall p, n :: 1 <= p <= count && p <= lastPage && ListedOn(pages(p), n) ==>
        n in RunTasks(names, count, lastPage, pages, fault).0
  {
    if count > 0 {
      RunTasksStoresListedNames(names, count - 1, lastPage, pages, fault);
      var before := RunTasks(names, count - 1, lastPage, pages, fault);
      var after := RunTasks(names, count, lastPage, pages, fault).0;
      if count <= lastPage {
        var fetched := FetchData(pages(count));
        if fetched.Ok? {
          InsertAllStoresIds(before.0, fetched.value, fault);
          forall n | n in InsertAll(before.0, fetched.value, fault).0 && n !in before.0
            ensures ListedOn(pages(count), n)
          {
            var i :| 0 <= i < |fetched.value| && fetched.value[i].animeName == n;
            assert pages(count).body.value[i].id == n;
          }
        }
      }
      assert forall n :: n in before.0 ==> n in after;
      if forall n :: fault(n).None? {
        forall p, n | 1 <= p <= count && p <= lastPage && ListedOn(pages(p), n)
          ensures n in after
        {
          if p == count {
            var fetched := FetchData(pages(count));
            var i :| 0 <= i < |pages(count).body.value| && pages(count).body.value[i].id == n;
            assert fetched.value[i].animeName == n;
          }
        }
      }
    }
  }

  /** `n` is the `id` of an entry of a listing page that `fetch_data` decodes */
  ghost predicate ListedOn(reply: Reply<seq<AnimeName>>, n: string)
  {
    reply.Response? && !IsErrorStatus(reply.status) && reply.body.Decoded?
    && exists i :: 0 <= i < |reply.body.value| && reply.body.value[i].id == n
  }

  lemma {:induction false} InsertAllStoresIds(names: seq<string>, ids: seq<AnimeID>, fault: string -> Option<string>)
    requires Distinct(names)
    ensures Distinct(InsertAll(names, ids, fault).0)
    ensures forall n :: n in names ==> n in InsertAll(names, ids, fault).0
    ensures forall n :: n in InsertAll(names, ids, fault).0 ==>
      n in names || exists i :: 0 <= i < |ids| && ids[i].animeName == n
    ensures (forall i :: 0 <= i < |ids| ==> fault(ids[i].animeName).None?) ==>
      forall i :: 0 <= i < |ids| ==> ids[i].animeName in InsertAll(names, ids, fault).0
    decreases |ids|
  {
    if |ids| > 0 && fault(ids[0].animeName).None? {
      InsertAllStoresIds(WithName(names, ids[0].animeName), ids[1..], fault);
      assert forall i :: 0 <= i < |ids| - 1 ==> ids[1..][i] == ids[i + 1];
      forall n | n in InsertAll(names, ids, fault).0 && n !in names
        ensures exists i :: 0 <= i < |ids| && ids[i].animeName == n
      {
        if n != ids[0].animeName {
          var i :| 0 <= i < |ids[1..]| && ids[1..][i].animeName == n;
          assert ids[i + 1].animeName == n;
        }
      }
    }
  }

  /** The task spawned for one page: the inner insert loop of `add_new_anime_with_anime_id` */
  method InsertPage(table: AnimeIdTable, ids: seq<AnimeID>, fault: string -> Option<string>)
    returns (r: TaskResult)
    requires table.Valid()
    modifies table
    ensures table.Valid()
    ensures (table.names, r) == InsertAll(old(table.names), ids, fault)
  {
    var k := 0;
    while k < |ids|
      invariant 0 <= k <= |ids|
      invariant table.Valid()
      invariant InsertAll(table.names, ids[k..], fault) == InsertAll(old(table.names), ids, fault)
    {
      assert ids[k..][1..] == ids[k + 1..];
      var inserted := table.InsertIntoAnimeId(ids[k], fault(ids[k].animeName));
      if inserted.Err? {
        return Err(DieselError(inserted.error));
      }
      k := k + 1;
    }
    r := Ok(());
  }

  /** Number of tasks in a wave */
  const WaveWidth: nat := 10

  lemma WaveCount(count: nat, lastPage: nat)
    requires count % WaveWidth == 0 && lastPage <= count < lastPage + WaveWidth
    ensures count == WaveWidth * ((lastPage + WaveWidth - 1) / WaveWidth)
  {
  }

  /** The page numbers 1..n, in order */
  function PagesUpTo(n: nat): (r: seq<nat>)
    ensures |r| == n && forall j :: 0 <= j < n ==> r[j] == j + 1
  {
    seq(n, j => j + 1)
  }

  lemma PagesUpToNext(n: nat)
    ensures PagesUpTo(n + 1) == PagesUpTo(n) + [n + 1]
  {
    assert forall j :: 0 <= j < n ==> PagesUpTo(n + 1)[j] == PagesUpTo(n)[j];
  }

  lemma RunTasksNext(names: seq<string>, count: nat, lastPage: nat,
                     pages: nat -> Reply<seq<AnimeName>>, fault: string -> Option<string>)
    ensures var before := RunTasks(names, count, lastPage, pages, fault);
      var last := PageTask(before.0, count + 1, lastPage, pages, fault);
      RunTasks(names, count + 1, lastPage, pages, fault) == (last.0, before.1 + [last.1])
  {
  }

  /** One spawned task of a wave, for page `done + 1`: the page is requested only when it is
      at most `lastPage` */
  method SpawnTask(table: AnimeIdTable, ghost initial: seq<string>, done: nat, lastPage: nat,
                   pages: nat -> Reply<seq<AnimeName>>, fault: string -> Option<string>,
                   requested0: seq<nat>, tasks0: seq<TaskResult>)
    returns (requested: seq<nat>, tasks: seq<TaskResult>)
    requires table.Valid()
    requires requested0 == PagesUpTo(if done < lastPage then done else lastPage)
    requires (table.names, tasks0) == RunTasks(initial, done, lastPage, pages, fault)
    modifies table
    ensures table.Valid()
    ensures requested == PagesUpTo(if done + 1 < lastPage then done + 1 else lastPage)
    ensures (table.names, tasks) == RunTasks(initial, done + 1, lastPage, pages, fault)
  {
    var pageNumber := done + 1;
    RunTasksNext(initial, done, lastPage, pages, fault);
    var result, fetchedPage := PageTaskStep(table, pageNumber, lastPage, pages, fault);
    requested := requested0;
    if fetchedPage.Some? {
      PagesUpToNext(done);
      requested := requested + [fetchedPage.value];
    }
    tasks := tasks0 + [result];
  }

  /** One wave of the spawn loop: the tasks for pages `count + 1 .. count + 10` */
  method SpawnWave(table: AnimeIdTable, ghost initial: seq<string>, count: nat, lastPage: nat,
                   pages: nat -> Reply<seq<AnimeName>>, fault: string -> Option<string>,
                   requested0: seq<nat>, tasks0: seq<TaskResult>)
    returns (requested: seq<nat>, tasks: seq<TaskResult>)
    requires table.Valid()
    requires requested0 == PagesUpTo(if count < lastPage then count else lastPage)
    requires (table.names, tasks0) == RunTasks(initial, count, lastPage, pages, fault)
    modifies table
    ensures table.Valid()
    ensures requested == PagesUpTo(if count + WaveWidth < lastPage then count + WaveWidth else lastPage)
    ensures (table.names, tasks) == RunTasks(initial, count + WaveWidth, lastPage, pages, fault)
  {
    requested, tasks := requested0, tasks0;
    for i := 0 to WaveWidth
      invariant table.Valid()
      invariant requested == PagesUpTo(if count + i < lastPage then count + i else lastPage)
      invariant (table.names, tasks) == RunTasks(initial, count + i, lastPage, pages, fault)
    {
      requested, tasks := SpawnTask(table, initial, count + i, lastPage, pages, fault, requested, tasks);
    }
  }

  /** One spawned task: a page past `lastPage` does nothing; otherwise its ids are fetched
      and inserted, and a failed fetch is only logged.  `fetchedPage` is the page requested. */
  method PageTaskStep(table: AnimeIdTable, pageNumber: nat, lastPage: nat,
                      pages: nat -> Reply<seq<AnimeName>>, fault: string -> Option<string>)
    returns (result: TaskResult, fetchedPage: Option<nat>)
    requires table.Valid()
    modifies table
    ensures table.Valid()
    ensures (table.names, result) == PageTask(old(table.names), pageNumber, lastPage, pages, fault)
    ensures fetchedPage == if pageNumber <= lastPage then Some(pageNumber) else None
  {
    result, fetchedPage := Ok(()), None;
    if pageNumber <= lastPage {
      fetchedPage := Some(pageNumber);
      var fetched := FetchData(pages(pageNumber));
      if fetched.Ok? {
        result := InsertPage(table, fetched.value, fault);
      }
    }
  }

  /** The join loop: the first failed task in spawn order, or success */
  method JoinTasks(tasks: seq<TaskResult>) returns (r: TaskResult)
    ensures r == FirstError(tasks)
  {
    var k := 0;
    while k < |tasks|
      invariant 0 <= k <= |tasks|
      invariant FirstError(tasks[k..]) == FirstError(tasks)
    {
      assert tasks[k..][1..] == tasks[k + 1..];
      if tasks[k].Err? {
        return tasks[k];
      }
      k := k + 1;
    }
    r := Ok(());
  }

  /** `add_new_anime_with_anime_id`: page numbers 1..N in waves of ten spawned tasks; every
      task of the last wave is spawned even past N, and does nothing there.  The tasks run
      here one after another in spawn order; the join loop then returns the first error. */
  method AddNewAnimeWithAnimeId(table: AnimeIdTable, lastPage: Result<Uint16, string>,
                                pages: nat -> Reply<seq<AnimeName>>, fault: string -> Option<string>)
    returns (r: TaskResult, requested: seq<nat>, tasks: seq<TaskResult>)
    requires table.Valid()
    modifies table
    ensures table.Valid()
    ensures lastPage.Err? ==>
      r == Err(Other(lastPage.error)) && requested == [] && tasks == [] && table.names == old(table.names)
    ensures lastPage.Ok? ==>
      && requested == PagesUpTo(lastPage.value)
      && |tasks| == WaveWidth * ((lastPage.value + WaveWidth - 1) / WaveWidth)
      && table.names == RunTasks(old(table.names), lastPage.value, lastPage.value, pages, fault).0
      && tasks == RunTasks(old(table.names), |tasks|, lastPage.value, pages, fault).1
      && r == FirstError(tasks)
  {
    requested, tasks := [], [];
    if lastPage.Err? {
      return Err(Other(lastPage.error)), requested, tasks;
    }
    var n: nat := lastPage.value;
    ghost var initial := table.names;
    var count: nat := 0;
    while count < n
      invariant count % WaveWidth == 0 && count <= n + WaveWidth - 1
      invariant table.Valid()
      invariant requested == PagesUpTo(if count < n then count else n)
      invariant (table.names, tasks) == RunTasks(initial, count, n, pages, fault)
    {
      requested, tasks := SpawnWave(table, initial, count, n, pages, fault, requested, tasks);
      count := count + WaveWidth;
    }
    WaveCount(count, n);
    TasksPastLastPage(initial, count, n, pages, fault);
    r := JoinTasks(tasks);
  }

  /** `count += 10` on the `u16` wave counter as a release build computes it */
  function WrappingWaveStep(count: Uint16): Uint16
  {
    (count + WaveWidth) % 0x1_0000
  }

  /** The `u16` wave counter of the loop as written after `waves` waves of a release build:
      ten per wave, modulo 2^16 */
  function WaveCounterAfter(waves: nat): Uint16
  {
    (WaveWidth * waves) % 0x1_0000
  }

  /** The counter starts at 0 and each wave steps it by `count += 10` as a release build
      computes it. */
  lemma WaveCounterSteps(waves: nat)
    ensures WaveCounterAfter(0) == 0
    ensures WaveCounterAfter(waves + 1) == WrappingWaveStep(WaveCounterAfter(waves))
  {
    var q := WaveWidth * waves;
    assert q == 0x1_0000 * (q / 0x1_0000) + q % 0x1_0000;
    assert WaveWidth * (waves + 1) == q + WaveWidth;
  }

  /** The counter only takes even values, so it never reaches 65535. */
  lemma {:induction false} WaveCounterStaysEven(waves: nat)
    ensures WaveCounterAfter(waves) % 2 == 0 && WaveCounterAfter(waves) < MaxUint16
  {
    WaveCounterSteps(0);
    if waves > 0 {
      WaveCounterStaysEven(waves - 1);
      WaveCounterSteps(waves - 1);
    }
  }

  /** For N = 65535 the guard `count < N` holds after every wave: the loop as written never ends. */
  lemma WaveCounterBelowTop()
    ensures forall waves: nat :: WaveCounterAfter(waves) < MaxUint16
  {
    forall waves: nat ensures WaveCounterAfter(waves) < MaxUint16 {
      WaveCounterStaysEven(waves);
    }
  }

  /** With N = 65535 the counter reaches 65530 after 6553 waves, which is below N: the task
      for i = 5 computes page 65536, past `u16`, and `count += 10` wraps to 4, below N again,
      so the wave loop starts over at page 5. */
  lemma WaveCounterOverflowsAtTop()
    ensures WaveCounterAfter(6553) == 65530 && 65530 < MaxUint16
    ensures WaveCounterAfter(6553) + 5 + 1 > MaxUint16
    ensures WaveCounterAfter(6554) == WrappingWaveStep(WaveCounterAfter(6553)) == 4
  {
    WaveCounterSteps(6553);
  }
}
