/** The `staff` and `anime_staff` tables and the Jikan staff request
    (src/operations/staff_ops.rs). */
module StaffOps {
  import opened Wrappers
  import opened Text
  import opened Transport
  import opened AnimeOps
  import EpisodeOps

  /** A person of a Jikan staff payload; `imageUrl` is the payload's `images.jpg.image_url` */
  datatype Person = Person(malId: Int32, url: string, imageUrl: string, name: string)

  /** One entry of a staff payload: the person and their positions on the anime */
  datatype PersonData = PersonData(person: Person, positions: seq<string>)

  datatype StaffResponse = StaffResponse(data: seq<PersonData>)

  /** A row of the `staff` table, keyed by `malId` */
  datatype Staff = Staff(malId: Int32, name: string, malUrl: string, image: string, positions: seq<Option<string>>)

  /** A row of the `anime_staff` table, keyed by the pair (`staffId`, `animeId`) */
  datatype AnimeStaff = AnimeStaff(animeId: Int32, staffId: Int32, positions: seq<Option<string>>)

  /** `convert_vec_string_to_vec_option_string`: every position wrapped in `Some`, in order */
  function ConvertVecStringToVecOptionString(strings: seq<string>): (r: seq<Option<string>>)
    ensures |r| == |strings|
    ensures forall i :: 0 <= i < |r| ==> r[i] == Some(strings[i])
  {
    if |strings| == 0 then [] else [Some(strings[0])] + ConvertVecStringToVecOptionString(strings[1..])
  }

  /** The present values of a position list, in order; absent positions are dropped */
  function PresentValues(positions: seq<Option<string>>): seq<string>
  {
    if |positions| == 0 then []
    else (if positions[0].Some? then [positions[0].value] else []) + PresentValues(positions[1..])
  }

  lemma PresentValuesOfSome(x: string, rest: seq<Option<string>>)
    ensures PresentValues([Some(x)] + rest) == [x] + PresentValues(rest)
  {
    assert ([Some(x)] + rest)[1..] == rest;
  }

  /** Unwrapping the converted list gives the original positions back. */
  lemma {:induction false} PresentValuesOfConverted(strings: seq<string>)
    ensures PresentValues(ConvertVecStringToVecOptionString(strings)) == strings
  {
    if |strings| > 0 {
      PresentValuesOfSome(strings[0], ConvertVecStringToVecOptionString(strings[1..]));
      PresentValuesOfConverted(strings[1..]);
      assert strings == [strings[0]] + strings[1..];
    }
  }

  // ---------------------------------------------------------------- merging positions

  /** The merge loop of `insert_or_update_staff`: each fetched position, in order, is appended
      unless the list already holds it, counting the ones appended before it */
  function MergePositions(existing: seq<Option<string>>, fetched: seq<Option<string>>): (r: seq<Option<string>>)
    ensures |existing| <= |r| <= |existing| + |fetched|
    decreases |fetched|
  {
    if |fetched| == 0 then existing
    else MergePositions(if fetched[0] in existing then existing else existing + [fetched[0]], fetched[1..])
  }

  /** The elements of `xs` from position `from` on are pairwise different and not in `xs[..from]` */
  predicate FreshTail(xs: seq<Option<string>>, from: nat)
    requires from <= |xs|
  {
    forall i, j :: from <= i < |xs| && 0 <= j < i ==> xs[i] != xs[j]
  }

  /** The stored positions are an unchanged prefix of the merge: nothing is removed or reordered. */
  lemma {:induction false} MergeKeepsExisting(existing: seq<Option<string>>, fetched: seq<Option<string>>)
    ensures |existing| <= |MergePositions(existing, fetched)|
    ensures MergePositions(existing, fetched)[..|existing|] == existing
    decreases |fetched|
  {
    if |fetched| > 0 {
      var next := if fetched[0] in existing then existing else existing + [fetched[0]];
      MergeKeepsExisting(next, fetched[1..]);
      assert next[..|existing|] == existing;
    }
  }

  /** Every fetched position is in the merge, and every position of the merge was stored or fetched. */
  lemma {:induction false} MergeIsUnion(existing: seq<Option<string>>, fetched: seq<Option<string>>)
    ensures forall x :: x in fetched ==> x in MergePositions(existing, fetched)
    ensures forall x :: x in MergePositions(existing, fetched) ==> x in existing || x in fetched
    decreases |fetched|
  {
    if |fetched| > 0 {
      var next := if fetched[0] in existing then existing else existing + [fetched[0]];
      MergeIsUnion(next, fetched[1..]);
      MergeKeepsExisting(next, fetched[1..]);
      var merged := MergePositions(next, fetched[1..]);
      assert fetched[0] in merged by {
        var k :| 0 <= k < |next| && next[k] == fetched[0];
        assert merged[..|next|][k] == fetched[0];
      }
      assert fetched == [fetched[0]] + fetched[1..];
    }
  }

  /** A position is appended only when it is not held yet, counting the ones appended earlier
      in the same merge: the appended part repeats nothing. */
  lemma {:induction false} MergeAppendsNoDuplicate(existing: seq<Option<string>>, fetched: seq<Option<string>>, from: nat)
    requires from <= |existing| && FreshTail(existing, from)
    ensures from <= |MergePositions(existing, fetched)|
    ensures FreshTail(MergePositions(existing, fetched), from)
    decreases |fetched|
  {
    if |fetched| > 0 {
      var next := if fetched[0] in existing then existing else existing + [fetched[0]];
      assert FreshTail(next, from) by {
        if fetched[0] !in existing {
          forall i, j | from <= i < |next| && 0 <= j < i
            ensures next[i] != next[j]
          {
            if i == |existing| {
              assert next[j] == existing[j];
            }
          }
        }
      }
      MergeAppendsNoDuplicate(next, fetched[1..], from);
    }
  }

  /** Merging positions that are all held already changes nothing. */
  lemma {:induction false} MergeOfHeldPositions(existing: seq<Option<string>>, fetched: seq<Option<string>>)
    requires forall x :: x in fetched ==> x in existing
    ensures MergePositions(existing, fetched) == existing
    decreases |fetched|
  {
    if |fetched| > 0 {
      assert fetched[0] in existing;
      MergeOfHeldPositions(existing, fetched[1..]);
    }
  }

  /** Merging the same fetched list a second time leaves the positions as the first merge left them. */
  lemma MergeIdempotent(existing: seq<Option<string>>, fetched: seq<Option<string>>)
    ensures MergePositions(MergePositions(existing, fetched), fetched) == MergePositions(existing, fetched)
  {
    MergeIsUnion(existing, fetched);
    MergeOfHeldPositions(MergePositions(existing, fetched), fetched);
  }

  /** Fetching one more position extends the merge by that position exactly when the merge does
      not hold it yet: the appended tail keeps the fetched order. */
  lemma {:induction false} MergeAppendStep(existing: seq<Option<string>>, fetched: seq<Option<string>>, x: Option<string>)
    ensures MergePositions(existing, fetched + [x])
         == (var m := MergePositions(existing, fetched); if x in m then m else m + [x])
    decreases |fetched|
  {
    if |fetched| == 0 {
      assert ([x])[1..] == [];
    } else {
      var next := if fetched[0] in existing then existing else existing + [fetched[0]];
      assert (fetched + [x])[0] == fetched[0];
      assert (fetched + [x])[1..] == fetched[1..] + [x];
      MergeAppendStep(next, fetched[1..], x);
    }
  }

  /** A stored "Producer" merged with "Producer", "Director" gains only "Director". */
  lemma MergeExample()
    ensures MergePositions([Some("Producer")], [Some("Producer"), Some("Director")])
         == [Some("Producer"), Some("Director")]
  {
    var fetched := [Some("Producer"), Some("Director")];
    assert fetched[0] in [Some("Producer")];
    assert fetched[1..][0] !in [Some("Producer")] by {
      assert "Director"[0] != "Producer"[0];
    }
    assert fetched[1..][1..] == [];
  }

  /** The in-place loop that pushes each fetched position the list does not hold yet */
  method MergeNewPositions(existingPositions: seq<Option<string>>, newPositions: seq<Option<string>>)
    returns (merged: seq<Option<string>>)
    ensures merged == MergePositions(existingPositions, newPositions)
  {
    merged := existingPositions;
    for k := 0 to |newPositions|
      invariant MergePositions(merged, newPositions[k..]) == MergePositions(existingPositions, newPositions)
    {
      assert newPositions[k..][1..] == newPositions[k + 1..];
      var position := newPositions[k];
      if position !in merged {
        merged := merged + [position];
      }
    }
  }

  // ---------------------------------------------------------------- the staff tables

  /** The row inserted for a person not stored yet */
  function NewStaff(data: PersonData): (s: Staff)
    ensures s.malId == data.person.malId
    ensures s.name == data.person.name && s.malUrl == data.person.url && s.image == data.person.imageUrl
    ensures |s.positions| == |data.positions|
    ensures forall i :: 0 <= i < |s.positions| ==> s.positions[i] == Some(data.positions[i])
    ensures PresentValues(s.positions) == data.positions
  {
    PresentValuesOfConverted(data.positions);
    Staff(data.person.malId, data.person.name, data.person.url, data.person.imageUrl,
          ConvertVecStringToVecOptionString(data.positions))
  }

  /** The `staff` table */
  class StaffTable {
    var rows: map<Int32, Staff>

    ghost predicate Valid()
      reads this
    {
      forall k :: k in rows ==> rows[k].malId == k
    }

    constructor ()
      ensures Valid() && rows == map[]
    {
      rows := map[];
    }

    /** `insert_or_update_staff`: a stored person keeps name, url and image and gets the merge
        of the positions; a new person is inserted from the payload.  `fault` is a failing
        database call, after which nothing is written. */
    method InsertOrUpdateStaff(staffData: PersonData, fault: Option<string>) returns (r: Result<(), string>)
      requires Valid()
      modifies this
      ensures Valid()
      ensures fault.Some? ==> r == Err(fault.value) && rows == old(rows)
      ensures fault.None? ==> r == Ok(())
      ensures fault.None? && staffData.person.malId in old(rows) ==>
        var stored := old(rows)[staffData.person.malId];
        rows == old(rows)[staffData.person.malId := stored.(positions := MergePositions(
          stored.positions, ConvertVecStringToVecOptionString(staffData.positions)))]
      ensures fault.None? && staffData.person.malId !in old(rows) ==>
        rows == old(rows)[staffData.person.malId := NewStaff(staffData)]
    {
      if fault.Some? {
        return Err(fault.value);
      }
      var malId := staffData.person.malId;
      var staffExists := malId in rows;
      if staffExists {
        var existingPositions := rows[malId].positions;
        var newPositions := ConvertVecStringToVecOptionString(staffData.positions);
        var merged := MergeNewPositions(existingPositions, newPositions);
        rows := rows[malId := rows[malId].(positions := merged)];
      } else {
        var newStaff := Staff(malId, staffData.person.name, staffData.person.url,
                              staffData.person.imageUrl, ConvertVecStringToVecOptionString(staffData.positions));
        rows := rows[malId := newStaff];
      }
      r := Ok(());
    }
  }

  /** Storing the same staff entry twice leaves the table as storing it once. */
  method ReingestStaff(table: StaffTable, data: PersonData)
    requires table.Valid()
    modifies table
    ensures table.Valid()
    ensures data.person.malId in old(table.rows) ==>
      var stored := old(table.rows)[data.person.malId];
      table.rows == old(table.rows)[data.person.malId := stored.(positions := MergePositions(
        stored.positions, ConvertVecStringToVecOptionString(data.positions)))]
    ensures data.person.malId !in old(table.rows) ==>
      table.rows == old(table.rows)[data.person.malId := NewStaff(data)]
  {
    var _ := table.InsertOrUpdateStaff(data, None);
    ghost var once := table.rows;
    var _ := table.InsertOrUpdateStaff(data, None);
    assert table.rows == once by {
      var stored := once[data.person.malId];
      if data.person.malId in old(table.rows) {
        MergeIdempotent(old(table.rows)[data.person.malId].positions, ConvertVecStringToVecOptionString(data.positions));
      } else {
        MergeOfHeldPositions(stored.positions, ConvertVecStringToVecOptionString(data.positions));
      }
      assert stored.(positions := stored.positions) == stored;
    }
  }

  /** The `anime_staff` table */
  class AnimeStaffTable {
    var rows: map<(Int32, Int32), AnimeStaff>

    ghost predicate Valid()
      reads this
    {
      forall k :: k in rows ==> (rows[k].staffId, rows[k].animeId) == k
    }

    constructor ()
      ensures Valid() && rows == map[]
    {
      rows := map[];
    }

    /** `insert_into_anime_staff`: a pair already linked is left alone, whatever its positions */
    method InsertIntoAnimeStaff(staffData: PersonData, animeTableId: Int32, fault: Option<string>)
      returns (r: Result<(), string>)
      requires Valid()
      modifies this
      ensures Valid()
      ensures fault.Some? ==> r == Err(fault.value) && rows == old(rows)
      ensures fault.None? ==> r == Ok(())
      ensures fault.None? && (staffData.person.malId, animeTableId) in old(rows) ==> rows == old(rows)
      ensures fault.None? && (staffData.person.malId, animeTableId) !in old(rows) ==>
        rows == old(rows)[(staffData.person.malId, animeTableId) :=
          AnimeStaff(animeTableId, staffData.person.malId, ConvertVecStringToVecOptionString(staffData.positions))]
    {
      if fault.Some? {
        return Err(fault.value);
      }
      var key := (staffData.person.malId, animeTableId);
      var animeStaffExists := key in rows;
      if !animeStaffExists {
        var newAnimeStaff := AnimeStaff(animeTableId, staffData.person.malId,
                                        ConvertVecStringToVecOptionString(staffData.positions));
        rows := rows[key := newAnimeStaff];
      }
      r := Ok(());
    }
  }

  /** A second link of the same pair, even with other positions, changes nothing. */
  method RelinkAnimeStaff(table: AnimeStaffTable, first: PersonData, second: PersonData, animeTableId: Int32)
    requires table.Valid() && first.person.malId == second.person.malId
    modifies table
    ensures table.Valid()
    ensures (first.person.malId, animeTableId) in table.rows
    ensures (first.person.malId, animeTableId) in old(table.rows) ==> table.rows == old(table.rows)
    ensures table.rows == old(table.rows)[(first.person.malId, animeTableId) :=
      if (first.person.malId, animeTableId) in old(table.rows) then old(table.rows)[(first.person.malId, animeTableId)]
      else AnimeStaff(animeTableId, first.person.malId, ConvertVecStringToVecOptionString(first.positions))]
  {
    var _ := table.InsertIntoAnimeStaff(first, animeTableId, None);
    ghost var once := table.rows;
    var _ := table.InsertIntoAnimeStaff(second, animeTableId, None);
    assert table.rows == once;
  }

  // ---------------------------------------------------------------- the Jikan request

  /** The staff endpoint of an anime: `<base>/anime/<mal id>/staff` */
  function StaffUrl(jikanApiUrl: string, animeMalId: Uint16): string
  {
    jikanApiUrl + "/anime/" + DecimalString(animeMalId) + "/staff"
  }

  /** The last three path segments of the staff URL are "anime", the id in decimal and "staff". */
  lemma StaffUrlSegments(jikanApiUrl: string, animeMalId: Uint16)
    ensures var parts := Split(StaffUrl(jikanApiUrl, animeMalId), '/');
      |parts| >= 3 && parts[|parts| - 3..] == ["anime", DecimalString(animeMalId), "staff"]
  {
    var digits := DecimalString(animeMalId);
    assert '/' !in digits by {
      assert forall i :: 0 <= i < |digits| ==> IsAsciiDigit(digits[i]);
    }
    assert StaffUrl(jikanApiUrl, animeMalId) == jikanApiUrl + ['/'] + "anime" + ['/'] + digits + ['/'] + "staff";
    SplitLastThree(jikanApiUrl, "anime", digits, "staff", '/');
  }

  /** `fetch_jikan_staff_response`: one request, no proxy; a transport failure or a non-2xx
      status is `FailedToFetchAfterRetries`, a 2xx its decoded body or the decode error */
  function FetchJikanStaffResponse(reply: Reply<StaffResponse>): (r: Result<StaffResponse, CustomError>)
    ensures r.Ok? <==> reply.Response? && IsSuccess(reply.status) && reply.body.Decoded?
    ensures r.Ok? ==> r.value == reply.body.value
    ensures r.Err? && (reply.TransportFailure? || !IsSuccess(reply.status)) ==> r.error == FailedToFetchAfterRetries
    ensures r.Err? && reply.Response? && IsSuccess(reply.status) ==> r.error == ReqwestError(reply.body.reason)
  {
    match reply
    case Response(status, body) =>
      if IsSuccess(status) then
        match body
        case Decoded(staffData) => Ok(staffData)
        case Malformed(e) => Err(ReqwestError(e))
      else Err(FailedToFetchAfterRetries)
    case TransportFailure(_) => Err(FailedToFetchAfterRetries)
  }

  /** The staff request classifies its one reply exactly as the detail fetch's retry loop would
      with a single attempt, whichever proxy that attempt drew. */
  lemma StaffFetchIsOneAttempt(reply: Reply<StaffResponse>, proxy: EpisodeOps.Proxy)
    ensures FetchJikanStaffResponse(reply)
         == EpisodeOps.FetchRun([proxy], k => 0, (k, p) => Sent(reply), 0, 1).result
  {
    var t := EpisodeOps.FetchRun([proxy], k => 0, (k, p) => Sent(reply), 0, 1);
    if reply.TransportFailure? || !IsSuccess(reply.status) {
      assert t == EpisodeOps.Prepend([proxy], EpisodeOps.FetchRun([proxy], k => 0, (k, p) => Sent(reply), 1, 1));
    }
  }
}
