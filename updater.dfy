// The MusicBrainz updater: how fetched dates and lengths are normalised, the CSV progress
// file that records each entity's status, the per-entity status decision, and the retry
// schedule of a MusicBrainz request.
module Updater {
  import opened Wrappers
  import PyStr
  import PyArith
  import Seqs

  // ---------------------------------------------------------------------------
  // Dates

  /** A partial date completed to a full one: "YYYY" gets "-01-01", "YYYY-MM" gets "-01". */
  function PadDate(s: string): (r: string)
    ensures |r| >= |s| && r[..|s|] == s
    ensures |s| == 4 || |s| == 7 ==> |r| == 10 && r[|r| - 3..] == "-01"
    ensures |s| != 4 && |s| != 7 ==> r == s
  {
    if |s| == 4 then s + "-01-01"
    else if |s| == 7 then s + "-01"
    else s
  }

  /** Completing a date twice is completing it once. */
  lemma PadDateIdempotent(s: string)
    ensures PadDate(PadDate(s)) == PadDate(s)
  {
  }

  /** A life-span field as MusicBrainz sends it: a string, or something else (a bool, null). */
  datatype Field = Text(s: string) | NotText

  /** `life_span_start` / `life_span_end`: a string is completed, anything else becomes None. */
  function LifeSpanDate(v: Field): (r: Option<string>)
    ensures r.Some? <==> v.Text?
    ensures v.Text? ==> |r.value| >= |v.s| && r.value[..|v.s|] == v.s
  {
    match v
    case Text(s) => Some(PadDate(s))
    case NotText => None
  }

  /** The (start, end) pair `update_artist_metadata` writes; a missing or empty "life-span" gives (None, None). */
  function LifeSpanDates(lifeSpan: Option<(Field, Field)>): (r: (Option<string>, Option<string>))
    ensures lifeSpan.None? ==> r == (None, None)
    ensures lifeSpan.Some? ==> r.0.Some? == lifeSpan.value.0.Text? && r.1.Some? == lifeSpan.value.1.Text?
  {
    match lifeSpan
    case None => (None, None)
    case Some((start, end)) => (LifeSpanDate(start), LifeSpanDate(end))
  }

  /**
   * The album release date as `update_album_metadata` computes it: an empty string is
   * replaced by None, and the length test that follows is then applied to None.
   */
  function ReleaseDateAsWritten(v: Option<string>): (r: Result<Option<string>>)
    ensures r.Err? ==> r.error == TypeError
  {
    match v
    case None => Err(TypeError)
    case Some(s) => if |s| == 0 then Err(TypeError) else Ok(Some(PadDate(s)))
  }

  /** An album whose release group has an empty "first-release-date" fails the update. */
  lemma EmptyReleaseDateRaises()
    ensures ReleaseDateAsWritten(Some("")) == Err(TypeError)
  {
  }

  /** The release date the code evidently means: none when absent or empty, else completed. */
  function ReleaseDate(v: Option<string>): (r: Option<string>)
    ensures r.None? <==> v.None? || v.value == ""
    ensures r.Some? ==> |r.value| >= |v.value| && r.value[..|v.value|] == v.value
  {
    if v.None? || v.value == "" then None else Some(PadDate(v.value))
  }

  /** The two agree on every date that is present and non-empty; exactly the others raise as written. */
  lemma ReleaseDateAgrees(v: Option<string>)
    ensures ReleaseDateAsWritten(v).Err? <==> ReleaseDate(v).None?
    ensures ReleaseDateAsWritten(v).Ok? ==> ReleaseDateAsWritten(v).value == ReleaseDate(v)
  {
  }

  // ---------------------------------------------------------------------------
  // Track length

  /** `formatted_length`: a recording length in ms as "M:SS"; a zero or missing length gives None. */
  function FormatLength(length: Option<int>): (r: Option<string>)
    ensures r.None? <==> length.None? || length.value == 0
  {
    if length.None? || length.value == 0 then None
    else
      var secs := PyArith.FloorDiv(length.value, 1000);
      Some(PyStr.IntToString(PyArith.FloorDiv(secs, 60)) + ":" + PyStr.ZeroPad2(PyArith.FloorMod(secs, 60)))
  }

  /**
   * Reading "M:SS" back: two fields around the one colon, two-digit seconds below 60,
   * and minutes * 60 + seconds is the whole number of seconds.
   */
  lemma LengthRoundTrip(ms: int)
    requires ms != 0
    ensures var parts := PyStr.Split(FormatLength(Some(ms)).value, {':'});
      |parts| == 2 && |parts[1]| == 2 &&
      PyStr.ParseInt(parts[0]).Some? && PyStr.ParseInt(parts[1]).Some? &&
      0 <= PyStr.ParseInt(parts[1]).value < 60 &&
      60 * PyStr.ParseInt(parts[0]).value + PyStr.ParseInt(parts[1]).value == PyArith.FloorDiv(ms, 1000)
  {
    var secs := PyArith.FloorDiv(ms, 1000);
    var m := PyArith.FloorDiv(secs, 60);
    var s := PyArith.FloorMod(secs, 60);
    var a := PyStr.IntToString(m);
    var b := PyStr.ZeroPad2(s);
    IntStringNoColon(m);
    SecondsField(s);
    assert FormatLength(Some(ms)).value == a + [':'] + b;
    PyStr.SplitTwo(a, ':', b, {':'});
    PyStr.ParseIntOfIntToString(m);
    PyStr.ParseZeroPad2(s);
  }

  lemma IntStringNoColon(i: int)
    ensures forall k :: 0 <= k < |PyStr.IntToString(i)| ==> PyStr.IntToString(i)[k] != ':'
  {
    if i < 0 {
      var t := PyStr.IntToString(i);
      forall k | 0 <= k < |t| ensures t[k] != ':' {
        if k > 0 { assert t[k] == PyStr.NatToString(-i)[k - 1]; }
      }
    }
  }

  lemma SecondsField(s: int)
    requires 0 <= s < 60
    ensures |PyStr.ZeroPad2(s)| == 2
    ensures forall k :: 0 <= k < 2 ==> PyStr.ZeroPad2(s)[k] != ':'
  {
    if s >= 10 {
      assert PyStr.NatToString(s) == PyStr.NatToString(s / 10) + [('0' as int + s % 10) as char];
    }
  }

  // ---------------------------------------------------------------------------
  // The Wikidata id

  /** `url.split("/")[-1]`: the text after the last "/". */
  function WikidataId(url: string): (r: string)
    ensures forall k :: 0 <= k < |r| ==> r[k] != '/'
    ensures |r| <= |url| && url[|url| - |r|..] == r && (|r| == |url| || url[|url| - |r| - 1] == '/')
  {
    var parts := PyStr.Split(url, {'/'});
    PyStr.SplitLast(url, {'/'});
    parts[|parts| - 1]
  }

  // ---------------------------------------------------------------------------
  // The progress file

  /** A row of the progress CSV. */
  datatype ProgressRow = ProgressRow(entityType: string, entityId: string, musicbrainzId: string, status: string)

  /** The status `get_pending_items` looks for. */
  function WantedStatus(retryErrors: bool): string
  {
    if retryErrors then "error" else "pending"
  }

  /** The rows with status `status`, in file order. */
  function WithStatus(rows: seq<ProgressRow>, status: string): (r: seq<ProgressRow>)
    ensures |r| <= |rows|
  {
    if rows == [] then []
    else
      var init := WithStatus(rows[..|rows| - 1], status);
      if rows[|rows| - 1].status == status then init + [rows[|rows| - 1]] else init
  }

  /** Exactly the rows with that status are selected. */
  lemma {:induction false} WithStatusMembers(rows: seq<ProgressRow>, status: string)
    ensures forall x :: x in WithStatus(rows, status) <==> x in rows && x.status == status
  {
    if rows != [] {
      WithStatusMembers(rows[..|rows| - 1], status);
      assert rows == rows[..|rows| - 1] + [rows[|rows| - 1]];
    }
  }

  /** Whether `update_item_status` rewrites a row: same entity type and `int(entity_id)` equal to the id. */
  predicate Targets(row: ProgressRow, entityType: string, entityId: int)
  {
    row.entityType == entityType && PyStr.ParseInt(row.entityId) == Some(entityId)
  }

  /** Whether a row makes `int(row["entity_id"])` raise: the type matches and the id is no integer. */
  predicate Unreadable(row: ProgressRow, entityType: string)
  {
    row.entityType == entityType && PyStr.ParseInt(row.entityId).None?
  }

  /** The file after `update_item_status`, or the ValueError raised while reading it. */
  function Restatus(rows: seq<ProgressRow>, entityType: string, entityId: int, status: string): (r: Result<seq<ProgressRow>>)
    ensures r.Err? ==> r.error == ValueError
    ensures r.Ok? ==> |r.value| == |rows|
  {
    if rows == [] then Ok([])
    else match Restatus(rows[..|rows| - 1], entityType, entityId, status)
      case Err(e) => Err(e)
      case Ok(init) =>
        var row := rows[|rows| - 1];
        if Unreadable(row, entityType) then Err(ValueError)
        else if Targets(row, entityType, entityId) then Ok(init + [row.(status := status)])
        else Ok(init + [row])
  }

  /** The update fails exactly when some row of that type has a non-integer id. */
  lemma {:induction false} RestatusFails(rows: seq<ProgressRow>, entityType: string, entityId: int, status: string)
    ensures Restatus(rows, entityType, entityId, status).Err? <==> exists i :: 0 <= i < |rows| && Unreadable(rows[i], entityType)
  {
    if rows != [] {
      var init := rows[..|rows| - 1];
      RestatusFails(init, entityType, entityId, status);
      assert forall i :: 0 <= i < |init| ==> init[i] == rows[i];
      Seqs.SomeBeforeOrLast(rows, row => Unreadable(row, entityType));
    }
  }

  /** When the update goes through, only the targeted rows change, and only in their status. */
  lemma {:induction false} RestatusRows(rows: seq<ProgressRow>, entityType: string, entityId: int, status: string)
    ensures var r := Restatus(rows, entityType, entityId, status);
      r.Ok? ==> forall i :: 0 <= i < |rows| ==>
        r.value[i] == if Targets(rows[i], entityType, entityId) then rows[i].(status := status) else rows[i]
  {
    var r := Restatus(rows, entityType, entityId, status);
    if rows != [] && r.Ok? {
      var init := rows[..|rows| - 1];
      RestatusRows(init, entityType, entityId, status);
      var prev := Restatus(init, entityType, entityId, status).value;
      forall i | 0 <= i < |rows|
        ensures r.value[i] == if Targets(rows[i], entityType, entityId) then rows[i].(status := status) else rows[i]
      {
        if i < |init| {
          assert rows[i] == init[i] && r.value[i] == prev[i];
        }
      }
    }
  }

  /** Whether the update fails does not depend on the status written. */
  lemma {:induction false} RestatusFailsAlike(rows: seq<ProgressRow>, entityType: string, entityId: int, s1: string, s2: string)
    ensures Restatus(rows, entityType, entityId, s1).Err? == Restatus(rows, entityType, entityId, s2).Err?
  {
    RestatusFails(rows, entityType, entityId, s1);
    RestatusFails(rows, entityType, entityId, s2);
  }

  /** Writing the same status twice is writing it once. */
  lemma RestatusIdempotent(rows: seq<ProgressRow>, entityType: string, entityId: int, status: string)
    requires Restatus(rows, entityType, entityId, status).Ok?
    ensures var once := Restatus(rows, entityType, entityId, status).value;
      Restatus(once, entityType, entityId, status) == Ok(once)
  {
    var once := Restatus(rows, entityType, entityId, status).value;
    RestatusRows(rows, entityType, entityId, status);
    RestatusRows(once, entityType, entityId, status);
    RestatusFails(once, entityType, entityId, status);
    forall i | 0 <= i < |once| ensures !Unreadable(once[i], entityType) {
      assert once[i].entityType == rows[i].entityType && once[i].entityId == rows[i].entityId;
    }
    var twice := Restatus(once, entityType, entityId, status).value;
    assert forall i :: 0 <= i < |once| ==> twice[i] == once[i];
  }

  /** The entity types `process_entity` knows, with the scope that selects each. */
  function ScopeOf(entityType: string): Option<string>
  {
    if entityType == "artist" then Some("artists")
    else if entityType == "album" then Some("albums")
    else if entityType == "track" then Some("tracks")
    else None
  }

  /** How the MusicBrainz query went: it raised, returned nothing, or returned data. */
  datatype Query = QueryRaised | NoData | Data

  /** How the database update with the fetched data went. */
  datatype Update = Updated | UpdateRaised

  /** The status `process_entity` writes for an entity, or None when it skips it. */
  function EntityStatus(entityType: string, scope: string, query: Query, update: Update): (r: Option<string>)
    ensures r.None? <==> ScopeOf(entityType).None? || (scope != ScopeOf(entityType).value && scope != "all")
    ensures r == Some("updated") <==> r.Some? && query == Data && update == Updated
    ensures r == Some("no_data") <==> r.Some? && query == NoData
    ensures r.Some? ==> r.value in {"updated", "no_data", "error"}
  {
    match ScopeOf(entityType)
    case None => None
    case Some(check) =>
      if scope != check && scope != "all" then None
      else match query
        case QueryRaised => Some("error")
        case NoData => Some("no_data")
        case Data => if update == Updated then Some("updated") else Some("error")
  }

  /** The progress CSV as the updater reads and rewrites it. */
  class ProgressFile {
    var rows: seq<ProgressRow>

    constructor(initial: seq<ProgressRow>)
      ensures rows == initial
    {
      rows := initial;
    }

    /** `get_pending_items(retry_errors)`. */
    method GetPendingItems(retryErrors: bool) returns (pending: seq<ProgressRow>)
      ensures pending == WithStatus(rows, WantedStatus(retryErrors))
    {
      var status := if retryErrors then "error" else "pending";
      pending := [];
      for i := 0 to |rows|
        invariant pending == WithStatus(rows[..i], status)
      {
        assert rows[..i + 1][..i] == rows[..i];
        if rows[i].status == status {
          pending := pending + [rows[i]];
        }
      }
      assert rows[..|rows|] == rows;
    }

    /** `update_item_status(entity_type, entity_id, status)`: the file is rewritten only when it was read through. */
    method UpdateItemStatus(entityType: string, entityId: int, status: string) returns (r: Result<()>)
      modifies this
      ensures var spec := Restatus(old(rows), entityType, entityId, status);
        (r.Ok? <==> spec.Ok?) && (spec.Ok? ==> rows == spec.value) &&
        (spec.Err? ==> rows == old(rows) && r == Err(spec.error))
    {
      var updated := [];
      for i := 0 to |rows|
        invariant Restatus(rows[..i], entityType, entityId, status) == Ok(updated)
      {
        assert rows[..i + 1][..i] == rows[..i];
        var row := rows[i];
        if row.entityType == entityType {
          var id := PyStr.ParseInt(row.entityId);
          if id.None? {
            RestatusStops(rows, i, entityType, entityId, status);
            return Err(ValueError);
          }
          if id.value == entityId {
            row := row.(status := status);
          }
        }
        updated := updated + [row];
      }
      assert rows[..|rows|] == rows;
      rows := updated;
      r := Ok(());
    }

    /** `process_entity` for one entity, given how its query and its update turn out. */
    method ProcessEntity(entityType: string, entityId: int, scope: string, query: Query, update: Update)
      returns (r: Result<()>)
      modifies this
      ensures var st := EntityStatus(entityType, scope, query, update);
        (st.None? ==> rows == old(rows) && r == Ok(())) &&
        (st.Some? ==> var spec := Restatus(old(rows), entityType, entityId, st.value);
          (r.Ok? <==> spec.Ok?) && (spec.Ok? ==> rows == spec.value) && (spec.Err? ==> rows == old(rows)))
    {
      var check := ScopeOf(entityType);
      if check.None? {
        return Ok(());
      }
      if !(scope == check.value || scope == "all") {
        return Ok(());
      }
      if query == QueryRaised {
        r := UpdateItemStatus(entityType, entityId, "error");
        return;
      }
      if query == Data {
        if update == Updated {
          r := UpdateItemStatus(entityType, entityId, "updated");
          if r.Err? {
            RestatusFailsAlike(rows, entityType, entityId, "updated", "error");
            r := UpdateItemStatus(entityType, entityId, "error");
          }
        } else {
          r := UpdateItemStatus(entityType, entityId, "error");
        }
      } else {
        r := UpdateItemStatus(entityType, entityId, "no_data");
      }
    }
  }

  /** A row of the entity's type with a non-integer id stops the rewrite with ValueError. */
  lemma {:induction false} RestatusStops(rows: seq<ProgressRow>, i: nat, entityType: string, entityId: int, status: string)
    requires i < |rows| && Unreadable(rows[i], entityType)
    ensures Restatus(rows, entityType, entityId, status) == Err(ValueError)
  {
    RestatusFails(rows, entityType, entityId, status);
  }

  // ---------------------------------------------------------------------------
  // fetch_with_retries

  /** What one request returns: the decoded body, an HTTP error status, or another request failure. */
  datatype Reply<T> = Body(json: T) | HttpError(code: int) | RequestFailed

  /** 503 Service Unavailable and 429 Too Many Requests are retried. */
  predicate Retryable<T>(reply: Reply<T>)
  {
    reply.HttpError? && (reply.code == 503 || reply.code == 429)
  }

  function Pow2(k: nat): (r: nat)
    ensures r >= 1
  {
    if k == 0 then 1 else 2 * Pow2(k - 1)
  }

  /** The pause before a successful response is returned. */
  const SuccessPause: real := 0.5

  /**
   * The requests from `attempt` on (request number n returns `reply(n)`): the result and
   * the pauses slept, in order.
   */
  function Fetch<T>(reply: nat -> Reply<T>, attempt: nat, maxRetries: nat, backoff: int): (Option<T>, seq<real>)
    requires attempt >= 1
    decreases maxRetries + 1 - attempt
  {
    if attempt > maxRetries then (None, [])
    else match reply(attempt)
      case Body(json) => (Some(json), [SuccessPause])
      case HttpError(code) =>
        if code == 503 || code == 429 then
          var rest := Fetch(reply, attempt + 1, maxRetries, backoff);
          (rest.0, [(backoff * Pow2(attempt - 1)) as real] + rest.1)
        else (None, [])
      case RequestFailed => (None, [])
  }

  /** `fetch_with_retries`, request n answering `reply(n)`: the decoded body or None, and the pauses. */
  method FetchWithRetries<T>(reply: nat -> Reply<T>, maxRetries: nat, backoff: int)
    returns (result: Option<T>, pauses: seq<real>)
    ensures (result, pauses) == Fetch(reply, 1, maxRetries, backoff)
  {
    pauses := [];
    assert pauses + Fetch(reply, 1, maxRetries, backoff).1 == Fetch(reply, 1, maxRetries, backoff).1;
    for attempt := 1 to maxRetries + 1
      invariant Fetch(reply, 1, maxRetries, backoff) ==
        (Fetch(reply, attempt, maxRetries, backoff).0, pauses + Fetch(reply, attempt, maxRetries, backoff).1)
    {
      var response := reply(attempt);
      FetchAt(reply, attempt, maxRetries, backoff);
      match response
      case Body(json) =>
        pauses := pauses + [SuccessPause];
        return Some(json), pauses;
      case HttpError(code) =>
        if code == 503 || code == 429 {
          var waitTime := (backoff * Pow2(attempt - 1)) as real;
          ghost var rest := Fetch(reply, attempt + 1, maxRetries, backoff).1;
          assert pauses + ([waitTime] + rest) == (pauses + [waitTime]) + rest;
          pauses := pauses + [waitTime];
        } else {
          assert pauses + [] == pauses;
          return None, pauses;
        }
      case RequestFailed =>
        assert pauses + [] == pauses;
        return None, pauses;
    }
    assert pauses + [] == pauses;
    result := None;
  }

  /** Request `attempt` decides: a body ends with it, a 503 or 429 pauses and retries, anything else gives up. */
  lemma FetchAt<T>(reply: nat -> Reply<T>, attempt: nat, maxRetries: nat, backoff: int)
    requires 1 <= attempt <= maxRetries
    ensures reply(attempt).Body? ==> Fetch(reply, attempt, maxRetries, backoff) == (Some(reply(attempt).json), [SuccessPause])
    ensures Retryable(reply(attempt)) ==>
      Fetch(reply, attempt, maxRetries, backoff) ==
        (Fetch(reply, attempt + 1, maxRetries, backoff).0,
         [(backoff * Pow2(attempt - 1)) as real] + Fetch(reply, attempt + 1, maxRetries, backoff).1)
    ensures !reply(attempt).Body? && !Retryable(reply(attempt)) ==> Fetch(reply, attempt, maxRetries, backoff) == (None, [])
  {
  }

  /** Every request up to `n` (from `attempt` on) was answered 503 or 429. */
  predicate RetriedUpTo<T>(reply: nat -> Reply<T>, attempt: nat, n: nat)
  {
    forall m :: attempt <= m < n ==> Retryable(reply(m))
  }

  /**
   * A body is returned exactly when some request within the first `max_retries` succeeds
   * and every request before it was answered 503 or 429; at most `max_retries` pauses are
   * slept, the k-th retry pause being `backoff * 2^k` (from request `attempt` on).
   */
  lemma {:induction false} FetchSpec<T>(reply: nat -> Reply<T>, attempt: nat, maxRetries: nat, backoff: int)
    requires 1 <= attempt <= maxRetries + 1
    ensures var f := Fetch(reply, attempt, maxRetries, backoff);
      f.0.Some? <==> exists n :: attempt <= n <= maxRetries && reply(n).Body? && RetriedUpTo(reply, attempt, n)
    ensures var f := Fetch(reply, attempt, maxRetries, backoff);
      f.0.Some? ==> exists n :: attempt <= n <= maxRetries && reply(n) == Body(f.0.value) && RetriedUpTo(reply, attempt, n)
    ensures var f := Fetch(reply, attempt, maxRetries, backoff);
      |f.1| <= maxRetries + 1 - attempt
    ensures var f := Fetch(reply, attempt, maxRetries, backoff);
      var retries := if f.0.Some? then |f.1| - 1 else |f.1|;
      0 <= retries && (forall k :: 0 <= k < retries ==> f.1[k] == (backoff * Pow2(attempt - 1 + k)) as real) &&
      (f.0.Some? ==> f.1[retries] == SuccessPause)
    decreases maxRetries + 1 - attempt
  {
    if attempt <= maxRetries {
      var f := Fetch(reply, attempt, maxRetries, backoff);
      match reply(attempt)
      case Body(json) =>
        assert RetriedUpTo(reply, attempt, attempt);
      case HttpError(code) =>
        if code == 503 || code == 429 {
          FetchSpec(reply, attempt + 1, maxRetries, backoff);
          var g := Fetch(reply, attempt + 1, maxRetries, backoff);
          assert f.0 == g.0 && f.1 == [(backoff * Pow2(attempt - 1)) as real] + g.1;
          if g.0.Some? {
            var n :| attempt + 1 <= n <= maxRetries && reply(n) == Body(g.0.value) && RetriedUpTo(reply, attempt + 1, n);
            assert RetriedUpTo(reply, attempt, n);
          }
          if exists n :: attempt <= n <= maxRetries && reply(n).Body? && RetriedUpTo(reply, attempt, n) {
            var n :| attempt <= n <= maxRetries && reply(n).Body? && RetriedUpTo(reply, attempt, n);
            assert n != attempt;
            assert RetriedUpTo(reply, attempt + 1, n);
          }
          forall k | 1 <= k < |f.1| ensures f.1[k] == g.1[k - 1] {}
        } else {
          forall n | attempt <= n <= maxRetries && reply(n).Body? ensures !RetriedUpTo(reply, attempt, n) {
            assert n != attempt;
            assert !Retryable(reply(attempt));
          }
        }
      case RequestFailed =>
        forall n | attempt <= n <= maxRetries && reply(n).Body? ensures !RetriedUpTo(reply, attempt, n) {
          assert n != attempt;
          assert !Retryable(reply(attempt));
        }
    }
  }
}
