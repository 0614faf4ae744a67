/** The legacy trend path: the edge's bounded `sync_queue`, its at-least-once sender
    (`upload_pending_trend_samples`), and the idempotent receiver `edge_upload_trend_samples`. */
module LegacyTrends {
  import opened Wrappers
  import opened Retry

  datatype Sample = Sample(point: string, sampledAt: int, value: string) {
    function Key(): (string, int) { (point, sampledAt) }
  }

  datatype Row = Row(sample: Sample, uploaded: bool, attempts: nat, nextAttemptAt: Option<int>) {
    predicate DueAt(now: int) { !uploaded && (nextAttemptAt == None || nextAttemptAt.value <= now) }
  }

  const MAX_SAMPLES_PER_REQUEST := 500

  // ---- The edge queue ----

  function PendingCount(rows: seq<Row>): nat {
    if rows == [] then 0
    else PendingCount(rows[..|rows| - 1]) + if rows[|rows| - 1].uploaded then 0 else 1
  }

  /** Ids of the first `limit` due rows from `start` on. */
  function DueFrom(rows: seq<Row>, now: int, limit: nat, start: nat): seq<nat>
    decreases |rows| - start
  {
    if start >= |rows| || limit == 0 then []
    else if rows[start].DueAt(now) then [start] + DueFrom(rows, now, limit - 1, start + 1)
    else DueFrom(rows, now, limit, start + 1)
  }

  function Marked(rows: seq<Row>, ids: seq<nat>): seq<Row> {
    seq(|rows|, i requires 0 <= i < |rows| =>
      if i in ids then rows[i].(uploaded := true, nextAttemptAt := None) else rows[i])
  }

  function FailedOnce(rows: seq<Row>, ids: seq<nat>, retryAt: int): seq<Row> {
    seq(|rows|, i requires 0 <= i < |rows| =>
      if i in ids && !rows[i].uploaded
      then rows[i].(attempts := rows[i].attempts + 1, nextAttemptAt := Some(retryAt)) else rows[i])
  }

  /** The rows among `ids` that are pending. */
  function PendingAmong(rows: seq<Row>, ids: seq<nat>): (r: set<nat>)
    ensures forall i :: i in r <==> i in ids && i < |rows| && !rows[i].uploaded
  {
    set i | i in ids && i < |rows| && !rows[i].uploaded
  }

  lemma MarkedNext(rows: seq<Row>, ids: seq<nat>, last: nat)
    requires |rows| == last + 1
    ensures Marked(rows, ids)[..last] == Marked(rows[..last], ids)
    ensures Marked(rows, ids)[last].uploaded <==> rows[last].uploaded || last in ids
  {
  }

  lemma PendingAmongNext(rows: seq<Row>, ids: seq<nat>, last: nat)
    requires |rows| == last + 1
    ensures |PendingAmong(rows, ids)| == |PendingAmong(rows[..last], ids)| + if last in ids && !rows[last].uploaded then 1 else 0
  {
    var before := PendingAmong(rows[..last], ids);
    if last in ids && !rows[last].uploaded {
      assert PendingAmong(rows, ids) == before + {last};
    } else {
      assert PendingAmong(rows, ids) == before;
    }
  }

  lemma {:induction false} MarkedPending(rows: seq<Row>, ids: seq<nat>)
    ensures PendingCount(Marked(rows, ids)) == PendingCount(rows) - |PendingAmong(rows, ids)|
  {
    if rows == [] {
      assert PendingAmong(rows, ids) == {};
    } else {
      var last := |rows| - 1;
      MarkedPending(rows[..last], ids);
      MarkedNext(rows, ids, last);
      PendingAmongNext(rows, ids, last);
    }
  }

  lemma {:induction false} SamePending(rows: seq<Row>, rows': seq<Row>)
    requires |rows| == |rows'| && forall i | 0 <= i < |rows| :: rows[i].uploaded == rows'[i].uploaded
    ensures PendingCount(rows) == PendingCount(rows')
  {
    if rows != [] {
      SamePending(rows[..|rows| - 1], rows'[..|rows| - 1]);
    }
  }

  function Pending(rows: seq<Row>): set<nat> {
    set i: nat | i < |rows| && !rows[i].uploaded
  }

  /** The backlog is the number of rows that are not uploaded. */
  lemma {:induction false} PendingCountIs(rows: seq<Row>)
    ensures PendingCount(rows) == |Pending(rows)|
  {
    if rows == [] {
      assert Pending(rows) == {};
    } else {
      var last := |rows| - 1;
      PendingCountIs(rows[..last]);
      assert Pending(rows) == Pending(rows[..last]) + if rows[last].uploaded then {} else {last};
    }
  }

  ghost predicate IsMarked(was: Row, row: Row) {
    row.uploaded && row.nextAttemptAt == None && row.sample == was.sample && row.attempts == was.attempts
  }

  /** The named rows are uploaded, so never due again, and all others are as they were. */
  ghost predicate MarkedRows(rows: seq<Row>, rows': seq<Row>, ids: seq<nat>) {
    && |rows'| == |rows|
    && forall i | 0 <= i < |rows| :: if i in ids then IsMarked(rows[i], rows'[i]) else rows'[i] == rows[i]
  }

  ghost predicate IsPutOff(was: Row, row: Row, retryAt: int) {
    !row.uploaded && row.nextAttemptAt == Some(retryAt) && row.sample == was.sample && row.attempts == was.attempts + 1
  }

  /** The named pending rows have one more attempt and are due from the retry time on; all others are
      as they were. */
  ghost predicate FailedRows(rows: seq<Row>, rows': seq<Row>, ids: seq<nat>, retryAt: int) {
    && |rows'| == |rows|
    && forall i | 0 <= i < |rows| :: if i in ids && !rows[i].uploaded then IsPutOff(rows[i], rows'[i], retryAt) else rows'[i] == rows[i]
  }

  /** `COALESCE(MAX(attempt_count), 0)` of the named rows. */
  function MaxAttempts(rows: seq<Row>, ids: seq<nat>): nat {
    if ids == [] then 0
    else
      var m := MaxAttempts(rows, ids[1..]);
      if ids[0] < |rows| && rows[ids[0]].attempts > m then rows[ids[0]].attempts else m
  }

  ghost predicate IsMostAttempts(rows: seq<Row>, ids: seq<nat>, most: nat) {
    && (forall a | 0 <= a < |ids| && ids[a] < |rows| :: rows[ids[a]].attempts <= most)
    && (most == 0 || exists a :: 0 <= a < |ids| && ids[a] < |rows| && rows[ids[a]].attempts == most)
  }

  lemma {:induction false} MaxAttemptsIs(rows: seq<Row>, ids: seq<nat>)
    ensures IsMostAttempts(rows, ids, MaxAttempts(rows, ids))
  {
    if ids != [] {
      MaxAttemptsIs(rows, ids[1..]);
      var rest, most := MaxAttempts(rows, ids[1..]), MaxAttempts(rows, ids);
      if most == rest && most != 0 {
        var a :| 0 <= a < |ids[1..]| && ids[1..][a] < |rows| && rows[ids[1..][a]].attempts == rest;
        assert ids[a + 1] < |rows| && rows[ids[a + 1]].attempts == most;
      }
      forall a | 0 <= a < |ids| && ids[a] < |rows|
        ensures rows[ids[a]].attempts <= most
      {
        assert a > 0 ==> ids[a] == ids[1..][a - 1];
      }
    }
  }

  function RetryTime(rows: seq<Row>, ids: seq<nat>, now: int, base: nat, cap: nat): int {
    now + RetrySeconds(MaxAttempts(rows, ids), base, cap)
  }

  /** The delay is that of the named row tried most often. */
  lemma RetryTimeIs(rows: seq<Row>, ids: seq<nat>, now: int, base: nat, cap: nat) returns (most: nat)
    ensures IsMostAttempts(rows, ids, most)
    ensures RetryTime(rows, ids, now, base, cap) == now + RetrySeconds(most, base, cap)
  {
    MaxAttemptsIs(rows, ids);
    most := MaxAttempts(rows, ids);
  }

  function IdSet(ids: seq<nat>): (r: set<nat>)
    ensures forall i :: i in r <==> i in ids
  {
    set i | i in ids
  }

  lemma {:induction false} IncreasingAreDistinct(ids: seq<nat>)
    requires forall a, b | 0 <= a < b < |ids| :: ids[a] < ids[b]
    ensures |IdSet(ids)| == |ids|
  {
    if ids == [] {
      assert IdSet(ids) == {};
    } else {
      var init, last := ids[..|ids| - 1], ids[|ids| - 1];
      IncreasingAreDistinct(init);
      assert ids == init + [last];
      assert last !in init;
      assert IdSet(ids) == IdSet(init) + {last};
    }
  }

  datatype QueueOutcome = Stored | Full | BadLimit

  datatype UploadOutcome = NothingDue | Sent(count: nat) | SendFailed

  class SyncQueue {
    var rows: seq<Row>
    var lastSampledAt: map<string, int>

    constructor ()
      ensures rows == [] && lastSampledAt == map[]
    {
      rows, lastSampledAt := [], map[];
    }

    method QueueTrendSample(sample: Sample, maxPending: int) returns (outcome: QueueOutcome)
      modifies this
      ensures outcome == if maxPending < 1 then BadLimit else if PendingCount(old(rows)) >= maxPending then Full else Stored
      ensures outcome == Stored ==>
        && rows == old(rows) + [Row(sample, false, 0, None)]
        && lastSampledAt == old(lastSampledAt)[sample.point := sample.sampledAt]
        && PendingCount(rows) == PendingCount(old(rows)) + 1 <= maxPending
      ensures outcome != Stored ==> rows == old(rows) && lastSampledAt == old(lastSampledAt)
    {
      if maxPending < 1 {
        return BadLimit;
      }
      if PendingCount(rows) >= maxPending {
        return Full;
      }
      rows := rows + [Row(sample, false, 0, None)];
      assert rows[..|rows| - 1] == old(rows);
      lastSampledAt := lastSampledAt[sample.point := sample.sampledAt];
      outcome := Stored;
    }

    method MarkUploaded(ids: seq<nat>)
      modifies this`rows
      ensures MarkedRows(old(rows), rows, ids) && rows == Marked(old(rows), ids)
      ensures PendingCount(rows) == PendingCount(old(rows)) - |PendingAmong(old(rows), ids)|
    {
      var before := rows;
      MarkedPending(before, ids);
      rows := seq(|before|, i requires 0 <= i < |before| =>
        if i in ids then before[i].(uploaded := true, nextAttemptAt := None) else before[i]);
      assert rows == Marked(before, ids);
    }

    method RecordFailure(ids: seq<nat>, retryAt: int)
      modifies this`rows
      ensures FailedRows(old(rows), rows, ids, retryAt) && rows == FailedOnce(old(rows), ids, retryAt)
      ensures PendingCount(rows) == PendingCount(old(rows))
    {
      var before := rows;
      SamePending(before, FailedOnce(before, ids, retryAt));
      rows := seq(|before|, i requires 0 <= i < |before| =>
        if i in ids && !before[i].uploaded
        then before[i].(attempts := before[i].attempts + 1, nextAttemptAt := Some(retryAt)) else before[i]);
      assert rows == FailedOnce(before, ids, retryAt);
    }

    /** One upload: the due rows are posted in one request and `accepts` says whether it succeeds.
        Success takes exactly the offered rows off the backlog; failure takes none off and puts the
        offered rows off until their retry time. */
    method UploadPendingTrendSamples(enabled: bool, now: int, limit: nat, base: nat, cap: nat, accepts: seq<Sample> -> bool)
      returns (outcome: UploadOutcome)
      modifies this`rows
      ensures var ids := DueFrom(old(rows), now, limit, 0); var payload := Payload(old(rows), ids);
        && (outcome == NothingDue <==> !enabled || ids == [])
        && (outcome == NothingDue ==> rows == old(rows))
        && (outcome.Sent? ==> accepts(payload) && outcome.count == |ids| && MarkedRows(old(rows), rows, ids)
                              && PendingCount(rows) == PendingCount(old(rows)) - |ids|)
        && (outcome == SendFailed ==>
              && !accepts(payload) && PendingCount(rows) == PendingCount(old(rows))
              && FailedRows(old(rows), rows, ids, RetryTime(old(rows), ids, now, base, cap)))
    {
      if !enabled {
        return NothingDue;
      }
      var ids := DueFrom(rows, now, limit, 0);
      if ids == [] {
        return NothingDue;
      }
      var retryAt := RetryTime(rows, ids, now, base, cap);
      if accepts(Payload(rows, ids)) {
        OfferedArePending(rows, now, limit);
        MarkUploaded(ids);
        outcome := Sent(|ids|);
      } else {
        RecordFailure(ids, retryAt);
        outcome := SendFailed;
      }
    }
  }

  /** A pending row that has no retry time or is past it. */
  ghost predicate IsDue(row: Row, now: int) {
    !row.uploaded && match row.nextAttemptAt case None => true case Some(at) => at <= now
  }

  /** The row is in the batch, or the batch is full of rows before it. */
  ghost predicate TakenOrFull(ids: seq<nat>, limit: nat, i: nat) {
    i in ids || (|ids| == limit && forall a | 0 <= a < |ids| :: ids[a] < i)
  }

  lemma TakenNext(first: nat, ids: seq<nat>, limit: nat, i: nat)
    requires first < i && TakenOrFull(ids, limit, i)
    ensures TakenOrFull([first] + ids, limit + 1, i)
  {
    var more := [first] + ids;
    if a :| 0 <= a < |ids| && ids[a] == i {
      assert more[a + 1] == i;
    }
  }

  lemma {:induction false} DueInOrder(rows: seq<Row>, now: int, limit: nat, start: nat)
    ensures var ids := DueFrom(rows, now, limit, start);
      && |ids| <= limit
      && (forall a | 0 <= a < |ids| :: start <= ids[a] < |rows| && IsDue(rows[ids[a]], now))
      && (forall a, b | 0 <= a < b < |ids| :: ids[a] < ids[b])
    decreases |rows| - start
  {
    if start < |rows| && limit > 0 {
      DueInOrder(rows, now, if rows[start].DueAt(now) then limit - 1 else limit, start + 1);
    }
  }

  lemma {:induction false} NoneIsPassedOver(rows: seq<Row>, now: int, limit: nat, start: nat, i: nat)
    requires start <= i < |rows| && IsDue(rows[i], now)
    ensures TakenOrFull(DueFrom(rows, now, limit, start), limit, i)
    decreases i - start
  {
    if limit > 0 {
      if start == i {
        assert DueFrom(rows, now, limit, start)[0] == i;
      } else if rows[start].DueAt(now) {
        NoneIsPassedOver(rows, now, limit - 1, start + 1, i);
        TakenNext(start, DueFrom(rows, now, limit - 1, start + 1), limit - 1, i);
      } else {
        NoneIsPassedOver(rows, now, limit, start + 1, i);
      }
    }
  }

  /** The batch is what `ORDER BY id LIMIT limit` returns: due rows, in order, and a due row that is not
      in it comes after all of a full batch. */
  lemma DueFromProps(rows: seq<Row>, now: int, limit: nat, start: nat)
    ensures var ids := DueFrom(rows, now, limit, start);
      && |ids| <= limit
      && (forall a | 0 <= a < |ids| :: start <= ids[a] < |rows| && IsDue(rows[ids[a]], now))
      && (forall a, b | 0 <= a < b < |ids| :: ids[a] < ids[b])
      && (forall i: nat | start <= i < |rows| && IsDue(rows[i], now) :: TakenOrFull(ids, limit, i))
  {
    DueInOrder(rows, now, limit, start);
    forall i: nat | start <= i < |rows| && IsDue(rows[i], now)
      ensures TakenOrFull(DueFrom(rows, now, limit, start), limit, i)
    {
      NoneIsPassedOver(rows, now, limit, start, i);
    }
  }

  lemma OfferedArePending(rows: seq<Row>, now: int, limit: nat)
    ensures |PendingAmong(rows, DueFrom(rows, now, limit, 0))| == |DueFrom(rows, now, limit, 0)|
  {
    var ids := DueFrom(rows, now, limit, 0);
    DueFromProps(rows, now, limit, 0);
    IncreasingAreDistinct(ids);
    assert PendingAmong(rows, ids) == IdSet(ids);
  }

  // ---- The cloud's receiver ----

  ghost predicate DistinctKeys(payload: seq<Sample>) {
    forall a, b | 0 <= a < b < |payload| :: payload[a].Key() != payload[b].Key()
  }

  ghost predicate Acceptable(payload: seq<Sample>, known: set<string>) {
    && 1 <= |payload| <= MAX_SAMPLES_PER_REQUEST && DistinctKeys(payload)
    && forall a | 0 <= a < |payload| :: payload[a].point in known
  }

  /** Stores what is new; the first value stored for a point and time stays. */
  function StoreNew(table: map<(string, int), string>, payload: seq<Sample>): map<(string, int), string> {
    if payload == [] then table
    else
      var t := StoreNew(table, payload[..|payload| - 1]);
      var s := payload[|payload| - 1];
      if s.Key() in t then t else t[s.Key() := s.value]
  }

  datatype UploadStatus = Accepted | Unprocessable | Forbidden

  class TrendStore {
    var samples: map<(string, int), string>
    var points: set<string>

    constructor (points: set<string>)
      ensures samples == map[] && this.points == points
    {
      samples, this.points := map[], points;
    }

    method UploadTrendSamples(payload: seq<Sample>) returns (status: UploadStatus)
      modifies this`samples
      ensures status == Accepted <==> Acceptable(payload, points)
      ensures samples == if status == Accepted then StoreNew(old(samples), payload) else old(samples)
      ensures status == Unprocessable <==> |payload| == 0 || |payload| > 500 || RepeatsAKey(payload)
      ensures status == Forbidden ==> exists a :: 0 <= a < |payload| && payload[a].point !in points
      ensures status == Accepted ==> StoresAll(old(samples), samples, payload) && forall a | 0 <= a < |payload| :: payload[a].point in points
    {
      if !(1 <= |payload| <= MAX_SAMPLES_PER_REQUEST) {
        return Unprocessable;
      }
      var keys := KeysOf(payload);
      DistinctByCount(payload);
      if |keys| != |payload| {
        return Unprocessable;
      }
      var existing := samples;
      var added := samples;
      for i := 0 to |payload|
        invariant samples == existing == old(samples)
        invariant added == StoreNew(existing, payload[..i])
        invariant forall k | k in added && k !in existing :: exists a :: 0 <= a < i && payload[a].Key() == k
        invariant forall a | 0 <= a < i :: payload[a].point in points
      {
        var s := payload[i];
        if s.point !in points {
          return Forbidden;
        }
        assert payload[..i + 1][..i] == payload[..i];
        if s.Key() !in existing {
          added := added[s.Key() := s.value];
        } else {
          StoreNewKeeps(existing, payload[..i]);
        }
      }
      assert payload[..|payload|] == payload;
      StoreNewStores(existing, payload);
      samples := added;
      status := Accepted;
    }
  }

  /** Two samples of one point and time. */
  ghost predicate RepeatsAKey(payload: seq<Sample>) {
    exists a, b :: 0 <= a < b < |payload| && payload[a].point == payload[b].point && payload[a].sampledAt == payload[b].sampledAt
  }

  /** Nothing stored is lost or overwritten, every sample of the request has a value, its own unless
      there was one, and nothing else is stored. */
  ghost predicate StoresAll(table: map<(string, int), string>, table': map<(string, int), string>, payload: seq<Sample>) {
    && (forall k | k in table :: k in table' && table'[k] == table[k])
    && (forall a | 0 <= a < |payload| :: (
          var key := (payload[a].point, payload[a].sampledAt); key in table' && (key !in table ==> table'[key] == payload[a].value)))
    && (forall k | k in table' :: k in table || exists a :: 0 <= a < |payload| && (payload[a].point, payload[a].sampledAt) == k)
  }

  lemma StoreNewStores(table: map<(string, int), string>, payload: seq<Sample>)
    requires DistinctKeys(payload)
    ensures StoresAll(table, StoreNew(table, payload), payload)
  {
    StoreNewKeeps(table, payload);
    StoreNewSources(table, payload);
    var after := StoreNew(table, payload);
    forall a | 0 <= a < |payload|
      ensures payload[a].Key() in after && (payload[a].Key() !in table ==> after[payload[a].Key()] == payload[a].value)
    {
      if payload[a].Key() !in table {
        var b :| 0 <= b < |payload| && payload[b].Key() == payload[a].Key() && payload[b].value == after[payload[a].Key()];
        assert a == b;
      }
    }
  }

  lemma {:induction false} StoreNewKeeps(table: map<(string, int), string>, payload: seq<Sample>)
    ensures forall k | k in table :: k in StoreNew(table, payload) && StoreNew(table, payload)[k] == table[k]
  {
    if payload != [] {
      StoreNewKeeps(table, payload[..|payload| - 1]);
    }
  }

  function KeysOf(payload: seq<Sample>): set<(string, int)> {
    set a | 0 <= a < |payload| :: payload[a].Key()
  }

  lemma DistinctSnoc(init: seq<Sample>, last: Sample)
    ensures DistinctKeys(init + [last]) <==> DistinctKeys(init) && last.Key() !in KeysOf(init)
  {
    var all := init + [last];
    if DistinctKeys(all) {
      assert forall a | 0 <= a < |init| :: init[a].Key() == all[a].Key();
      assert all[|init|] == last;
    }
  }

  /** `len(keys) == len(set(keys))` says exactly that no key occurs twice. */
  lemma {:induction false} DistinctByCount(payload: seq<Sample>)
    ensures |KeysOf(payload)| <= |payload|
    ensures |KeysOf(payload)| == |payload| <==> DistinctKeys(payload)
  {
    if payload != [] {
      var init, last := payload[..|payload| - 1], payload[|payload| - 1];
      DistinctByCount(init);
      DistinctSnoc(init, last);
      assert payload == init + [last];
      assert forall a | 0 <= a < |init| :: payload[a].Key() == init[a].Key();
      assert KeysOf(payload) == KeysOf(init) + {last.Key()};
    }
  }

  // ---- Edge, network and cloud together ----

  /** A request's way through the network; the cloud may still handle one that the edge gave up on. */
  datatype Fate = OnTheWay | Lost | Handled(accepted: bool)

  datatype Request = Request(ids: seq<nat>, fate: Fate)

  datatype Sender = Idle | Waiting(request: nat) | Succeeded(request: nat) | Failed(request: nat)

  datatype System = System(
    rows: seq<Row>,
    lastSampledAt: map<string, int>,
    sender: Sender,
    requests: seq<Request>,
    cloud: map<(string, int), string>)

  datatype Step =
    | TakeSample(point: string, interval: nat, now: int, value: string, maxPending: int)
    | Send(now: int, limit: nat)
    | LoseRequest(n: nat)
    | Handle(n: nat, known: set<string>)
    | GetReply
    | GiveUp
    | MarkBatch
    | RecordFailed(retryAt: int)
    | Crash

  /** `_due`: nothing sampled yet, or at least the interval ago. */
  predicate Due(last: map<string, int>, point: string, interval: nat, now: int) {
    point !in last || now - last[point] >= interval
  }

  function Payload(rows: seq<Row>, ids: seq<nat>): seq<Sample> {
    seq(|ids|, a requires 0 <= a < |ids| => if ids[a] < |rows| then rows[ids[a]].sample else Sample("", 0, ""))
  }

  ghost predicate Fires(s: System, step: Step) {
    match step
    case TakeSample(point, interval, now, value, maxPending) =>
      interval > 0 && Due(s.lastSampledAt, point, interval, now) && PendingCount(s.rows) < maxPending
    case Send(now, limit) => s.sender.Idle? && DueFrom(s.rows, now, limit, 0) != []
    case LoseRequest(n) => n < |s.requests| && s.requests[n].fate == OnTheWay
    case Handle(n, known) => n < |s.requests| && s.requests[n].fate == OnTheWay
    case GetReply => s.sender.Waiting? && s.sender.request < |s.requests| && s.requests[s.sender.request].fate.Handled?
    case GiveUp => s.sender.Waiting?
    case MarkBatch => s.sender.Succeeded? && s.sender.request < |s.requests|
    case RecordFailed(_) => s.sender.Failed? && s.sender.request < |s.requests|
    case Crash => true
  }

  ghost function After(s: System, step: Step): System {
    if !Fires(s, step) then s
    else
      match step
      case TakeSample(point, interval, now, value, maxPending) =>
        s.(rows := s.rows + [Row(Sample(point, now, value), false, 0, None)],
           lastSampledAt := s.lastSampledAt[point := now])
      case Send(now, limit) =>
        s.(sender := Waiting(|s.requests|), requests := s.requests + [Request(DueFrom(s.rows, now, limit, 0), OnTheWay)])
      case LoseRequest(n) => s.(requests := s.requests[n := s.requests[n].(fate := Lost)])
      case Handle(n, known) =>
        var payload := Payload(s.rows, s.requests[n].ids);
        var ok := Acceptable(payload, known);
        s.(requests := s.requests[n := s.requests[n].(fate := Handled(ok))],
           cloud := if ok then StoreNew(s.cloud, payload) else s.cloud)
      case GetReply =>
        var n := s.sender.request;
        s.(sender := if s.requests[n].fate.accepted then Succeeded(n) else Failed(n))
      case GiveUp => s.(sender := Failed(s.sender.request))
      case MarkBatch => s.(rows := Marked(s.rows, s.requests[s.sender.request].ids), sender := Idle)
      case RecordFailed(retryAt) => s.(rows := FailedOnce(s.rows, s.requests[s.sender.request].ids, retryAt), sender := Idle)
      case Crash => s.(sender := Idle)
  }

  /** A sample is taken if the point has none yet or the interval is over, and the backlog is below its bound. */
  ghost predicate MayBeTaken(s: System, point: string, interval: nat, now: int, maxPending: int) {
    interval > 0 && (point !in s.lastSampledAt || s.lastSampledAt[point] + interval <= now) && |Pending(s.rows)| < maxPending
  }

  /** A taken sample is a pending row, untried and due at once, and the point's last sample. */
  ghost predicate IsTaken(s: System, s': System, point: string, now: int, value: string) {
    && |s'.rows| == |s.rows| + 1 && s'.rows[..|s.rows|] == s.rows
    && (var row := s'.rows[|s.rows|];
        row.sample.point == point && row.sample.sampledAt == now && row.sample.value == value
        && !row.uploaded && row.attempts == 0 && row.nextAttemptAt == None)
    && s'.lastSampledAt == s.lastSampledAt[point := now]
  }

  /** The request is decided by what the cloud knows: accepted, all its samples are stored, and
      otherwise none. */
  ghost predicate IsHandled(s: System, s': System, n: nat, known: set<string>)
    requires n < |s.requests|
  {
    var payload := Payload(s.rows, s.requests[n].ids);
    var ok := 1 <= |payload| <= 500 && !RepeatsAKey(payload) && forall a | 0 <= a < |payload| :: payload[a].point in known;
    && s'.rows == s.rows && s'.sender == s.sender && s'.lastSampledAt == s.lastSampledAt
    && s'.requests == s.requests[n := Request(s.requests[n].ids, Handled(ok))]
    && if ok then StoresAll(s.cloud, s'.cloud, payload) else s'.cloud == s.cloud
  }

  lemma PayloadIs(rows: seq<Row>, ids: seq<nat>)
    ensures |Payload(rows, ids)| == |ids|
    ensures forall a | 0 <= a < |ids| && ids[a] < |rows| :: Payload(rows, ids)[a] == rows[ids[a]].sample
  {
  }

  lemma TakeTells(s: System, point: string, interval: nat, now: int, value: string, maxPending: int)
    ensures var s' := After(s, TakeSample(point, interval, now, value, maxPending));
      if MayBeTaken(s, point, interval, now, maxPending)
      then IsTaken(s, s', point, now, value) && s'.sender == s.sender && s'.requests == s.requests && s'.cloud == s.cloud else s' == s
  {
    PendingCountIs(s.rows);
  }

  lemma HandleTells(s: System, n: nat, known: set<string>)
    requires n < |s.requests| && s.requests[n].fate == OnTheWay
    ensures IsHandled(s, After(s, Handle(n, known)), n, known)
  {
    var payload := Payload(s.rows, s.requests[n].ids);
    if Acceptable(payload, known) {
      StoreNewStores(s.cloud, payload);
    }
  }

  ghost function Exec(s: System, steps: seq<Step>): System
    decreases |steps|
  {
    if steps == [] then s else Exec(After(s, steps[0]), steps[1..])
  }

  const INITIAL := System([], map[], Idle, [], map[])

  ghost predicate HasRow(rows: seq<Row>, key: (string, int), value: string) {
    exists i :: 0 <= i < |rows| && rows[i].sample.Key() == key && rows[i].sample.value == value
  }

  ghost predicate InCloud(cloud: map<(string, int), string>, sample: Sample) {
    sample.Key() in cloud && cloud[sample.Key()] == sample.value
  }

  /** No point was sampled after its last recorded time, and never twice at one time. */
  ghost predicate KeysUnique(rows: seq<Row>, last: map<string, int>) {
    && (forall i | 0 <= i < |rows| :: rows[i].sample.point in last && rows[i].sample.sampledAt <= last[rows[i].sample.point])
    && (forall i, j | 0 <= i < j < |rows| :: rows[i].sample.Key() != rows[j].sample.Key())
  }

  ghost predicate CloudFromQueue(rows: seq<Row>, cloud: map<(string, int), string>) {
    forall k | k in cloud :: HasRow(rows, k, cloud[k])
  }

  ghost predicate UploadedStored(rows: seq<Row>, cloud: map<(string, int), string>) {
    forall i | 0 <= i < |rows| && rows[i].uploaded :: InCloud(cloud, rows[i].sample)
  }

  ghost predicate AllStored(rows: seq<Row>, ids: seq<nat>, cloud: map<(string, int), string>) {
    forall a | 0 <= a < |ids| :: ids[a] < |rows| && InCloud(cloud, rows[ids[a]].sample)
  }

  ghost predicate RequestsInStep(s: System) {
    && (forall n | 0 <= n < |s.requests| :: (
          && (forall a | 0 <= a < |s.requests[n].ids| :: s.requests[n].ids[a] < |s.rows|)
          && (s.requests[n].fate == Handled(true) ==> AllStored(s.rows, s.requests[n].ids, s.cloud))))
    && (!s.sender.Idle? ==> s.sender.request < |s.requests|)
    && (s.sender.Succeeded? ==> s.requests[s.sender.request].fate == Handled(true))
  }

  ghost predicate Inv(s: System) {
    KeysUnique(s.rows, s.lastSampledAt) && CloudFromQueue(s.rows, s.cloud)
    && UploadedStored(s.rows, s.cloud) && RequestsInStep(s)
  }

  lemma {:induction false} StoreNewSources(table: map<(string, int), string>, payload: seq<Sample>)
    ensures forall k | k in StoreNew(table, payload) :: (
      || (k in table && StoreNew(table, payload)[k] == table[k])
      || exists a :: 0 <= a < |payload| && payload[a].Key() == k && payload[a].value == StoreNew(table, payload)[k])
    ensures forall a | 0 <= a < |payload| :: payload[a].Key() in StoreNew(table, payload)
  {
    if payload != [] {
      var init := payload[..|payload| - 1];
      StoreNewSources(table, init);
      var t, u := StoreNew(table, init), StoreNew(table, payload);
      forall k | k in u
        ensures (k in table && u[k] == table[k])
          || exists a :: 0 <= a < |payload| && payload[a].Key() == k && payload[a].value == u[k]
      {
        if k in t && u[k] == t[k] && !(k in table && t[k] == table[k]) {
          var a :| 0 <= a < |init| && init[a].Key() == k && init[a].value == t[k];
          assert payload[a].Key() == k && payload[a].value == u[k];
        } else if k !in t {
          assert payload[|init|].Key() == k && payload[|init|].value == u[k];
        }
      }
      forall a | 0 <= a < |payload|
        ensures payload[a].Key() in u
      {
        assert a < |init| ==> payload[a] == init[a];
      }
    }
  }

  /** Handling a request, once or again, keeps the cloud a faithful part of the queue. */
  lemma HandleStores(rows: seq<Row>, last: map<string, int>, ids: seq<nat>, cloud: map<(string, int), string>)
    requires KeysUnique(rows, last) && CloudFromQueue(rows, cloud)
    requires forall a | 0 <= a < |ids| :: ids[a] < |rows|
    ensures var cloud' := StoreNew(cloud, Payload(rows, ids));
      && CloudFromQueue(rows, cloud') && AllStored(rows, ids, cloud')
      && forall sample :: InCloud(cloud, sample) ==> InCloud(cloud', sample)
  {
    var payload := Payload(rows, ids);
    var cloud' := StoreNew(cloud, payload);
    StoreNewSources(cloud, payload);
    StoreNewKeeps(cloud, payload);
    forall k | k in cloud'
      ensures HasRow(rows, k, cloud'[k])
    {
      if !(k in cloud && cloud'[k] == cloud[k]) {
        var a :| 0 <= a < |payload| && payload[a].Key() == k && payload[a].value == cloud'[k];
        assert rows[ids[a]].sample == payload[a];
      }
    }
    forall a | 0 <= a < |ids|
      ensures InCloud(cloud', rows[ids[a]].sample)
    {
      var sample := rows[ids[a]].sample;
      assert payload[a] == sample;
      var i :| 0 <= i < |rows| && rows[i].sample.Key() == sample.Key() && rows[i].sample.value == cloud'[sample.Key()];
      assert i == ids[a];
    }
  }

  /** Rows that only change their delivery fields keep everything that concerns their samples. */
  lemma SameSamples(rows: seq<Row>, rows': seq<Row>, s: System)
    requires |rows| <= |rows'| && s.rows == rows && Inv(s)
    requires forall i | 0 <= i < |rows| :: rows'[i].sample == rows[i].sample
    ensures CloudFromQueue(rows', s.cloud)
    ensures forall ids, cloud :: AllStored(rows, ids, cloud) ==> AllStored(rows', ids, cloud)
  {
    forall k | k in s.cloud
      ensures HasRow(rows', k, s.cloud[k])
    {
      var i :| 0 <= i < |rows| && rows[i].sample.Key() == k && rows[i].sample.value == s.cloud[k];
      assert rows'[i].sample == rows[i].sample;
    }
  }

  lemma InvStep(s: System, step: Step)
    requires Inv(s)
    ensures Inv(After(s, step))
  {
    if Fires(s, step) {
      var s' := After(s, step);
      match step {
        case TakeSample(point, interval, now, value, maxPending) =>
          SameSamples(s.rows, s'.rows, s);
        case Handle(n, known) =>
          HandleStep(s, n, known);
        case Send(now, limit) =>
          SendStep(s, now, limit);
        case MarkBatch =>
          SameSamples(s.rows, s'.rows, s);
          MarkStep(s);
        case RecordFailed(_) =>
          SameSamples(s.rows, s'.rows, s);
        case _ =>
      }
    }
  }

  lemma SendStep(s: System, now: int, limit: nat)
    requires Inv(s) && Fires(s, Send(now, limit))
    ensures Inv(After(s, Send(now, limit)))
  {
    DueFromProps(s.rows, now, limit, 0);
  }

  lemma HandleStep(s: System, n: nat, known: set<string>)
    requires Inv(s) && Fires(s, Handle(n, known))
    ensures Inv(After(s, Handle(n, known)))
  {
    HandleStores(s.rows, s.lastSampledAt, s.requests[n].ids, s.cloud);
    var s' := After(s, Handle(n, known));
    forall m | 0 <= m < |s'.requests| && s'.requests[m].fate == Handled(true)
      ensures AllStored(s'.rows, s'.requests[m].ids, s'.cloud)
    {
      assert m != n ==> s'.requests[m] == s.requests[m];
    }
  }

  lemma MarkStep(s: System)
    requires Inv(s) && Fires(s, MarkBatch)
    ensures UploadedStored(After(s, MarkBatch).rows, s.cloud)
  {
    var ids := s.requests[s.sender.request].ids;
    forall i | 0 <= i < |s.rows| && Marked(s.rows, ids)[i].uploaded
      ensures InCloud(s.cloud, s.rows[i].sample)
    {
      if i in ids {
        var a :| 0 <= a < |ids| && ids[a] == i;
      }
    }
  }

  lemma {:induction false} InvExec(s: System, steps: seq<Step>)
    requires Inv(s)
    ensures Inv(Exec(s, steps))
    decreases |steps|
  {
    if steps != [] {
      InvStep(s, steps[0]);
      InvExec(After(s, steps[0]), steps[1..]);
    }
  }

  // ---- The bound on the backlog ----

  lemma {:induction false} PendingShrinks(rows: seq<Row>, rows': seq<Row>)
    requires |rows| == |rows'|
    requires forall i | 0 <= i < |rows| :: rows[i].uploaded ==> rows'[i].uploaded
    ensures PendingCount(rows') <= PendingCount(rows)
  {
    if rows != [] {
      PendingShrinks(rows[..|rows| - 1], rows'[..|rows| - 1]);
    }
  }

  lemma {:induction false} PendingBounded(s: System, steps: seq<Step>, max: nat)
    requires PendingCount(s.rows) <= max
    requires forall k | 0 <= k < |steps| && steps[k].TakeSample? :: steps[k].maxPending <= max
    ensures PendingCount(Exec(s, steps).rows) <= max
    decreases |steps|
  {
    if steps != [] {
      var s' := After(s, steps[0]);
      if s'.rows != s.rows && !steps[0].TakeSample? {
        PendingShrinks(s.rows, s'.rows);
      } else if s'.rows != s.rows {
        assert s'.rows[..|s'.rows| - 1] == s.rows;
      }
      PendingBounded(s', steps[1..], max);
    }
  }

  // ---- What every run promises ----

  /** End to end, under any loss, retry and crash: what the edge marks as uploaded is in the cloud
      with the edge's value, the cloud holds only what the edge queued, the edge queues a point and
      time only once, and its backlog stays within its bound. */
  lemma ExactlyOnce(steps: seq<Step>, max: nat)
    requires forall k | 0 <= k < |steps| && steps[k].TakeSample? :: steps[k].maxPending <= max
    ensures var e := Exec(INITIAL, steps);
      && (forall i | 0 <= i < |e.rows| && e.rows[i].uploaded :: InCloud(e.cloud, e.rows[i].sample))
      && (forall k | k in e.cloud :: HasRow(e.rows, k, e.cloud[k]))
      && (forall i, j | 0 <= i < j < |e.rows| :: e.rows[i].sample.Key() != e.rows[j].sample.Key())
      && PendingCount(e.rows) <= max
  {
    InvExec(INITIAL, steps);
    PendingBounded(INITIAL, steps, max);
  }

  /** Once nothing is pending, the cloud holds exactly the queued samples, one each. */
  lemma DrainedQueueIsMirrored(steps: seq<Step>, key: (string, int), value: string)
    requires forall i | 0 <= i < |Exec(INITIAL, steps).rows| :: Exec(INITIAL, steps).rows[i].uploaded
    ensures var e := Exec(INITIAL, steps);
      (key in e.cloud && e.cloud[key] == value) <==> HasRow(e.rows, key, value)
  {
    InvExec(INITIAL, steps);
    var e := Exec(INITIAL, steps);
    if HasRow(e.rows, key, value) {
      var i :| 0 <= i < |e.rows| && e.rows[i].sample.Key() == key && e.rows[i].sample.value == value;
      assert InCloud(e.cloud, e.rows[i].sample);
    }
  }

  lemma OfferIsAcceptable(s: System, now: int, limit: nat, known: set<string>)
    requires Inv(s) && DueFrom(s.rows, now, limit, 0) != [] && limit <= MAX_SAMPLES_PER_REQUEST
    requires forall i | 0 <= i < |s.rows| :: s.rows[i].sample.point in known
    ensures Acceptable(Payload(s.rows, DueFrom(s.rows, now, limit, 0)), known)
  {
    var ids := DueFrom(s.rows, now, limit, 0);
    DueFromProps(s.rows, now, limit, 0);
    var payload := Payload(s.rows, ids);
    assert forall a | 0 <= a < |ids| :: payload[a] == s.rows[ids[a]].sample;
  }

  lemma SendAndHandle(s: System, now: int, limit: nat, known: set<string>)
    requires s.sender.Idle? && DueFrom(s.rows, now, limit, 0) != []
    requires Acceptable(Payload(s.rows, DueFrom(s.rows, now, limit, 0)), known)
    ensures var n := |s.requests|; var e := After(After(s, Send(now, limit)), Handle(n, known));
      && e.rows == s.rows && e.sender == Waiting(n) && |e.requests| == n + 1
      && e.requests[n] == Request(DueFrom(s.rows, now, limit, 0), Handled(true))
  {
    var sent := After(s, Send(now, limit));
    assert sent.rows == s.rows && sent.requests[|s.requests|] == Request(DueFrom(s.rows, now, limit, 0), OnTheWay);
  }

  lemma ReplyAndMark(s: System, n: nat)
    requires s.sender == Waiting(n) && n < |s.requests| && s.requests[n].fate == Handled(true)
    ensures var e := After(After(s, GetReply), MarkBatch);
      e.sender == Idle && e.rows == Marked(s.rows, s.requests[n].ids)
  {
    assert After(s, GetReply) == s.(sender := Succeeded(n));
  }

  /** A cycle that nothing disturbs uploads every row it offered, whatever happened before. */
  lemma CleanCycleUploads(s: System, now: int, limit: nat, known: set<string>)
    requires Inv(s) && s.sender.Idle? && DueFrom(s.rows, now, limit, 0) != []
    requires limit <= MAX_SAMPLES_PER_REQUEST
    requires forall i | 0 <= i < |s.rows| :: s.rows[i].sample.point in known
    ensures var e := Exec(s, [Send(now, limit), Handle(|s.requests|, known), GetReply, MarkBatch]);
      e.sender == Idle && forall i | i in DueFrom(s.rows, now, limit, 0) :: i < |e.rows| && e.rows[i].uploaded
  {
    DueFromProps(s.rows, now, limit, 0);
    OfferIsAcceptable(s, now, limit, known);
    SendAndHandle(s, now, limit, known);
    var handled := After(After(s, Send(now, limit)), Handle(|s.requests|, known));
    ReplyAndMark(handled, |s.requests|);
    ExecFour(s, Send(now, limit), Handle(|s.requests|, known), GetReply, MarkBatch);
  }

  lemma ExecFour(s: System, a: Step, b: Step, c: Step, d: Step)
    ensures Exec(s, [a, b, c, d]) == After(After(After(After(s, a), b), c), d)
  {
    assert [a, b, c, d][1..] == [b, c, d] && [b, c, d][1..] == [c, d] && [c, d][1..] == [d] && [d][1..] == [];
    assert Exec(After(After(After(s, a), b), c), [d]) == After(After(After(After(s, a), b), c), d);
    assert Exec(After(After(s, a), b), [c, d]) == Exec(After(After(After(s, a), b), c), [d]);
  }
}
