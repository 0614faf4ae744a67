/** The edge's bulk present-value read: RPM batches with a single read as the fallback for every
    point that its batch did not return (`run_bacnet_read_bulk`). */
module BulkRead {
  import opened Wrappers
  import opened Grouping

  const BATCH_SIZE: nat := 8   // BACNET_POINT_LOAD_BATCH_SIZE

  datatype Point = Point(savedId: nat, objectType: string, instance: int, wantsPriority: bool) {
    function Key(): (string, int) { (objectType, instance) }
  }

  datatype Rpm = RpmFailed(error: string) | Parsed(readings: map<(string, int), string>)

  datatype Single = SingleFailed(error: string) | NoPresentValue | SingleValue(reading: string)

  /** What one point's own commands return, should they run: its single read and the reads of its
      priority array by name and by number, of which an error and no output count alike. */
  datatype PointReads = PointReads(single: Single, byName: Option<string>, byNumber: Option<string>)

  datatype Priority = NotAsked | PriorityError | PriorityArray(output: string)

  datatype Source = RpmBulk | SingleFallback

  /** One entry of the result's `values`. */
  datatype Value = Value(savedId: nat, key: (string, int), status: string, reading: Option<string>, source: Source,
    priority: Priority)

  /** What the read finds before its first command. */
  datatype Preflight = Preflight(routeError: Option<string>, rpmExecutable: bool, lockFree: bool)

  datatype BulkResult =
    | NoPoints                                      // the request does not validate
    | RouteError(error: string)                     // the device's route metadata is broken
    | NotExecutable                                 // the RPM command is missing
    | Busy                                          // the runtime lock was not free
    | Finished(values: seq<Value>, rpmErrors: nat, fallbacks: nat, failed: bool)

  /** What the batch's RPM command returned, if it returned anything. */
  function Readings(rpm: Rpm): map<(string, int), string> {
    if rpm.Parsed? then rpm.readings else map[]
  }

  /** The priority array is read by name, and by number if that gives nothing. */
  function PriorityOf(p: Point, own: PointReads): Priority {
    if !p.wantsPriority then NotAsked
    else if own.byName.Some? then PriorityArray(own.byName.value)
    else if own.byNumber.Some? then PriorityArray(own.byNumber.value)
    else PriorityError
  }

  /** The value of one point from its batch's readings and, failing that, its own read. */
  function ValueOf(p: Point, readings: map<(string, int), string>, own: PointReads): Value {
    if p.Key() in readings then Value(p.savedId, p.Key(), "ok", Some(readings[p.Key()]), RpmBulk, PriorityOf(p, own))
    else if own.single.SingleValue? then
      Value(p.savedId, p.Key(), "ok", Some(own.single.reading), SingleFallback, PriorityOf(p, own))
    else Value(p.savedId, p.Key(), "missing", None, SingleFallback, NotAsked)
  }

  /** `rpm(c)` answers the c-th batch and `own(i)` the commands of the i-th point, should they run:
      each command runs at most once, so this fixes one whole course of events. */
  function ValuesFrom(points: seq<Point>, rpm: nat -> Rpm, own: nat -> PointReads): seq<Value> {
    seq(|points|, i requires 0 <= i < |points| => ValueOf(points[i], Readings(rpm(i / BATCH_SIZE)), own(i)))
  }

  ghost predicate AnyOk(values: seq<Value>) {
    exists i :: 0 <= i < |values| && values[i].status == "ok"
  }

  /** How many of the first `n` batches got no RPM answer. */
  function FailedBatches(rpm: nat -> Rpm, n: nat): nat {
    if n == 0 then 0 else FailedBatches(rpm, n - 1) + if rpm(n - 1).RpmFailed? then 1 else 0
  }

  /** The value of a point: what the RPM answer of its batch has for it, else what its own read gives,
      else nothing. With a value comes the priority array if it was asked for, read by name or, where
      that gives nothing, by number. */
  ghost predicate IsValueOf(v: Value, p: Point, rpm: Rpm, own: PointReads) {
    && v.savedId == p.savedId && v.key == (p.objectType, p.instance)
    && (if rpm.Parsed? && v.key in rpm.readings then
          v.status == "ok" && v.source == RpmBulk && v.reading == Some(rpm.readings[v.key])
        else
          && v.source == SingleFallback
          && match own.single
             case SingleValue(reading) => v.status == "ok" && v.reading == Some(reading)
             case _ => v.status == "missing" && v.reading == None)
    && (if v.status != "ok" || !p.wantsPriority then v.priority == NotAsked
        else match own.byName
          case Some(output) => v.priority == PriorityArray(output)
          case None => v.priority == if own.byNumber.Some? then PriorityArray(own.byNumber.value) else PriorityError)
  }

  /** The finished read: a value for every point, and how many batches and points had to fall back. */
  ghost predicate IsRead(result: BulkResult, points: seq<Point>, rpm: nat -> Rpm, own: nat -> PointReads)
    requires result.Finished?
  {
    && |result.values| == |points|
    && (forall i | 0 <= i < |points| :: IsValueOf(result.values[i], points[i], rpm(i / 8), own(i)))
    && result.fallbacks == |FallenBack(result.values)| && result.rpmErrors == |Unanswered(rpm, (|points| + 7) / 8)|
    && (result.failed <==> forall i | 0 <= i < |points| :: result.values[i].status != "ok")
  }

  ghost function FallenBack(values: seq<Value>): set<nat> {
    set i: nat | i < |values| && values[i].source == SingleFallback
  }

  ghost function Unanswered(rpm: nat -> Rpm, n: nat): set<nat> {
    set c: nat | c < n && rpm(c).RpmFailed?
  }

  lemma {:induction false} FallbacksAre(values: seq<Value>)
    ensures Fallbacks(values) == |FallenBack(values)|
  {
    if values == [] {
      assert FallenBack(values) == {};
    } else {
      var init, last := values[..|values| - 1], values[|values| - 1];
      FallbacksAre(init);
      FallbacksNext(init, last);
      assert init + [last] == values;
    }
  }

  lemma FallbacksNext(init: seq<Value>, last: Value)
    ensures Fallbacks(init + [last]) == Fallbacks(init) + if last.source == SingleFallback then 1 else 0
    ensures |FallenBack(init + [last])| == |FallenBack(init)| + if last.source == SingleFallback then 1 else 0
  {
    FallbacksAppend(init, [last]);
    assert FallenBack(init + [last]) == FallenBack(init) + if last.source == SingleFallback then {|init|} else {};
  }

  lemma {:induction false} FailedBatchesAre(rpm: nat -> Rpm, n: nat)
    ensures FailedBatches(rpm, n) == |Unanswered(rpm, n)|
  {
    if n == 0 {
      assert Unanswered(rpm, n) == {};
    } else {
      FailedBatchesAre(rpm, n - 1);
      assert Unanswered(rpm, n) == Unanswered(rpm, n - 1) + if rpm(n - 1).RpmFailed? then {n - 1} else {};
    }
  }

  lemma BatchCount(points: seq<Point>)
    ensures |Chunked(points, BATCH_SIZE)| == (|points| + 7) / 8
  {
    BatchesCover(points);
    if points != [] {
      BatchAt(points, |Chunked(points, BATCH_SIZE)| - 1);
    }
  }

  lemma ReadTells(result: BulkResult, points: seq<Point>, rpm: nat -> Rpm, own: nat -> PointReads)
    requires result.Finished? && result.values == ValuesFrom(points, rpm, own)
    requires (result.failed <==> !AnyOk(result.values)) && result.fallbacks == Fallbacks(result.values)
    requires result.rpmErrors == FailedBatches(rpm, |Chunked(points, BATCH_SIZE)|)
    ensures IsRead(result, points, rpm, own)
  {
    FallbacksAre(result.values);
    BatchCount(points);
    FailedBatchesAre(rpm, (|points| + 7) / 8);
    forall i | 0 <= i < |points|
      ensures IsValueOf(result.values[i], points[i], rpm(i / 8), own(i))
    {
      assert result.values[i] == ValueOf(points[i], Readings(rpm(i / BATCH_SIZE)), own(i));
    }
  }

  /** Why the read ends before its first command, if it does; the first reason counts. */
  ghost predicate EndsEarly(points: seq<Point>, pre: Preflight, result: BulkResult) {
    match result
    case NoPoints => points == []
    case RouteError(error) => points != [] && pre.routeError == Some(error)
    case NotExecutable => points != [] && pre.routeError == None && !pre.rpmExecutable
    case Busy => points != [] && pre.routeError == None && pre.rpmExecutable && !pre.lockFree
    case Finished(_, _, _, _) => false
  }

  method ReadBulk(points: seq<Point>, pre: Preflight, rpm: nat -> Rpm, own: nat -> PointReads) returns (result: BulkResult)
    ensures result.Finished? <==> points != [] && pre.routeError == None && pre.rpmExecutable && pre.lockFree
    ensures !result.Finished? ==> EndsEarly(points, pre, result)
    ensures result.Finished? ==>
      && result.values == ValuesFrom(points, rpm, own)
      && (result.failed <==> !AnyOk(result.values)) && result.fallbacks == Fallbacks(result.values)
      && result.rpmErrors == FailedBatches(rpm, |Chunked(points, BATCH_SIZE)|)
      && IsRead(result, points, rpm, own)
  {
    if points == [] {
      return NoPoints;
    }
    if pre.routeError.Some? {
      return RouteError(pre.routeError.value);
    }
    if !pre.rpmExecutable {
      return NotExecutable;
    }
    if !pre.lockFree {
      return Busy;
    }
    var values, rpmErrors, fallbacks := ReadChunks(points, rpm, own);
    var anyOk := exists i :: 0 <= i < |values| && values[i].status == "ok";
    result := Finished(values, rpmErrors, fallbacks, !anyOk);
    ReadTells(result, points, rpm, own);
  }

  method ReadChunks(points: seq<Point>, rpm: nat -> Rpm, own: nat -> PointReads)
    returns (values: seq<Value>, rpmErrors: nat, fallbacks: nat)
    ensures values == ValuesFrom(points, rpm, own) && fallbacks == Fallbacks(values)
    ensures rpmErrors == FailedBatches(rpm, |Chunked(points, BATCH_SIZE)|)
  {
    values, rpmErrors, fallbacks := [], 0, 0;
    var chunks := Chunked(points, BATCH_SIZE);
    ghost var all := ValuesFrom(points, rpm, own);
    ghost var places := 0;
    for c := 0 to |chunks|
      invariant places == Upto(points, 8 * c) && values == all[..places]
      invariant fallbacks == Fallbacks(values) && rpmErrors == FailedBatches(rpm, c)
    {
      BatchAt(points, c);
      if rpm(c).RpmFailed? {
        rpmErrors := rpmErrors + 1;
      }
      var more, misses := ReadChunk(chunks[c], 8 * c, Readings(rpm(c)), own);
      ExtendsValues(points, c, rpm, own);
      FallbacksAppend(values, more);
      values := values + more;
      fallbacks := fallbacks + misses;
      places := Upto(points, 8 * c + 8);
    }
    BatchesCover(points);
    assert all[..|points|] == all;
  }

  lemma BatchAt(points: seq<Point>, c: nat)
    requires c < |Chunked(points, BATCH_SIZE)|
    ensures 8 * c < |points| && Chunked(points, BATCH_SIZE)[c] == points[8 * c..Upto(points, 8 * c + 8)]
  {
    ChunkAt(points, 0);
  }

  lemma BatchesCover(points: seq<Point>)
    ensures 8 * |Chunked(points, BATCH_SIZE)| >= |points|
  {
    ChunkAt(points, 0);
  }

  function ChunkValues(chunk: seq<Point>, first: nat, readings: map<(string, int), string>, own: nat -> PointReads): seq<Value> {
    seq(|chunk|, k requires 0 <= k < |chunk| => ValueOf(chunk[k], readings, own(first + k)))
  }

  lemma ExtendsValues(points: seq<Point>, c: nat, rpm: nat -> Rpm, own: nat -> PointReads)
    requires 8 * c < |points|
    ensures var all, next := ValuesFrom(points, rpm, own), Upto(points, 8 * c + 8);
      all[..8 * c] + ChunkValues(points[8 * c..next], 8 * c, Readings(rpm(c)), own) == all[..next]
  {
    var all, next := ValuesFrom(points, rpm, own), Upto(points, 8 * c + 8);
    var more := ChunkValues(points[8 * c..next], 8 * c, Readings(rpm(c)), own);
    forall k | 0 <= k < |more|
      ensures more[k] == all[8 * c + k]
    {
      assert (8 * c + k) / BATCH_SIZE == c;
    }
  }

  /** The points of one batch; `first` is the position of the batch in the request. */
  method ReadChunk(chunk: seq<Point>, first: nat, readings: map<(string, int), string>, own: nat -> PointReads)
    returns (values: seq<Value>, misses: nat)
    ensures values == ChunkValues(chunk, first, readings, own)
    ensures misses == Fallbacks(values)
  {
    values, misses := [], 0;
    for k := 0 to |chunk|
      invariant |values| == k
      invariant forall m | 0 <= m < k :: values[m] == ValueOf(chunk[m], readings, own(first + m))
      invariant misses == Fallbacks(values)
    {
      var p := chunk[k];
      var mine := own(first + k);
      var value;
      if p.Key() !in readings && !mine.single.SingleValue? {
        value := Value(p.savedId, p.Key(), "missing", None, SingleFallback, NotAsked);
      } else {
        var priority := NotAsked;
        if p.wantsPriority {
          var output := if mine.byName.Some? then mine.byName else mine.byNumber;
          priority := if output.Some? then PriorityArray(output.value) else PriorityError;
        }
        value := if p.Key() in readings then Value(p.savedId, p.Key(), "ok", Some(readings[p.Key()]), RpmBulk, priority)
                 else Value(p.savedId, p.Key(), "ok", Some(mine.single.reading), SingleFallback, priority);
      }
      if p.Key() !in readings {
        misses := misses + 1;
      }
      FallbacksAppend(values, [value]);
      values := values + [value];
    }
  }

  function Fallbacks(values: seq<Value>): nat {
    if values == [] then 0 else (if values[0].source == SingleFallback then 1 else 0) + Fallbacks(values[1..])
  }

  lemma {:induction false} FallbacksAppend(a: seq<Value>, b: seq<Value>)
    ensures Fallbacks(a + b) == Fallbacks(a) + Fallbacks(b)
  {
    if a == [] {
      assert a + b == b;
    } else {
      assert (a + b)[1..] == a[1..] + b;
      FallbacksAppend(a[1..], b);
    }
  }

  function Upto(items: seq<Point>, stop: nat): nat {
    if stop <= |items| then stop else |items|
  }

  /** The c-th batch is the c-th slice of the points. */
  lemma {:induction false} ChunkAt(items: seq<Point>, start: nat)
    ensures var chunks := ChunksFrom(items, BATCH_SIZE, start);
      && (forall c | 0 <= c < |chunks| :: (
            && start + 8 * c < |items|
            && chunks[c] == items[start + 8 * c..Upto(items, start + 8 * c + 8)]))
      && start + 8 * |chunks| >= |items|
    decreases |items| - start
  {
    if start < |items| {
      ChunkAt(items, start + 8);
      var chunks, rest := ChunksFrom(items, BATCH_SIZE, start), ChunksFrom(items, BATCH_SIZE, start + 8);
      assert chunks == [items[start..Upto(items, start + 8)]] + rest;
      forall c | 0 <= c < |chunks|
        ensures start + 8 * c < |items|
        ensures chunks[c] == items[start + 8 * c..Upto(items, start + 8 * c + 8)]
      {
        if c > 0 {
          assert chunks[c] == rest[c - 1];
        }
      }
    }
  }

  // ---- Joining the values back to the points ----

  /** `{value["saved_point_id"]: value for value in values}`: the last one wins. */
  function ById(values: seq<Value>): map<nat, Value> {
    if values == [] then map[]
    else ById(values[..|values| - 1])[values[|values| - 1].savedId := values[|values| - 1]]
  }

  lemma {:induction false} ByIdFinds(values: seq<Value>, i: nat)
    requires i < |values|
    requires forall a, b | 0 <= a < b < |values| :: values[a].savedId != values[b].savedId
    ensures values[i].savedId in ById(values) && ById(values)[values[i].savedId] == values[i]
  {
    if i < |values| - 1 {
      ByIdFinds(values[..|values| - 1], i);
    }
  }

  /** Each point gets the value of its own object: the RPM reading when the batch returned one,
      and otherwise the point's own read, with its own priority array. */
  lemma JoinGivesOwnValue(points: seq<Point>, rpm: nat -> Rpm, own: nat -> PointReads, i: nat)
    requires i < |points|
    requires forall a, b | 0 <= a < b < |points| :: points[a].savedId != points[b].savedId
    ensures var joined := ById(ValuesFrom(points, rpm, own)); var readings := Readings(rpm(i / BATCH_SIZE)); var p := points[i];
      && p.savedId in joined && joined[p.savedId].key == p.Key()
      && (p.Key() in readings ==> joined[p.savedId].reading == Some(readings[p.Key()]))
      && (p.Key() !in readings ==>
            joined[p.savedId].reading == if own(i).single.SingleValue? then Some(own(i).single.reading) else None)
      && joined[p.savedId].priority == if joined[p.savedId].reading.Some? then PriorityOf(p, own(i)) else NotAsked
  {
    var values := ValuesFrom(points, rpm, own);
    forall a | 0 <= a < |points|
      ensures values[a].savedId == points[a].savedId
    {
      assert values[a] == ValueOf(points[a], Readings(rpm(a / BATCH_SIZE)), own(a));
    }
    ByIdFinds(values, i);
  }
}
