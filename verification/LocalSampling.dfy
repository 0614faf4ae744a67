/** Collection of the edge's local trend groups: a sampler with a per-cycle point budget that
    yields the BACnet runtime to live work (`_sample_local_group`, `sample_local_edge_trends`). */
module LocalSampling {
  import opened Wrappers
  import opened Grouping
  import BulkRead

  datatype TrendPoint = TrendPoint(id: nat, device: int, objectType: string, instance: int) {
    function Request(): BulkRead.Point { BulkRead.Point(id, objectType, instance, false) }
  }

  const DeviceKey: TrendPoint -> int := (p: TrendPoint) => p.device

  /** What became of one bulk read. */
  datatype Read =
    | RuntimeBusy
    | Raised(error: string)
    | Answered(values: seq<BulkRead.Value>, error: string)

  datatype Sample = Sample(point: nat, status: string, reading: Option<string>)

  /** A sample for which there was no value: an error exactly if there is an error text. */
  ghost predicate HasNoValue(sample: Sample, error: string) {
    && sample.reading == None
    && (error != "" ==> sample.status == "error")
    && (error == "" ==> sample.status == "missing")
  }

  /** A sample with a value's reading and status; a value without a status counts as missing. */
  ghost predicate HasValue(sample: Sample, value: BulkRead.Value) {
    && sample.reading == value.reading
    && (value.status != "" ==> sample.status == value.status)
    && (value.status == "" ==> sample.status == "missing")
  }

  /** The sample that one point gets from its batch's answer. */
  function SampleOf(p: TrendPoint, byId: map<nat, BulkRead.Value>, error: string): (sample: Sample)
    ensures sample.point == p.id
    ensures p.id !in byId ==> HasNoValue(sample, error)
    ensures p.id in byId ==> HasValue(sample, byId[p.id])
  {
    if p.id !in byId then Sample(p.id, if error != "" then "error" else "missing", None)
    else Sample(p.id, if byId[p.id].status == "" then "missing" else byId[p.id].status, byId[p.id].reading)
  }

  function ValuesById(read: Read): map<nat, BulkRead.Value> {
    if read.Answered? then BulkRead.ById(read.values) else map[]
  }

  function ErrorOf(read: Read): string {
    match read
    case RuntimeBusy => ""
    case Raised(error) => error
    case Answered(_, error) => error
  }

  datatype Counts = Counts(stored: nat, attempted: nat, returned: nat, missing: nat, errors: nat, deferred: nat)

  /** A bulk read: its number in the run and the batch it is for. */
  datatype Call = Call(number: nat, batch: seq<TrendPoint>)

  function Copies(call: Call, n: nat): (calls: seq<Call>)
    ensures |calls| == n && forall i | 0 <= i < n :: calls[i] == call
  {
    seq(n, i => call)
  }

  function Statuses(samples: seq<Sample>): (statuses: seq<string>)
    ensures |statuses| == |samples| && forall k | 0 <= k < |samples| :: statuses[k] == samples[k].status
  {
    seq(|samples|, k requires 0 <= k < |samples| => samples[k].status)
  }

  function WithStatus(samples: seq<Sample>, status: string): nat {
    multiset(Statuses(samples))[status]
  }

  /** `after` counts `samples` on top of `before`: every sample once as stored and once by its status. */
  ghost predicate CountsUp(before: Counts, samples: seq<Sample>, after: Counts) {
    && after.stored == before.stored + |samples|
    && after.returned == before.returned + WithStatus(samples, "ok")
    && after.missing == before.missing + WithStatus(samples, "missing")
    && after.returned + after.missing + after.errors == before.returned + before.missing + before.errors + |samples|
  }

  ghost predicate Balanced(c: Counts, samples: seq<Sample>) {
    && c.stored == |samples| == c.attempted == c.returned + c.missing + c.errors
    && c.returned == WithStatus(samples, "ok") && c.missing == WithStatus(samples, "missing")
  }

  lemma WithStatusAppend(a: seq<Sample>, b: seq<Sample>, status: string)
    ensures WithStatus(a + b, status) == WithStatus(a, status) + WithStatus(b, status)
  {
    assert Statuses(a + b) == Statuses(a) + Statuses(b);
  }

  lemma CountsUpAppend(before: Counts, a: seq<Sample>, middle: Counts, b: seq<Sample>, after: Counts)
    requires CountsUp(before, a, middle) && CountsUp(middle, b, after)
    ensures CountsUp(before, a + b, after)
  {
    WithStatusAppend(a, b, "ok");
    WithStatusAppend(a, b, "missing");
  }

  /** Why a run stops before its batch number `batch`: the batch would exceed the budget, live work
      waits between two batches of a device, or the read finds the runtime busy. */
  datatype Stop = Stop(batch: nat, betweenBatches: bool, read: nat)

  ghost predicate MustStop(stop: Stop, batches: seq<seq<TrendPoint>>, budget: int, attempted: nat, lock: nat -> bool,
                           read: Call -> Read)
  {
    && stop.batch < |batches|
    && var batch := batches[stop.batch];
      attempted + |batch| > budget || (stop.betweenBatches && lock(stop.read)) || read(Call(stop.read, batch)).RuntimeBusy?
  }

  /** An exception at the sample after `recorded`, which is in the last of the first `b` batches. */
  ghost predicate RaisedIn(batches: seq<seq<TrendPoint>>, b: nat, recorded: nat, attempts: nat) {
    1 <= b <= |batches| && SizeOf(batches, b - 1) <= recorded < SizeOf(batches, b) == attempts
  }

  ghost predicate RaisedInSome(batches: seq<seq<TrendPoint>>, recorded: nat, attempts: nat) {
    exists b: nat :: RaisedIn(batches, b, recorded, attempts)
  }

  ghost predicate NoneFor(values: seq<BulkRead.Value>, id: nat) {
    forall i | 0 <= i < |values| :: values[i].savedId != id
  }

  /** Of several values for one point the last counts. */
  ghost predicate LastFor(values: seq<BulkRead.Value>, id: nat, i: nat) {
    i < |values| && values[i].savedId == id && forall k | i < k < |values| :: values[k].savedId != id
  }

  /** The sample is of the point, which was in the batch that was read, and says what the answer said:
      without a value for the point, whether the read raised or answered with an error text; with one,
      its reading and status. */
  ghost predicate SaysWhatWasRead(sample: Sample, p: TrendPoint, o: Call, read: Call -> Read) {
    && p in o.batch && sample.point == p.id
    && match read(o)
       case RuntimeBusy => false
       case Raised(error) => HasNoValue(sample, error)
       case Answered(values, error) =>
         && (NoneFor(values, p.id) ==> HasNoValue(sample, error))
         && forall i: nat | LastFor(values, p.id, i) :: HasValue(sample, values[i])
  }

  lemma {:induction false} ByIdIs(values: seq<BulkRead.Value>, id: nat)
    ensures id in BulkRead.ById(values) <==> !NoneFor(values, id)
    ensures forall i: nat | LastFor(values, id, i) :: id in BulkRead.ById(values) && BulkRead.ById(values)[id] == values[i]
  {
    if values != [] {
      var init, last := values[..|values| - 1], values[|values| - 1];
      ByIdIs(init, id);
      if last.savedId != id {
        forall i: nat | LastFor(values, id, i)
          ensures LastFor(init, id, i)
        {
        }
        if !NoneFor(values, id) {
          var i :| 0 <= i < |values| && values[i].savedId == id;
          assert init[i].savedId == id;
        }
        if NoneFor(values, id) {
          assert NoneFor(init, id);
        }
      }
    }
  }

  lemma SampleSays(p: TrendPoint, o: Call, read: Call -> Read)
    requires p in o.batch && !read(o).RuntimeBusy?
    ensures SaysWhatWasRead(SampleOf(p, ValuesById(read(o)), ErrorOf(read(o))), p, o, read)
  {
    if read(o).Answered? {
      ByIdIs(read(o).values, p.id);
    }
  }

  /** The k-th sample is of the k-th point and says what the read of its batch said. */
  ghost predicate Faithful(samples: seq<Sample>, points: seq<TrendPoint>, origins: seq<Call>,
                           read: Call -> Read)
  {
    && |samples| == |origins| <= |points|
    && forall k | 0 <= k < |samples| :: FaithfulAt(samples, points, origins, read, k)
  }

  ghost predicate FaithfulAt(samples: seq<Sample>, points: seq<TrendPoint>, origins: seq<Call>,
                             read: Call -> Read, k: nat)
    requires k < |samples| == |origins| <= |points|
  {
    SaysWhatWasRead(samples[k], points[k], origins[k], read)
  }

  /** What came of recording a sample: both inserts, or an exception at the first or the second. */
  datatype Insert = Recorded | NoSample | NoOutboxRow

  /** The n-th sample of the run is recorded, for every n of the range. */
  ghost predicate AllRecorded(insert: nat -> Insert, from: nat, to: nat) {
    forall n | from <= n < to :: insert(n).Recorded?
  }

  function Sampled(batch: seq<TrendPoint>, byId: map<nat, BulkRead.Value>, error: string): seq<Sample> {
    seq(|batch|, k requires 0 <= k < |batch| => SampleOf(batch[k], byId, error))
  }

  /** The points of one batch, up to a sample that cannot be recorded. */
  method SampleBatch(batch: seq<TrendPoint>, byId: map<nat, BulkRead.Value>, error: string, insert: nat -> Insert, before: Counts)
    returns (samples: seq<Sample>, after: Counts, raised: bool)
    ensures |samples| <= |batch| && samples == Sampled(batch, byId, error)[..|samples|]
    ensures AllRecorded(insert, before.stored, before.stored + |samples|)
    ensures raised <==> |samples| < |batch|
    ensures raised ==> !insert(before.stored + |samples|).Recorded?
    ensures forall k | 0 <= k < |samples| :: samples[k].point == batch[k].id
    ensures forall k | 0 <= k < |samples| && batch[k].id !in byId :: HasNoValue(samples[k], error)
    ensures forall k | 0 <= k < |samples| && batch[k].id in byId :: HasValue(samples[k], byId[batch[k].id])
    ensures !raised ==> CountsUp(before, samples, after)
    ensures after.attempted == before.attempted && after.deferred == before.deferred
  {
    samples, after, raised := [], before, false;
    for k := 0 to |batch|
      invariant samples == Sampled(batch[..k], byId, error)
      invariant AllRecorded(insert, before.stored, before.stored + k)
      invariant CountsUp(before, samples, after)
      invariant after.attempted == before.attempted && after.deferred == before.deferred
    {
      var sample := SampleOf(batch[k], byId, error);
      if !insert(before.stored + k).Recorded? {
        SampledPrefix(batch, byId, error, k);
        return samples, after, true;
      }
      SampledNext(batch, byId, error, k);
      CountOne(before, samples, after, sample);
      after := Counted(after, sample.status);
      samples := samples + [sample];
    }
    assert batch[..|batch|] == batch;
    SampledPrefix(batch, byId, error, |batch|);
  }

  function Counted(c: Counts, status: string): Counts {
    var stored := c.(stored := c.stored + 1);
    if status == "ok" then stored.(returned := c.returned + 1)
    else if status == "missing" then stored.(missing := c.missing + 1)
    else stored.(errors := c.errors + 1)
  }

  lemma CountOne(before: Counts, samples: seq<Sample>, after: Counts, sample: Sample)
    requires CountsUp(before, samples, after)
    ensures CountsUp(before, samples + [sample], Counted(after, sample.status))
  {
    assert Statuses(samples + [sample]) == Statuses(samples) + [sample.status];
  }

  lemma SampledNext(batch: seq<TrendPoint>, byId: map<nat, BulkRead.Value>, error: string, k: nat)
    requires k < |batch|
    ensures Sampled(batch[..k + 1], byId, error) == Sampled(batch[..k], byId, error) + [SampleOf(batch[k], byId, error)]
  {
  }

  lemma SampledPrefix(batch: seq<TrendPoint>, byId: map<nat, BulkRead.Value>, error: string, k: nat)
    requires k <= |batch|
    ensures Sampled(batch[..k], byId, error) == Sampled(batch, byId, error)[..k]
  {
  }

  /** The samples so far are those of the first points, and the counters count them. */
  ghost predicate DeviceInStep(points: seq<TrendPoint>, samples: seq<Sample>, origins: seq<Call>, before: Counts, after: Counts,
                               read: Call -> Read, insert: nat -> Insert)
  {
    && |samples| <= |points| && Faithful(samples, points, origins, read)
    && CountsUp(before, samples, after) && after.attempted == before.attempted + |samples|
    && AllRecorded(insert, before.stored, before.stored + |samples|)
  }

  /** The run ended in an exception at the sample after these, within its last attempted batch. */
  ghost predicate DeviceRaised(points: seq<TrendPoint>, samples: seq<Sample>, origins: seq<Call>, before: Counts, after: Counts,
                               read: Call -> Read, insert: nat -> Insert, batches: seq<seq<TrendPoint>>)
  {
    && |samples| < |points| && Faithful(samples, points, origins, read)
    && after.attempted > before.attempted && RaisedInSome(batches, |samples|, after.attempted - before.attempted)
    && AllRecorded(insert, before.stored, before.stored + |samples|)
    && !insert(before.stored + |samples|).Recorded?
  }

  lemma DeviceNext(points: seq<TrendPoint>, samples: seq<Sample>, origins: seq<Call>, before: Counts, middle: Counts,
                   read: Call -> Read, insert: nat -> Insert, n: nat, batch: seq<TrendPoint>, rest: seq<TrendPoint>,
                   more: seq<Sample>, after: Counts)
    requires DeviceInStep(points, samples, origins, before, middle, read, insert) && points[|samples|..] == batch + rest
    requires !read(Call(n, batch)).RuntimeBusy?
    requires more == Sampled(batch, ValuesById(read(Call(n, batch))), ErrorOf(read(Call(n, batch))))
    requires CountsUp(middle, more, after) && after.attempted == middle.attempted + |batch|
    requires AllRecorded(insert, middle.stored, middle.stored + |batch|)
    ensures DeviceInStep(points, samples + more, origins + Copies(Call(n, batch), |more|), before, after, read, insert)
    ensures points[|samples + more|..] == rest
  {
    assert more[..|batch|] == more;
    FaithfulExtends(samples, points, origins, read, n, batch, rest, |batch|);
    CountsUpAppend(before, samples, middle, more, after);
  }

  lemma DeviceFails(points: seq<TrendPoint>, samples: seq<Sample>, origins: seq<Call>, before: Counts, middle: Counts,
                    read: Call -> Read, insert: nat -> Insert, n: nat, batch: seq<TrendPoint>, rest: seq<TrendPoint>,
                    more: seq<Sample>, after: Counts, batches: seq<seq<TrendPoint>>, b: nat)
    requires DeviceInStep(points, samples, origins, before, middle, read, insert) && points[|samples|..] == batch + rest
    requires b < |batches| && batches[b] == batch && |samples| == SizeOf(batches, b) && !read(Call(n, batch)).RuntimeBusy?
    requires |more| < |batch| && more == Sampled(batch, ValuesById(read(Call(n, batch))), ErrorOf(read(Call(n, batch))))[..|more|]
    requires after.attempted == middle.attempted + |batch|
    requires AllRecorded(insert, middle.stored, middle.stored + |more|) && !insert(middle.stored + |more|).Recorded?
    ensures DeviceRaised(points, samples + more, origins + Copies(Call(n, batch), |more|), before, after, read, insert, batches)
  {
    assert RaisedIn(batches, b + 1, |samples + more|, after.attempted - before.attempted);
    FaithfulExtends(samples, points, origins, read, n, batch, rest, |more|);
  }

  lemma FaithfulExtends(samples: seq<Sample>, points: seq<TrendPoint>, origins: seq<Call>,
                        read: Call -> Read, n: nat, batch: seq<TrendPoint>, rest: seq<TrendPoint>, m: nat)
    requires Faithful(samples, points, origins, read) && points[|samples|..] == batch + rest && m <= |batch|
    requires !read(Call(n, batch)).RuntimeBusy?
    ensures |samples| + |batch| <= |points| && points[|samples| + |batch|..] == rest
    ensures Faithful(samples + Sampled(batch, ValuesById(read(Call(n, batch))), ErrorOf(read(Call(n, batch))))[..m],
                     points, origins + Copies(Call(n, batch), m), read)
  {
    var had := |samples|;
    assert points[had + |batch|..] == points[had..][|batch|..];
    var more := Sampled(batch, ValuesById(read(Call(n, batch))), ErrorOf(read(Call(n, batch))))[..m];
    var all, from := samples + more, origins + Copies(Call(n, batch), m);
    forall k | 0 <= k < |all|
      ensures FaithfulAt(all, points, from, read, k)
    {
      if k < had {
        assert FaithfulAt(samples, points, origins, read, k);
      } else {
        assert points[had..][k - had] == batch[k - had];
        SampleSays(batch[k - had], Call(n, batch), read);
      }
    }
  }

  /** One batch of a device that was answered. */
  method SampleAnswer(points: seq<TrendPoint>, ghost batches: seq<seq<TrendPoint>>, ghost b: nat, batch: seq<TrendPoint>, ghost rest: seq<TrendPoint>, answer: Read,
                      ghost read: Call -> Read, insert: nat -> Insert, ghost n: nat, had: seq<Sample>, ghost before: Counts,
                      middle: Counts, ghost hadOrigins: seq<Call>)
    returns (samples: seq<Sample>, after: Counts, raised: bool, ghost origins: seq<Call>)
    requires b < |batches| && batches[b] == batch && |had| == SizeOf(batches, b)
    requires answer == read(Call(n, batch)) && !answer.RuntimeBusy?
    requires DeviceInStep(points, had, hadOrigins, before, middle, read, insert) && points[|had|..] == batch + rest
    ensures after.attempted == middle.attempted + |batch| && after.deferred == middle.deferred
    ensures raised ==> DeviceRaised(points, samples, origins, before, after, read, insert, batches)
    ensures !raised ==> DeviceInStep(points, samples, origins, before, after, read, insert) && points[|samples|..] == rest
    ensures !raised ==> |samples| == SizeOf(batches, b + 1)
  {
    var more;
    more, after, raised := SampleBatch(batch, ValuesById(answer), ErrorOf(answer), insert, middle.(attempted := middle.attempted + |batch|));
    if raised {
      DeviceFails(points, had, hadOrigins, before, middle, read, insert, n, batch, rest, more, after, batches, b);
    } else {
      TakeWhole(Sampled(batch, ValuesById(answer), ErrorOf(answer)));
      DeviceNext(points, had, hadOrigins, before, middle, read, insert, n, batch, rest, more, after);
    }
    samples, origins := had + more, hadOrigins + Copies(Call(n, batch), |more|);
  }

  lemma TakeWhole(samples: seq<Sample>)
    ensures samples[..|samples|] == samples
  {
  }

  /** The batches of one device. `readCount` numbers the bulk reads of the run and `lock(n)` says
      whether live work holds the runtime just before read `n`. */
  method SampleDevice(points: seq<TrendPoint>, batchSize: nat, budget: nat, lock: nat -> bool,
                      read: Call -> Read, insert: nat -> Insert, firstRead: nat, before: Counts)
    returns (samples: seq<Sample>, after: Counts, yielded: bool, raised: bool, readCount: nat, ghost origins: seq<Call>, ghost stop: Option<Stop>)
    requires batchSize >= 1 && before.attempted <= budget
    ensures after.attempted <= budget
    ensures raised ==> DeviceRaised(points, samples, origins, before, after, read, insert, Chunked(points, batchSize))
    ensures !raised ==> DeviceInStep(points, samples, origins, before, after, read, insert)
    ensures !raised ==> after.deferred == before.deferred + |points| - |samples|
    ensures !raised ==> (yielded <==> stop.Some?) && (!yielded ==> |samples| == |points|)
    ensures !raised && !yielded ==> readCount == firstRead + |Chunked(points, batchSize)|
    ensures !raised && yielded ==>
      && stop.value.batch < |Chunked(points, batchSize)|
      && |samples| == SizeOf(Chunked(points, batchSize), stop.value.batch) < |points|
      && stop.value.read == firstRead + stop.value.batch && (stop.value.betweenBatches ==> stop.value.batch > 0)
      && MustStop(stop.value, Chunked(points, batchSize), budget, after.attempted, lock, read)
  {
    samples, after, yielded, raised, readCount, origins, stop := [], before, false, false, firstRead, [], None;
    var batches := Chunked(points, batchSize);
    ChunksCover(points, batchSize);
    var b := 0;
    while b < |batches| && !yielded
      invariant 0 <= b <= |batches| && !raised
      invariant DeviceInStep(points, samples, origins, before, after, read, insert) && after.attempted <= budget
      invariant !yielded ==> points[|samples|..] == Concat(batches[b..])
      invariant |samples| == SizeOf(batches, b) && (!yielded ==> readCount == firstRead + b)
      invariant after.deferred == before.deferred + if yielded then |points| - |samples| else 0
      invariant yielded <==> stop.Some?
      invariant yielded ==> stop.value == Stop(b, b > 0, firstRead + b) && |samples| < |points| && MustStop(stop.value, batches, budget, after.attempted, lock, read)
      decreases |batches| - b, !yielded
    {
      var batch := batches[b];
      var remaining := Concat(batches[b..]);
      assert batches[b..][0] == batch && batches[b..][1..] == batches[b + 1..];
      ghost var here := Stop(b, b > 0, readCount);
      if after.attempted + |batch| > budget || (b > 0 && lock(readCount)) {
        after := after.(deferred := after.deferred + |remaining|);
        yielded := true;
        stop := Some(here);
      } else {
        var answer := read(Call(readCount, batch));
        if answer.RuntimeBusy? {
          after := after.(deferred := after.deferred + |remaining|);
          yielded := true;
          stop := Some(here);
        } else {
          samples, after, raised, origins :=
            SampleAnswer(points, batches, b, batch, Concat(batches[b + 1..]), answer, read, insert, readCount, samples, before, after, origins);
          if raised {
            return;
          }
          b := b + 1;
        }
        readCount := readCount + 1;
      }
    }
  }

  /** Batch number `b` is not the first of its device. */
  ghost predicate Between(groups: seq<Group<TrendPoint>>, batchSize: nat, b: nat)
    requires batchSize >= 1
  {
    exists d: nat :: d < |groups| && IsBatchOf(groups, batchSize, d, b)
  }

  ghost predicate IsBatchOf(groups: seq<Group<TrendPoint>>, batchSize: nat, d: nat, b: nat)
    requires batchSize >= 1 && d < |groups|
  {
    |BatchesBefore(groups, batchSize, d)| < b < |BatchesBefore(groups, batchSize, d + 1)|
  }

  /** The batches so far are attempted, each with its own read, and the run stops before the next only
      for a reason that holds there. */
  ghost predicate StopsAt(stop: Stop, groups: seq<Group<TrendPoint>>, batchSize: nat, budget: int, attempted: nat,
                          lock: nat -> bool, read: Call -> Read)
    requires batchSize >= 1
  {
    var batches := Batches(groups, batchSize);
    && stop.batch < |batches| && attempted == SizeOf(batches, stop.batch) && stop.read == stop.batch
    && (stop.betweenBatches ==> Between(groups, batchSize, stop.batch))
    && MustStop(stop, batches, budget, attempted, lock, read)
  }

  ghost predicate StopsForAReason(stop: Option<Stop>, counts: Counts, groups: seq<Group<TrendPoint>>, batchSize: nat,
    budget: nat, lock: nat -> bool, read: Call -> Read)
    requires batchSize >= 1
  {
    && (stop.None? <==> counts.deferred == 0)
    && (stop.Some? ==> StopsAt(stop.value, groups, batchSize, budget, counts.attempted, lock, read))
  }

  predicate IsZero(c: Counts) {
    c.stored == c.attempted == c.returned == c.missing == c.errors == c.deferred == 0
  }

  method NoCounts() returns (c: Counts)
    ensures IsZero(c)
  {
    c := Counts(0, 0, 0, 0, 0, 0);
  }

  /** A run that was not cut short by an exception. */
  ghost predicate RunInStep(points: seq<TrendPoint>, samples: seq<Sample>, origins: seq<Call>, counts: Counts,
                            read: Call -> Read, insert: nat -> Insert)
  {
    Balanced(counts, samples) && Faithful(samples, points, origins, read) && AllRecorded(insert, 0, |samples|)
  }

  /** A run cut short by an exception at the sample after these. */
  ghost predicate RunRaised(points: seq<TrendPoint>, samples: seq<Sample>, origins: seq<Call>, counts: Counts,
                            read: Call -> Read, insert: nat -> Insert, batches: seq<seq<TrendPoint>>)
  {
    && |samples| < |points| && Faithful(samples, points, origins, read)
    && RaisedInSome(batches, |samples|, counts.attempted)
    && AllRecorded(insert, 0, |samples|) && !insert(|samples|).Recorded?
  }

  /** What a run over these groups makes of them. */
  ghost predicate Outcome(groups: seq<Group<TrendPoint>>, raised: bool, samples: seq<Sample>, origins: seq<Call>, counts: Counts,
    stop: Option<Stop>, batchSize: nat, budget: nat, lock: nat -> bool, read: Call -> Read, insert: nat -> Insert)
    requires batchSize >= 1
  {
    var points, batches := Flatten(groups), Batches(groups, batchSize);
    && counts.attempted <= budget
    && if raised then RunRaised(points, samples, origins, counts, read, insert, batches)
       else
         && RunInStep(points, samples, origins, counts, read, insert) && counts.stored + counts.deferred == |points|
         && StopsForAReason(stop, counts, groups, batchSize, budget, lock, read)
  }

  /** One due group. Its samples are those of a prefix of the group's points, in device order; a run
      raises exactly if one of them cannot be recorded. */
  method SampleGroup(points: seq<TrendPoint>, batchSize: nat, budget: nat, busyAtStart: bool, lock: nat -> bool,
                     read: Call -> Read, insert: nat -> Insert)
    returns (samples: seq<Sample>, counts: Counts, raised: bool, ghost origins: seq<Call>, ghost stop: Option<Stop>)
    requires batchSize >= 1
    ensures busyAtStart ==> IsZero(counts) && samples == [] && !raised
    ensures !busyAtStart ==>
      Outcome(Grouped(points, DeviceKey), raised, samples, origins, counts, stop, batchSize, budget, lock, read, insert)
  {
    samples, raised, origins, stop := [], false, [], None;
    counts := NoCounts();
    if !busyAtStart {
      var groups := GroupBy(points, DeviceKey);
      samples, counts, raised, origins, stop := SampleDevices(groups, batchSize, budget, lock, read, insert);
    }
  }

  lemma GroupedLength(points: seq<TrendPoint>)
    ensures |Flatten(Grouped(points, DeviceKey))| == |points|
  {
    GroupsPartition(points, DeviceKey);
    var all := Flatten(Grouped(points, DeviceKey));
    assert |all| == |multiset(all)| == |multiset(points)| == |points|;
  }

  method SampleDevices(groups: seq<Group<TrendPoint>>, batchSize: nat, budget: nat, lock: nat -> bool,
                       read: Call -> Read, insert: nat -> Insert)
    returns (samples: seq<Sample>, counts: Counts, raised: bool, ghost origins: seq<Call>, ghost stop: Option<Stop>)
    requires batchSize >= 1
    ensures Outcome(groups, raised, samples, origins, counts, stop, batchSize, budget, lock, read, insert)
  {
    samples, counts, origins := StartRun(groups, batchSize, budget, lock, read, insert);
    samples, counts, raised, origins, stop := SampleInTurn(groups, batchSize, budget, lock, read, insert, samples, counts, origins);
    if !raised {
      DevicesDone(groups, samples, origins, counts, stop, batchSize, budget, lock, read, insert);
    }
  }

  /** The devices in turn; once the run has yielded, the rest are deferred. */
  method SampleInTurn(groups: seq<Group<TrendPoint>>, batchSize: nat, budget: nat, lock: nat -> bool, read: Call -> Read,
                      insert: nat -> Insert, none: seq<Sample>, zero: Counts, ghost nowhere: seq<Call>)
    returns (samples: seq<Sample>, counts: Counts, raised: bool, ghost origins: seq<Call>, ghost stop: Option<Stop>)
    requires batchSize >= 1 && zero.attempted <= budget
    requires DevicesInStep(groups, 0, none, nowhere, zero, None, batchSize, budget, lock, read, insert)
    ensures counts.attempted <= budget
    ensures raised ==> RunRaised(Flatten(groups), samples, origins, counts, read, insert, Batches(groups, batchSize))
    ensures !raised ==> DevicesInStep(groups, |groups|, samples, origins, counts, stop, batchSize, budget, lock, read, insert)
  {
    samples, counts, raised, origins, stop := none, zero, false, nowhere, None;
    var readCount, yielded := 0, false;
    for d := 0 to |groups|
      invariant counts.attempted <= budget && (yielded <==> stop.Some?)
      invariant !yielded ==> readCount == |BatchesBefore(groups, batchSize, d)|
      invariant DevicesInStep(groups, d, samples, origins, counts, stop, batchSize, budget, lock, read, insert)
    {
      if yielded {
        DevicesSkip(groups, d, samples, origins, counts, stop, batchSize, budget, lock, read, insert);
        counts := counts.(deferred := counts.deferred + |groups[d].items|);
      } else {
        samples, counts, yielded, raised, readCount, origins, stop :=
          SampleNextDevice(groups, d, batchSize, budget, lock, read, insert, readCount, samples, counts, origins);
        if raised {
          return;
        }
      }
    }
    raised := false;
  }

  method StartRun(groups: seq<Group<TrendPoint>>, batchSize: nat, budget: nat, lock: nat -> bool,
                  read: Call -> Read, insert: nat -> Insert)
    returns (samples: seq<Sample>, counts: Counts, ghost origins: seq<Call>)
    requires batchSize >= 1
    ensures counts.attempted == 0
    ensures DevicesInStep(groups, 0, samples, origins, counts, None, batchSize, budget, lock, read, insert)
  {
    samples, origins := [], [];
    counts := NoCounts();
    assert counts.stored + counts.deferred == CountBefore(groups, 0);
    NothingYet(Flatten(groups), samples, origins, counts, groups, batchSize, budget, lock, read, insert);
  }

  lemma NothingYet(points: seq<TrendPoint>, samples: seq<Sample>, origins: seq<Call>, counts: Counts,
    groups: seq<Group<TrendPoint>>, batchSize: nat, budget: nat, lock: nat -> bool, read: Call -> Read, insert: nat -> Insert)
    requires |samples| == |origins| == 0 && IsZero(counts) && batchSize >= 1
    ensures RunInStep(points, samples, origins, counts, read, insert)
    ensures StopsForAReason(None, counts, groups, batchSize, budget, lock, read)
  {
  }

  lemma DevicesDone(groups: seq<Group<TrendPoint>>, samples: seq<Sample>, origins: seq<Call>, counts: Counts,
    stop: Option<Stop>, batchSize: nat, budget: nat, lock: nat -> bool, read: Call -> Read, insert: nat -> Insert)
    requires batchSize >= 1 && counts.attempted <= budget
    requires DevicesInStep(groups, |groups|, samples, origins, counts, stop, batchSize, budget, lock, read, insert)
    ensures Outcome(groups, false, samples, origins, counts, stop, batchSize, budget, lock, read, insert)
  {
    CountBeforeAll(groups);
  }

  /** Device `d` of a run that has not yielded. */
  method SampleNextDevice(groups: seq<Group<TrendPoint>>, d: nat, batchSize: nat, budget: nat, lock: nat -> bool,
    read: Call -> Read, insert: nat -> Insert, firstRead: nat, had: seq<Sample>, before: Counts, ghost hadOrigins: seq<Call>)
    returns (samples: seq<Sample>, counts: Counts, yielded: bool, raised: bool, readCount: nat, ghost origins: seq<Call>, ghost stop: Option<Stop>)
    requires batchSize >= 1 && d < |groups| && before.attempted <= budget && firstRead == |BatchesBefore(groups, batchSize, d)|
    requires DevicesInStep(groups, d, had, hadOrigins, before, None, batchSize, budget, lock, read, insert)
    ensures counts.attempted <= budget && (!raised ==> (yielded <==> stop.Some?))
    ensures !raised && !yielded ==> readCount == |BatchesBefore(groups, batchSize, d + 1)|
    ensures raised ==> RunRaised(Flatten(groups), samples, origins, counts, read, insert, Batches(groups, batchSize))
    ensures !raised ==> DevicesInStep(groups, d + 1, samples, origins, counts, stop, batchSize, budget, lock, read, insert)
  {
    var more;
    ghost var from;
    more, counts, yielded, raised, readCount, from, stop :=
      SampleDevice(groups[d].items, batchSize, budget, lock, read, insert, firstRead, before);
    if raised {
      BeforeDevice(groups, d, had, hadOrigins, before, batchSize, budget, lock, read, insert);
      FaithfulAppend(had, hadOrigins, more, from, groups, d, read);
      DevicesFail(groups, d, |had|, before, more, from, counts, had + more, hadOrigins + from, batchSize, read, insert);
    } else {
      SamplesNext(groups, d, had, hadOrigins, before, more, from, counts, read, insert);
      stop := DeviceStops(groups, d, |had|, |more|, counts, stop, batchSize, budget, lock, read);
    }
    samples, origins := had + more, hadOrigins + from;
  }

  /** The run after `d` devices. */
  ghost predicate DevicesInStep(groups: seq<Group<TrendPoint>>, d: nat, samples: seq<Sample>, origins: seq<Call>, counts: Counts,
    stop: Option<Stop>, batchSize: nat, budget: nat, lock: nat -> bool, read: Call -> Read, insert: nat -> Insert)
    requires d <= |groups| && batchSize >= 1
  {
    && RunInStep(Flatten(groups), samples, origins, counts, read, insert)
    && counts.stored + counts.deferred == CountBefore(groups, d)
    && StopsForAReason(stop, counts, groups, batchSize, budget, lock, read)
  }

  lemma DevicesSkip(groups: seq<Group<TrendPoint>>, d: nat, samples: seq<Sample>, origins: seq<Call>, counts: Counts,
    stop: Option<Stop>, batchSize: nat, budget: nat, lock: nat -> bool, read: Call -> Read, insert: nat -> Insert)
    requires batchSize >= 1 && d < |groups| && stop.Some?
    requires DevicesInStep(groups, d, samples, origins, counts, stop, batchSize, budget, lock, read, insert)
    ensures DevicesInStep(groups, d + 1, samples, origins, counts.(deferred := counts.deferred + |groups[d].items|), stop,
                          batchSize, budget, lock, read, insert)
  {
  }

  /** Before a device of a run that has not yielded, all points of the devices before it have samples. */
  lemma BeforeDevice(groups: seq<Group<TrendPoint>>, d: nat, samples: seq<Sample>, origins: seq<Call>, middle: Counts,
    batchSize: nat, budget: nat, lock: nat -> bool, read: Call -> Read, insert: nat -> Insert)
    requires batchSize >= 1 && d < |groups| && DevicesInStep(groups, d, samples, origins, middle, None, batchSize, budget, lock, read, insert)
    ensures middle.stored == middle.attempted == |samples| == CountBefore(groups, d)
    ensures Faithful(samples, Flatten(groups), origins, read) && AllRecorded(insert, 0, |samples|)
  {
  }

  lemma RecordedAppend(insert: nat -> Insert, a: nat, b: nat)
    requires AllRecorded(insert, 0, a) && AllRecorded(insert, a, a + b)
    ensures AllRecorded(insert, 0, a + b)
  {
  }

  lemma RaisedLater(all: seq<seq<TrendPoint>>, part: seq<seq<TrendPoint>>, first: nat, had: nat, more: nat, recorded: nat, attempted: nat)
    requires first <= |all| && part <= all[first..] && had == SizeOf(all, first) <= attempted && recorded == had + more
    requires RaisedInSome(part, more, attempted - had)
    ensures RaisedInSome(all, recorded, attempted)
  {
    var b: nat :| RaisedIn(part, b, more, attempted - had);
    SizeOfSegment(all, first, part, b - 1);
    SizeOfSegment(all, first, part, b);
    assert RaisedIn(all, first + b, recorded, attempted);
  }

  lemma RaisedInAll(groups: seq<Group<TrendPoint>>, d: nat, batchSize: nat, had: nat, more: nat, recorded: nat, attempted: nat)
    requires batchSize >= 1 && d < |groups| && had == CountBefore(groups, d) <= attempted && recorded == had + more
    requires RaisedInSome(Chunked(groups[d].items, batchSize), more, attempted - had)
    ensures RaisedInSome(Batches(groups, batchSize), recorded, attempted)
  {
    var all, part, first := SegmentOfGroup(groups, batchSize, d);
    RaisedLater(all, part, first, had, more, recorded, attempted);
  }

  lemma StopInAll(groups: seq<Group<TrendPoint>>, d: nat, batchSize: nat, b: nat)
    requires batchSize >= 1 && d < |groups| && b < |Chunked(groups[d].items, batchSize)|
    ensures var all, first := Batches(groups, batchSize), |BatchesBefore(groups, batchSize, d)|;
      && first + b < |all| && all[first + b] == Chunked(groups[d].items, batchSize)[b]
      && SizeOf(all, first + b) == CountBefore(groups, d) + SizeOf(Chunked(groups[d].items, batchSize), b)
  {
    var all, part, first := SegmentOfGroup(groups, batchSize, d);
    SizeOfSegment(all, first, part, b);
    assert all[first..][b] == part[b];
  }

  lemma DevicesFail(groups: seq<Group<TrendPoint>>, d: nat, had: nat, middle: Counts, more: seq<Sample>, from: seq<Call>, counts: Counts,
    samples: seq<Sample>, origins: seq<Call>, batchSize: nat, read: Call -> Read, insert: nat -> Insert)
    requires batchSize >= 1 && d < |groups| && middle.stored == middle.attempted == had == CountBefore(groups, d)
    requires Faithful(samples, Flatten(groups), origins, read) && AllRecorded(insert, 0, had) && |samples| == had + |more|
    requires DeviceRaised(groups[d].items, more, from, middle, counts, read, insert, Chunked(groups[d].items, batchSize))
    ensures RunRaised(Flatten(groups), samples, origins, counts, read, insert, Batches(groups, batchSize))
  {
    FlattenHolds(groups, d);
    RecordedAppend(insert, had, |more|);
    RaisedInAll(groups, d, batchSize, middle.attempted, |more|, |samples|, counts.attempted);
  }

  /** The samples of one device more. */
  lemma SamplesNext(groups: seq<Group<TrendPoint>>, d: nat, samples: seq<Sample>, origins: seq<Call>, middle: Counts,
    more: seq<Sample>, from: seq<Call>, counts: Counts, read: Call -> Read, insert: nat -> Insert)
    requires d < |groups| && |samples| == CountBefore(groups, d) && RunInStep(Flatten(groups), samples, origins, middle, read, insert)
    requires DeviceInStep(groups[d].items, more, from, middle, counts, read, insert)
    ensures RunInStep(Flatten(groups), samples + more, origins + from, counts, read, insert)
  {
    FaithfulAppend(samples, origins, more, from, groups, d, read);
    WithStatusAppend(samples, more, "ok");
    WithStatusAppend(samples, more, "missing");
    RecordedAppend(insert, |samples|, |more|);
  }

  /** A device that yields stops the run, and one that does not leaves nothing to do. */
  lemma DeviceStops(groups: seq<Group<TrendPoint>>, d: nat, had: nat, more: nat, counts: Counts, stop: Option<Stop>, batchSize: nat,
                    budget: nat, lock: nat -> bool, read: Call -> Read)
    returns (placed: Option<Stop>)
    requires batchSize >= 1 && d < |groups| && had == CountBefore(groups, d) && counts.attempted == had + more
    requires counts.deferred == |groups[d].items| - more
    requires stop.None? ==> more == |groups[d].items|
    requires stop.Some? ==>
      && stop.value.batch < |Chunked(groups[d].items, batchSize)|
      && more == SizeOf(Chunked(groups[d].items, batchSize), stop.value.batch) < |groups[d].items|
      && stop.value.read == |BatchesBefore(groups, batchSize, d)| + stop.value.batch
      && (stop.value.betweenBatches ==> stop.value.batch > 0)
      && MustStop(stop.value, Chunked(groups[d].items, batchSize), budget, counts.attempted, lock, read)
    ensures (placed.Some? <==> stop.Some?) && StopsForAReason(placed, counts, groups, batchSize, budget, lock, read)
  {
    placed := None;
    if stop.Some? {
      var b := |BatchesBefore(groups, batchSize, d)| + stop.value.batch;
      StopPlaced(groups, d, batchSize, stop.value, b, had, counts.attempted, budget, lock, read);
      placed := Some(stop.value.(batch := b));
    }
  }

  /** A device's stop is one of the run. */
  lemma StopPlaced(groups: seq<Group<TrendPoint>>, d: nat, batchSize: nat, stop: Stop, b: nat, had: nat, attempted: nat, budget: nat,
                   lock: nat -> bool, read: Call -> Read)
    requires batchSize >= 1 && d < |groups| && had == CountBefore(groups, d) && b == |BatchesBefore(groups, batchSize, d)| + stop.batch
    requires stop.batch < |Chunked(groups[d].items, batchSize)| && stop.read == b
    requires attempted == had + SizeOf(Chunked(groups[d].items, batchSize), stop.batch) && (stop.betweenBatches ==> stop.batch > 0)
    requires MustStop(stop, Chunked(groups[d].items, batchSize), budget, attempted, lock, read)
    ensures StopsAt(stop.(batch := b), groups, batchSize, budget, attempted, lock, read)
  {
    StopInAll(groups, d, batchSize, stop.batch);
    assert stop.batch > 0 ==> IsBatchOf(groups, batchSize, d, b);
  }

  lemma FaithfulAppend(a: seq<Sample>, x: seq<Call>, b: seq<Sample>, y: seq<Call>,
                       groups: seq<Group<TrendPoint>>, d: nat, read: Call -> Read)
    requires d < |groups| && |a| == CountBefore(groups, d)
    requires Faithful(a, Flatten(groups), x, read) && Faithful(b, groups[d].items, y, read)
    ensures Faithful(a + b, Flatten(groups), x + y, read)
  {
    FlattenHolds(groups, d);
    FaithfulTogether(a, x, b, y, Flatten(groups), groups[d].items, read);
  }

  lemma FaithfulTogether(a: seq<Sample>, x: seq<Call>, b: seq<Sample>, y: seq<Call>, all: seq<TrendPoint>,
                         items: seq<TrendPoint>, read: Call -> Read)
    requires Faithful(a, all, x, read) && Faithful(b, items, y, read) && items <= all[|a|..]
    ensures Faithful(a + b, all, x + y, read)
  {
    forall k | 0 <= k < |a + b|
      ensures FaithfulAt(a + b, all, x + y, read, k)
    {
      if k < |a| {
        assert FaithfulAt(a, all, x, read, k);
      } else {
        assert all[|a|..][k - |a|] == items[k - |a|];
        assert FaithfulAt(b, items, y, read, k - |a|);
      }
    }
  }

  /** The query's `ORDER BY device_instance` makes the samples those of a prefix of the points. */
  lemma SamplesAreOfAPrefix(points: seq<TrendPoint>, samples: seq<Sample>, origins: seq<Call>,
                            read: Call -> Read)
    requires SortedByKey(points, DeviceKey) && Faithful(samples, Flatten(Grouped(points, DeviceKey)), origins, read)
    ensures |samples| <= |points| && forall k | 0 <= k < |samples| :: samples[k].point == points[k].id
  {
    SortedGroupsKeepOrder(points, DeviceKey);
    forall k | 0 <= k < |samples|
      ensures samples[k].point == points[k].id
    {
      assert FaithfulAt(samples, points, origins, read, k);
    }
  }

  function Requests(batch: seq<TrendPoint>): seq<BulkRead.Point> {
    seq(|batch|, k requires 0 <= k < |batch| => batch[k].Request())
  }

  /** When the reads are those of the bulk reader, the sample of a point holds the value of the
      point's own object. */
  lemma SampleHoldsOwnValue(batch: seq<TrendPoint>, i: nat, rpm: nat -> BulkRead.Rpm, own: nat -> BulkRead.PointReads, error: string)
    requires i < |batch| && forall a, b | 0 <= a < b < |batch| :: batch[a].id != batch[b].id
    ensures var p, readings := batch[i], BulkRead.Readings(rpm(i / BulkRead.BATCH_SIZE));
      SampleOf(p, BulkRead.ById(BulkRead.ValuesFrom(Requests(batch), rpm, own)), error) ==
        if p.Request().Key() in readings then Sample(p.id, "ok", Some(readings[p.Request().Key()]))
        else if own(i).single.SingleValue? then Sample(p.id, "ok", Some(own(i).single.reading))
        else Sample(p.id, "missing", None)
  {
    var values := BulkRead.ValuesFrom(Requests(batch), rpm, own);
    forall a | 0 <= a < |batch|
      ensures values[a].savedId == batch[a].id
    {
      assert values[a] == BulkRead.ValueOf(batch[a].Request(), BulkRead.Readings(rpm(a / BulkRead.BATCH_SIZE)), own(a));
    }
    BulkRead.ByIdFinds(values, i);
  }

  // ---- One cycle over all groups ----

  /** A group as loaded. `opens` and `closes` say that the group's run row can be inserted and
      completed, and `insert` what comes of recording each sample. */
  datatype GroupItem = GroupItem(points: seq<TrendPoint>, due: bool, busyAtStart: bool, lock: nat -> bool,
    read: Call -> Read, insert: nat -> Insert, opens: bool, closes: bool)

  /** What became of one group in a cycle. A run that raises has recorded some samples, and leaves an
      orphan if it was the outbox row of a sample that could not be inserted. */
  datatype Run = Skipped | Finished(counts: Counts) | Raised(attempts: nat, recorded: nat, orphan: bool) {
    function Attempts(): nat {
      match this
      case Skipped => 0
      case Finished(counts) => counts.attempted
      case Raised(attempts, _, _) => attempts
    }

    /** The counts of a run that raises are lost, so its attempts are not charged to the budget. */
    function Charge(): nat {
      if Finished? then counts.attempted else 0
    }

    function LostAttempts(): nat {
      if Raised? then attempts else 0
    }

    function Samples(): nat {
      match this
      case Skipped => 0
      case Finished(counts) => counts.stored
      case Raised(_, recorded, _) => recorded
    }

    predicate LeavesOrphan() { Raised? && orphan }
  }

  function Charged(runs: seq<Run>): nat {
    if runs == [] then 0 else Charged(runs[..|runs| - 1]) + runs[|runs| - 1].Charge()
  }

  function Attempted(runs: seq<Run>): nat {
    if runs == [] then 0 else Attempted(runs[..|runs| - 1]) + runs[|runs| - 1].Attempts()
  }

  function RaisedAttempts(runs: seq<Run>): nat {
    if runs == [] then 0 else RaisedAttempts(runs[..|runs| - 1]) + runs[|runs| - 1].LostAttempts()
  }

  function RaisedCount(runs: seq<Run>): nat {
    if runs == [] then 0 else RaisedCount(runs[..|runs| - 1]) + if runs[|runs| - 1].Raised? then 1 else 0
  }

  /** The batches of a group's run, device by device. */
  function BatchesOf(item: GroupItem, batchSize: nat): seq<seq<TrendPoint>>
    requires batchSize >= 1
  {
    Batches(DevicesOf(item), batchSize)
  }

  function DevicesOf(item: GroupItem): seq<Group<TrendPoint>> {
    Grouped(item.points, DeviceKey)
  }

  /** The loops over devices and batches come to their end with these counts. */
  ghost predicate Ends(item: GroupItem, batchSize: nat, left: int, counts: Counts)
    requires batchSize >= 1
  {
    && counts.attempted <= left && AllRecorded(item.insert, 0, counts.stored)
    && counts.stored == counts.attempted == counts.returned + counts.missing + counts.errors
    && counts.stored + counts.deferred == |item.points|
    && (counts.deferred > 0 ==>
          exists stop :: StopsAt(stop, DevicesOf(item), batchSize, left, counts.attempted, item.lock, item.read))
  }

  /** Where a run may raise: at its start, at the sample that cannot be recorded, or at its end. */
  ghost predicate RaisesAt(item: GroupItem, batchSize: nat, left: int, attempts: nat, recorded: nat, orphan: bool)
    requires batchSize >= 1
  {
    if !item.opens then attempts == recorded == 0 && !orphan
    else
      || (&& AllRecorded(item.insert, 0, recorded) && !item.insert(recorded).Recorded?
          && (orphan <==> item.insert(recorded).NoOutboxRow?)
          && RaisedInSome(BatchesOf(item, batchSize), recorded, attempts))
      || (&& !item.closes && !orphan && attempts == recorded
          && exists counts :: Ends(item, batchSize, left, counts) && counts.stored == recorded)
  }

  /** A group is sampled exactly if it is due and some of the budget is left, and then with what is left. */
  ghost predicate RunOf(item: GroupItem, batchSize: nat, run: Run, left: int)
    requires batchSize >= 1
  {
    match run
    case Skipped => !item.due || left <= 0
    case Raised(attempts, recorded, orphan) =>
      && item.due && left > 0 && !item.busyAtStart && attempts <= left
      && RaisesAt(item, batchSize, left, attempts, recorded, orphan)
    case Finished(counts) =>
      && item.due && left > 0
      && if item.busyAtStart then IsZero(counts) else item.opens && item.closes && Ends(item, batchSize, left, counts)
  }

  /** Each group so far had its turn with what the groups before it left of the budget. */
  ghost predicate InTurn(items: seq<GroupItem>, runs: seq<Run>, batchSize: nat, budget: nat)
    requires batchSize >= 1
  {
    if runs == [] then true
    else
      var last := |runs| - 1;
      && |runs| <= |items| && InTurn(items, runs[..last], batchSize, budget)
      && RunOf(items[last], batchSize, runs[last], budget - Charged(runs[..last]))
  }

  lemma NextInTurn(items: seq<GroupItem>, runs: seq<Run>, run: Run, batchSize: nat, budget: nat)
    requires batchSize >= 1 && InTurn(items, runs, batchSize, budget) && |runs| < |items|
    requires RunOf(items[|runs|], batchSize, run, budget - Charged(runs))
    ensures InTurn(items, runs + [run], batchSize, budget)
  {
    assert (runs + [run])[..|runs|] == runs;
  }

  lemma TotalsNext(runs: seq<Run>, run: Run)
    ensures Charged(runs + [run]) == Charged(runs) + run.Charge()
    ensures Attempted(runs + [run]) == Attempted(runs) + run.Attempts()
    ensures RaisedAttempts(runs + [run]) == RaisedAttempts(runs) + run.LostAttempts()
    ensures RaisedCount(runs + [run]) == RaisedCount(runs) + if run.Raised? then 1 else 0
  {
    assert (runs + [run])[..|runs|] == runs;
  }

  method SampleCycle(items: seq<GroupItem>, batchSize: nat, budget: nat) returns (stored: nat, runs: seq<Run>)
    requires batchSize >= 1
    ensures |runs| == |items| && InTurn(items, runs, batchSize, budget)
    ensures stored == Charged(runs) <= budget
  {
    stored, runs := 0, [];
    var remaining: int := budget;
    for g := 0 to |items|
      invariant 0 <= remaining && stored == Charged(runs) == budget - remaining
      invariant |runs| == g && InTurn(items, runs, batchSize, budget)
    {
      var run := Skipped;
      if items[g].due && remaining > 0 {
        run := SampleOrRaise(items[g], batchSize, remaining);
        if run.Finished? {
          stored := stored + run.counts.stored;
          remaining := remaining - run.counts.attempted;
        }
      }
      NextInTurn(items, runs, run, batchSize, budget);
      TotalsNext(runs, run);
      runs := runs + [run];
    }
  }

  /** One group's run, with its exception if there is one. */
  method SampleOrRaise(item: GroupItem, batchSize: nat, budget: nat) returns (run: Run)
    requires batchSize >= 1 && item.due && budget > 0
    ensures !run.Skipped? && RunOf(item, batchSize, run, budget)
  {
    if !item.busyAtStart && !item.opens {
      return Run.Raised(0, 0, false);
    }
    var samples, counts, raised;
    ghost var origins, stop;
    samples, counts, raised, origins, stop :=
      SampleGroup(item.points, batchSize, budget, item.busyAtStart, item.lock, item.read, item.insert);
    GroupedLength(item.points);
    if raised {
      return Run.Raised(counts.attempted, |samples|, item.insert(|samples|).NoOutboxRow?);
    }
    if !item.busyAtStart {
      assert counts.deferred > 0 ==> StopsAt(stop.value, DevicesOf(item), batchSize, budget, counts.attempted, item.lock, item.read);
      assert Ends(item, batchSize, budget, counts);
      if !item.closes {
        return Run.Raised(counts.attempted, counts.stored, false);
      }
    }
    run := Finished(counts);
  }

  lemma OneMore(budget: nat, n: nat)
    ensures budget * (n + 1) == budget * n + budget
  {
  }

  /** What a cycle attempts is what it charges and what the runs that raised attempted. */
  lemma {:induction false} AttemptsExactly(runs: seq<Run>)
    ensures Attempted(runs) == Charged(runs) + RaisedAttempts(runs)
  {
    if runs != [] {
      AttemptsExactly(runs[..|runs| - 1]);
    }
  }

  lemma {:induction false} RaisedAttemptsBounded(items: seq<GroupItem>, runs: seq<Run>, batchSize: nat, budget: nat)
    requires batchSize >= 1 && InTurn(items, runs, batchSize, budget)
    ensures Charged(runs) <= budget
    ensures RaisedAttempts(runs) <= budget * RaisedCount(runs)
    ensures RaisedCount(runs) == 0 ==> RaisedAttempts(runs) == 0
  {
    if runs != [] {
      var last := |runs| - 1;
      RaisedAttemptsBounded(items, runs[..last], batchSize, budget);
      OneMore(budget, RaisedCount(runs[..last]));
    }
  }

  /** A cycle without a raise keeps to its budget; otherwise each raise costs one budget more at most. */
  lemma RaisesCostOneBudgetEach(items: seq<GroupItem>, runs: seq<Run>, batchSize: nat, budget: nat)
    requires batchSize >= 1 && InTurn(items, runs, batchSize, budget)
    ensures Attempted(runs) <= Charged(runs) + budget * RaisedCount(runs)
    ensures RaisedCount(runs) == 0 ==> Attempted(runs) == Charged(runs) <= budget
  {
    AttemptsExactly(runs);
    RaisedAttemptsBounded(items, runs, batchSize, budget);
  }

  // ---- When a cycle keeps to its budget whatever happens ----

  /** What the group can cost a cycle: its longest run of leading batches within the whole budget. */
  function Cost(item: GroupItem, batchSize: nat, budget: nat): nat
    requires batchSize >= 1
  {
    if item.due then Within(BatchesOf(item, batchSize), budget) else 0
  }

  function Costs(items: seq<GroupItem>, batchSize: nat, budget: nat, r: nat): nat
    requires batchSize >= 1 && r <= |items|
  {
    if r == 0 then 0 else Costs(items, batchSize, budget, r - 1) + Cost(items[r - 1], batchSize, budget)
  }

  lemma BatchesOfAll(item: GroupItem, batchSize: nat)
    requires batchSize >= 1
    ensures SizeOf(BatchesOf(item, batchSize), |BatchesOf(item, batchSize)|) == |item.points|
  {
    BatchesHold(Grouped(item.points, DeviceKey), batchSize, |Grouped(item.points, DeviceKey)|);
    CountBeforeAll(Grouped(item.points, DeviceKey));
    GroupedLength(item.points);
  }

  /** A run that comes to its end attempts leading batches. */
  lemma EndsAtABatch(item: GroupItem, batchSize: nat, left: int, counts: Counts) returns (b: nat)
    requires batchSize >= 1 && Ends(item, batchSize, left, counts)
    ensures b <= |BatchesOf(item, batchSize)| && counts.attempted == SizeOf(BatchesOf(item, batchSize), b)
    ensures counts.deferred > 0 ==>
      exists stop: Stop :: stop.batch == b && StopsAt(stop, DevicesOf(item), batchSize, left, counts.attempted, item.lock, item.read)
  {
    if counts.deferred > 0 {
      var stop :| StopsAt(stop, DevicesOf(item), batchSize, left, counts.attempted, item.lock, item.read);
      b := stop.batch;
    } else {
      b := |BatchesOf(item, batchSize)|;
      BatchesOfAll(item, batchSize);
    }
  }

  lemma RunCostsAtMost(item: GroupItem, batchSize: nat, run: Run, left: int, budget: nat)
    requires batchSize >= 1 && RunOf(item, batchSize, run, left) && left <= budget
    ensures run.Attempts() <= Cost(item, batchSize, budget)
  {
    var batches := BatchesOf(item, batchSize);
    match run
    case Skipped =>
    case Finished(counts) =>
      if !item.busyAtStart {
        var b := EndsAtABatch(item, batchSize, left, counts);
        WithinIsMost(batches, budget, b);
      }
    case Raised(attempts, recorded, orphan) =>
      if b: nat :| RaisedIn(batches, b, recorded, attempts) {
        WithinIsMost(batches, budget, b);
      } else if counts :| Ends(item, batchSize, left, counts) && counts.stored == recorded {
        var b := EndsAtABatch(item, batchSize, left, counts);
        WithinIsMost(batches, budget, b);
      }
  }

  /** No cycle attempts more than its groups can cost. */
  lemma {:induction false} CycleCostsAtMost(items: seq<GroupItem>, runs: seq<Run>, batchSize: nat, budget: nat)
    requires batchSize >= 1 && InTurn(items, runs, batchSize, budget)
    ensures |runs| <= |items| && Attempted(runs) <= Costs(items, batchSize, budget, |runs|)
  {
    if runs != [] {
      var last := |runs| - 1;
      CycleCostsAtMost(items, runs[..last], batchSize, budget);
      RunCostsAtMost(items[last], batchSize, runs[last], budget - Charged(runs[..last]), budget);
    }
  }

  /** The worst that can happen to a group: nothing stops its run, and the outbox row of the last
      sample within the budget cannot be inserted. */
  function Worst(item: GroupItem, batchSize: nat, budget: nat): GroupItem
    requires batchSize >= 1
  {
    var cost := Within(BatchesOf(item, batchSize), budget);
    GroupItem(item.points, item.due, false, (n: nat) => false, (call: Call) => Answered([], ""),
              (n: nat) => if n + 1 == cost then NoOutboxRow else Recorded, true, true)
  }

  function AllWorst(items: seq<GroupItem>, batchSize: nat, budget: nat): (worst: seq<GroupItem>)
    requires batchSize >= 1
    ensures |worst| == |items| && forall g | 0 <= g < |items| :: worst[g] == Worst(items[g], batchSize, budget)
  {
    seq(|items|, g requires 0 <= g < |items| => Worst(items[g], batchSize, budget))
  }

  /** The run attempts so many points and raises at the outbox row of the last. */
  predicate OrphanedAt(run: Run, attempts: nat) {
    run.Raised? && run.attempts == attempts == run.recorded + 1 && run.orphan
  }

  /** Such a run raises after all that the group can cost, and if that is nothing it ends with nothing. */
  lemma WorstRun(item: GroupItem, batchSize: nat, budget: nat, run: Run)
    requires batchSize >= 1 && RunOf(Worst(item, batchSize, budget), batchSize, run, budget)
    ensures run.Attempts() == Cost(item, batchSize, budget) && run.Charge() == 0
    ensures Cost(item, batchSize, budget) > 0 ==> OrphanedAt(run, Cost(item, batchSize, budget))
  {
    var worst, batches := Worst(item, batchSize, budget), BatchesOf(item, batchSize);
    assert BatchesOf(worst, batchSize) == batches;
    RunCostsAtMost(worst, batchSize, run, budget, budget);
    match run
    case Skipped => WithinIsMost(batches, budget, 0);
    case Finished(counts) => WorstEnds(item, batchSize, budget, counts);
    case Raised(attempts, recorded, orphan) =>
      var b: nat :| RaisedIn(batches, b, recorded, attempts);
      LastBatch(batches, budget, b);
  }

  /** The batch of the last item within the bound is the last batch within it. */
  lemma LastBatch(batches: seq<seq<TrendPoint>>, bound: nat, b: nat)
    requires 1 <= b <= |batches| && SizeOf(batches, b - 1) < Within(batches, bound) <= SizeOf(batches, b)
    ensures SizeOf(batches, b) == Within(batches, bound)
  {
    var k := Fitting(batches, bound, 0);
    if k < b {
      SizeOfGrows(batches, k, b - 1);
    } else {
      SizeOfGrows(batches, b, k);
    }
  }

  /** The run of the worst case comes to its end only if the group can cost nothing. */
  lemma WorstEnds(item: GroupItem, batchSize: nat, budget: nat, counts: Counts)
    requires batchSize >= 1 && Ends(Worst(item, batchSize, budget), batchSize, budget, counts)
    ensures counts.attempted == 0 == Within(BatchesOf(item, batchSize), budget)
  {
    var worst, batches := Worst(item, batchSize, budget), BatchesOf(item, batchSize);
    assert BatchesOf(worst, batchSize) == batches;
    var cost, k := Within(batches, budget), Fitting(batches, budget, 0);
    var b := EndsAtABatch(worst, batchSize, budget, counts);
    WithinIsMost(batches, budget, b);
    if cost > 0 {
      assert !worst.insert(cost - 1).Recorded?;
      BatchesOfAll(item, batchSize);
      SizeOfGrows(batches, k, |batches|);
      var stop: Stop :| stop.batch == b && StopsAt(stop, DevicesOf(worst), batchSize, budget, counts.attempted, worst.lock, worst.read);
      WithinIsMost(batches, budget, b);
      NextFits(batches, budget, b);
    }
  }

  lemma NextFits(batches: seq<seq<TrendPoint>>, bound: nat, b: nat)
    requires b < |batches| && SizeOf(batches, b) < Within(batches, bound)
    ensures SizeOf(batches, b + 1) <= bound
  {
    var k := Fitting(batches, bound, 0);
    if k <= b {
      SizeOfGrows(batches, k, b);
    } else {
      SizeOfGrows(batches, b + 1, k);
    }
  }

  lemma LastInTurn(items: seq<GroupItem>, runs: seq<Run>, batchSize: nat, budget: nat) returns (init: seq<Run>, run: Run)
    requires batchSize >= 1 && InTurn(items, runs, batchSize, budget) && runs != []
    ensures runs == init + [run] && |init| < |items| && InTurn(items, init, batchSize, budget)
    ensures RunOf(items[|init|], batchSize, run, budget - Charged(init))
  {
    init, run := runs[..|runs| - 1], runs[|runs| - 1];
  }

  lemma LastWorst(items: seq<GroupItem>, runs: seq<Run>, batchSize: nat, budget: nat) returns (init: seq<Run>, run: Run)
    requires batchSize >= 1 && InTurn(AllWorst(items, batchSize, budget), runs, batchSize, budget) && runs != []
    ensures runs == init + [run] && |init| < |items| && InTurn(AllWorst(items, batchSize, budget), init, batchSize, budget)
    ensures Charged(runs) == Charged(init) + run.Charge() && Attempted(runs) == Attempted(init) + run.Attempts()
    ensures Charged(init) == 0 ==>
      && run.Attempts() == Cost(items[|init|], batchSize, budget) && run.Charge() == 0
      && (Cost(items[|init|], batchSize, budget) > 0 ==> OrphanedAt(run, Cost(items[|init|], batchSize, budget)))
  {
    init, run := LastInTurn(AllWorst(items, batchSize, budget), runs, batchSize, budget);
    TotalsNext(init, run);
    if Charged(init) == 0 {
      WorstRun(items[|init|], batchSize, budget, run);
    }
  }

  /** In the worst case every cycle attempts all that its groups can cost. */
  lemma {:induction false} WorstCycle(items: seq<GroupItem>, runs: seq<Run>, batchSize: nat, budget: nat)
    requires batchSize >= 1 && InTurn(AllWorst(items, batchSize, budget), runs, batchSize, budget)
    ensures |runs| <= |items| && Charged(runs) == 0 && Attempted(runs) == Costs(items, batchSize, budget, |runs|)
    decreases |runs|
  {
    if runs != [] {
      var init, run := LastWorst(items, runs, batchSize, budget);
      WorstCycle(items, init, batchSize, budget);
      CostsNext(items, batchSize, budget, |init|);
    }
  }

  lemma CostsNext(items: seq<GroupItem>, batchSize: nat, budget: nat, r: nat)
    requires batchSize >= 1 && r < |items|
    ensures Costs(items, batchSize, budget, r + 1) == Costs(items, batchSize, budget, r) + Cost(items[r], batchSize, budget)
  {
  }

  lemma {:induction false} RunInTurn(items: seq<GroupItem>, runs: seq<Run>, batchSize: nat, budget: nat, r: nat) returns (init: seq<Run>, run: Run)
    requires batchSize >= 1 && InTurn(items, runs, batchSize, budget) && r < |runs|
    ensures init == runs[..r] && run == runs[r] && r < |items| && InTurn(items, init, batchSize, budget)
    ensures RunOf(items[r], batchSize, run, budget - Charged(init))
    decreases |runs|
  {
    init, run := LastInTurn(items, runs, batchSize, budget);
    if r < |init| {
      init, run := RunInTurn(items, init, batchSize, budget, r);
    }
  }

  lemma RunInWorst(items: seq<GroupItem>, runs: seq<Run>, batchSize: nat, budget: nat, r: nat) returns (run: Run)
    requires batchSize >= 1 && InTurn(AllWorst(items, batchSize, budget), runs, batchSize, budget) && r < |runs|
    ensures r < |items| && run == runs[r] && RunOf(Worst(items[r], batchSize, budget), batchSize, run, budget)
  {
    var worst, init := AllWorst(items, batchSize, budget), [];
    init, run := RunInTurn(worst, runs, batchSize, budget, r);
    WorstCycle(items, init, batchSize, budget);
  }

  lemma WorstRunAt(items: seq<GroupItem>, runs: seq<Run>, batchSize: nat, budget: nat, r: nat)
    requires batchSize >= 1 && InTurn(AllWorst(items, batchSize, budget), runs, batchSize, budget) && r < |runs|
    ensures r < |items|
    ensures Cost(items[r], batchSize, budget) > 0 ==> OrphanedAt(runs[r], Cost(items[r], batchSize, budget))
  {
    var run := RunInWorst(items, runs, batchSize, budget, r);
    WorstRun(items[r], batchSize, budget, run);
  }

  /** The worst case does happen. */
  lemma WorstRunHappens(item: GroupItem, batchSize: nat, budget: nat) returns (run: Run)
    requires batchSize >= 1
    ensures RunOf(Worst(item, batchSize, budget), batchSize, run, budget)
  {
    var worst, batches := Worst(item, batchSize, budget), BatchesOf(item, batchSize);
    assert BatchesOf(worst, batchSize) == batches;
    var cost, k := Within(batches, budget), Fitting(batches, budget, 0);
    if !item.due || budget == 0 {
      run := Skipped;
    } else if cost > 0 {
      run := Run.Raised(cost, cost - 1, true);
      var b := BatchHolding(batches, cost - 1, k);
      LastBatch(batches, budget, b);
      assert RaisedIn(batches, b, cost - 1, cost);
    } else {
      var counts := Counts(0, 0, 0, 0, 0, |item.points|);
      run := Finished(counts);
      BatchesOfAll(item, batchSize);
      if counts.deferred > 0 {
        assert StopsAt(Stop(k, false, k), DevicesOf(worst), batchSize, budget, 0, worst.lock, worst.read);
      }
    }
  }

  lemma {:induction false} WorstCycleHappens(items: seq<GroupItem>, batchSize: nat, budget: nat, r: nat) returns (runs: seq<Run>)
    requires batchSize >= 1 && r <= |items|
    ensures |runs| == r && InTurn(AllWorst(items, batchSize, budget), runs, batchSize, budget)
  {
    runs := [];
    if r > 0 {
      runs := WorstCycleHappens(items, batchSize, budget, r - 1);
      var run := WorstRunHappens(items[r - 1], batchSize, budget);
      WorstCycle(items, runs, batchSize, budget);
      NextInTurn(AllWorst(items, batchSize, budget), runs, run, batchSize, budget);
      runs := runs + [run];
    }
  }

  /** Groups with the same points and due at the same time, whatever else happens to them. */
  ghost predicate SameGroups(items: seq<GroupItem>, others: seq<GroupItem>) {
    |items| == |others| && forall g | 0 <= g < |items| :: items[g].points == others[g].points && items[g].due == others[g].due
  }

  ghost predicate KeepsItsBudget(runs: seq<Run>, budget: nat) {
    Attempted(runs) <= budget
  }

  lemma {:induction false} SameCosts(items: seq<GroupItem>, others: seq<GroupItem>, batchSize: nat, budget: nat, r: nat)
    requires batchSize >= 1 && SameGroups(items, others) && r <= |items|
    ensures Costs(items, batchSize, budget, r) == Costs(others, batchSize, budget, r)
  {
    if r > 0 {
      SameCosts(items, others, batchSize, budget, r - 1);
      assert BatchesOf(items[r - 1], batchSize) == BatchesOf(others[r - 1], batchSize);
    }
  }

  lemma EnoughBudget(items: seq<GroupItem>, others: seq<GroupItem>, runs: seq<Run>, batchSize: nat, budget: nat)
    requires batchSize >= 1 && SameGroups(items, others) && |runs| == |items| && InTurn(others, runs, batchSize, budget)
    requires Costs(items, batchSize, budget, |items|) <= budget
    ensures KeepsItsBudget(runs, budget)
  {
    CycleCostsAtMost(others, runs, batchSize, budget);
    SameCosts(items, others, batchSize, budget, |items|);
  }

  lemma TooLittleBudget(items: seq<GroupItem>, batchSize: nat, budget: nat) returns (others: seq<GroupItem>, runs: seq<Run>)
    requires batchSize >= 1 && Costs(items, batchSize, budget, |items|) > budget
    ensures SameGroups(items, others) && |runs| == |items| && InTurn(others, runs, batchSize, budget)
    ensures !KeepsItsBudget(runs, budget)
  {
    others := AllWorst(items, batchSize, budget);
    runs := WorstCycleHappens(items, batchSize, budget, |items|);
    WorstCycle(items, runs, batchSize, budget);
  }

  /** A cycle over these groups keeps to its budget whatever happens exactly if all that the groups can
      cost is within the budget. */
  lemma CycleKeepsItsBudgetExactly(items: seq<GroupItem>, batchSize: nat, budget: nat)
    requires batchSize >= 1
    ensures Costs(items, batchSize, budget, |items|) <= budget <==>
      forall others, runs | SameGroups(items, others) && |runs| == |items| && InTurn(others, runs, batchSize, budget) ::
        KeepsItsBudget(runs, budget)
  {
    if Costs(items, batchSize, budget, |items|) <= budget {
      forall others, runs | SameGroups(items, others) && |runs| == |items| && InTurn(others, runs, batchSize, budget)
        ensures KeepsItsBudget(runs, budget)
      {
        EnoughBudget(items, others, runs, batchSize, budget);
      }
    } else {
      var others, runs := TooLittleBudget(items, batchSize, budget);
    }
  }

  /** A due group of one point. */
  function LoneGroup(): GroupItem {
    GroupItem([TrendPoint(0, 0, "analog-input", 1)], true, false, (n: nat) => false, (call: Call) => Answered([], ""),
              (n: nat) => Recorded, true, true)
  }

  /** Two such groups can attempt two points with a budget of one. */
  lemma CycleCanExceedItsBudget(batchSize: nat) returns (runs: seq<Run>)
    requires batchSize >= 1
    ensures InTurn(AllWorst([LoneGroup(), LoneGroup()], batchSize, 1), runs, batchSize, 1)
    ensures |runs| == 2 && OrphanedAt(runs[0], 1) && OrphanedAt(runs[1], 1) && Attempted(runs) == 2
  {
    var items, batches := [LoneGroup(), LoneGroup()], BatchesOf(LoneGroup(), batchSize);
    BatchesOfAll(LoneGroup(), batchSize);
    WithinIsMost(batches, 1, |batches|);
    assert Cost(LoneGroup(), batchSize, 1) == 1;
    runs := WorstCycleHappens(items, batchSize, 1, 2);
    WorstCycle(items, runs, batchSize, 1);
    WorstRunAt(items, runs, batchSize, 1, 0);
    WorstRunAt(items, runs, batchSize, 1, 1);
    CostsNext(items, batchSize, 1, 0);
    CostsNext(items, batchSize, 1, 1);
  }
}
