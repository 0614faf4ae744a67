/** What a collection cycle leaves in the edge's tables: the runs of the groups, joined to the two
    inserts that record each of their samples (`sample_local_edge_trends`, `_record_local_sample`). */
module LocalCollection {
  import opened Wrappers
  import S = LocalSampling
  import U = LocalUpload

  ghost predicate NotAgain(ids: nat -> string, m: nat) {
    forall n: nat | m < n :: ids(m) != ids(n)
  }

  ghost predicate Unused(ids: nat -> string, n: nat, outbox: seq<U.OutboxRow>) {
    U.Fresh(outbox, ids(n))
  }

  /** The event ids that the cycle draws: all of them different, and none from `from` on in use. */
  ghost predicate FreshIds(ids: nat -> string, from: nat, outbox: seq<U.OutboxRow>) {
    && (forall m: nat :: NotAgain(ids, m))
    && (forall n: nat | from <= n :: Unused(ids, n, outbox))
  }

  /** The two inserts of one sample. */
  function AfterSample(e: U.Edge, sampledAt: int, eventId: string, works: bool): U.Edge {
    U.After(U.After(e, U.InsertSample(sampledAt)), U.InsertOutboxRow(eventId, works))
  }

  /** The inserts of `n` recorded samples, the first with id `from`. */
  function AfterSamples(e: U.Edge, n: nat, sampledAt: int, ids: nat -> string, from: nat): U.Edge {
    if n == 0 then e
    else AfterSample(AfterSamples(e, n - 1, sampledAt, ids, from), sampledAt, ids(from + n - 1), true)
  }

  function AfterRun(e: U.Edge, run: S.Run, sampledAt: int, ids: nat -> string, from: nat): U.Edge {
    var recorded := AfterSamples(e, run.Samples(), sampledAt, ids, from);
    if run.LeavesOrphan() then AfterSample(recorded, sampledAt, ids(from + run.Samples()), false) else recorded
  }

  function OrphanCount(run: S.Run): nat {
    if run.LeavesOrphan() then 1 else 0
  }

  /** The samples that the first `r` runs record, and those they leave without a row. */
  function Recorded(runs: seq<S.Run>, r: nat): nat
    requires r <= |runs|
  {
    if r == 0 then 0 else Recorded(runs, r - 1) + runs[r - 1].Samples()
  }

  function Orphans(runs: seq<S.Run>, r: nat): nat
    requires r <= |runs|
  {
    if r == 0 then 0 else Orphans(runs, r - 1) + OrphanCount(runs[r - 1])
  }

  /** The tables after the inserts of the first `r` runs in turn. */
  function AfterRuns(e: U.Edge, runs: seq<S.Run>, sampledAt: int, ids: nat -> string, r: nat): U.Edge
    requires r <= |runs|
  {
    if r == 0 then e
    else
      AfterRun(AfterRuns(e, runs, sampledAt, ids, r - 1), runs[r - 1], sampledAt, ids,
               Recorded(runs, r - 1) + Orphans(runs, r - 1))
  }

  function AfterCycle(e: U.Edge, runs: seq<S.Run>, sampledAt: int, ids: nat -> string): U.Edge {
    AfterRuns(e, runs, sampledAt, ids, |runs|)
  }

  /** `e'` is `e` with some samples more, of which so many have rows and so many have none. */
  ghost predicate Grown(e: U.Edge, e': U.Edge, recorded: nat, orphans: nat) {
    && e'.waiting.None? && |e'.samples| == |e.samples| + recorded + orphans
    && |e'.store.outbox| == |e.store.outbox| + recorded
    && e'.failures == e.failures + orphans
  }

  lemma OneSample(e: U.Edge, sampledAt: int, ids: nat -> string, from: nat, works: bool)
    requires e.waiting.None? && FreshIds(ids, from, e.store.outbox)
    ensures var e' := AfterSample(e, sampledAt, ids(from), works);
      Grown(e, e', if works then 1 else 0, if works then 0 else 1) && FreshIds(ids, from + 1, e'.store.outbox)
  {
    assert Unused(ids, from, e.store.outbox) && NotAgain(ids, from);
    forall n: nat | from + 1 <= n
      ensures Unused(ids, n, AfterSample(e, sampledAt, ids(from), works).store.outbox)
    {
      assert Unused(ids, n, e.store.outbox);
    }
  }

  lemma {:induction false} RecordedSamples(e: U.Edge, n: nat, sampledAt: int, ids: nat -> string, from: nat)
    requires e.waiting.None? && FreshIds(ids, from, e.store.outbox)
    ensures var e' := AfterSamples(e, n, sampledAt, ids, from);
      Grown(e, e', n, 0) && FreshIds(ids, from + n, e'.store.outbox)
  {
    if n > 0 {
      RecordedSamples(e, n - 1, sampledAt, ids, from);
      OneSample(AfterSamples(e, n - 1, sampledAt, ids, from), sampledAt, ids, from + n - 1, true);
    }
  }

  lemma OneRun(e: U.Edge, run: S.Run, sampledAt: int, ids: nat -> string, from: nat)
    requires e.waiting.None? && FreshIds(ids, from, e.store.outbox)
    ensures var e' := AfterRun(e, run, sampledAt, ids, from);
      Grown(e, e', run.Samples(), OrphanCount(run)) && FreshIds(ids, from + run.Samples() + OrphanCount(run), e'.store.outbox)
  {
    var n := run.Samples();
    RecordedSamples(e, n, sampledAt, ids, from);
    if run.LeavesOrphan() {
      OneSample(AfterSamples(e, n, sampledAt, ids, from), sampledAt, ids, from + n, false);
    }
  }

  lemma SampleKeepsInv(e: U.Edge, sampledAt: int, eventId: string, works: bool)
    requires U.Inv(e)
    ensures U.Inv(AfterSample(e, sampledAt, eventId, works))
  {
    U.InvStep(e, U.InsertSample(sampledAt));
    U.InvStep(U.After(e, U.InsertSample(sampledAt)), U.InsertOutboxRow(eventId, works));
  }

  lemma {:induction false} SamplesKeepInv(e: U.Edge, n: nat, sampledAt: int, ids: nat -> string, from: nat)
    requires U.Inv(e)
    ensures U.Inv(AfterSamples(e, n, sampledAt, ids, from))
  {
    if n > 0 {
      SamplesKeepInv(e, n - 1, sampledAt, ids, from);
      SampleKeepsInv(AfterSamples(e, n - 1, sampledAt, ids, from), sampledAt, ids(from + n - 1), true);
    }
  }

  lemma RunKeepsInv(e: U.Edge, run: S.Run, sampledAt: int, ids: nat -> string, from: nat)
    requires U.Inv(e)
    ensures U.Inv(AfterRun(e, run, sampledAt, ids, from))
  {
    SamplesKeepInv(e, run.Samples(), sampledAt, ids, from);
    SampleKeepsInv(AfterSamples(e, run.Samples(), sampledAt, ids, from), sampledAt, ids(from + run.Samples()), false);
  }

  /** The tables after inserts that drew the ids before `recorded + orphans`. */
  ghost predicate GrownFresh(e: U.Edge, e': U.Edge, recorded: nat, orphans: nat, ids: nat -> string) {
    Grown(e, e', recorded, orphans) && FreshIds(ids, recorded + orphans, e'.store.outbox)
  }

  lemma NextRun(e: U.Edge, e': U.Edge, recorded: nat, orphans: nat, run: S.Run, sampledAt: int, ids: nat -> string)
    requires GrownFresh(e, e', recorded, orphans, ids)
    ensures GrownFresh(e, AfterRun(e', run, sampledAt, ids, recorded + orphans),
                       recorded + run.Samples(), orphans + OrphanCount(run), ids)
  {
    OneRun(e', run, sampledAt, ids, recorded + orphans);
  }

  lemma UnfoldRuns(e: U.Edge, runs: seq<S.Run>, sampledAt: int, ids: nat -> string, r: nat) returns (before: U.Edge, recorded: nat, orphans: nat)
    requires 1 <= r <= |runs|
    ensures before == AfterRuns(e, runs, sampledAt, ids, r - 1) && recorded == Recorded(runs, r - 1) && orphans == Orphans(runs, r - 1)
    ensures AfterRuns(e, runs, sampledAt, ids, r) == AfterRun(before, runs[r - 1], sampledAt, ids, recorded + orphans)
    ensures Recorded(runs, r) == recorded + runs[r - 1].Samples() && Orphans(runs, r) == orphans + OrphanCount(runs[r - 1])
  {
    before, recorded, orphans := AfterRuns(e, runs, sampledAt, ids, r - 1), Recorded(runs, r - 1), Orphans(runs, r - 1);
  }

  lemma {:induction false} RunsSoFar(e: U.Edge, runs: seq<S.Run>, sampledAt: int, ids: nat -> string, r: nat)
    requires e.waiting.None? && FreshIds(ids, 0, e.store.outbox) && r <= |runs|
    ensures GrownFresh(e, AfterRuns(e, runs, sampledAt, ids, r), Recorded(runs, r), Orphans(runs, r), ids)
  {
    if r > 0 {
      RunsSoFar(e, runs, sampledAt, ids, r - 1);
      var before, recorded, orphans := UnfoldRuns(e, runs, sampledAt, ids, r);
      NextRun(e, before, recorded, orphans, runs[r - 1], sampledAt, ids);
    }
  }

  lemma {:induction false} RunsKeepInv(e: U.Edge, runs: seq<S.Run>, sampledAt: int, ids: nat -> string, r: nat)
    requires U.Inv(e) && r <= |runs|
    ensures U.Inv(AfterRuns(e, runs, sampledAt, ids, r))
  {
    if r > 0 {
      RunsKeepInv(e, runs, sampledAt, ids, r - 1);
      RunKeepsInv(AfterRuns(e, runs, sampledAt, ids, r - 1), runs[r - 1], sampledAt, ids,
                  Recorded(runs, r - 1) + Orphans(runs, r - 1));
    }
  }

  lemma {:induction false} NoOrphans(runs: seq<S.Run>, r: nat)
    requires r <= |runs|
    ensures Orphans(runs, r) == 0 <==> forall k | 0 <= k < r :: !runs[k].LeavesOrphan()
  {
    if r > 0 {
      NoOrphans(runs, r - 1);
    }
  }

  /** A cycle keeps samples and outbox rows in bijection exactly if none of its runs was ended by an
      outbox row that could not be inserted. */
  lemma CycleMirrorsExactly(e: U.Edge, runs: seq<S.Run>, sampledAt: int, ids: nat -> string)
    requires U.Inv(e) && U.Mirrored(e) && FreshIds(ids, 0, e.store.outbox)
    ensures var e' := AfterCycle(e, runs, sampledAt, ids);
      && U.Inv(e') && |e'.store.outbox| == |e.store.outbox| + Recorded(runs, |runs|)
      && |e'.samples| == |e.samples| + Recorded(runs, |runs|) + Orphans(runs, |runs|)
      && (U.Mirrored(e') <==> forall r | 0 <= r < |runs| :: !runs[r].LeavesOrphan())
  {
    U.MirroredExactly(e);
    RunsSoFar(e, runs, sampledAt, ids, |runs|);
    RunsKeepInv(e, runs, sampledAt, ids, |runs|);
    U.MirroredExactly(AfterCycle(e, runs, sampledAt, ids));
    NoOrphans(runs, |runs|);
  }

  /** A run of the cycle leaves an orphan exactly if it raises at a sample whose outbox row, unlike
      those before it, cannot be inserted. */
  lemma {:induction false} OrphansAreFailedInserts(items: seq<S.GroupItem>, runs: seq<S.Run>, batchSize: nat, budget: nat, r: nat)
    requires batchSize >= 1 && S.InTurn(items, runs, batchSize, budget) && r < |runs|
    ensures |runs| <= |items| && S.AllRecorded(items[r].insert, 0, runs[r].Samples())
    ensures runs[r].LeavesOrphan() ==> items[r].insert(runs[r].Samples()).NoOutboxRow?
    ensures runs[r].Raised? && runs[r].attempts > runs[r].recorded ==>
      (runs[r].LeavesOrphan() <==> items[r].insert(runs[r].recorded).NoOutboxRow?)
    decreases |runs|
  {
    var last := |runs| - 1;
    if r < last {
      OrphansAreFailedInserts(items, runs[..last], batchSize, budget, r);
    }
  }

  lemma {:induction false} AllOrphaned(runs: seq<S.Run>, r: nat)
    requires r <= |runs| && forall k | 0 <= k < r :: S.OrphanedAt(runs[k], 1)
    ensures Recorded(runs, r) == 0 && Orphans(runs, r) == r
  {
    if r > 0 {
      AllOrphaned(runs, r - 1);
    }
  }

  /** Whatever the groups, if a due group can be read at all, there are failures with which every cycle
      breaks the bijection. */
  lemma WorstCycleLeavesOrphans(e: U.Edge, items: seq<S.GroupItem>, runs: seq<S.Run>, batchSize: nat, budget: nat, r: nat,
                                sampledAt: int, ids: nat -> string)
    requires U.Inv(e) && U.Mirrored(e) && FreshIds(ids, 0, e.store.outbox)
    requires batchSize >= 1 && S.InTurn(S.AllWorst(items, batchSize, budget), runs, batchSize, budget)
    requires r < |runs| && r < |items| && S.Cost(items[r], batchSize, budget) > 0
    ensures !U.Mirrored(AfterCycle(e, runs, sampledAt, ids))
  {
    S.WorstRunAt(items, runs, batchSize, budget, r);
    CycleMirrorsExactly(e, runs, sampledAt, ids);
    assert runs[r].LeavesOrphan();
  }

  /** A cycle that leaves two samples without a row. */
  lemma CycleCanLeaveOrphans(batchSize: nat, sampledAt: int, ids: nat -> string) returns (runs: seq<S.Run>)
    requires batchSize >= 1 && FreshIds(ids, 0, [])
    ensures S.InTurn(S.AllWorst([S.LoneGroup(), S.LoneGroup()], batchSize, 1), runs, batchSize, 1)
    ensures var e' := AfterCycle(U.NO_SAMPLES, runs, sampledAt, ids);
      U.Inv(e') && |e'.samples| == 2 && e'.store.outbox == [] && !U.Mirrored(e')
  {
    runs := S.CycleCanExceedItsBudget(batchSize);
    AllOrphaned(runs, 2);
    CycleMirrorsExactly(U.NO_SAMPLES, runs, sampledAt, ids);
    assert runs[0].LeavesOrphan();
  }
}
