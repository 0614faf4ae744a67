/** A BACnet write from its approval to its execution: the job table that workers and agents race on
    and the tables of batches and commands, in one system. A write job has a row in both. */
module WriteExecution {
  import opened Wrappers
  import opened Grouping
  import Q = JobQueue
  import W = WriteBatches

  /** `rowOf` gives each write job its row in the job table. */
  datatype System = System(queue: Q.System, tables: W.Tables, rowOf: seq<nat>)

  /** `Approve` draws the new jobs' ids; the results of `Queue` come with a posted result. Write jobs
      are queued by approval alone. */
  datatype Event =
    | Request(writes: seq<W.Write>)
    | Approve(b: nat, gateway: string, ids: nat -> nat, now: int)
    | Queue(step: Q.Step, results: seq<W.PointResult>)

  ghost predicate Initial(s: System) {
    Q.Initial(s.queue) && s.tables == W.Tables([], [], []) && s.rowOf == []
  }

  function JobAt(rowOf: seq<nat>, row: nat): Option<nat> {
    if rowOf == [] then None
    else if rowOf[|rowOf| - 1] == row then Some(|rowOf| - 1)
    else JobAt(rowOf[..|rowOf| - 1], row)
  }

  /** The new jobs of one approval. */
  function Enqueues(gateway: string, ids: nat -> nat, now: int, n: nat): (steps: seq<Q.Step>)
    ensures |steps| == n && forall k | 0 <= k < n :: EnqueuesWrite(steps[k])
  {
    seq(n, k requires 0 <= k => Q.Enqueue(ids(k), gateway, Q.WRITE_BATCH, now))
  }

  predicate EnqueuesWrite(step: Q.Step) {
    step.Enqueue? && step.jobType == Q.WRITE_BATCH
  }

  function RowsFrom(first: nat, n: nat): (rows: seq<nat>)
    ensures |rows| == n && forall k | 0 <= k < n :: rows[k] == first + k
  {
    seq(n, k => first + k)
  }

  /** What a step on the job table does to the write tables, in the same transaction. */
  ghost function TablesAfter(s: System, step: Q.Step, results: seq<W.PointResult>): W.Tables {
    if !Q.Fires(s.queue, step) then s.tables
    else
      match step
      case ClaimCommit(w, now) =>
        var job := JobAt(s.rowOf, s.queue.workers[w].job);
        if job.Some? then W.After(s.tables, W.ClaimTried(job.value, now)) else s.tables
      case PostArrives(row, outcome, now) =>
        var job := JobAt(s.rowOf, row);
        if job.Some? then W.After(s.tables, W.ResultPosted(job.value, W.Payload(outcome, results), now)) else s.tables
      case _ => s.tables
  }

  ghost function Approved(s: System, b: nat, gateway: string, ids: nat -> nat, now: int): System {
    var tables := W.After(s.tables, W.Approved(b, now));
    var n := if |tables.jobs| >= |s.tables.jobs| then |tables.jobs| - |s.tables.jobs| else 0;
    System(Q.Exec(s.queue, Enqueues(gateway, ids, now, n)), tables, s.rowOf + RowsFrom(|s.queue.rows|, n))
  }

  ghost function After(s: System, e: Event): System {
    match e
    case Request(writes) => s.(tables := W.After(s.tables, W.Requested(writes)))
    case Approve(b, gateway, ids, now) => Approved(s, b, gateway, ids, now)
    case Queue(step, results) =>
      if EnqueuesWrite(step) then s
      else s.(queue := Q.After(s.queue, step), tables := TablesAfter(s, step, results))
  }

  ghost function Exec(s: System, events: seq<Event>): System
    decreases |events|
  {
    if events == [] then s else Exec(After(s, events[0]), events[1..])
  }

  // ---- What holds in every run ----

  /** A write job and its row say the same. */
  ghost predicate LinkedAt(s: System, k: nat)
    requires k < |s.rowOf| == |s.tables.jobs|
  {
    var row := s.rowOf[k];
    row < |s.queue.rows| && s.queue.rows[row].IsWrite() && s.queue.rows[row].status == s.tables.jobs[k].status
  }

  ghost predicate Linked(s: System) {
    && |s.rowOf| == |s.tables.jobs|
    && (forall k | 0 <= k < |s.rowOf| :: LinkedAt(s, k))
    && forall k, l | 0 <= k < l < |s.rowOf| :: s.rowOf[k] < s.rowOf[l]
  }

  ghost predicate Increasing(ids: seq<nat>) {
    forall a, b | 0 <= a < b < |ids| :: ids[a] < ids[b]
  }

  /** No job lists a command twice. */
  ghost predicate ListsOnce(jobs: seq<W.WriteJob>) {
    forall k | 0 <= k < |jobs| :: Increasing(jobs[k].writes)
  }

  ghost predicate ResultsApplied(q: Q.System) {
    forall row | 0 <= row < |q.rows| && q.rows[row].status.Reported() :: q.reports[row] > 0
  }

  ghost predicate Inv(s: System) {
    Q.Inv(s.queue) && W.Consistent(s.tables) && Linked(s) && ListsOnce(s.tables.jobs) && ResultsApplied(s.queue)
  }

  lemma {:induction false} JobAtFinds(rowOf: seq<nat>, row: nat)
    requires Increasing(rowOf)
    ensures JobAt(rowOf, row).Some? ==> JobAt(rowOf, row).value < |rowOf| && rowOf[JobAt(rowOf, row).value] == row
    ensures forall k | 0 <= k < |rowOf| && rowOf[k] == row :: JobAt(rowOf, row) == Some(k)
  {
    if rowOf != [] && rowOf[|rowOf| - 1] != row {
      JobAtFinds(rowOf[..|rowOf| - 1], row);
    }
  }

  // ---- Approval ----

  /** `q'` has `n` queued write jobs more than `q`. */
  ghost predicate MoreWrites(q: Q.System, q': Q.System, n: nat) {
    && |q'.rows| == |q.rows| + n && q'.reports == q.reports
    && (forall r | 0 <= r < |q.rows| :: q'.rows[r] == q.rows[r])
    && forall r | |q.rows| <= r < |q'.rows| :: q'.rows[r].IsWrite() && q'.rows[r].status == Q.Queued
  }

  lemma MoreAndMore(q: Q.System, q': Q.System, q'': Q.System, n: nat)
    requires MoreWrites(q, q', 1) && MoreWrites(q', q'', n)
    ensures MoreWrites(q, q'', n + 1)
  {
  }

  lemma {:induction false} EnqueuedRows(q: Q.System, steps: seq<Q.Step>)
    requires forall k | 0 <= k < |steps| :: EnqueuesWrite(steps[k])
    ensures MoreWrites(q, Q.Exec(q, steps), |steps|)
    decreases |steps|
  {
    if steps != [] {
      assert EnqueuesWrite(steps[0]);
      EnqueuedRows(Q.After(q, steps[0]), steps[1..]);
      MoreAndMore(q, Q.After(q, steps[0]), Q.Exec(q, steps), |steps[1..]|);
    }
  }

  lemma IncreasingThen(ids: seq<nat>, last: nat)
    requires Increasing(ids) && forall i | i in ids :: i < last
    ensures Increasing(ids + [last])
  {
    assert forall a | 0 <= a < |ids| :: ids[a] in ids;
  }

  lemma {:induction false} CommandsOfIncreasing(commands: seq<W.Command>, b: nat)
    ensures Increasing(W.CommandsOf(commands, b))
  {
    if commands != [] {
      var n := |commands| - 1;
      CommandsOfIncreasing(commands[..n], b);
      W.CommandsOfMember(commands[..n], b);
      IncreasingThen(W.CommandsOf(commands[..n], b), n);
    }
  }

  lemma {:induction false} WithKeyIncreasing(items: seq<nat>, key: nat -> int, k: int)
    requires Increasing(items)
    ensures Increasing(WithKey(items, key, k))
  {
    if items != [] {
      var init, last := items[..|items| - 1], items[|items| - 1];
      WithKeyIncreasing(init, key, k);
      WithKeyMember(init, key, k);
      assert forall i | i in init :: i < last;
      IncreasingThen(WithKey(init, key, k), last);
    }
  }

  /** Approval adds queued jobs, none of which lists a command twice. */
  ghost predicate MoreJobs(jobs: seq<W.WriteJob>, jobs': seq<W.WriteJob>) {
    && |jobs'| >= |jobs| && ListsOnce(jobs')
    && (forall k | 0 <= k < |jobs| :: jobs'[k] == jobs[k])
    && forall k | |jobs| <= k < |jobs'| :: jobs'[k].status == Q.Queued
  }

  lemma ApprovedJobs(t: W.Tables, b: nat, now: int)
    requires ListsOnce(t.jobs)
    ensures MoreJobs(t.jobs, W.After(t, W.Approved(b, now)).jobs)
  {
    if b < |t.batches| && t.batches[b].status == W.BatchStatus.PendingApproval {
      var ids, key := W.CommandsOf(t.commands, b), W.DeviceOf(t.commands);
      var groups := Grouped(ids, key);
      CommandsOfIncreasing(t.commands, b);
      forall g | 0 <= g < |groups|
        ensures Increasing(W.JobsFor(groups)[g].writes)
      {
        WithKeyIncreasing(ids, key, groups[g].key);
      }
    }
  }

  lemma MoreLinked(s: System, s': System, n: nat)
    requires Linked(s) && MoreWrites(s.queue, s'.queue, n) && MoreJobs(s.tables.jobs, s'.tables.jobs)
    requires |s'.tables.jobs| == |s.tables.jobs| + n && s'.rowOf == s.rowOf + RowsFrom(|s.queue.rows|, n)
    ensures Linked(s')
  {
    forall k | 0 <= k < |s'.rowOf|
      ensures LinkedAt(s', k)
    {
      assert k < |s.rowOf| ==> LinkedAt(s, k);
    }
    forall k | 0 <= k < |s.rowOf|
      ensures s.rowOf[k] < |s.queue.rows|
    {
      assert LinkedAt(s, k);
    }
  }

  lemma ApprovedInv(s: System, b: nat, gateway: string, ids: nat -> nat, now: int)
    requires Inv(s)
    ensures Inv(Approved(s, b, gateway, ids, now))
  {
    var s' := Approved(s, b, gateway, ids, now);
    W.ConsistentStep(s.tables, W.Approved(b, now));
    ApprovedJobs(s.tables, b, now);
    var n := |s'.tables.jobs| - |s.tables.jobs|;
    Q.InvExec(s.queue, Enqueues(gateway, ids, now, n));
    EnqueuedRows(s.queue, Enqueues(gateway, ids, now, n));
    MoreLinked(s, s', n);
    MoreApplied(s.queue, s'.queue, n);
  }

  lemma MoreApplied(q: Q.System, q': Q.System, n: nat)
    requires ResultsApplied(q) && MoreWrites(q, q', n)
    ensures ResultsApplied(q')
  {
    forall row | 0 <= row < |q'.rows| && q'.rows[row].status.Reported()
      ensures q'.reports[row] > 0
    {
      assert row < |q.rows| && q'.rows[row] == q.rows[row];
    }
  }

  // ---- Steps on the job table ----

  lemma ResultsAppliedStep(q: Q.System, step: Q.Step)
    requires ResultsApplied(q) && Q.Fires(q, step)
    ensures ResultsApplied(Q.After(q, step))
  {
    var rows := Q.RowsAfter(q, step);
    forall row | 0 <= row < |rows| && rows[row].status.Reported()
      ensures Q.ReportsAfter(q, step)[row] > 0
    {
      if !(step.PostArrives? && step.job == row) {
        assert row < |q.rows| && q.rows[row].status.Reported();
      }
    }
  }

  lemma ClaimedJob(t: W.Tables, rowOf: seq<nat>, row: nat, now: int, k: nat)
    requires Increasing(rowOf) && k < |rowOf| == |t.jobs|
    ensures var job := JobAt(rowOf, row);
      var jobs := if job.Some? then W.After(t, W.ClaimTried(job.value, now)).jobs else t.jobs;
      && |jobs| == |t.jobs| && jobs[k].writes == t.jobs[k].writes
      && jobs[k].status == if row == rowOf[k] && t.jobs[k].status == Q.Queued then Q.Claimed else t.jobs[k].status
  {
    JobAtFinds(rowOf, row);
  }

  lemma ReportedJob(t: W.Tables, rowOf: seq<nat>, row: nat, payload: W.Payload, now: int, k: nat)
    requires Increasing(rowOf) && k < |rowOf| == |t.jobs| && payload.status.Reported()
    ensures var job := JobAt(rowOf, row);
      var jobs := if job.Some? then W.After(t, W.ResultPosted(job.value, payload, now)).jobs else t.jobs;
      && |jobs| == |t.jobs| && jobs[k].writes == t.jobs[k].writes
      && jobs[k].status == if row == rowOf[k] then payload.status else t.jobs[k].status
  {
    JobAtFinds(rowOf, row);
  }

  lemma TablesStep(s: System, step: Q.Step, results: seq<W.PointResult>, k: nat)
    requires Q.ResultsFromRuns(s.queue) && Linked(s) && Q.Fires(s.queue, step) && k < |s.tables.jobs|
    ensures var jobs := TablesAfter(s, step, results).jobs;
      && |jobs| == |s.tables.jobs| && jobs[k].writes == s.tables.jobs[k].writes
      && jobs[k].status ==
        if step.ClaimCommit? && s.queue.workers[step.w].job == s.rowOf[k] && s.tables.jobs[k].status == Q.Queued then Q.Claimed
        else if step.PostArrives? && step.job == s.rowOf[k] then step.outcome
        else s.tables.jobs[k].status
  {
    if step.ClaimCommit? {
      ClaimedJob(s.tables, s.rowOf, s.queue.workers[step.w].job, step.now, k);
    } else if step.PostArrives? {
      assert (step.job, step.outcome) in s.queue.posts;
      ReportedJob(s.tables, s.rowOf, step.job, W.Payload(step.outcome, results), step.now, k);
    }
  }

  lemma TablesConsistent(s: System, step: Q.Step, results: seq<W.PointResult>)
    requires W.Consistent(s.tables)
    ensures W.Consistent(TablesAfter(s, step, results))
  {
    if Q.Fires(s.queue, step) {
      if step.ClaimCommit? {
        var job := JobAt(s.rowOf, s.queue.workers[step.w].job);
        if job.Some? {
          W.ConsistentStep(s.tables, W.ClaimTried(job.value, step.now));
        }
      } else if step.PostArrives? {
        var job := JobAt(s.rowOf, step.job);
        if job.Some? {
          W.ConsistentStep(s.tables, W.ResultPosted(job.value, W.Payload(step.outcome, results), step.now));
        }
      }
    }
  }

  lemma LinkedStep(s: System, step: Q.Step, results: seq<W.PointResult>)
    requires Inv(s) && Q.Fires(s.queue, step)
    ensures Linked(s.(queue := Q.After(s.queue, step), tables := TablesAfter(s, step, results)))
    ensures ListsOnce(TablesAfter(s, step, results).jobs)
  {
    var s' := s.(queue := Q.After(s.queue, step), tables := TablesAfter(s, step, results));
    if s.tables.jobs == [] {
      NoJobs(s, step, results);
    } else {
      TablesStep(s, step, results, 0);
    }
    forall k | 0 <= k < |s.rowOf|
      ensures LinkedAt(s', k) && Increasing(s'.tables.jobs[k].writes)
    {
      assert LinkedAt(s, k);
      Q.WriteStatusStep(s.queue, step, s.rowOf[k]);
      TablesStep(s, step, results, k);
    }
  }

  lemma NoJobs(s: System, step: Q.Step, results: seq<W.PointResult>)
    requires s.rowOf == [] && s.tables.jobs == []
    ensures TablesAfter(s, step, results).jobs == []
  {
  }

  lemma InvStep(s: System, e: Event)
    requires Inv(s)
    ensures Inv(After(s, e))
  {
    match e
    case Request(writes) =>
      W.ConsistentStep(s.tables, W.Requested(writes));
      RequestKeepsLinks(s, writes);
    case Approve(b, gateway, ids, now) => ApprovedInv(s, b, gateway, ids, now);
    case Queue(step, results) =>
      Q.InvStep(s.queue, step);
      TablesConsistent(s, step, results);
      if Q.Fires(s.queue, step) {
        ResultsAppliedStep(s.queue, step);
        LinkedStep(s, step, results);
      }
  }

  lemma RequestKeepsLinks(s: System, writes: seq<W.Write>)
    requires Linked(s)
    ensures Linked(s.(tables := W.After(s.tables, W.Requested(writes))))
  {
    var s' := s.(tables := W.After(s.tables, W.Requested(writes)));
    forall k | 0 <= k < |s.rowOf|
      ensures LinkedAt(s', k)
    {
      assert LinkedAt(s, k);
    }
  }

  lemma InitialInv(s: System)
    requires Initial(s)
    ensures Inv(s)
  {
    Q.InitialInv(s.queue);
  }

  lemma {:induction false} InvExec(s: System, events: seq<Event>)
    requires Inv(s)
    ensures Inv(Exec(s, events))
    decreases |events|
  {
    if events != [] {
      InvStep(s, events[0]);
      InvExec(After(s, events[0]), events[1..]);
    }
  }

  /** In every run each write job has a row of its own in the job table, which is a write job's row
      and has the same status, and no job lists a command twice. */
  lemma JobsAndRowsAgree(s: System, events: seq<Event>, k: nat)
    requires Initial(s) && k < |Exec(s, events).tables.jobs|
    ensures var e := Exec(s, events);
      && |e.rowOf| == |e.tables.jobs| && Increasing(e.rowOf) && Increasing(e.tables.jobs[k].writes)
      && e.rowOf[k] < |e.queue.rows| && e.queue.rows[e.rowOf[k]].IsWrite()
      && e.queue.rows[e.rowOf[k]].status == e.tables.jobs[k].status
  {
    InitialInv(s);
    InvExec(s, events);
    assert LinkedAt(Exec(s, events), k);
  }

  // ---- How often a command is dispatched ----

  /** How often agents have dispatched command `i` as part of the first `k` jobs: for every run of a
      job, as often as the job lists it. */
  ghost function Dispatched(s: System, i: nat, k: nat): nat
    requires k <= |s.tables.jobs| && k <= |s.rowOf|
  {
    if k == 0 then 0
    else Dispatched(s, i, k - 1) + s.queue.runs[s.rowOf[k - 1]] * multiset(s.tables.jobs[k - 1].writes)[i]
  }

  lemma {:induction false} ListedOnce(writes: seq<nat>, i: nat)
    requires Increasing(writes)
    ensures multiset(writes)[i] == if i in writes then 1 else 0
  {
    if writes != [] {
      var init, last := writes[..|writes| - 1], writes[|writes| - 1];
      ListedOnce(init, i);
      assert writes == init + [last];
      assert last !in init;
    }
  }

  /** A command is listed by its own job and by no other. */
  lemma ListedByItsJob(t: W.Tables, i: nat, k: nat)
    requires W.Consistent(t) && i < |t.commands| && k < |t.jobs|
    ensures i in t.jobs[k].writes <==> t.commands[i].job == Some(k)
  {
    assert W.CommandInStep(t, i) && W.JobInStep(t, k);
  }

  lemma RunsOfListed(runs: nat, times: nat, listed: bool)
    requires times == if listed then 1 else 0
    ensures runs * times == if listed then runs else 0
  {
  }

  lemma {:induction false} DispatchedWithItsJob(s: System, i: nat, k: nat)
    requires W.Consistent(s.tables) && ListsOnce(s.tables.jobs) && |s.rowOf| == |s.tables.jobs|
    requires i < |s.tables.commands| && k <= |s.tables.jobs|
    ensures var job := s.tables.commands[i].job;
      Dispatched(s, i, k) == if job.Some? && job.value < k then s.queue.runs[s.rowOf[job.value]] else 0
  {
    if k > 0 {
      DispatchedWithItsJob(s, i, k - 1);
      ListedByItsJob(s.tables, i, k - 1);
      ListedOnce(s.tables.jobs[k - 1].writes, i);
      RunsOfListed(s.queue.runs[s.rowOf[k - 1]], multiset(s.tables.jobs[k - 1].writes)[i], i in s.tables.jobs[k - 1].writes);
    }
  }

  /** How far the row of a write job has come says how often it was run. */
  lemma RunsOfWriteRow(q: Q.System, row: nat)
    requires Q.Inv(q) && ResultsApplied(q) && row < |q.rows| && q.rows[row].IsWrite()
    ensures q.runs[row] <= 1
    ensures q.rows[row].status == Q.Queued ==> q.runs[row] == 0
    ensures q.rows[row].status.Reported() ==> q.runs[row] == 1
  {
    assert q.wire[row] + Q.Held(q.agents, row) + q.runs[row] <= q.claims[row];
    assert Q.Unposted(q.agents, row) + Q.PostsOf(q.posts, row) + q.reports[row] <= q.runs[row];
  }

  /** Dispatched at most once over all jobs: not before it is claimed, and exactly once when it has
      its answer. */
  ghost predicate DispatchedInStep(s: System, i: nat) {
    && |s.rowOf| == |s.tables.jobs| && i < |s.tables.commands|
    && var status := s.tables.commands[i].status; var dispatched := Dispatched(s, i, |s.rowOf|);
    && dispatched <= 1
    && (status.PendingApproval? || status.Queued? ==> dispatched == 0)
    && (status.Answered() ==> dispatched == 1)
  }

  /** A command without a job has not been dispatched, and any other as often as its job's row was run. */
  lemma DispatchedAsItsRow(s: System, i: nat, row: Option<nat>)
    requires Inv(s) && i < |s.tables.commands|
    requires var job := s.tables.commands[i].job;
      row == if job.Some? && job.value < |s.rowOf| then Some(s.rowOf[job.value]) else None
    ensures Dispatched(s, i, |s.rowOf|) == if row.Some? then s.queue.runs[row.value] else 0
    ensures var status := s.tables.commands[i].status;
      match row
      case None => status.PendingApproval?
      case Some(r) =>
        && r < |s.queue.rows| && s.queue.rows[r].IsWrite()
        && (status.PendingApproval? || status.Queued? ==> s.queue.rows[r].status == Q.Queued)
        && (status.Answered() ==> s.queue.rows[r].status.Reported())
  {
    DispatchedWithItsJob(s, i, |s.rowOf|);
    assert W.CommandInStep(s.tables, i);
    if row.Some? {
      assert LinkedAt(s, s.tables.commands[i].job.value);
    }
  }

  /** In every run a write command is dispatched at most once, over all jobs: not before it is
      claimed, and exactly once when it has its answer. */
  lemma CommandDispatchedAtMostOnce(s: System, events: seq<Event>, i: nat)
    requires Initial(s) && i < |Exec(s, events).tables.commands|
    ensures DispatchedInStep(Exec(s, events), i)
  {
    InitialInv(s);
    InvExec(s, events);
    InvDispatches(Exec(s, events), i);
  }

  lemma InvDispatches(s: System, i: nat)
    requires Inv(s) && i < |s.tables.commands|
    ensures DispatchedInStep(s, i)
  {
    var job := s.tables.commands[i].job;
    var row := if job.Some? && job.value < |s.rowOf| then Some(s.rowOf[job.value]) else None;
    DispatchedAsItsRow(s, i, row);
    if row.Some? {
      RunsOfWriteRow(s.queue, row.value);
    }
  }
}
