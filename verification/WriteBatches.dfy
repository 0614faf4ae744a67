/** BACnet write batches: approval splits a batch's commands into one job per device, and the
    claims and results of those jobs drive the commands and the derived batch status.
    Each endpoint is one transaction here. */
module WriteBatches {
  import opened Wrappers
  import opened Grouping
  import J = JobQueue

  datatype CommandStatus = PendingApproval | Queued | Claimed | Succeeded | Failed | Deferred {
    predicate Answered(): (a: bool)
      ensures a <==> !PendingApproval? && !Queued? && !Claimed?
    {
      Succeeded? || Failed? || Deferred?
    }
  }

  datatype BatchStatus = PendingApproval | Queued | Claimed | Completed | Failed | Deferred | Partial {
    predicate Terminal(): (t: bool)
      ensures t <==> !PendingApproval? && !Queued? && !Claimed?
    {
      Completed? || Failed? || Deferred? || Partial?
    }
  }

  datatype PointResult = PointResult(point: string, ok: bool)

  datatype Payload = Payload(status: J.JobStatus, results: seq<PointResult>)

  datatype Command = Command(
    batch: nat,
    job: Option<nat>,
    point: string,
    device: int,
    status: CommandStatus,
    result: Option<PointResult>,
    completedAt: Option<int>)

  datatype Batch = Batch(status: BatchStatus, approvedAt: Option<int>, completedAt: Option<int>)

  datatype WriteJob = WriteJob(status: J.JobStatus, device: int, writes: seq<nat>)

  datatype Tables = Tables(batches: seq<Batch>, commands: seq<Command>, jobs: seq<WriteJob>)

  // ---- What the endpoints do ----

  function BatchStatusOf(statuses: set<CommandStatus>): BatchStatus {
    if CommandStatus.Queued in statuses || CommandStatus.Claimed in statuses then (if CommandStatus.Claimed in statuses then BatchStatus.Claimed else BatchStatus.Queued)
    else if statuses == {Succeeded} then BatchStatus.Completed
    else if statuses == {CommandStatus.Failed} then BatchStatus.Failed
    else if statuses == {CommandStatus.Deferred} then BatchStatus.Deferred
    else Partial
  }

  function StatusesIn(commands: seq<Command>, b: nat): set<CommandStatus> {
    set i | 0 <= i < |commands| && commands[i].batch == b :: commands[i].status
  }

  function Refreshed(batch: Batch, statuses: set<CommandStatus>, now: int): Batch {
    if statuses == {} then batch
    else
      var status := BatchStatusOf(statuses);
      batch.(status := status, completedAt := if status.Terminal() then Some(now) else None)
  }

  /** The batches of the commands of job `j`. */
  function BatchesOfJob(commands: seq<Command>, j: nat): set<nat> {
    set i | 0 <= i < |commands| && commands[i].job == Some(j) :: commands[i].batch
  }

  function RefreshAll(t: Tables, affected: set<nat>, now: int): Tables {
    t.(batches := seq(|t.batches|, b requires 0 <= b < |t.batches| =>
      if b in affected then Refreshed(t.batches[b], StatusesIn(t.commands, b), now) else t.batches[b]))
  }

  /** The first entry for the point counts. */
  function FirstResult(results: seq<PointResult>, point: string): Option<PointResult> {
    if results == [] then None
    else if results[0].point == point then Some(results[0])
    else FirstResult(results[1..], point)
  }

  function AnsweredBy(c: Command, payload: Payload, now: int): Command {
    match FirstResult(if payload.status == J.Completed then payload.results else [], c.point)
    case None => c.(status := if payload.status == J.Deferred then CommandStatus.Deferred else CommandStatus.Failed, completedAt := Some(now))
    case Some(r) => c.(status := if r.ok then Succeeded else CommandStatus.Failed, result := Some(r), completedAt := Some(now))
  }

  function WithAnswers(commands: seq<Command>, j: nat, payload: Payload, now: int): seq<Command> {
    seq(|commands|, i requires 0 <= i < |commands| =>
      if commands[i].job == Some(j) then AnsweredBy(commands[i], payload, now) else commands[i])
  }

  function WithClaims(commands: seq<Command>, j: nat): seq<Command> {
    seq(|commands|, i requires 0 <= i < |commands| =>
      if commands[i].job == Some(j) && commands[i].status == CommandStatus.Queued
      then commands[i].(status := CommandStatus.Claimed) else commands[i])
  }

  function Claim(t: Tables, j: nat, now: int): Tables
    requires j < |t.jobs|
  {
    if t.jobs[j].status != J.Queued then t
    else RefreshAll(t.(jobs := t.jobs[j := t.jobs[j].(status := J.Claimed)], commands := WithClaims(t.commands, j)),
                    BatchesOfJob(t.commands, j), now)
  }

  function Report(t: Tables, j: nat, payload: Payload, now: int): Tables
    requires j < |t.jobs|
  {
    RefreshAll(t.(jobs := t.jobs[j := t.jobs[j].(status := payload.status)],
                  commands := WithAnswers(t.commands, j, payload, now)),
               BatchesOfJob(t.commands, j), now)
  }

  function CommandsOf(commands: seq<Command>, b: nat): seq<nat> {
    if commands == [] then []
    else
      var n := |commands| - 1;
      CommandsOf(commands[..n], b) + if commands[n].batch == b then [n] else []
  }

  function DeviceOf(commands: seq<Command>): nat -> int {
    (i: nat) => if i < |commands| then commands[i].device else 0
  }

  /** The position of the device's group, which numbers its job. */
  function GroupIndex(groups: seq<Group<nat>>, device: int): nat {
    if groups == [] || groups[0].key == device then 0 else 1 + GroupIndex(groups[1..], device)
  }

  function JobsFor(groups: seq<Group<nat>>): seq<WriteJob> {
    seq(|groups|, g requires 0 <= g < |groups| => WriteJob(J.Queued, groups[g].key, groups[g].items))
  }

  function WithJobs(commands: seq<Command>, b: nat, groups: seq<Group<nat>>, first: nat): seq<Command> {
    seq(|commands|, i requires 0 <= i < |commands| =>
      if commands[i].batch == b
      then commands[i].(job := Some(first + GroupIndex(groups, commands[i].device)), status := CommandStatus.Queued)
      else commands[i])
  }

  /** Answers 409 and changes nothing unless the batch awaits approval. */
  function Approve(t: Tables, b: nat, now: int): Tables
    requires b < |t.batches|
  {
    if t.batches[b].status != BatchStatus.PendingApproval then t
    else
      var groups := Grouped(CommandsOf(t.commands, b), DeviceOf(t.commands));
      Tables(t.batches[b := t.batches[b].(status := BatchStatus.Queued, approvedAt := Some(now))],
             WithJobs(t.commands, b, groups, |t.jobs|),
             t.jobs + JobsFor(groups))
  }

  /** A requested write: the point and the device it is on. */
  datatype Write = Write(point: string, device: int)

  function Request(t: Tables, writes: seq<Write>): Tables {
    t.(batches := t.batches + [Batch(BatchStatus.PendingApproval, None, None)],
       commands := t.commands + seq(|writes|, k requires 0 <= k < |writes| =>
         Command(|t.batches|, None, writes[k].point, writes[k].device, CommandStatus.PendingApproval, None, None)))
  }

  // ---- The same in the rows' own fields ----

  ghost predicate SomeAre(commands: seq<Command>, b: nat, status: CommandStatus) {
    exists i :: 0 <= i < |commands| && commands[i].batch == b && commands[i].status == status
  }

  ghost predicate AllAre(commands: seq<Command>, b: nat, status: CommandStatus) {
    forall i | 0 <= i < |commands| && commands[i].batch == b :: commands[i].status == status
  }

  ghost predicate SomeOpen(commands: seq<Command>, b: nat) {
    SomeAre(commands, b, CommandStatus.Claimed) || SomeAre(commands, b, CommandStatus.Queued)
  }

  /** The status that a batch with these commands should show. */
  ghost predicate Tells(status: BatchStatus, commands: seq<Command>, b: nat) {
    && (status == BatchStatus.Claimed <==> SomeAre(commands, b, CommandStatus.Claimed))
    && (status == BatchStatus.Queued <==> SomeAre(commands, b, CommandStatus.Queued) && !SomeAre(commands, b, CommandStatus.Claimed))
    && (status == BatchStatus.Completed <==> AllAre(commands, b, CommandStatus.Succeeded))
    && (status == BatchStatus.Failed <==> AllAre(commands, b, CommandStatus.Failed))
    && (status == BatchStatus.Deferred <==> AllAre(commands, b, CommandStatus.Deferred))
    && status != BatchStatus.PendingApproval
  }

  lemma StatusIsIn(commands: seq<Command>, b: nat, status: CommandStatus)
    ensures status in StatusesIn(commands, b) <==> SomeAre(commands, b, status)
  {
  }

  lemma OnlyStatus(commands: seq<Command>, b: nat, status: CommandStatus)
    requires StatusesIn(commands, b) != {}
    ensures StatusesIn(commands, b) == {status} <==> AllAre(commands, b, status)
  {
    var statuses := StatusesIn(commands, b);
    var x :| x in statuses;
    forall i | 0 <= i < |commands| && commands[i].batch == b
      ensures commands[i].status in statuses
    {
    }
    if AllAre(commands, b, status) {
      assert x == status;
      assert statuses == {status};
    }
  }

  lemma RefreshTells(commands: seq<Command>, b: nat)
    requires StatusesIn(commands, b) != {}
    ensures Tells(BatchStatusOf(StatusesIn(commands, b)), commands, b)
    ensures BatchStatusOf(StatusesIn(commands, b)).Terminal() <==> !SomeOpen(commands, b)
  {
    StatusIsIn(commands, b, CommandStatus.Claimed);
    StatusIsIn(commands, b, CommandStatus.Queued);
    OnlyStatus(commands, b, CommandStatus.Succeeded);
    OnlyStatus(commands, b, CommandStatus.Failed);
    OnlyStatus(commands, b, CommandStatus.Deferred);
    assert {CommandStatus.Succeeded} != {CommandStatus.Failed} && CommandStatus.Succeeded !in {CommandStatus.Failed};
  }

  ghost predicate HasCommands(commands: seq<Command>, b: nat) {
    exists i :: 0 <= i < |commands| && commands[i].batch == b
  }

  /** A refreshed batch shows what its commands say, with the time exactly if none of them is open. */
  ghost predicate IsRefreshed(batch: Batch, batch': Batch, commands: seq<Command>, b: nat, now: int) {
    && batch'.approvedAt == batch.approvedAt
    && (!HasCommands(commands, b) ==> batch' == batch)
    && (HasCommands(commands, b) ==>
          Tells(batch'.status, commands, b) && batch'.completedAt == if SomeOpen(commands, b) then None else Some(now))
  }

  lemma RefreshedIs(batch: Batch, commands: seq<Command>, b: nat, now: int)
    ensures IsRefreshed(batch, Refreshed(batch, StatusesIn(commands, b), now), commands, b, now)
  {
    if i :| 0 <= i < |commands| && commands[i].batch == b {
      assert commands[i].status in StatusesIn(commands, b);
      RefreshTells(commands, b);
    } else {
      assert StatusesIn(commands, b) == {};
    }
  }

  ghost predicate IsFirstEntry(results: seq<PointResult>, point: string, e: nat) {
    e < |results| && results[e].point == point && forall d | 0 <= d < e :: results[d].point != point
  }

  ghost predicate NoEntry(results: seq<PointResult>, point: string) {
    forall e | 0 <= e < |results| :: results[e].point != point
  }

  lemma {:induction false} FirstResultIs(results: seq<PointResult>, point: string)
    ensures FirstResult(results, point) == None ==> NoEntry(results, point)
    ensures FirstResult(results, point).Some? ==> !NoEntry(results, point)
    ensures forall e: nat | IsFirstEntry(results, point, e) :: FirstResult(results, point) == Some(results[e])
  {
    if results != [] && results[0].point != point {
      FirstResultIs(results[1..], point);
      forall e: nat | IsFirstEntry(results, point, e)
        ensures FirstResult(results, point) == Some(results[e])
      {
        assert IsFirstEntry(results[1..], point, e - 1);
      }
      if FirstResult(results[1..], point).Some? {
        var e :| 0 <= e < |results[1..]| && results[1..][e].point == point;
        assert results[e + 1].point == point;
      }
    }
  }

  /** What a job's result makes of one of its commands: only a completed job's entries count, and of
      them the first for the command's point. */
  ghost predicate IsAnswered(c: Command, c': Command, payload: Payload, now: int) {
    && c'.batch == c.batch && c'.job == c.job && c'.point == c.point && c'.device == c.device && c'.completedAt == Some(now)
    && (payload.status == J.Completed && !NoEntry(payload.results, c.point) ==>
          forall e: nat | IsFirstEntry(payload.results, c.point, e) ::
            && c'.result == Some(payload.results[e])
            && c'.status == if payload.results[e].ok then CommandStatus.Succeeded else CommandStatus.Failed)
    && (payload.status != J.Completed || NoEntry(payload.results, c.point) ==>
          && c'.result == c.result
          && c'.status == if payload.status == J.Deferred then CommandStatus.Deferred else CommandStatus.Failed)
  }

  lemma AnsweredIs(c: Command, payload: Payload, now: int)
    ensures IsAnswered(c, AnsweredBy(c, payload, now), payload, now)
  {
    FirstResultIs(payload.results, c.point);
  }

  /** The batches that a job touches are refreshed and the others are as they were. */
  ghost predicate BatchesRefreshed(t: Tables, t': Tables, j: nat, now: int) {
    && |t'.batches| == |t.batches|
    && forall b | 0 <= b < |t.batches| ::
         if JobHasBatch(t, j, b) then IsRefreshed(t.batches[b], t'.batches[b], t'.commands, b, now)
         else t'.batches[b] == t.batches[b]
  }

  ghost predicate JobHasBatch(t: Tables, j: nat, b: nat) {
    exists i :: 0 <= i < |t.commands| && t.commands[i].job == Some(j) && t.commands[i].batch == b
  }

  lemma RefreshAllIs(t: Tables, t': Tables, j: nat, now: int)
    requires t' == RefreshAll(t'.(batches := t.batches), BatchesOfJob(t.commands, j), now)
    ensures BatchesRefreshed(t, t', j, now)
  {
    forall b | 0 <= b < |t.batches|
      ensures JobHasBatch(t, j, b) <==> b in BatchesOfJob(t.commands, j)
    {
    }
    forall b | 0 <= b < |t.batches| && JobHasBatch(t, j, b)
      ensures IsRefreshed(t.batches[b], t'.batches[b], t'.commands, b, now)
    {
      RefreshedIs(t.batches[b], t'.commands, b, now);
    }
  }

  /** What an accepted result makes of the tables. */
  ghost predicate IsReported(t: Tables, t': Tables, j: nat, payload: Payload, now: int)
    requires j < |t.jobs|
  {
    && t'.jobs == t.jobs[j := t.jobs[j].(status := payload.status)]
    && |t'.commands| == |t.commands|
    && (forall i | 0 <= i < |t.commands| && t.commands[i].job != Some(j) :: t'.commands[i] == t.commands[i])
    && (forall i | 0 <= i < |t.commands| && t.commands[i].job == Some(j) :: IsAnswered(t.commands[i], t'.commands[i], payload, now))
    && BatchesRefreshed(t, t', j, now)
  }

  lemma ReportIs(t: Tables, j: nat, payload: Payload, now: int)
    requires j < |t.jobs|
    ensures IsReported(t, Report(t, j, payload, now), j, payload, now)
  {
    forall i | 0 <= i < |t.commands| && t.commands[i].job == Some(j)
      ensures IsAnswered(t.commands[i], WithAnswers(t.commands, j, payload, now)[i], payload, now)
    {
      AnsweredIs(t.commands[i], payload, now);
    }
    RefreshAllIs(t, Report(t, j, payload, now), j, now);
  }

  /** What the claim of a queued job makes of the tables. */
  ghost predicate IsClaimed(t: Tables, t': Tables, j: nat, now: int)
    requires j < |t.jobs|
  {
    && t'.jobs == t.jobs[j := t.jobs[j].(status := J.Claimed)]
    && |t'.commands| == |t.commands|
    && (forall i | 0 <= i < |t.commands| && t.commands[i].job == Some(j) && t.commands[i].status == CommandStatus.Queued ::
          t'.commands[i] == t.commands[i].(status := CommandStatus.Claimed))
    && (forall i | 0 <= i < |t.commands| && (t.commands[i].job != Some(j) || t.commands[i].status != CommandStatus.Queued) ::
          t'.commands[i] == t.commands[i])
    && BatchesRefreshed(t, t', j, now)
  }

  lemma ClaimIs(t: Tables, j: nat, now: int)
    requires j < |t.jobs| && t.jobs[j].status == J.Queued
    ensures IsClaimed(t, Claim(t, j, now), j, now)
  {
    RefreshAllIs(t, Claim(t, j, now), j, now);
  }

  /** What a request makes of the tables: one more batch, and one more command for each write. */
  ghost predicate IsRequested(t: Tables, t': Tables, writes: seq<Write>) {
    && t'.jobs == t.jobs
    && t'.batches == t.batches + [Batch(BatchStatus.PendingApproval, None, None)]
    && |t'.commands| == |t.commands| + |writes| && t'.commands[..|t.commands|] == t.commands
    && forall k | 0 <= k < |writes| ::
         t'.commands[|t.commands| + k] ==
           Command(|t.batches|, None, writes[k].point, writes[k].device, CommandStatus.PendingApproval, None, None)
  }

  /** What approval makes of the tables, but for the grouping: the batch and its commands are queued, and
      nothing else changes. */
  ghost predicate IsApproved(t: Tables, t': Tables, b: nat, now: int)
    requires b < |t.batches|
  {
    && t'.batches == t.batches[b := Batch(BatchStatus.Queued, Some(now), t.batches[b].completedAt)]
    && |t'.jobs| >= |t.jobs| && t'.jobs[..|t.jobs|] == t.jobs
    && (forall j | |t.jobs| <= j < |t'.jobs| :: t'.jobs[j].status == J.Queued)
    && |t'.commands| == |t.commands|
    && (forall i | 0 <= i < |t.commands| && t.commands[i].batch != b :: t'.commands[i] == t.commands[i])
    && (forall i | 0 <= i < |t.commands| && t.commands[i].batch == b ::
          t'.commands[i].job.Some? && t'.commands[i] == t.commands[i].(job := t'.commands[i].job, status := CommandStatus.Queued))
  }

  class WriteStore {
    var batches: seq<Batch>
    var commands: seq<Command>
    var jobs: seq<WriteJob>

    function View(): Tables
      reads this
    {
      Tables(batches, commands, jobs)
    }

    constructor ()
      ensures View() == Tables([], [], [])
    {
      batches, commands, jobs := [], [], [];
    }

    method RequestWrites(writes: seq<Write>)
      modifies this
      ensures IsRequested(old(View()), View(), writes) && View() == Request(old(View()), writes)
    {
      var b := |batches|;
      batches := batches + [Batch(BatchStatus.PendingApproval, None, None)];
      for k := 0 to |writes|
        invariant batches == old(batches) + [Batch(BatchStatus.PendingApproval, None, None)] && jobs == old(jobs)
        invariant commands == Request(old(View()), writes[..k]).commands
      {
        commands := commands + [Command(b, None, writes[k].point, writes[k].device, CommandStatus.PendingApproval, None, None)];
      }
      assert writes[..|writes|] == writes;
    }

    method RefreshBatchStatus(b: nat, now: int)
      requires b < |batches|
      modifies this`batches
      ensures batches == old(batches)[b := Refreshed(old(batches)[b], StatusesIn(commands, b), now)]
      ensures IsRefreshed(old(batches)[b], batches[b], commands, b, now)
    {
      RefreshedIs(batches[b], commands, b, now);
      var statuses := StatusesIn(commands, b);
      if statuses == {} {
        return;
      }
      var batch := batches[b];
      if CommandStatus.Queued in statuses || CommandStatus.Claimed in statuses {
        batch := batch.(status := if CommandStatus.Claimed in statuses then BatchStatus.Claimed else BatchStatus.Queued, completedAt := None);
      } else if statuses == {Succeeded} {
        batch := batch.(status := BatchStatus.Completed, completedAt := Some(now));
      } else if statuses == {CommandStatus.Failed} {
        batch := batch.(status := BatchStatus.Failed, completedAt := Some(now));
      } else if statuses == {CommandStatus.Deferred} {
        batch := batch.(status := BatchStatus.Deferred, completedAt := Some(now));
      } else {
        batch := batch.(status := Partial, completedAt := Some(now));
      }
      batches := batches[b := batch];
    }

    method RefreshAffected(affected: set<nat>, now: int)
      requires forall b | b in affected :: b < |batches|
      modifies this`batches
      ensures View() == RefreshAll(old(View()), affected, now)
    {
      var todo := affected;
      while todo != {}
        invariant todo <= affected
        invariant View() == RefreshAll(old(View()), affected - todo, now)
        decreases todo
      {
        var b :| b in todo;
        RefreshBatchStatus(b, now);
        todo := todo - {b};
      }
      assert affected - todo == affected;
    }

    /** The part of `_claim_next_job_once` that follows the choice of a write job. */
    method ClaimJob(j: nat, now: int) returns (won: bool)
      requires j < |jobs|
      requires forall i | 0 <= i < |commands| :: commands[i].batch < |batches|
      modifies this
      ensures won <==> old(jobs)[j].status == J.Queued
      ensures View() == Claim(old(View()), j, now)
      ensures if won then IsClaimed(old(View()), View(), j, now) else View() == old(View())
    {
      won := jobs[j].status == J.Queued;
      if !won {
        return;
      }
      ghost var before := View();
      jobs := jobs[j := jobs[j].(status := J.Claimed)];
      var affected := ClaimCommands(j);
      RefreshAffected(affected, now);
      ClaimIs(before, j, now);
    }

    method ClaimCommands(j: nat) returns (affected: set<nat>)
      modifies this`commands
      ensures commands == WithClaims(old(commands), j) && affected == BatchesOfJob(old(commands), j)
    {
      affected := {};
      for i := 0 to |commands|
        invariant |commands| == |old(commands)|
        invariant forall k | 0 <= k < |commands| ::
          commands[k] == (if k < i then WithClaims(old(commands), j)[k] else old(commands)[k])
        invariant affected == set k | 0 <= k < i && old(commands)[k].job == Some(j) :: old(commands)[k].batch
      {
        if commands[i].job == Some(j) {
          affected := affected + {commands[i].batch};
          if commands[i].status == CommandStatus.Queued {
            commands := commands[i := commands[i].(status := CommandStatus.Claimed)];
          }
        }
      }
    }

    method ReceiveResult(j: nat, payload: Payload, now: int)
      requires j < |jobs| && payload.status.Reported()
      requires forall i | 0 <= i < |commands| :: commands[i].batch < |batches|
      modifies this
      ensures View() == Report(old(View()), j, payload, now)
      ensures IsReported(old(View()), View(), j, payload, now)
    {
      ghost var before := View();
      jobs := jobs[j := jobs[j].(status := payload.status)];
      var affected := AnswerCommands(j, payload, now);
      RefreshAffected(affected, now);
      ReportIs(before, j, payload, now);
    }

    method AnswerCommands(j: nat, payload: Payload, now: int) returns (affected: set<nat>)
      modifies this`commands
      ensures commands == WithAnswers(old(commands), j, payload, now) && affected == BatchesOfJob(old(commands), j)
    {
      var byPoint := IndexResults(if payload.status == J.Completed then payload.results else []);
      affected := {};
      for i := 0 to |commands|
        invariant |commands| == |old(commands)|
        invariant forall k | 0 <= k < |commands| ::
          commands[k] == (if k < i then WithAnswers(old(commands), j, payload, now)[k] else old(commands)[k])
        invariant affected == set k | 0 <= k < i && old(commands)[k].job == Some(j) :: old(commands)[k].batch
      {
        var c := commands[i];
        if c.job == Some(j) {
          affected := affected + {c.batch};
          c := c.(completedAt := Some(now));
          if c.point !in byPoint {
            c := c.(status := if payload.status == J.Deferred then CommandStatus.Deferred else CommandStatus.Failed);
          } else {
            var r := byPoint[c.point];
            c := c.(result := Some(r), status := if r.ok then Succeeded else CommandStatus.Failed);
          }
          commands := commands[i := c];
        }
      }
    }

    method ApproveBatch(b: nat, now: int) returns (ok: bool)
      requires b < |batches|
      modifies this
      ensures ok <==> old(batches)[b].status == BatchStatus.PendingApproval
      ensures View() == Approve(old(View()), b, now)
      ensures if ok then IsApproved(old(View()), View(), b, now) else View() == old(View())
    {
      ok := batches[b].status == BatchStatus.PendingApproval;
      if !ok {
        return;
      }
      batches := batches[b := batches[b].(status := BatchStatus.Queued, approvedAt := Some(now))];
      var first := |jobs|;
      var groups := GroupBy(CommandsOf(commands, b), DeviceOf(commands));
      for g := 0 to |groups|
        invariant jobs == old(jobs) + JobsFor(groups[..g])
        invariant batches == old(batches)[b := old(batches)[b].(status := BatchStatus.Queued, approvedAt := Some(now))]
        invariant commands == old(commands)
      {
        jobs := jobs + [WriteJob(J.Queued, groups[g].key, groups[g].items)];
      }
      assert groups[..|groups|] == groups;
      commands := WithJobs(commands, b, groups, first);
    }
  }

  method IndexResults(results: seq<PointResult>) returns (byPoint: map<string, PointResult>)
    ensures forall p: string :: FirstResult(results, p) == if p in byPoint then Some(byPoint[p]) else None
  {
    byPoint := map[];
    for i := 0 to |results|
      invariant forall p: string :: FirstResult(results[..i], p) == (if p in byPoint then Some(byPoint[p]) else None)
    {
      FirstResultSnoc(results[..i], results[i]);
      assert results[..i + 1] == results[..i] + [results[i]];
      if results[i].point !in byPoint {
        byPoint := byPoint[results[i].point := results[i]];
      }
    }
    assert results[..|results|] == results;
  }

  lemma {:induction false} FirstResultSnoc(results: seq<PointResult>, last: PointResult)
    ensures forall p: string :: (
      var before := FirstResult(results, p);
      FirstResult(results + [last], p) == if before.Some? then before else if last.point == p then Some(last) else None)
  {
    if results != [] {
      assert (results + [last])[1..] == results[1..] + [last];
      FirstResultSnoc(results[1..], last);
    } else {
      assert results + [last] == [last];
      assert [last][1..] == [];
    }
  }

  // ---- What holds in every run ----

  datatype Event =
    | Requested(writes: seq<Write>)
    | Approved(b: nat, now: int)
    | ClaimTried(j: nat, now: int)
    | ResultPosted(j: nat, payload: Payload, now: int)

  /** One endpoint call; a call for a row that does not exist, or an empty request, is refused. */
  function After(t: Tables, e: Event): Tables {
    match e
    case Requested(writes) => if writes == [] then t else Request(t, writes)
    case Approved(b, now) => if b < |t.batches| then Approve(t, b, now) else t
    case ClaimTried(j, now) => if j < |t.jobs| then Claim(t, j, now) else t
    case ResultPosted(j, payload, now) =>
      if j < |t.jobs| && payload.status.Reported() then Report(t, j, payload, now) else t
  }

  function Exec(t: Tables, events: seq<Event>): Tables
    decreases |events|
  {
    if events == [] then t else Exec(After(t, events[0]), events[1..])
  }

  /** A command's status follows its job's, and it has a job once its batch is approved. */
  ghost predicate CommandInStep(t: Tables, i: nat)
    requires i < |t.commands|
  {
    var c := t.commands[i];
    && c.batch < |t.batches|
    && match c.job
       case None => c.status == CommandStatus.PendingApproval && t.batches[c.batch].status == BatchStatus.PendingApproval
       case Some(j) =>
         && j < |t.jobs| && i in t.jobs[j].writes && t.jobs[j].device == c.device
         && t.batches[c.batch].status != BatchStatus.PendingApproval
         && (t.jobs[j].status == J.Queued ==> c.status == CommandStatus.Queued)
         && (t.jobs[j].status == J.Claimed ==> c.status == CommandStatus.Claimed)
         && (t.jobs[j].status.Reported() ==> c.status.Answered())
  }

  /** The derived status is what the commands say, and it is completed exactly when it is terminal. */
  ghost predicate BatchInStep(t: Tables, b: nat)
    requires b < |t.batches|
  {
    var batch := t.batches[b];
    && StatusesIn(t.commands, b) != {}
    && (batch.completedAt.Some? <==> batch.status.Terminal())
    && (batch.status != BatchStatus.PendingApproval ==> batch.status == BatchStatusOf(StatusesIn(t.commands, b)))
  }

  ghost predicate JobInStep(t: Tables, j: nat)
    requires j < |t.jobs|
  {
    forall i | i in t.jobs[j].writes :: i < |t.commands| && t.commands[i].job == Some(j)
  }

  ghost predicate Consistent(t: Tables) {
    && (forall i | 0 <= i < |t.commands| :: CommandInStep(t, i))
    && (forall b | 0 <= b < |t.batches| :: BatchInStep(t, b))
    && (forall j | 0 <= j < |t.jobs| :: JobInStep(t, j))
  }

  lemma StatusesUnchanged(before: seq<Command>, after: seq<Command>, b: nat)
    requires |before| <= |after|
    requires forall i | 0 <= i < |before| :: before[i].batch == after[i].batch
    requires forall i | 0 <= i < |before| && before[i].batch == b :: before[i].status == after[i].status
    requires forall i | |before| <= i < |after| :: after[i].batch != b
    ensures StatusesIn(before, b) == StatusesIn(after, b)
  {
    forall x | x in StatusesIn(before, b)
      ensures x in StatusesIn(after, b)
    {
      var i :| 0 <= i < |before| && before[i].batch == b && before[i].status == x;
      assert after[i].status == x;
    }
    forall x | x in StatusesIn(after, b)
      ensures x in StatusesIn(before, b)
    {
      var i :| 0 <= i < |after| && after[i].batch == b && after[i].status == x;
      assert before[i].status == x;
    }
  }

  /** Rewriting the commands of one claimed or reported job and refreshing its batches. */
  lemma RefreshInStep(t: Tables, j: nat, job: WriteJob, commands: seq<Command>, now: int)
    requires Consistent(t) && j < |t.jobs|
    requires job.writes == t.jobs[j].writes && job.device == t.jobs[j].device
    requires |commands| == |t.commands|
    requires forall i | 0 <= i < |commands| && t.commands[i].job != Some(j) :: commands[i] == t.commands[i]
    requires forall i | 0 <= i < |commands| :: (
      && commands[i].batch == t.commands[i].batch && commands[i].job == t.commands[i].job
      && commands[i].device == t.commands[i].device)
    requires forall i | 0 <= i < |commands| && t.commands[i].job == Some(j) :: (
      && (job.status == J.Queued ==> commands[i].status == CommandStatus.Queued)
      && (job.status == J.Claimed ==> commands[i].status == CommandStatus.Claimed)
      && (job.status.Reported() ==> commands[i].status.Answered()))
    ensures Consistent(RefreshAll(t.(jobs := t.jobs[j := job], commands := commands), BatchesOfJob(t.commands, j), now))
  {
    var affected := BatchesOfJob(t.commands, j);
    var t' := RefreshAll(t.(jobs := t.jobs[j := job], commands := commands), affected, now);
    forall b | 0 <= b < |t'.batches|
      ensures BatchInStep(t', b)
      ensures t'.batches[b].status == BatchStatus.PendingApproval <==> t.batches[b].status == BatchStatus.PendingApproval
    {
      assert BatchInStep(t, b);
      if b in affected {
        var i :| 0 <= i < |t.commands| && t.commands[i].job == Some(j) && t.commands[i].batch == b;
        assert CommandInStep(t, i);
        assert commands[i].status in StatusesIn(commands, b);
      } else {
        StatusesUnchanged(t.commands, commands, b);
      }
    }
    forall i | 0 <= i < |t'.commands|
      ensures CommandInStep(t', i)
    {
      assert CommandInStep(t, i);
    }
    forall k | 0 <= k < |t'.jobs|
      ensures JobInStep(t', k)
    {
      assert JobInStep(t, k);
    }
  }

  lemma ClaimInStep(t: Tables, j: nat, now: int)
    requires Consistent(t) && j < |t.jobs|
    ensures Consistent(Claim(t, j, now))
  {
    if t.jobs[j].status == J.Queued {
      forall i | 0 <= i < |t.commands| && t.commands[i].job == Some(j)
        ensures WithClaims(t.commands, j)[i].status == CommandStatus.Claimed
      {
        assert CommandInStep(t, i);
      }
      RefreshInStep(t, j, t.jobs[j].(status := J.Claimed), WithClaims(t.commands, j), now);
    }
  }

  lemma ReportInStep(t: Tables, j: nat, payload: Payload, now: int)
    requires Consistent(t) && j < |t.jobs| && payload.status.Reported()
    ensures Consistent(Report(t, j, payload, now))
  {
    RefreshInStep(t, j, t.jobs[j].(status := payload.status), WithAnswers(t.commands, j, payload, now), now);
  }

  lemma RequestInStep(t: Tables, writes: seq<Write>)
    requires Consistent(t) && writes != []
    ensures Consistent(Request(t, writes))
  {
    var t' := Request(t, writes);
    var n := |t.batches|;
    forall i | 0 <= i < |t'.commands|
      ensures CommandInStep(t', i)
    {
      assert i < |t.commands| ==> CommandInStep(t, i);
    }
    forall b | 0 <= b < |t'.batches|
      ensures BatchInStep(t', b)
    {
      if b < n {
        assert BatchInStep(t, b);
        assert forall i | 0 <= i < |t.commands| :: CommandInStep(t, i);
        StatusesUnchanged(t.commands, t'.commands, b);
      } else {
        assert t'.commands[|t.commands|].status in StatusesIn(t'.commands, n);
      }
    }
    forall k | 0 <= k < |t'.jobs|
      ensures JobInStep(t', k)
    {
      assert JobInStep(t, k);
    }
  }

  // ---- Approval ----

  lemma {:induction false} CommandsOfMember(commands: seq<Command>, b: nat)
    ensures forall i: nat :: i in CommandsOf(commands, b) <==> i < |commands| && commands[i].batch == b
  {
    if commands != [] {
      var n := |commands| - 1;
      CommandsOfMember(commands[..n], b);
      assert forall i: nat :: i in CommandsOf(commands, b) <==> i in CommandsOf(commands[..n], b) || (i == n && commands[n].batch == b);
    }
  }

  lemma {:induction false} GroupIndexFinds(groups: seq<Group<nat>>, device: int, g: nat)
    requires g < |groups| && groups[g].key == device
    requires forall a, b | 0 <= a < b < |groups| :: groups[a].key != groups[b].key
    ensures GroupIndex(groups, device) == g
  {
    if g > 0 {
      GroupIndexFinds(groups[1..], device, g - 1);
    }
  }

  /** Every command of the batch goes to the one new job of its device. */
  lemma ApprovedCommand(t: Tables, b: nat, now: int, i: nat)
    requires Consistent(t) && b < |t.batches| && t.batches[b].status == BatchStatus.PendingApproval
    requires i < |t.commands| && t.commands[i].batch == b
    ensures var t' := Approve(t, b, now); var j := t'.commands[i].job;
      && j.Some? && |t.jobs| <= j.value < |t'.jobs|
      && i in t'.jobs[j.value].writes && t'.jobs[j.value].device == t.commands[i].device
      && t'.jobs[j.value].status == J.Queued && t'.commands[i].status == CommandStatus.Queued
  {
    var ids, key := CommandsOf(t.commands, b), DeviceOf(t.commands);
    var groups := Grouped(ids, key);
    CommandsOfMember(t.commands, b);
    FirstKeysComplete(ids, key);
    assert i in ids && key(i) in FirstKeys(ids, key);
    var g :| 0 <= g < |groups| && FirstKeys(ids, key)[g] == key(i);
    FirstKeysDistinct(ids, key);
    GroupIndexFinds(groups, key(i), g);
    WithKeyMember(ids, key, key(i));
    assert i in groups[g].items;
    assert Approve(t, b, now).jobs[|t.jobs| + g] == JobsFor(groups)[g];
  }

  /** A new job's writes are commands of the batch on its device, and no other job has them. */
  lemma ApprovedJob(t: Tables, b: nat, now: int, j: nat, i: nat)
    requires Consistent(t) && b < |t.batches| && t.batches[b].status == BatchStatus.PendingApproval
    requires |t.jobs| <= j < |Approve(t, b, now).jobs| && i in Approve(t, b, now).jobs[j].writes
    ensures i < |t.commands| && t.commands[i].batch == b && t.commands[i].device == Approve(t, b, now).jobs[j].device
    ensures Approve(t, b, now).commands[i].job == Some(j)
  {
    var ids, key := CommandsOf(t.commands, b), DeviceOf(t.commands);
    var groups := Grouped(ids, key);
    var g := j - |t.jobs|;
    assert Approve(t, b, now).jobs[j] == JobsFor(groups)[g];
    WithKeyMember(ids, key, groups[g].key);
    assert i in WithKey(ids, key, groups[g].key);
    assert i in ids;
    CommandsOfMember(t.commands, b);
    FirstKeysDistinct(ids, key);
    GroupIndexFinds(groups, key(i), g);
  }

  lemma ApproveInStep(t: Tables, b: nat, now: int)
    requires Consistent(t) && b < |t.batches|
    ensures Consistent(Approve(t, b, now))
  {
    if t.batches[b].status == BatchStatus.PendingApproval {
      var t' := Approve(t, b, now);
      forall i | 0 <= i < |t'.commands|
        ensures CommandInStep(t', i)
      {
        assert CommandInStep(t, i);
        if t.commands[i].batch == b {
          ApprovedCommand(t, b, now, i);
        }
      }
      forall j | 0 <= j < |t'.jobs|
        ensures JobInStep(t', j)
      {
        forall i | i in t'.jobs[j].writes
          ensures i < |t'.commands| && t'.commands[i].job == Some(j)
        {
          if j < |t.jobs| {
            assert JobInStep(t, j) && CommandInStep(t, i);
          } else {
            ApprovedJob(t, b, now, j, i);
          }
        }
      }
      ApprovedBatches(t, b, now);
    }
  }

  lemma ApprovedBatches(t: Tables, b: nat, now: int)
    requires Consistent(t) && b < |t.batches| && t.batches[b].status == BatchStatus.PendingApproval
    ensures var t' := Approve(t, b, now); forall k | 0 <= k < |t'.batches| :: BatchInStep(t', k)
  {
    var t' := Approve(t, b, now);
    forall k | 0 <= k < |t'.batches|
      ensures BatchInStep(t', k)
    {
      assert BatchInStep(t, k);
      if k == b {
        var x :| x in StatusesIn(t.commands, b);
        var i :| 0 <= i < |t.commands| && t.commands[i].batch == b && t.commands[i].status == x;
        assert t'.commands[i].status in StatusesIn(t'.commands, b);
        assert StatusesIn(t'.commands, b) == {CommandStatus.Queued};
      } else {
        StatusesUnchanged(t.commands, t'.commands, k);
      }
    }
  }

  // ---- Main results ----

  lemma ConsistentStep(t: Tables, e: Event)
    requires Consistent(t)
    ensures Consistent(After(t, e))
  {
    match e
    case Requested(writes) => if writes != [] { RequestInStep(t, writes); }
    case Approved(b, now) => if b < |t.batches| { ApproveInStep(t, b, now); }
    case ClaimTried(j, now) => if j < |t.jobs| { ClaimInStep(t, j, now); }
    case ResultPosted(j, payload, now) =>
      if j < |t.jobs| && payload.status.Reported() { ReportInStep(t, j, payload, now); }
  }

  /** What a batch in step shows, in the fields of its commands. */
  lemma InStepTells(t: Tables, b: nat)
    requires Consistent(t) && b < |t.batches| && t.batches[b].status != BatchStatus.PendingApproval
    ensures Tells(t.batches[b].status, t.commands, b)
    ensures t.batches[b].completedAt == None <==> SomeOpen(t.commands, b)
  {
    assert BatchInStep(t, b);
    RefreshTells(t.commands, b);
  }

  /** In every run, every derived batch status is in step with its commands and their jobs. */
  lemma {:induction false} ConsistentExec(t: Tables, events: seq<Event>)
    requires Consistent(t)
    ensures Consistent(Exec(t, events))
    decreases |events|
  {
    if events != [] {
      ConsistentStep(t, events[0]);
      ConsistentExec(After(t, events[0]), events[1..]);
    }
  }

  /** Approval splits the commands into one job per device, with none lost or duplicated. */
  lemma ApprovalPartitions(t: Tables, b: nat, now: int)
    requires b < |t.batches| && t.batches[b].status == BatchStatus.PendingApproval
    ensures var groups := Grouped(CommandsOf(t.commands, b), DeviceOf(t.commands));
      && Approve(t, b, now).jobs == t.jobs + JobsFor(groups)
      && multiset(Flatten(groups)) == multiset(CommandsOf(t.commands, b))
      && forall g, h | 0 <= g < h < |groups| :: groups[g].key != groups[h].key
  {
    GroupsPartition(CommandsOf(t.commands, b), DeviceOf(t.commands));
    FirstKeysDistinct(CommandsOf(t.commands, b), DeviceOf(t.commands));
  }

  predicate JobReported(t: Tables, job: Option<nat>) {
    job.Some? && job.value < |t.jobs| && t.jobs[job.value].status.Reported()
  }

  /** An approved batch is terminal exactly when every job made from it has reported. */
  lemma TerminalIffAllJobsReported(t: Tables, b: nat)
    requires Consistent(t) && b < |t.batches| && t.batches[b].status != BatchStatus.PendingApproval
    ensures t.batches[b].status.Terminal() <==>
      forall i | 0 <= i < |t.commands| && t.commands[i].batch == b :: JobReported(t, t.commands[i].job)
  {
    var statuses := StatusesIn(t.commands, b);
    assert BatchInStep(t, b);
    forall i | 0 <= i < |t.commands| && t.commands[i].batch == b
      ensures CommandInStep(t, i) && t.commands[i].status in statuses
    {
      assert CommandInStep(t, i);
    }
    if !t.batches[b].status.Terminal() {
      var x :| x in statuses && (x == CommandStatus.Queued || x == CommandStatus.Claimed);
      var i :| 0 <= i < |t.commands| && t.commands[i].batch == b && t.commands[i].status == x;
      assert CommandInStep(t, i);
    }
  }

  lemma TerminalStep(t: Tables, e: Event, b: nat)
    requires Consistent(t) && b < |t.batches| && t.batches[b].status.Terminal()
    ensures b < |After(t, e).batches| && After(t, e).batches[b].status.Terminal()
  {
    var t' := After(t, e);
    ConsistentStep(t, e);
    TerminalIffAllJobsReported(t, b);
    assert t'.batches[b].status != BatchStatus.PendingApproval;
    forall i | 0 <= i < |t'.commands| && t'.commands[i].batch == b
      ensures JobReported(t', t'.commands[i].job)
    {
      assert i < |t.commands| && t.commands[i].batch == b;
    }
    TerminalIffAllJobsReported(t', b);
  }

  /** A terminal batch never becomes non-terminal. */
  lemma {:induction false} TerminalIsFinal(t: Tables, events: seq<Event>, b: nat)
    requires Consistent(t) && b < |t.batches| && t.batches[b].status.Terminal()
    ensures b < |Exec(t, events).batches| && Exec(t, events).batches[b].status.Terminal()
    decreases |events|
  {
    if events != [] {
      TerminalStep(t, events[0], b);
      ConsistentStep(t, events[0]);
      TerminalIsFinal(After(t, events[0]), events[1..], b);
    }
  }

  /** Two result posts that overlap under read-committed isolation: each refreshes the batches
      from its own answers and the other job's commands as they were before. */
  function Overlapped(t: Tables, j: nat, p: Payload, k: nat, q: Payload, now: int): Tables
    requires j < |t.jobs| && k < |t.jobs|
  {
    var first := Report(t, j, p, now);
    var second := Report(t.(batches := first.batches, jobs := first.jobs), k, q, now);
    second.(commands := WithAnswers(first.commands, k, q, now))
  }

  predicate BothJobsClaimed(t: Tables, j: nat, k: nat, b: nat) {
    && j < |t.jobs| && k < |t.jobs| && j != k && b < |t.batches|
    && t.jobs[j].status == J.Claimed && t.jobs[k].status == J.Claimed
    && b in BatchesOfJob(t.commands, j) && b in BatchesOfJob(t.commands, k)
  }

  /** After the overlap the batch has the status that only the second of the two saw. */
  lemma OverlappedBatch(t: Tables, j: nat, p: Payload, k: nat, q: Payload, now: int, b: nat)
    requires Consistent(t) && BothJobsClaimed(t, j, k, b)
    ensures var t' := Overlapped(t, j, p, k, q, now);
      && b < |t'.batches| && t'.batches[b].status == BatchStatus.Claimed && t'.batches[b].completedAt == None
      && t'.jobs == t.jobs[j := t.jobs[j].(status := p.status)][k := t.jobs[k].(status := q.status)]
      && |t'.commands| == |t.commands|
  {
    var seen := WithAnswers(t.commands, k, q, now);
    var i :| 0 <= i < |t.commands| && t.commands[i].job == Some(j) && t.commands[i].batch == b;
    assert CommandInStep(t, i);
    assert seen[i].status == CommandStatus.Claimed;
    assert CommandStatus.Claimed in StatusesIn(seen, b);
  }

  lemma OverlappedCommand(t: Tables, j: nat, p: Payload, k: nat, q: Payload, now: int, i: nat)
    requires j < |t.jobs| && k < |t.jobs| && i < |t.commands|
    ensures var t', c := Overlapped(t, j, p, k, q, now), t.commands[i];
      && |t'.commands| == |t.commands| && t'.commands[i].batch == c.batch && t'.commands[i].job == c.job
      && if c.job == Some(j) || c.job == Some(k) then t'.commands[i].status.Answered() else t'.commands[i] == c
  {
  }

  /** A command of the batch that is neither in job `j` nor in job `k`. */
  predicate IsFurther(t: Tables, j: nat, k: nat, b: nat, i: nat) {
    i < |t.commands| && t.commands[i].batch == b && t.commands[i].job != Some(j) && t.commands[i].job != Some(k)
  }

  /** Why the endpoints have to be atomic: the overlap leaves the batch out of step exactly if no
      further command of it is claimed. */
  lemma OverlapIsOutOfStepExactly(t: Tables, j: nat, p: Payload, k: nat, q: Payload, now: int, b: nat)
    requires Consistent(t) && BothJobsClaimed(t, j, k, b) && p.status.Reported() && q.status.Reported()
    ensures b < |Overlapped(t, j, p, k, q, now).batches|
    ensures BatchInStep(Overlapped(t, j, p, k, q, now), b) <==>
      exists i: nat :: IsFurther(t, j, k, b, i) && t.commands[i].status == CommandStatus.Claimed
  {
    var t' := Overlapped(t, j, p, k, q, now);
    OverlappedBatch(t, j, p, k, q, now, b);
    var statuses := StatusesIn(t'.commands, b);
    if CommandStatus.Claimed in statuses {
      var i :| 0 <= i < |t'.commands| && t'.commands[i].batch == b && t'.commands[i].status == CommandStatus.Claimed;
      OverlappedCommand(t, j, p, k, q, now, i);
      assert IsFurther(t, j, k, b, i);
    }
    if i: nat :| IsFurther(t, j, k, b, i) && t.commands[i].status == CommandStatus.Claimed {
      OverlappedCommand(t, j, p, k, q, now, i);
      assert t'.commands[i].status in statuses;
    }
  }

  /** Every job of the batch has reported, and yet the batch is open. */
  ghost predicate LeftOpen(t: Tables, b: nat) {
    && b < |t.batches| && t.batches[b].status == BatchStatus.Claimed && t.batches[b].completedAt == None
    && StatusesIn(t.commands, b) != {}
    && forall i | 0 <= i < |t.commands| && t.commands[i].batch == b :: IsDone(t, i)
  }

  predicate IsDone(t: Tables, i: nat)
    requires i < |t.commands|
  {
    JobReported(t, t.commands[i].job) && t.commands[i].status.Answered()
  }

  lemma DoneAfterOverlap(t: Tables, j: nat, p: Payload, k: nat, q: Payload, now: int, b: nat, i: nat)
    requires Consistent(t) && BothJobsClaimed(t, j, k, b) && p.status.Reported() && q.status.Reported()
    requires i < |t.commands| && t.commands[i].batch == b
    ensures i < |Overlapped(t, j, p, k, q, now).commands|
    ensures IsDone(Overlapped(t, j, p, k, q, now), i) <==> (IsFurther(t, j, k, b, i) ==> JobReported(t, t.commands[i].job))
  {
    OverlappedBatch(t, j, p, k, q, now, b);
    OverlappedCommand(t, j, p, k, q, now, i);
    assert CommandInStep(t, i);
  }

  /** The overlap leaves the batch open exactly if the two were its last jobs to report. */
  lemma OverlapLeavesOpenExactly(t: Tables, j: nat, p: Payload, k: nat, q: Payload, now: int, b: nat)
    requires Consistent(t) && BothJobsClaimed(t, j, k, b) && p.status.Reported() && q.status.Reported()
    ensures LeftOpen(Overlapped(t, j, p, k, q, now), b) <==>
      forall i: nat | IsFurther(t, j, k, b, i) :: JobReported(t, t.commands[i].job)
  {
    var t' := Overlapped(t, j, p, k, q, now);
    OverlappedBatch(t, j, p, k, q, now, b);
    forall i | 0 <= i < |t.commands|
      ensures t'.commands[i].batch == t.commands[i].batch
      ensures t.commands[i].batch == b ==> (IsDone(t', i) <==> (IsFurther(t, j, k, b, i) ==> JobReported(t, t.commands[i].job)))
    {
      OverlappedCommand(t, j, p, k, q, now, i);
      if t.commands[i].batch == b {
        DoneAfterOverlap(t, j, p, k, q, now, b, i);
      }
    }
    var w :| 0 <= w < |t.commands| && t.commands[w].job == Some(j) && t.commands[w].batch == b;
    assert t'.commands[w].status in StatusesIn(t'.commands, b);
  }

  predicate ReportsAgain(t: Tables, e: Event, b: nat) {
    e.ResultPosted? && e.j < |t.jobs| && e.payload.status.Reported() && b in BatchesOfJob(t.commands, e.j)
  }

  /** The batch closes exactly when one of its jobs reports a second time. */
  lemma LeftOpenStep(t: Tables, e: Event, b: nat)
    requires LeftOpen(t, b)
    ensures b < |After(t, e).batches|
    ensures LeftOpen(After(t, e), b) <==> !ReportsAgain(t, e, b)
    ensures ReportsAgain(t, e, b) ==> After(t, e).batches[b].status.Terminal()
    ensures forall j :: b in BatchesOfJob(After(t, e).commands, j) <==> b in BatchesOfJob(t.commands, j)
  {
    var t' := After(t, e);
    assert |t.commands| <= |t'.commands|;
    assert forall i | |t.commands| <= i < |t'.commands| :: t'.commands[i].batch == |t.batches| != b;
    forall i | 0 <= i < |t.commands|
      ensures t'.commands[i].batch == t.commands[i].batch
      ensures t.commands[i].batch == b ==> t'.commands[i].job == t.commands[i].job
      ensures t.commands[i].batch == b && !ReportsAgain(t, e, b) ==> t'.commands[i] == t.commands[i]
    {
      if e.ResultPosted? && t.commands[i].batch == b && t.commands[i].job == Some(e.j) {
        assert b in BatchesOfJob(t.commands, e.j);
      }
    }
    LeftOpenCommands(t, t', e, b);
  }

  ghost predicate SameLinks(before: seq<Command>, after: seq<Command>, b: nat) {
    && |before| <= |after|
    && (forall i | 0 <= i < |before| :: after[i].batch == before[i].batch)
    && (forall i | 0 <= i < |before| && before[i].batch == b :: after[i].job == before[i].job)
    && forall i | |before| <= i < |after| :: after[i].batch != b
  }

  lemma LinksKeepBatch(before: seq<Command>, after: seq<Command>, b: nat)
    requires SameLinks(before, after, b) && StatusesIn(before, b) != {}
    ensures StatusesIn(after, b) != {}
    ensures forall j :: b in BatchesOfJob(after, j) <==> b in BatchesOfJob(before, j)
  {
    var x :| x in StatusesIn(before, b);
    var i :| 0 <= i < |before| && before[i].batch == b && before[i].status == x;
    assert after[i].status in StatusesIn(after, b);
    forall j: nat | b in BatchesOfJob(before, j)
      ensures b in BatchesOfJob(after, j)
    {
      var i :| 0 <= i < |before| && before[i].job == Some(j) && before[i].batch == b;
      assert after[i].job == Some(j) && after[i].batch == b;
    }
    forall j: nat | b in BatchesOfJob(after, j)
      ensures b in BatchesOfJob(before, j)
    {
      var i :| 0 <= i < |after| && after[i].job == Some(j) && after[i].batch == b;
      assert before[i].job == Some(j) && before[i].batch == b;
    }
  }

  lemma LeftOpenCommands(t: Tables, t': Tables, e: Event, b: nat)
    requires LeftOpen(t, b) && t' == After(t, e) && SameLinks(t.commands, t'.commands, b)
    requires !ReportsAgain(t, e, b) ==> forall i | 0 <= i < |t.commands| && t.commands[i].batch == b :: t'.commands[i] == t.commands[i]
    ensures b < |t'.batches|
    ensures LeftOpen(t', b) <==> !ReportsAgain(t, e, b)
    ensures ReportsAgain(t, e, b) ==> t'.batches[b].status.Terminal()
    ensures forall j :: b in BatchesOfJob(t'.commands, j) <==> b in BatchesOfJob(t.commands, j)
  {
    LinksKeepBatch(t.commands, t'.commands, b);
    if ReportsAgain(t, e, b) {
      assert forall x | x in StatusesIn(t'.commands, b) :: x.Answered();
    } else {
      NotRefreshed(t, e, b);
    }
  }

  /** A claim never finds a job of a batch left open. */
  lemma NotRefreshed(t: Tables, e: Event, b: nat)
    requires LeftOpen(t, b) && !ReportsAgain(t, e, b)
    ensures b < |After(t, e).batches| && After(t, e).batches[b] == t.batches[b]
    ensures |After(t, e).jobs| >= |t.jobs|
    ensures forall j | 0 <= j < |t.jobs| && t.jobs[j].status.Reported() :: After(t, e).jobs[j].status.Reported()
  {
    if e.ClaimTried? && e.j < |t.jobs| && t.jobs[e.j].status == J.Queued {
      assert b !in BatchesOfJob(t.commands, e.j);
    }
  }

  /** A batch left open stays open for good, whatever else happens, as long as no job of it reports
      a second time. */
  lemma {:induction false} LeftOpenForGood(t: Tables, events: seq<Event>, b: nat)
    requires LeftOpen(t, b)
    requires forall n | 0 <= n < |events| && events[n].ResultPosted? :: b !in BatchesOfJob(t.commands, events[n].j)
    ensures LeftOpen(Exec(t, events), b)
    decreases |events|
  {
    if events != [] {
      LeftOpenStep(t, events[0], b);
      LeftOpenForGood(After(t, events[0]), events[1..], b);
    }
  }

  const EMPTY := Tables([], [], [])

  /** Two commands of batch 0, each with its own job. */
  ghost predicate TwoCommands(t: Tables, j: nat, k: nat) {
    && Consistent(t) && |t.batches| == 1 && |t.commands| == 2 && j < |t.jobs| && k < |t.jobs| && j != k
    && t.commands[0].batch == 0 && t.commands[0].job == Some(j)
    && t.commands[1].batch == 0 && t.commands[1].job == Some(k)
  }

  lemma TwoApproved(writes: seq<Write>) returns (t: Tables, j: nat, k: nat)
    requires writes == [Write("a", 0), Write("b", 1)]
    ensures t == After(After(EMPTY, Requested(writes)), Approved(0, 0)) && TwoCommands(t, j, k)
    ensures t.jobs[j].status == t.jobs[k].status == J.Queued
  {
    var requested := Request(EMPTY, writes);
    t := Approve(requested, 0, 0);
    ConsistentStep(EMPTY, Requested(writes));
    ConsistentStep(requested, Approved(0, 0));
    ApprovedCommand(requested, 0, 0, 0);
    ApprovedCommand(requested, 0, 0, 1);
    j, k := t.commands[0].job.value, t.commands[1].job.value;
  }

  lemma ClaimedOfTwo(t: Tables, j: nat, k: nat, job: nat) returns (t': Tables)
    requires TwoCommands(t, j, k) && job < |t.jobs| && t.jobs[job].status == J.Queued
    ensures t' == After(t, ClaimTried(job, 0)) && TwoCommands(t', j, k)
    ensures |t'.jobs| == |t.jobs| && t'.jobs[job].status == J.Claimed
    ensures forall i | 0 <= i < |t.jobs| && i != job :: t'.jobs[i] == t.jobs[i]
  {
    t' := Claim(t, job, 0);
    ConsistentStep(t, ClaimTried(job, 0));
  }

  lemma TwoClaimed(t: Tables, j: nat, k: nat)
    requires TwoCommands(t, j, k) && t.jobs[j].status == t.jobs[k].status == J.Claimed
    ensures BothJobsClaimed(t, j, k, 0) && forall i: nat :: !IsFurther(t, j, k, 0, i)
  {
  }

  /** Two writes on two devices, approved and claimed, are such a batch. */
  lemma OverlapIsReachable() returns (events: seq<Event>, j: nat, k: nat)
    ensures var t := Exec(EMPTY, events);
      && Consistent(t) && BothJobsClaimed(t, j, k, 0)
      && forall i: nat :: !IsFurther(t, j, k, 0, i)
  {
    var writes := [Write("a", 0), Write("b", 1)];
    var t;
    t, j, k := TwoApproved(writes);
    t := ClaimedOfTwo(t, j, k, j);
    t := ClaimedOfTwo(t, j, k, k);
    TwoClaimed(t, j, k);
    events := [Requested(writes), Approved(0, 0), ClaimTried(j, 0), ClaimTried(k, 0)];
    ExecFour(EMPTY, events[0], events[1], events[2], events[3]);
  }

  lemma ExecFour(t: Tables, a: Event, b: Event, c: Event, d: Event)
    ensures Exec(t, [a, b, c, d]) == After(After(After(After(t, a), b), c), d)
  {
    assert [a, b, c, d][1..] == [b, c, d] && [b, c, d][1..] == [c, d] && [c, d][1..] == [d] && [d][1..] == [];
    assert Exec(After(After(After(t, a), b), c), [d]) == After(After(After(After(t, a), b), c), d);
    assert Exec(After(After(t, a), b), [c, d]) == Exec(After(After(After(t, a), b), c), [d]);
  }

  /** So there is a run after which two overlapping results leave a batch out of step and open for
      good, although every job of it has reported. */
  lemma OverlappingReportsLeaveBatchOpen(p: Payload, q: Payload, now: int) returns (events: seq<Event>, j: nat, k: nat)
    requires p.status.Reported() && q.status.Reported()
    ensures var t := Exec(EMPTY, events);
      && BothJobsClaimed(t, j, k, 0)
      && !BatchInStep(Overlapped(t, j, p, k, q, now), 0) && LeftOpen(Overlapped(t, j, p, k, q, now), 0)
  {
    events, j, k := OverlapIsReachable();
    var t := Exec(EMPTY, events);
    OverlapIsOutOfStepExactly(t, j, p, k, q, now, 0);
    OverlapLeavesOpenExactly(t, j, p, k, q, now, 0);
  }

  // ---- A result that overlaps a claim ----

  /** What two transactions that both started from `old` leave of a batch: each writes the columns that
      it changed, the second over the first. */
  function Merged(base: Batch, first: Batch, second: Batch): Batch {
    Batch(if second.status != base.status then second.status else first.status,
          if second.approvedAt != base.approvedAt then second.approvedAt else first.approvedAt,
          if second.completedAt != base.completedAt then second.completedAt else first.completedAt)
  }

  /** The result of job `j` overlaps the claim of job `k`: neither sees the other's commands change. */
  function OverlappedClaim(t: Tables, j: nat, p: Payload, k: nat, now: int, resultFirst: bool): Tables
    requires j < |t.jobs| && k < |t.jobs|
  {
    var result, claim := Report(t, j, p, now), Claim(t, k, now);
    Tables(seq(|t.batches|, b requires 0 <= b < |t.batches| =>
             if resultFirst then Merged(t.batches[b], result.batches[b], claim.batches[b])
             else Merged(t.batches[b], claim.batches[b], result.batches[b])),
           WithClaims(result.commands, k),
           result.jobs[k := result.jobs[k].(status := if t.jobs[k].status == J.Queued then J.Claimed else t.jobs[k].status)])
  }

  predicate ClaimedAndQueued(t: Tables, j: nat, k: nat, b: nat) {
    && j < |t.jobs| && k < |t.jobs| && j != k && b < |t.batches|
    && t.jobs[j].status == J.Claimed && t.jobs[k].status == J.Queued
    && b in BatchesOfJob(t.commands, j) && b in BatchesOfJob(t.commands, k)
  }

  ghost predicate FurtherClaimed(t: Tables, j: nat, k: nat, b: nat) {
    exists i: nat :: IsFurther(t, j, k, b, i) && t.commands[i].status == CommandStatus.Claimed
  }

  /** Each sees the other job as it was: the claim a claimed command, and the result a queued one. */
  lemma SeenByEach(t: Tables, j: nat, p: Payload, k: nat, b: nat, now: int)
    requires Consistent(t) && ClaimedAndQueued(t, j, k, b) && p.status.Reported()
    ensures t.batches[b].status == BatchStatus.Claimed && t.batches[b].completedAt == None
    ensures CommandStatus.Claimed in StatusesIn(WithClaims(t.commands, k), b)
    ensures CommandStatus.Queued in StatusesIn(WithAnswers(t.commands, j, p, now), b)
    ensures CommandStatus.Claimed in StatusesIn(WithAnswers(t.commands, j, p, now), b) <==> FurtherClaimed(t, j, k, b)
  {
    var x :| 0 <= x < |t.commands| && t.commands[x].job == Some(j) && t.commands[x].batch == b;
    var y :| 0 <= y < |t.commands| && t.commands[y].job == Some(k) && t.commands[y].batch == b;
    assert CommandInStep(t, x) && CommandInStep(t, y) && BatchInStep(t, b);
    assert t.commands[x].status in StatusesIn(t.commands, b);
    assert WithClaims(t.commands, k)[x].status in StatusesIn(WithClaims(t.commands, k), b);
    var seen := WithAnswers(t.commands, j, p, now);
    assert seen[y].status in StatusesIn(seen, b);
    if CommandStatus.Claimed in StatusesIn(seen, b) {
      var i :| 0 <= i < |seen| && seen[i].batch == b && seen[i].status == CommandStatus.Claimed;
      assert CommandInStep(t, i);
      assert IsFurther(t, j, k, b, i);
    }
    if i: nat :| IsFurther(t, j, k, b, i) && t.commands[i].status == CommandStatus.Claimed {
      assert seen[i].status in StatusesIn(seen, b);
    }
  }

  /** In either order the batch gets the status that the result saw. */
  lemma ClaimOverlapBatch(t: Tables, j: nat, p: Payload, k: nat, b: nat, now: int, resultFirst: bool)
    requires Consistent(t) && ClaimedAndQueued(t, j, k, b) && p.status.Reported()
    ensures var batch := OverlappedClaim(t, j, p, k, now, resultFirst).batches[b];
      && batch.completedAt == None
      && batch.status == if FurtherClaimed(t, j, k, b) then BatchStatus.Claimed else BatchStatus.Queued
  {
    SeenByEach(t, j, p, k, b, now);
  }

  /** The overlap leaves the batch out of step, queued while a command is claimed, exactly if no further
      command of it is claimed. */
  lemma ClaimOverlapIsOutOfStepExactly(t: Tables, j: nat, p: Payload, k: nat, b: nat, now: int, resultFirst: bool)
    requires Consistent(t) && ClaimedAndQueued(t, j, k, b) && p.status.Reported()
    ensures BatchInStep(OverlappedClaim(t, j, p, k, now, resultFirst), b) <==> FurtherClaimed(t, j, k, b)
  {
    ClaimOverlapBatch(t, j, p, k, b, now, resultFirst);
    var t' := OverlappedClaim(t, j, p, k, now, resultFirst);
    var y :| 0 <= y < |t.commands| && t.commands[y].job == Some(k) && t.commands[y].batch == b;
    assert CommandInStep(t, y);
    assert t'.commands[y].status in StatusesIn(t'.commands, b);
  }

  /** The next result or claim of a job of the batch puts it right, first of all that of `k`. */
  lemma RefreshRepairs(t: Tables, j: nat, p: Payload, b: nat, now: int)
    requires j < |t.jobs| && b < |t.batches| && b in BatchesOfJob(t.commands, j)
    ensures BatchInStep(Report(t, j, p, now), b)
    ensures t.jobs[j].status == J.Queued ==> BatchInStep(Claim(t, j, now), b)
  {
    var i :| 0 <= i < |t.commands| && t.commands[i].job == Some(j) && t.commands[i].batch == b;
    assert WithAnswers(t.commands, j, p, now)[i].status in StatusesIn(WithAnswers(t.commands, j, p, now), b);
    assert WithClaims(t.commands, j)[i].status in StatusesIn(WithClaims(t.commands, j), b);
  }

  lemma ClaimOverlapIsRepaired(t: Tables, j: nat, p: Payload, k: nat, b: nat, now: int, resultFirst: bool, q: Payload, later: int)
    requires Consistent(t) && ClaimedAndQueued(t, j, k, b)
    ensures BatchInStep(Report(OverlappedClaim(t, j, p, k, now, resultFirst), k, q, later), b)
  {
    var t' := OverlappedClaim(t, j, p, k, now, resultFirst);
    var y :| 0 <= y < |t.commands| && t.commands[y].job == Some(k) && t.commands[y].batch == b;
    assert t'.commands[y].job == Some(k) && t'.commands[y].batch == b;
    RefreshRepairs(t', k, q, b, later);
  }

  lemma ExecThree(t: Tables, a: Event, b: Event, c: Event)
    ensures Exec(t, [a, b, c]) == After(After(After(t, a), b), c)
  {
    assert [a, b, c][1..] == [b, c] && [b, c][1..] == [c] && [c][1..] == [];
    assert Exec(After(After(t, a), b), [c]) == After(After(After(t, a), b), c);
  }

  /** There is a run after which a result that overlaps a claim leaves its batch queued while a command
      is claimed. */
  lemma OverlappingClaimLeavesBatchQueued(p: Payload, now: int, resultFirst: bool) returns (events: seq<Event>, j: nat, k: nat)
    requires p.status.Reported()
    ensures var t := Exec(EMPTY, events);
      && ClaimedAndQueued(t, j, k, 0)
      && !BatchInStep(OverlappedClaim(t, j, p, k, now, resultFirst), 0)
      && OverlappedClaim(t, j, p, k, now, resultFirst).batches[0].status == BatchStatus.Queued
  {
    var writes := [Write("a", 0), Write("b", 1)];
    var t;
    t, j, k := TwoApproved(writes);
    t := ClaimedOfTwo(t, j, k, j);
    assert ClaimedAndQueued(t, j, k, 0) && !FurtherClaimed(t, j, k, 0);
    events := [Requested(writes), Approved(0, 0), ClaimTried(j, 0)];
    ExecThree(EMPTY, events[0], events[1], events[2]);
    ClaimOverlapBatch(t, j, p, k, 0, now, resultFirst);
    ClaimOverlapIsOutOfStepExactly(t, j, p, k, 0, now, resultFirst);
  }

  lemma SeenByClaims(t: Tables, j: nat, k: nat, b: nat)
    requires Consistent(t) && j < |t.jobs| && k < |t.jobs| && b < |t.batches|
    requires t.jobs[j].status == t.jobs[k].status == J.Queued
    requires b in BatchesOfJob(t.commands, j) && b in BatchesOfJob(t.commands, k)
    ensures CommandStatus.Claimed in StatusesIn(WithClaims(t.commands, j), b)
    ensures CommandStatus.Claimed in StatusesIn(WithClaims(t.commands, k), b)
    ensures CommandStatus.Claimed in StatusesIn(WithClaims(WithClaims(t.commands, j), k), b)
    ensures t.batches[b].completedAt == None
  {
    var x :| 0 <= x < |t.commands| && t.commands[x].job == Some(j) && t.commands[x].batch == b;
    var y :| 0 <= y < |t.commands| && t.commands[y].job == Some(k) && t.commands[y].batch == b;
    assert CommandInStep(t, x) && CommandInStep(t, y) && BatchInStep(t, b);
    var one, two, both := WithClaims(t.commands, j), WithClaims(t.commands, k), WithClaims(WithClaims(t.commands, j), k);
    assert t.commands[x].status in StatusesIn(t.commands, b);
    assert one[x].status in StatusesIn(one, b) && two[y].status in StatusesIn(two, b) && both[x].status in StatusesIn(both, b);
  }

  /** Two claims that overlap leave the batch in step. */
  lemma ClaimsDoNotInterfere(t: Tables, j: nat, k: nat, b: nat, now: int)
    requires Consistent(t) && j < |t.jobs| && k < |t.jobs| && j != k && b < |t.batches|
    requires t.jobs[j].status == t.jobs[k].status == J.Queued
    requires b in BatchesOfJob(t.commands, j) && b in BatchesOfJob(t.commands, k)
    ensures var first, second := Claim(t, j, now), Claim(t, k, now);
      BatchInStep(Tables(t.batches[b := Merged(t.batches[b], first.batches[b], second.batches[b])],
                         WithClaims(WithClaims(t.commands, j), k), first.jobs[k := second.jobs[k]]), b)
  {
    SeenByClaims(t, j, k, b);
  }
}
