/** The cloud's job table, the polling workers that race on it, and the edge agents that
    run what they claim (`_claim_next_job_once`, `receive_job_result`, `process_next_job`).

    `JobTable` is the table with the operations of one database pass. `System` interleaves
    those operations, as the separate reads and commits of many workers, with crashing agents
    and a network that loses messages. */
module JobQueue {
  import opened Wrappers

  const WRITE_BATCH := "bacnet_write_batch"

  datatype JobStatus = Queued | Claimed | Completed | Failed | Deferred {
    /** A status that only a posted result sets. */
    predicate Reported(): (r: bool)
      ensures r <==> this != Queued && this != Claimed
    {
      Completed? || Failed? || Deferred?
    }
  }

  /** `id` is the random key that breaks ties of the creation time. */
  datatype Job = Job(
    id: nat,
    gateway: string,
    jobType: string,
    createdAt: int,
    status: JobStatus,
    claimedAt: Option<int>,
    completedAt: Option<int>)
  {
    predicate IsWrite() { jobType == WRITE_BATCH }

    /** The stale-claim query: write jobs are excluded. */
    predicate StaleFor(gw: string, cutoff: int) {
      gateway == gw && status == Claimed && claimedAt.Some? && claimedAt.value < cutoff && !IsWrite()
    }

    predicate QueuedFor(gw: string) { gateway == gw && status == Queued }
  }

  /** The rows that the stale-claim query returns. */
  ghost function StaleRows(rows: seq<Job>, gateway: string, cutoff: int): set<nat> {
    set j: nat | j < |rows| && rows[j].StaleFor(gateway, cutoff)
  }

  /** Row `found` is what `WHERE status = 'queued' ORDER BY created_at, id LIMIT 1` returns. */
  ghost predicate OldestQueued(rows: seq<Job>, gateway: string, found: Option<nat>) {
    match found
    case None => forall j | 0 <= j < |rows| :: !rows[j].QueuedFor(gateway)
    case Some(j) =>
      && j < |rows| && rows[j].QueuedFor(gateway)
      && forall k | 0 <= k < |rows| && rows[k].QueuedFor(gateway) :: NoLater(rows, j, k)
  }

  /** The requeue commit overwrites the rows found by the earlier query, whatever they hold by now. */
  function Requeued(rows: seq<Job>, stale: set<nat>): seq<Job> {
    seq(|rows|, i requires 0 <= i < |rows| =>
      if i in stale then rows[i].(status := Queued, claimedAt := None) else rows[i])
  }

  /** `UPDATE ... WHERE id = j AND status = 'queued'`. */
  function ClaimedAt(rows: seq<Job>, j: nat, now: int): seq<Job> {
    if j < |rows| && rows[j].status == Queued
    then rows[j := rows[j].(status := Claimed, claimedAt := Some(now))]
    else rows
  }

  function ReportedAs(rows: seq<Job>, j: nat, status: JobStatus, now: int): seq<Job> {
    if j < |rows| then rows[j := rows[j].(status := status, completedAt := Some(now))] else rows
  }

  /** Row `j` comes no later than row `k` in `ORDER BY created_at, id`. */
  predicate NoLater(rows: seq<Job>, j: nat, k: nat)
    requires j < |rows| && k < |rows|
  {
    rows[j].createdAt < rows[k].createdAt || (rows[j].createdAt == rows[k].createdAt && rows[j].id <= rows[k].id)
  }

  /** A row that a pass may hand out: the gateway's, and queued or a stale claim of a job that is no write job. */
  ghost predicate MayBeClaimed(row: Job, gateway: string, cutoff: int) {
    && row.gateway == gateway
    && (row.status == Queued ||
        (row.status == Claimed && row.jobType != "bacnet_write_batch" && row.claimedAt.Some? && row.claimedAt.value < cutoff))
  }

  datatype PostOutcome = NotFound | Forbidden | Applied

  class JobTable {
    var rows: seq<Job>

    constructor ()
      ensures rows == []
    {
      rows := [];
    }

    method StaleClaims(gateway: string, cutoff: int) returns (stale: seq<nat>)
      ensures forall i | 0 <= i < |stale| :: stale[i] < |rows|
      ensures forall j | 0 <= j < |rows| ::
        j in stale <==>
          && rows[j].gateway == gateway && rows[j].status == Claimed && rows[j].jobType != "bacnet_write_batch"
          && rows[j].claimedAt.Some? && rows[j].claimedAt.value < cutoff
    {
      stale := [];
      for j := 0 to |rows|
        invariant forall i | 0 <= i < |stale| :: stale[i] < j
        invariant forall k | 0 <= k < j :: k in stale <==> rows[k].StaleFor(gateway, cutoff)
      {
        if rows[j].StaleFor(gateway, cutoff) {
          stale := stale + [j];
        }
      }
    }

    method RequeueStale(stale: seq<nat>)
      requires forall i | 0 <= i < |stale| :: stale[i] < |rows|
      modifies this
      ensures |rows| == |old(rows)|
      ensures forall j | 0 <= j < |rows| && j in stale :: rows[j] == old(rows)[j].(status := Queued, claimedAt := None)
      ensures forall j | 0 <= j < |rows| && j !in stale :: rows[j] == old(rows)[j]
      ensures rows == Requeued(old(rows), set j | j in stale)
    {
      var i := 0;
      while i < |stale|
        invariant 0 <= i <= |stale|
        invariant |rows| == |old(rows)|
        invariant rows == Requeued(old(rows), set j | j in stale[..i])
      {
        var j := stale[i];
        rows := rows[j := rows[j].(status := Queued, claimedAt := None)];
        assert stale[..i + 1] == stale[..i] + [j];
        i := i + 1;
      }
      assert stale[..i] == stale;
    }

    method NextQueued(gateway: string) returns (found: Option<nat>)
      ensures OldestQueued(rows, gateway, found)
      ensures found == None <==> forall k | 0 <= k < |rows| :: rows[k].gateway == gateway ==> rows[k].status != Queued
      ensures found.Some? ==> found.value < |rows| && rows[found.value].gateway == gateway && rows[found.value].status == Queued
      ensures found.Some? ==> forall k | 0 <= k < |rows| && rows[k].gateway == gateway && rows[k].status == Queued ::
        || rows[found.value].createdAt < rows[k].createdAt
        || (rows[found.value].createdAt == rows[k].createdAt && rows[found.value].id <= rows[k].id)
    {
      found := None;
      for j := 0 to |rows|
        invariant found == None <==> forall k | 0 <= k < j :: !rows[k].QueuedFor(gateway)
        invariant found.Some? ==>
          && found.value < j && rows[found.value].QueuedFor(gateway)
          && forall k | 0 <= k < j && rows[k].QueuedFor(gateway) :: NoLater(rows, found.value, k)
      {
        if rows[j].QueuedFor(gateway) && (found == None || NoLater(rows, j, found.value)) {
          found := Some(j);
        }
      }
    }

    method ConditionalClaim(j: nat, now: int) returns (won: bool)
      requires j < |rows|
      modifies this
      ensures won <==> old(rows)[j].status == Queued
      ensures won ==> rows == old(rows)[j := old(rows)[j].(status := Claimed, claimedAt := Some(now))]
      ensures !won ==> rows == old(rows)
      ensures rows == ClaimedAt(old(rows), j, now)
    {
      won := rows[j].status == Queued;
      if won {
        rows := rows[j := rows[j].(status := Claimed, claimedAt := Some(now))];
      }
    }

    /** One whole pass with no other worker in between. Recovery takes back exactly this gateway's
        claims that are older than the cutoff, never a write job's, and then the oldest job that is
        queued is claimed. */
    method ClaimNextJobOnce(gateway: string, cutoff: int, now: int) returns (claimed: Option<nat>)
      modifies this
      ensures |rows| == |old(rows)| && (claimed.Some? ==> claimed.value < |rows|)
      ensures forall j | 0 <= j < |rows| && claimed != Some(j)
        && old(rows)[j].gateway == gateway && old(rows)[j].status == Claimed && old(rows)[j].jobType != "bacnet_write_batch"
        && old(rows)[j].claimedAt.Some? && old(rows)[j].claimedAt.value < cutoff ::
        rows[j] == old(rows)[j].(status := Queued, claimedAt := None)
      ensures forall j | 0 <= j < |rows| && claimed != Some(j)
        && (old(rows)[j].gateway != gateway || old(rows)[j].status != Claimed || old(rows)[j].jobType == "bacnet_write_batch"
            || old(rows)[j].claimedAt == None || old(rows)[j].claimedAt.value >= cutoff) ::
        rows[j] == old(rows)[j]
      ensures claimed.Some? ==>
        && rows[claimed.value] == old(rows)[claimed.value].(status := Claimed, claimedAt := Some(now))
        && MayBeClaimed(old(rows)[claimed.value], gateway, cutoff)
      ensures claimed.Some? ==> forall j | 0 <= j < |rows| && MayBeClaimed(old(rows)[j], gateway, cutoff) ::
        || rows[claimed.value].createdAt < rows[j].createdAt
        || (rows[claimed.value].createdAt == rows[j].createdAt && rows[claimed.value].id <= rows[j].id)
      ensures claimed == None ==> forall j | 0 <= j < |rows| :: !MayBeClaimed(old(rows)[j], gateway, cutoff)
    {
      ghost var before := rows;
      var stale := StaleClaims(gateway, cutoff);
      RequeueStale(stale);
      ghost var ready := rows;
      assert forall j | 0 <= j < |rows| ::
        MayBeClaimed(before[j], gateway, cutoff) <==> ready[j].gateway == gateway && ready[j].status == Queued;
      claimed := NextQueued(gateway);
      if claimed.Some? {
        var won := ConditionalClaim(claimed.value, now);
      }
    }

    /** A posted result: refused for an unknown job or another gateway's, and otherwise applied to
        that job alone, which no stale scan and no selection will find again. */
    method ReceiveResult(j: nat, caller: string, status: JobStatus, now: int) returns (outcome: PostOutcome)
      requires status.Reported()
      modifies this
      ensures outcome == if j >= |old(rows)| then NotFound else if old(rows)[j].gateway != caller then Forbidden else Applied
      ensures outcome != Applied ==> rows == old(rows)
      ensures outcome == Applied ==> rows == old(rows)[j := old(rows)[j].(status := status, completedAt := Some(now))]
      ensures outcome == Applied ==> forall gw, cutoff :: j !in StaleRows(rows, gw, cutoff)
      ensures outcome == Applied ==> forall gw :: !OldestQueued(rows, gw, Some(j))
      ensures outcome == Applied ==> rows == ReportedAs(old(rows), j, status, now)
    {
      if j >= |rows| {
        return NotFound;
      }
      if rows[j].gateway != caller {
        return Forbidden;
      }
      rows := rows[j := rows[j].(status := status, completedAt := Some(now))];
      outcome := Applied;
    }
  }

  // ---- The distributed protocol ----

  /** Where a worker stands inside one pass of `_claim_next_job_once`. */
  datatype Worker =
    | Free
    | Scanned(gateway: string, stale: set<nat>)
    | Requeueing(gateway: string)
    | Selected(gateway: string, job: nat)

  /** Where an agent stands inside `process_next_job`. */
  datatype Agent =
    | Polling
    | Holding(job: nat)
    | Ran(job: nat, outcome: JobStatus)

  datatype System = System(
    rows: seq<Job>,
    workers: seq<Worker>,
    agents: seq<Agent>,
    agentGateway: seq<string>,
    wire: multiset<nat>,                    // claim responses under way
    posts: multiset<(nat, JobStatus)>,      // result posts under way
    claims: multiset<nat>,                  // history: successful conditional claims
    runs: multiset<nat>,                    // history: executions started by an agent
    reports: multiset<nat>)                 // history: results applied

  datatype Step =
    | Enqueue(id: nat, gateway: string, jobType: string, now: int)
    | ScanStale(w: nat, gateway: string, cutoff: int)
    | RequeueCommit(w: nat)
    | SelectQueued(w: nat, job: nat)
    | SelectNone(w: nat)
    | ClaimCommit(w: nat, now: int)
    | WorkerFails(w: nat)
    | ResponseArrives(a: nat, job: nat)
    | ResponseLost(job: nat)
    | AgentRuns(a: nat, outcome: JobStatus)
    | AgentPosts(a: nat)
    | AgentCrashes(a: nat)
    | PostLost(job: nat, outcome: JobStatus)
    | PostArrives(job: nat, outcome: JobStatus, now: int)

  ghost predicate Initial(s: System) {
    && s.rows == [] && |s.agentGateway| == |s.agents|
    && (forall w | 0 <= w < |s.workers| :: s.workers[w] == Free)
    && (forall a | 0 <= a < |s.agents| :: s.agents[a] == Polling)
    && s.wire == s.claims == s.runs == s.reports == multiset{} && s.posts == multiset{}
  }

  /** When a step can happen. `SKIP LOCKED` may pass over older rows, so any queued row of the
      gateway may be selected. */
  ghost predicate Fires(s: System, step: Step) {
    match step
    case Enqueue(id, gateway, jobType, now) => true
    case ScanStale(w, gateway, cutoff) => w < |s.workers| && s.workers[w].Free?
    case RequeueCommit(w) => w < |s.workers| && s.workers[w].Scanned?
    case SelectQueued(w, j) =>
      w < |s.workers| && s.workers[w].Requeueing? && j < |s.rows| && s.rows[j].QueuedFor(s.workers[w].gateway)
    case SelectNone(w) => w < |s.workers| && s.workers[w].Requeueing?
    case ClaimCommit(w, now) => w < |s.workers| && s.workers[w].Selected?
    case WorkerFails(w) => w < |s.workers|
    case ResponseArrives(a, j) =>
      && a < |s.agents| && s.agents[a].Polling? && j in s.wire && j < |s.rows|
      && a < |s.agentGateway| && s.agentGateway[a] == s.rows[j].gateway
    case ResponseLost(j) => j in s.wire
    case AgentRuns(a, outcome) => a < |s.agents| && s.agents[a].Holding? && outcome.Reported()
    case AgentPosts(a) => a < |s.agents| && s.agents[a].Ran?
    case AgentCrashes(a) => a < |s.agents|
    case PostLost(j, outcome) => (j, outcome) in s.posts
    case PostArrives(j, outcome, now) => (j, outcome) in s.posts && j < |s.rows|
  }

  /** The conditional claim of this step finds its row still queued. */
  ghost predicate Wins(s: System, step: Step)
    requires Fires(s, step)
  {
    step.ClaimCommit? && var j := s.workers[step.w].job; j < |s.rows| && s.rows[j].status == Queued
  }

  ghost function RowsAfter(s: System, step: Step): seq<Job>
    requires Fires(s, step)
  {
    match step
    case Enqueue(id, gateway, jobType, now) => s.rows + [Job(id, gateway, jobType, now, Queued, None, None)]
    case RequeueCommit(w) => Requeued(s.rows, s.workers[w].stale)
    case ClaimCommit(w, now) => ClaimedAt(s.rows, s.workers[w].job, now)
    case PostArrives(j, outcome, now) => ReportedAs(s.rows, j, outcome, now)
    case _ => s.rows
  }

  ghost function WorkersAfter(s: System, step: Step): seq<Worker>
    requires Fires(s, step)
  {
    match step
    case ScanStale(w, gateway, cutoff) =>
      s.workers[w := Scanned(gateway, StaleRows(s.rows, gateway, cutoff))]
    case RequeueCommit(w) => s.workers[w := Requeueing(s.workers[w].gateway)]
    case SelectQueued(w, j) => s.workers[w := Selected(s.workers[w].gateway, j)]
    case SelectNone(w) => s.workers[w := Free]
    case ClaimCommit(w, now) => s.workers[w := Free]
    case WorkerFails(w) => s.workers[w := Free]
    case _ => s.workers
  }

  ghost function AgentsAfter(s: System, step: Step): seq<Agent>
    requires Fires(s, step)
  {
    match step
    case ResponseArrives(a, j) => s.agents[a := Holding(j)]
    case AgentRuns(a, outcome) => s.agents[a := Ran(s.agents[a].job, outcome)]
    case AgentPosts(a) => s.agents[a := Polling]
    case AgentCrashes(a) => s.agents[a := Polling]
    case _ => s.agents
  }

  ghost function WireAfter(s: System, step: Step): multiset<nat>
    requires Fires(s, step)
  {
    if Wins(s, step) then s.wire + multiset{s.workers[step.w].job}
    else if step.ResponseArrives? || step.ResponseLost? then s.wire - multiset{step.job}
    else s.wire
  }

  ghost function PostsAfter(s: System, step: Step): multiset<(nat, JobStatus)>
    requires Fires(s, step)
  {
    match step
    case AgentPosts(a) => s.posts + multiset{(s.agents[a].job, s.agents[a].outcome)}
    case PostLost(j, outcome) => s.posts - multiset{(j, outcome)}
    case PostArrives(j, outcome, now) => s.posts - multiset{(j, outcome)}
    case _ => s.posts
  }

  ghost function ClaimsAfter(s: System, step: Step): multiset<nat>
    requires Fires(s, step)
  {
    if Wins(s, step) then s.claims + multiset{s.workers[step.w].job} else s.claims
  }

  ghost function RunsAfter(s: System, step: Step): multiset<nat>
    requires Fires(s, step)
  {
    if step.AgentRuns? then s.runs + multiset{s.agents[step.a].job} else s.runs
  }

  ghost function ReportsAfter(s: System, step: Step): multiset<nat>
    requires Fires(s, step)
  {
    if step.PostArrives? then s.reports + multiset{step.job} else s.reports
  }

  /** A step whose guard fails changes nothing. */
  ghost function After(s: System, step: Step): System {
    if !Fires(s, step) then s
    else System(RowsAfter(s, step), WorkersAfter(s, step), AgentsAfter(s, step), s.agentGateway,
                WireAfter(s, step), PostsAfter(s, step),
                ClaimsAfter(s, step), RunsAfter(s, step), ReportsAfter(s, step))
  }

  /** A scan finds exactly the claims it should, in the rows' own fields. */
  lemma ScanFindsExactly(s: System, w: nat, gateway: string, cutoff: int, j: nat)
    requires w < |s.workers| && s.workers[w].Free?
    ensures var found := After(s, ScanStale(w, gateway, cutoff)).workers[w];
      && found.Scanned? && found.gateway == gateway
      && (j in found.stale <==>
            && j < |s.rows| && s.rows[j].gateway == gateway && s.rows[j].status == Claimed
            && s.rows[j].jobType != "bacnet_write_batch" && s.rows[j].claimedAt.Some? && s.rows[j].claimedAt.value < cutoff)
  {
    assert Fires(s, ScanStale(w, gateway, cutoff));
  }

  ghost function Exec(s: System, steps: seq<Step>): System
    decreases |steps|
  {
    if steps == [] then s else Exec(After(s, steps[0]), steps[1..])
  }

  /** How many agents hold a claim response for `j` that they have not started to run. */
  ghost function Held(agents: seq<Agent>, j: nat): nat {
    if agents == [] then 0
    else (if agents[0] == Holding(j) then 1 else 0) + Held(agents[1..], j)
  }

  lemma {:induction false} HeldUpdate(agents: seq<Agent>, a: nat, next: Agent, j: nat)
    requires a < |agents|
    ensures Held(agents[a := next], j) + (if agents[a] == Holding(j) then 1 else 0)
         == Held(agents, j) + (if next == Holding(j) then 1 else 0)
  {
    var after := agents[a := next];
    if a == 0 {
      assert after[1..] == agents[1..];
    } else {
      assert after[1..] == agents[1..][a - 1 := next];
      HeldUpdate(agents[1..], a - 1, next, j);
    }
  }

  lemma {:induction false} HeldNone(agents: seq<Agent>, j: nat)
    requires forall a | 0 <= a < |agents| :: agents[a] == Polling
    ensures Held(agents, j) == 0
  {
    if agents != [] {
      HeldNone(agents[1..], j);
    }
  }

  /** Every execution spends one claim response, and every response spends one claim. */
  ghost predicate Accounted(s: System) {
    forall j: nat :: s.wire[j] + Held(s.agents, j) + s.runs[j] <= s.claims[j]
  }

  /** How many agents have run `j` and not yet posted its result. */
  ghost function Unposted(agents: seq<Agent>, j: nat): nat {
    if agents == [] then 0
    else (if agents[0].Ran? && agents[0].job == j then 1 else 0) + Unposted(agents[1..], j)
  }

  lemma {:induction false} UnpostedUpdate(agents: seq<Agent>, a: nat, next: Agent, j: nat)
    requires a < |agents|
    ensures Unposted(agents[a := next], j) + (if agents[a].Ran? && agents[a].job == j then 1 else 0)
         == Unposted(agents, j) + (if next.Ran? && next.job == j then 1 else 0)
  {
    var after := agents[a := next];
    if a == 0 {
      assert after[1..] == agents[1..];
    } else {
      assert after[1..] == agents[1..][a - 1 := next];
      UnpostedUpdate(agents[1..], a - 1, next, j);
    }
  }

  lemma {:induction false} UnpostedNone(agents: seq<Agent>, j: nat)
    requires forall a | 0 <= a < |agents| :: agents[a] == Polling
    ensures Unposted(agents, j) == 0
  {
    if agents != [] {
      UnpostedNone(agents[1..], j);
    }
  }

  /** Results of `j` on their way; only reported statuses are ever posted. */
  ghost function PostsOf(posts: multiset<(nat, JobStatus)>, j: nat): nat {
    posts[(j, Completed)] + posts[(j, Failed)] + posts[(j, Deferred)]
  }

  /** Every post spends one execution, and every applied result spends one post. */
  ghost predicate ReportsAccounted(s: System) {
    forall j: nat :: Unposted(s.agents, j) + PostsOf(s.posts, j) + s.reports[j] <= s.runs[j]
  }

  ghost predicate StaleScansSkipWrites(s: System) {
    forall w | 0 <= w < |s.workers| && s.workers[w].Scanned? :: NoWriteAmong(s.rows, s.workers[w].stale)
  }

  ghost predicate NoWriteAmong(rows: seq<Job>, ids: set<nat>) {
    forall j | j in ids :: j < |rows| && !rows[j].IsWrite()
  }

  ghost predicate ClaimsExist(s: System) {
    && (forall j: nat | j in s.claims :: j < |s.rows|)
    && (forall j: nat | j in s.reports :: j < |s.rows|)
  }

  /** A write job leaves the queue at its one claim and never comes back. */
  ghost predicate WritesClaimedOnce(s: System) {
    forall j | 0 <= j < |s.rows| && s.rows[j].IsWrite() ::
      && s.claims[j] <= 1
      && (s.claims[j] == 1 ==> s.rows[j].status != Queued)
      && (s.reports[j] > 0 ==> s.rows[j].status.Reported())
  }

  /** A result can only be under way for a job that some agent ran. */
  ghost predicate ResultsFromRuns(s: System) {
    && (forall a | 0 <= a < |s.agents| && s.agents[a].Ran? ::
          s.agents[a].outcome.Reported() && s.runs[s.agents[a].job] > 0)
    && (forall p | p in s.posts :: p.1.Reported() && s.runs[p.0] > 0)
    && (forall j: nat | s.reports[j] > 0 :: s.runs[j] > 0)
  }

  ghost predicate Inv(s: System) {
    Accounted(s) && ReportsAccounted(s) && StaleScansSkipWrites(s) && ClaimsExist(s) && WritesClaimedOnce(s) && ResultsFromRuns(s)
  }

  lemma InitialInv(s: System)
    requires Initial(s)
    ensures Inv(s)
  {
    forall j: nat
      ensures s.wire[j] + Held(s.agents, j) + s.runs[j] <= s.claims[j]
    {
      HeldNone(s.agents, j);
    }
    forall j: nat
      ensures Unposted(s.agents, j) + PostsOf(s.posts, j) + s.reports[j] <= s.runs[j]
    {
      UnpostedNone(s.agents, j);
    }
  }

  lemma AccountedStep(s: System, step: Step)
    requires Accounted(s) && Fires(s, step)
    ensures Accounted(After(s, step))
  {
    forall j: nat
      ensures WireAfter(s, step)[j] + Held(AgentsAfter(s, step), j) + RunsAfter(s, step)[j] <= ClaimsAfter(s, step)[j]
    {
      AccountedStepFor(s, step, j);
    }
  }

  lemma AccountedStepFor(s: System, step: Step, j: nat)
    requires Fires(s, step) && s.wire[j] + Held(s.agents, j) + s.runs[j] <= s.claims[j]
    ensures WireAfter(s, step)[j] + Held(AgentsAfter(s, step), j) + RunsAfter(s, step)[j] <= ClaimsAfter(s, step)[j]
  {
    if step.ResponseArrives? || step.AgentRuns? || step.AgentPosts? || step.AgentCrashes? {
      HeldUpdate(s.agents, step.a, AgentsAfter(s, step)[step.a], j);
    }
  }

  lemma ReportsAccountedStep(s: System, step: Step)
    requires ReportsAccounted(s) && ResultsFromRuns(s) && Fires(s, step)
    ensures ReportsAccounted(After(s, step))
  {
    forall j: nat
      ensures Unposted(AgentsAfter(s, step), j) + PostsOf(PostsAfter(s, step), j) + ReportsAfter(s, step)[j] <= RunsAfter(s, step)[j]
    {
      assert Unposted(s.agents, j) + PostsOf(s.posts, j) + s.reports[j] <= s.runs[j];
      assert step.PostArrives? ==> (step.job, step.outcome) in s.posts && step.outcome.Reported();
      ReportsAccountedStepFor(s, step, j);
    }
  }

  lemma ReportsAccountedStepFor(s: System, step: Step, j: nat)
    requires Fires(s, step) && ResultsFromRuns(s) && (step.PostArrives? ==> step.outcome.Reported())
    requires Unposted(s.agents, j) + PostsOf(s.posts, j) + s.reports[j] <= s.runs[j]
    ensures Unposted(AgentsAfter(s, step), j) + PostsOf(PostsAfter(s, step), j) + ReportsAfter(s, step)[j] <= RunsAfter(s, step)[j]
  {
    match step
    case AgentPosts(a) => PostSpendsRun(s, a, j);
    case PostArrives(job, outcome, now) => PostIsSpent(s.posts, job, outcome, j);
    case PostLost(job, outcome) => PostIsSpent(s.posts, job, outcome, j);
    case AgentRuns(a, outcome) => UnpostedUpdate(s.agents, a, Ran(s.agents[a].job, outcome), j);
    case AgentCrashes(a) => UnpostedUpdate(s.agents, a, Polling, j);
    case ResponseArrives(a, job) => UnpostedUpdate(s.agents, a, Holding(job), j);
    case _ =>
  }

  lemma PostSpendsRun(s: System, a: nat, j: nat)
    requires a < |s.agents| && s.agents[a].Ran? && ResultsFromRuns(s)
    ensures Unposted(s.agents[a := Polling], j) + PostsOf(s.posts + multiset{(s.agents[a].job, s.agents[a].outcome)}, j) ==
      Unposted(s.agents, j) + PostsOf(s.posts, j)
  {
    UnpostedUpdate(s.agents, a, Polling, j);
    var job, outcome := s.agents[a].job, s.agents[a].outcome;
    assert outcome == Completed || outcome == Failed || outcome == Deferred;
  }

  lemma PostIsSpent(posts: multiset<(nat, JobStatus)>, job: nat, outcome: JobStatus, j: nat)
    requires (job, outcome) in posts
    ensures PostsOf(posts - multiset{(job, outcome)}, j) == PostsOf(posts, j) - if job == j && outcome.Reported() then 1 else 0
  {
  }

  /** Rows are never removed and never change their type or gateway. */
  lemma RowsKeepType(s: System, step: Step)
    requires Fires(s, step)
    ensures |RowsAfter(s, step)| >= |s.rows|
    ensures forall j | 0 <= j < |s.rows| ::
      RowsAfter(s, step)[j].jobType == s.rows[j].jobType && RowsAfter(s, step)[j].gateway == s.rows[j].gateway
  {
  }

  lemma StaleScansStep(s: System, step: Step)
    requires StaleScansSkipWrites(s) && Fires(s, step)
    ensures StaleScansSkipWrites(After(s, step))
  {
    RowsKeepType(s, step);
    var workers, rows := WorkersAfter(s, step), RowsAfter(s, step);
    forall w | 0 <= w < |workers| && workers[w].Scanned?
      ensures NoWriteAmong(rows, workers[w].stale)
    {
      assert workers[w] == s.workers[w] ==> NoWriteAmong(s.rows, s.workers[w].stale);
    }
  }

  lemma ClaimsExistStep(s: System, step: Step)
    requires ClaimsExist(s) && Fires(s, step)
    ensures ClaimsExist(After(s, step))
  {
    RowsKeepType(s, step);
  }

  lemma PostsFromRunsStep(s: System, step: Step)
    requires ResultsFromRuns(s) && Fires(s, step)
    ensures forall p | p in PostsAfter(s, step) :: p.1.Reported() && RunsAfter(s, step)[p.0] > 0
    ensures forall j: nat | ReportsAfter(s, step)[j] > 0 :: RunsAfter(s, step)[j] > 0
  {
    forall p | p in PostsAfter(s, step)
      ensures p.1.Reported() && RunsAfter(s, step)[p.0] > 0
    {
      assert p in s.posts || step.AgentPosts?;
    }
    forall j: nat | ReportsAfter(s, step)[j] > 0
      ensures RunsAfter(s, step)[j] > 0
    {
      if s.reports[j] == 0 {
        assert (j, step.outcome) in s.posts;
      }
    }
  }

  lemma ResultsFromRunsStep(s: System, step: Step)
    requires ResultsFromRuns(s) && Fires(s, step)
    ensures ResultsFromRuns(After(s, step))
  {
    PostsFromRunsStep(s, step);
    var agents := AgentsAfter(s, step);
    forall a | 0 <= a < |agents| && agents[a].Ran?
      ensures agents[a].outcome.Reported() && RunsAfter(s, step)[agents[a].job] > 0
    {
      assert step.AgentRuns? || agents[a] == s.agents[a];
    }
  }

  /** A step changes a write job's status by its claim or its result alone. */
  lemma WriteStatusStep(s: System, step: Step, j: nat)
    requires StaleScansSkipWrites(s) && Fires(s, step) && j < |s.rows| && s.rows[j].IsWrite()
    ensures j < |RowsAfter(s, step)| && RowsAfter(s, step)[j].IsWrite()
    ensures RowsAfter(s, step)[j].status ==
      if step.ClaimCommit? && s.workers[step.w].job == j && s.rows[j].status == Queued then Claimed
      else if step.PostArrives? && step.job == j then step.outcome
      else s.rows[j].status
  {
    if step.RequeueCommit? {
      assert NoWriteAmong(s.rows, s.workers[step.w].stale);
    }
  }

  /** A claim of `j` is counted exactly if it finds `j` queued. */
  lemma HistoryStep(s: System, step: Step, j: nat)
    requires Fires(s, step) && j < |s.rows|
    ensures ClaimsAfter(s, step)[j] == s.claims[j] +
      if step.ClaimCommit? && s.workers[step.w].job == j && s.rows[j].status == Queued then 1 else 0
    ensures ReportsAfter(s, step)[j] == s.reports[j] + if step.PostArrives? && step.job == j then 1 else 0
  {
  }

  lemma PostedIsReported(s: System, step: Step)
    requires ResultsFromRuns(s) && Fires(s, step)
    ensures step.PostArrives? ==> step.outcome.Reported()
  {
    assert step.PostArrives? ==> (step.job, step.outcome) in s.posts;
  }

  lemma NewRowStep(s: System, step: Step, j: nat)
    requires ClaimsExist(s) && Fires(s, step) && |s.rows| <= j < |RowsAfter(s, step)|
    ensures ClaimsAfter(s, step)[j] == 0 && ReportsAfter(s, step)[j] == 0
  {
    assert j !in s.claims && j !in s.reports;
  }

  /** What one step may do to one write job. */
  lemma WriteRowStep(s: System, step: Step, j: nat)
    requires Inv(s) && Fires(s, step) && j < |RowsAfter(s, step)| && RowsAfter(s, step)[j].IsWrite()
    ensures ClaimsAfter(s, step)[j] <= 1
    ensures ClaimsAfter(s, step)[j] == 1 ==> RowsAfter(s, step)[j].status != Queued
    ensures ReportsAfter(s, step)[j] > 0 ==> RowsAfter(s, step)[j].status.Reported()
  {
    if j >= |s.rows| {
      NewRowStep(s, step, j);
    } else {
      RowsKeepType(s, step);
      WriteStatusStep(s, step, j);
      HistoryStep(s, step, j);
      PostedIsReported(s, step);
    }
  }

  lemma {:induction false} WritesClaimedOnceStep(s: System, step: Step)
    requires Inv(s) && Fires(s, step)
    ensures WritesClaimedOnce(After(s, step))
  {
    var rows := RowsAfter(s, step);
    forall j | 0 <= j < |rows| && rows[j].IsWrite()
      ensures ClaimsAfter(s, step)[j] <= 1
      ensures ClaimsAfter(s, step)[j] == 1 ==> rows[j].status != Queued
      ensures ReportsAfter(s, step)[j] > 0 ==> rows[j].status.Reported()
    {
      WriteRowStep(s, step, j);
    }
  }

  lemma InvStep(s: System, step: Step)
    requires Inv(s)
    ensures Inv(After(s, step))
  {
    if Fires(s, step) {
      AccountedStep(s, step);
      ReportsAccountedStep(s, step);
      StaleScansStep(s, step);
      ClaimsExistStep(s, step);
      ResultsFromRunsStep(s, step);
      WritesClaimedOnceStep(s, step);
    }
  }

  lemma {:induction false} InvExec(s: System, steps: seq<Step>)
    requires Inv(s)
    ensures Inv(Exec(s, steps))
    decreases |steps|
  {
    if steps != [] {
      InvStep(s, steps[0]);
      InvExec(After(s, steps[0]), steps[1..]);
    }
  }

  // ---- What every run promises ----

  /** Over every interleaving, a write job is claimed, run and reported at most once, and no job of
      any type is run more often than it was claimed or reported more often than it was run. */
  lemma WriteRunsAtMostOnce(s: System, steps: seq<Step>, j: nat)
    requires Initial(s) && j < |Exec(s, steps).rows|
    ensures var e := Exec(s, steps);
      && e.runs[j] <= e.claims[j]
      && (e.rows[j].IsWrite() ==> e.claims[j] <= 1 && e.runs[j] <= 1)
      && e.reports[j] <= e.runs[j]
  {
    InitialInv(s);
    InvExec(s, steps);
    var e := Exec(s, steps);
    assert e.wire[j] + Held(e.agents, j) + e.runs[j] <= e.claims[j];
    assert Unposted(e.agents, j) + PostsOf(e.posts, j) + e.reports[j] <= e.runs[j];
  }

  /** Exactly when one step takes a reported job back into the queue: a worker commits the
      requeue of a stale claim that it read before the result came in. */
  lemma ReportedLeavesOnlyByRequeue(s: System, step: Step, j: nat)
    requires Inv(s) && Fires(s, step) && j < |s.rows| && s.rows[j].status.Reported()
    ensures j < |RowsAfter(s, step)|
    ensures !RowsAfter(s, step)[j].status.Reported() <==> step.RequeueCommit? && j in s.workers[step.w].stale
    ensures ClaimsAfter(s, step)[j] == s.claims[j]
  {
    RowsKeepType(s, step);
    HistoryStep(s, step, j);
    PostedIsReported(s, step);
  }

  lemma UnqueuedWriteStep(s: System, step: Step, j: nat)
    requires Inv(s) && Fires(s, step) && j < |s.rows| && s.rows[j].IsWrite() && s.rows[j].status != Queued
    ensures j < |RowsAfter(s, step)| && RowsAfter(s, step)[j].IsWrite() && RowsAfter(s, step)[j].status != Queued
    ensures s.rows[j].status.Reported() ==> RowsAfter(s, step)[j].status.Reported()
    ensures ClaimsAfter(s, step)[j] == s.claims[j]
  {
    WriteStatusStep(s, step, j);
    HistoryStep(s, step, j);
    PostedIsReported(s, step);
  }

  /** Once a write job has left the queue, no later step queues or claims it again: without a
      result it stays claimed for manual review, and with one it stays reported. */
  lemma {:induction false} WriteNeverReturnsToQueue(s: System, steps: seq<Step>, j: nat)
    requires Inv(s) && j < |s.rows| && s.rows[j].IsWrite() && s.rows[j].status != Queued
    ensures var e := Exec(s, steps);
      && j < |e.rows| && e.rows[j].IsWrite() && e.rows[j].status != Queued && e.claims[j] == s.claims[j]
      && (s.rows[j].status.Reported() ==> e.rows[j].status.Reported())
    decreases |steps|
  {
    if steps != [] {
      InvStep(s, steps[0]);
      if Fires(s, steps[0]) {
        UnqueuedWriteStep(s, steps[0], j);
      }
      WriteNeverReturnsToQueue(After(s, steps[0]), steps[1..], j);
    }
  }

  /** Once a write job's result has been applied, nothing that happens later can claim it, run it
      a second time or take its result back. */
  lemma ReportedWriteIsFinal(s: System, steps: seq<Step>, more: seq<Step>, j: nat)
    requires Initial(s) && j < |Exec(s, steps).rows| && Exec(s, steps).rows[j].IsWrite()
    requires Exec(s, steps).reports[j] > 0
    ensures var e := Exec(Exec(s, steps), more);
      && j < |e.rows| && e.rows[j].status.Reported()
      && e.claims[j] == Exec(s, steps).claims[j] == 1 && e.runs[j] == Exec(s, steps).runs[j] == 1
  {
    InitialInv(s);
    InvExec(s, steps);
    var mid := Exec(s, steps);
    assert mid.wire[j] + Held(mid.agents, j) + mid.runs[j] <= mid.claims[j];
    WriteNeverReturnsToQueue(mid, more, j);
    InvExec(mid, more);
    var e := Exec(mid, more);
    assert e.wire[j] + Held(e.agents, j) + e.runs[j] <= e.claims[j];
    RunsGrow(mid, more, j);
  }

  lemma {:induction false} RunsGrow(s: System, steps: seq<Step>, j: nat)
    ensures Exec(s, steps).runs[j] >= s.runs[j]
    decreases |steps|
  {
    if steps != [] {
      RunsGrow(After(s, steps[0]), steps[1..], j);
    }
  }

  // ---- What does not hold of other jobs ----

  ghost predicate Reaches(s: System, t: System) {
    exists steps :: Exec(s, steps) == t
  }

  lemma {:induction false} ExecThen(s: System, steps: seq<Step>, last: Step)
    ensures Exec(s, steps + [last]) == After(Exec(s, steps), last)
    decreases |steps|
  {
    if steps == [] {
      assert steps + [last] == [last];
      assert Exec(After(s, last), []) == After(s, last);
    } else {
      assert (steps + [last])[1..] == steps[1..] + [last];
      ExecThen(After(s, steps[0]), steps[1..], last);
    }
  }

  lemma ReachesThen(s: System, t: System, step: Step)
    requires Reaches(s, t)
    ensures Reaches(s, After(t, step))
  {
    var steps :| Exec(s, steps) == t;
    ExecThen(s, steps, step);
  }

  ghost predicate OneReadJob(s: System, status: JobStatus, claimedAt: Option<int>) {
    && |s.rows| == 1 && s.rows[0].gateway == "g" && !s.rows[0].IsWrite()
    && s.rows[0].status == status && s.rows[0].claimedAt == claimedAt
    && s.workers == [Free] && s.agentGateway == ["g"]
  }

  lemma ScanFindsNothing(s0: System, s: System) returns (t: System)
    requires Reaches(s0, s) && OneReadJob(s, Queued, None)
    ensures Reaches(s0, t) && t == s.(workers := [Requeueing("g")])
  {
    var scan := After(s, ScanStale(0, "g", 0));
    ReachesThen(s0, s, ScanStale(0, "g", 0));
    assert StaleRows(s.rows, "g", 0) == {};
    assert scan == s.(workers := [Scanned("g", {})]);
    t := CommitsRequeue(s0, scan, {});
    assert t.rows == s.rows;
  }

  lemma CommitsRequeue(s0: System, s: System, stale: set<nat>) returns (t: System)
    requires Reaches(s0, s) && s.workers == [Scanned("g", stale)]
    ensures Reaches(s0, t) && t == s.(workers := [Requeueing("g")], rows := Requeued(s.rows, stale))
  {
    ReachesThen(s0, s, RequeueCommit(0));
    t := After(s, RequeueCommit(0));
  }

  lemma SelectedIsClaimed(s0: System, s: System) returns (t: System)
    requires Reaches(s0, s) && OneReadJob(s.(workers := [Free]), Queued, None) && s.workers == [Requeueing("g")]
    ensures Reaches(s0, t) && OneReadJob(t, Claimed, Some(10)) && 0 in t.wire
    ensures t.agents == s.agents && t.runs == s.runs && t.reports == s.reports
  {
    var selected := After(s, SelectQueued(0, 0));
    ReachesThen(s0, s, SelectQueued(0, 0));
    assert selected == s.(workers := [Selected("g", 0)]);
    ReachesThen(s0, selected, ClaimCommit(0, 10));
    t := After(selected, ClaimCommit(0, 10));
  }

  lemma ResponseRuns(s0: System, s: System) returns (t: System)
    requires Reaches(s0, s) && OneReadJob(s, Claimed, Some(10)) && 0 in s.wire && s.agents == [Polling]
    ensures Reaches(s0, t) && OneReadJob(t, Claimed, Some(10)) && t.agents == [Ran(0, Completed)]
    ensures t.runs[0] == s.runs[0] + 1 && t.reports == s.reports
  {
    var held := After(s, ResponseArrives(0, 0));
    ReachesThen(s0, s, ResponseArrives(0, 0));
    ReachesThen(s0, held, AgentRuns(0, Completed));
    t := After(held, AgentRuns(0, Completed));
  }

  /** The only worker claims the only job and the only agent runs it. */
  lemma QueuedJobRuns(s0: System, s: System) returns (t: System)
    requires Reaches(s0, s) && OneReadJob(s.(workers := [Free]), Queued, None)
    requires s.workers == [Requeueing("g")] && s.agents == [Polling]
    ensures Reaches(s0, t) && OneReadJob(t, Claimed, Some(10)) && t.agents == [Ran(0, Completed)]
    ensures t.runs[0] == s.runs[0] + 1 && t.reports == s.reports
  {
    t := SelectedIsClaimed(s0, s);
    t := ResponseRuns(s0, t);
  }

  lemma PostsWhileScanned(s0: System, s: System) returns (t: System)
    requires Reaches(s0, s) && OneReadJob(s, Claimed, Some(10)) && s.agents == [Ran(0, Completed)]
    ensures Reaches(s0, t) && t == s.(workers := [Scanned("g", {0})], agents := [Polling], posts := s.posts + multiset{(0, Completed)})
  {
    var posted := After(s, AgentPosts(0));
    ReachesThen(s0, s, AgentPosts(0));
    assert posted == s.(agents := [Polling], posts := s.posts + multiset{(0, Completed)});
    ReachesThen(s0, posted, ScanStale(0, "g", 20));
    t := After(posted, ScanStale(0, "g", 20));
    assert StaleRows(s.rows, "g", 20) == {0};
  }

  lemma ResultIsApplied(s0: System, s: System) returns (t: System)
    requires Reaches(s0, s) && |s.rows| == 1 && (0, Completed) in s.posts
    ensures Reaches(s0, t)
    ensures t == s.(rows := ReportedAs(s.rows, 0, Completed, 30), posts := s.posts - multiset{(0, Completed)},
                    reports := s.reports + multiset{0})
  {
    ReachesThen(s0, s, PostArrives(0, Completed, 30));
    t := After(s, PostArrives(0, Completed, 30));
  }

  /** A worker reads the claim as stale, the result comes in, and the requeue commits over it. */
  lemma RequeueOverwritesResult(s0: System, s: System) returns (t: System)
    requires Reaches(s0, s) && OneReadJob(s, Claimed, Some(10)) && s.agents == [Ran(0, Completed)]
    ensures Reaches(s0, t) && OneReadJob(t.(workers := [Free]), Queued, None)
    ensures t.workers == [Requeueing("g")] && t.agents == [Polling]
    ensures t.runs == s.runs && t.reports[0] == s.reports[0] + 1
  {
    t := PostsWhileScanned(s0, s);
    t := ResultIsApplied(s0, t);
    assert t.rows[0].status == Completed;
    t := CommitsRequeue(s0, t, {0});
  }

  /** A job of another type can run again after its result was applied. */
  lemma ReadJobCanRunAgainAfterItsResult(s: System) returns (t: System)
    requires Initial(s) && s.workers == [Free] && s.agents == [Polling] && s.agentGateway == ["g"]
    ensures Reaches(s, t) && |t.rows| == 1 && !t.rows[0].IsWrite() && t.reports[0] == 1 && t.runs[0] == 2
  {
    assert Exec(s, []) == s;
    ReachesThen(s, s, Enqueue(0, "g", "bacnet_read", 0));
    t := After(s, Enqueue(0, "g", "bacnet_read", 0));
    t := ScanFindsNothing(s, t);
    t := QueuedJobRuns(s, t);
    t := RequeueOverwritesResult(s, t);
    t := QueuedJobRuns(s, t);
  }
}
