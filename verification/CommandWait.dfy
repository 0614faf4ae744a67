/** The wake-up of long polls: `CommandWaitNotifier`, the endpoints that commit a job and then
    notify, and the polls that read the generation, scan the table and sleep
    (`claim_next_job`). */
module CommandWait {
  import opened Wrappers

  datatype Waiter = Waiter(gateway: string, generation: nat)

  /** The notifier's fields; `woken` are the waiters whose `event.set` has been called or is
      scheduled on their loop. */
  datatype NotifierState = NotifierState(
    generations: map<string, nat>,
    nextWaiterId: nat,
    waiters: map<nat, Waiter>,
    woken: set<nat>)
  {
    function Generation(gateway: string): nat {
      if gateway in generations then generations[gateway] else 0
    }

    function WaitersOf(gateway: string): set<nat> {
      set w | w in waiters && waiters[w].gateway == gateway
    }

    function Notified(gateway: string): NotifierState {
      this.(generations := generations[gateway := Generation(gateway) + 1],
            woken := woken + WaitersOf(gateway))
    }

    /** A waiter registers only while its generation is current. */
    function Registered(gateway: string, generation: nat): NotifierState {
      if Generation(gateway) != generation then this
      else this.(nextWaiterId := nextWaiterId + 1,
                 waiters := waiters[nextWaiterId := Waiter(gateway, generation)])
    }

    function Unregistered(w: nat): NotifierState {
      this.(waiters := waiters - {w}, woken := woken - {w})
    }
  }

  datatype WaitEnd = Woken | TimedOut | Cancelled

  class CommandWaitNotifier {
    var generations: map<string, nat>
    var nextWaiterId: nat
    var waiters: map<nat, Waiter>
    var woken: set<nat>
    var activeWaits: nat
    var maxActiveWaits: nat
    var wakeCount: nat
    var timeoutCount: nat
    ghost var cancelCount: nat

    function View(): NotifierState
      reads this
    {
      NotifierState(generations, nextWaiterId, waiters, woken)
    }

    /** The counters agree with the table of waiters, ids are never reused, and every wait begun is
        active, woken, timed out or cancelled. */
    ghost predicate Valid()
      reads this
    {
      && activeWaits == |waiters| <= maxActiveWaits
      && (forall w | w in waiters :: w < nextWaiterId)
      && woken <= waiters.Keys
      && nextWaiterId == activeWaits + wakeCount + timeoutCount + cancelCount
    }

    constructor ()
      ensures Valid() && View() == NotifierState(map[], 0, map[], {})
    {
      generations, nextWaiterId, waiters, woken := map[], 0, map[], {};
      activeWaits, maxActiveWaits, wakeCount, timeoutCount, cancelCount := 0, 0, 0, 0, 0;
    }

    method Notify(gateway: string)
      requires Valid()
      modifies this`generations, this`woken
      ensures Valid() && View() == old(View()).Notified(gateway)
      ensures generations == old(generations)[gateway := (if gateway in old(generations) then old(generations)[gateway] else 0) + 1]
      ensures forall w :: w in woken <==> w in old(woken) || (w in waiters && waiters[w].gateway == gateway)
    {
      generations := generations[gateway := (if gateway in generations then generations[gateway] else 0) + 1];
      var todo := waiters.Keys;
      var chosen: set<nat> := {};
      while todo != {}
        invariant todo <= waiters.Keys
        invariant chosen == set w | w in waiters.Keys - todo && waiters[w].gateway == gateway
        decreases todo
      {
        var w :| w in todo;
        if waiters[w].gateway == gateway {
          chosen := chosen + {w};
        }
        todo := todo - {w};
      }
      assert chosen == old(View()).WaitersOf(gateway);
      woken := woken + chosen;
    }

    /** The locked first part of `wait_after`: `None` when a notification came in since the
        generation was read. */
    method BeginWait(gateway: string, generation: nat) returns (waiter: Option<nat>)
      requires Valid()
      modifies this
      ensures Valid() && View() == old(View()).Registered(gateway, generation)
      ensures waiter.Some? <==> generation == if gateway in old(generations) then old(generations)[gateway] else 0
      ensures waiter.Some? ==>
        && waiter.value == old(nextWaiterId) && nextWaiterId == old(nextWaiterId) + 1
        && waiters == old(waiters)[waiter.value := Waiter(gateway, generation)] && waiter.value !in woken
        && activeWaits == old(activeWaits) + 1
        && maxActiveWaits == if old(maxActiveWaits) < activeWaits then activeWaits else old(maxActiveWaits)
      ensures waiter.None? ==>
        waiters == old(waiters) && nextWaiterId == old(nextWaiterId) && activeWaits == old(activeWaits) && maxActiveWaits == old(maxActiveWaits)
      ensures generations == old(generations) && woken == old(woken)
      ensures wakeCount == old(wakeCount) && timeoutCount == old(timeoutCount)
    {
      if (if gateway in generations then generations[gateway] else 0) != generation {
        return None;
      }
      waiter := Some(nextWaiterId);
      assert nextWaiterId !in waiters;
      waiters := waiters[nextWaiterId := Waiter(gateway, generation)];
      nextWaiterId := nextWaiterId + 1;
      activeWaits := activeWaits + 1;
      maxActiveWaits := if maxActiveWaits < activeWaits then activeWaits else maxActiveWaits;
    }

    /** The end of `wait_after`: true on a wake-up, false on the timeout, and an exception, counted in
        neither, when the wait is cancelled. */
    method EndWait(w: nat, end: WaitEnd) returns (wokenUp: Option<bool>)
      requires Valid() && w in waiters && (end == Woken ==> w in woken)
      modifies this
      ensures Valid() && View() == old(View()).Unregistered(w)
      ensures waiters == old(waiters) - {w} && woken == old(woken) - {w} && activeWaits == old(activeWaits) - 1
      ensures generations == old(generations) && nextWaiterId == old(nextWaiterId)
      ensures wokenUp == (match end case Woken => Some(true) case TimedOut => Some(false) case Cancelled => None)
      ensures wakeCount == old(wakeCount) + if end == Woken then 1 else 0
      ensures timeoutCount == old(timeoutCount) + if end == TimedOut then 1 else 0
      ensures maxActiveWaits == old(maxActiveWaits)
    {
      match end {
        case Woken =>
          wakeCount := wakeCount + 1;
          wokenUp := Some(true);
        case TimedOut =>
          timeoutCount := timeoutCount + 1;
          wokenUp := Some(false);
        case Cancelled =>
          cancelCount := cancelCount + 1;
          wokenUp := None;
      }
      ghost var before := waiters;
      assert before.Keys == (before.Keys - {w}) + {w};
      waiters := waiters - {w};
      assert waiters.Keys == before.Keys - {w};
      woken := woken - {w};
      activeWaits := activeWaits - 1;
    }
  }

  // ---- Polls and committing endpoints ----

  /** A committed job: `notifiedAt` is the generation its notification produced, once it has come. */
  datatype Job = Job(gateway: string, notifiedAt: Option<nat>)

  /** Where a poll stands; `seen` jobs were committed when its last scan ran. */
  datatype Poll =
    | Away
    | Reading(gateway: string)
    | Scanning(gateway: string, generation: nat)
    | Scanned(gateway: string, generation: nat, seen: nat)
    | Asleep(gateway: string, generation: nat, seen: nat, waiter: nat)

  datatype System = System(notifier: NotifierState, jobs: seq<Job>, polls: seq<Poll>)

  datatype Step =
    | Commit(gateway: string)               // a job row is committed by an endpoint that notifies
    | NotifyFor(job: nat)                   // the same endpoint's later notification
    | StrayNotify(gateway: string)          // a notification without a new job (tunnel open and close)
    | Arrive(p: nat, gateway: string)
    | ReadGeneration(p: nat)
    | ScanTable(p: nat)                     // the scan returned no job
    | WaitAfter(p: nat)
    | WakeUp(p: nat)
    | TimeOut(p: nat)
    | Cancel(p: nat)                        // the request of a sleeping poll is cancelled
    | Leave(p: nat)

  ghost predicate Initial(s: System) {
    && s.notifier == NotifierState(map[], 0, map[], {})
    && s.jobs == []
    && forall p | 0 <= p < |s.polls| :: s.polls[p] == Away
  }

  ghost predicate Fires(s: System, step: Step) {
    match step
    case Commit(_) => true
    case NotifyFor(j) => j < |s.jobs| && s.jobs[j].notifiedAt == None
    case StrayNotify(_) => true
    case Arrive(p, _) => p < |s.polls| && s.polls[p].Away?
    case ReadGeneration(p) => p < |s.polls| && s.polls[p].Reading?
    case ScanTable(p) => p < |s.polls| && s.polls[p].Scanning?
    case WaitAfter(p) => p < |s.polls| && s.polls[p].Scanned?
    case WakeUp(p) => p < |s.polls| && s.polls[p].Asleep? && s.polls[p].waiter in s.notifier.woken
    case TimeOut(p) => p < |s.polls| && s.polls[p].Asleep?
    case Cancel(p) => p < |s.polls| && s.polls[p].Asleep?
    case Leave(p) => p < |s.polls| && !s.polls[p].Asleep?
  }

  ghost function NotifierAfter(s: System, step: Step): NotifierState
    requires Fires(s, step)
  {
    match step
    case NotifyFor(j) => s.notifier.Notified(s.jobs[j].gateway)
    case StrayNotify(gateway) => s.notifier.Notified(gateway)
    case WaitAfter(p) => s.notifier.Registered(s.polls[p].gateway, s.polls[p].generation)
    case WakeUp(p) => s.notifier.Unregistered(s.polls[p].waiter)
    case TimeOut(p) => s.notifier.Unregistered(s.polls[p].waiter)
    case Cancel(p) => s.notifier.Unregistered(s.polls[p].waiter)
    case _ => s.notifier
  }

  ghost function JobsAfter(s: System, step: Step): seq<Job>
    requires Fires(s, step)
  {
    match step
    case Commit(gateway) => s.jobs + [Job(gateway, None)]
    case NotifyFor(j) => s.jobs[j := s.jobs[j].(notifiedAt := Some(s.notifier.Generation(s.jobs[j].gateway) + 1))]
    case _ => s.jobs
  }

  ghost function PollsAfter(s: System, step: Step): seq<Poll>
    requires Fires(s, step)
  {
    match step
    case Arrive(p, gateway) => s.polls[p := Reading(gateway)]
    case ReadGeneration(p) => s.polls[p := Scanning(s.polls[p].gateway, s.notifier.Generation(s.polls[p].gateway))]
    case ScanTable(p) =>
      s.polls[p := Scanned(s.polls[p].gateway, s.polls[p].generation, |s.jobs|)]
    case WaitAfter(p) =>
      var poll := s.polls[p];
      if s.notifier.Generation(poll.gateway) != poll.generation then s.polls[p := Reading(poll.gateway)]
      else s.polls[p := Asleep(poll.gateway, poll.generation, poll.seen, s.notifier.nextWaiterId)]
    case WakeUp(p) => s.polls[p := Reading(s.polls[p].gateway)]
    case TimeOut(p) => s.polls[p := Reading(s.polls[p].gateway)]
    case Cancel(p) => s.polls[p := Away]
    case Leave(p) => s.polls[p := Away]
    case _ => s.polls
  }

  ghost function After(s: System, step: Step): System {
    if !Fires(s, step) then s
    else System(NotifierAfter(s, step), JobsAfter(s, step), PollsAfter(s, step))
  }

  ghost function Exec(s: System, steps: seq<Step>): System
    decreases |steps|
  {
    if steps == [] then s else Exec(After(s, steps[0]), steps[1..])
  }

  /** Every job of the gateway that had been notified by generation `g` is among the first `seen`. */
  ghost predicate SawAllUpTo(s: System, gateway: string, g: nat, seen: nat) {
    forall j | 0 <= j < |s.jobs| && s.jobs[j].gateway == gateway && s.jobs[j].notifiedAt.Some? && s.jobs[j].notifiedAt.value <= g ::
      j < seen
  }

  ghost predicate PollInStep(s: System, p: nat)
    requires p < |s.polls|
  {
    match s.polls[p]
    case Away => true
    case Reading(_) => true
    case Scanning(gateway, g) => g <= s.notifier.Generation(gateway)
    case Scanned(gateway, g, seen) =>
      g <= s.notifier.Generation(gateway) && SawAllUpTo(s, gateway, g, seen)
    case Asleep(gateway, g, seen, w) =>
      && w in s.notifier.waiters && s.notifier.waiters[w] == Waiter(gateway, g)
      && SawAllUpTo(s, gateway, g, seen)
  }

  ghost predicate WaiterInStep(n: NotifierState, w: nat)
    requires w in n.waiters
  {
    && w < n.nextWaiterId
    && n.waiters[w].generation <= n.Generation(n.waiters[w].gateway)
    && (w !in n.woken ==> n.waiters[w].generation == n.Generation(n.waiters[w].gateway))
  }

  ghost predicate JobsInStep(s: System) {
    forall j | 0 <= j < |s.jobs| && s.jobs[j].notifiedAt.Some? ::
      s.jobs[j].notifiedAt.value <= s.notifier.Generation(s.jobs[j].gateway)
  }

  ghost predicate NotifierInStep(n: NotifierState) {
    (forall w | w in n.waiters :: WaiterInStep(n, w)) && n.woken <= n.waiters.Keys
  }

  ghost predicate OwnWaiters(s: System) {
    forall p, q | 0 <= p < q < |s.polls| && s.polls[p].Asleep? && s.polls[q].Asleep? ::
      s.polls[p].waiter != s.polls[q].waiter
  }

  ghost predicate Inv(s: System) {
    && JobsInStep(s) && NotifierInStep(s.notifier) && OwnWaiters(s)
    && forall p | 0 <= p < |s.polls| :: PollInStep(s, p)
  }

  lemma GenerationsGrow(s: System, step: Step, gateway: string)
    requires Fires(s, step)
    ensures s.notifier.Generation(gateway) <= NotifierAfter(s, step).Generation(gateway)
  {
  }

  lemma JobsStep(s: System, step: Step)
    requires Fires(s, step) && JobsInStep(s)
    ensures JobsInStep(After(s, step))
  {
    var jobs, n := JobsAfter(s, step), NotifierAfter(s, step);
    forall j | 0 <= j < |jobs| && jobs[j].notifiedAt.Some?
      ensures jobs[j].notifiedAt.value <= n.Generation(jobs[j].gateway)
    {
      GenerationsGrow(s, step, jobs[j].gateway);
      if !(step.NotifyFor? && step.job == j) {
        assert j < |s.jobs| && jobs[j] == s.jobs[j];
      }
    }
  }

  lemma NotifiedInStep(n: NotifierState, gateway: string)
    requires NotifierInStep(n)
    ensures NotifierInStep(n.Notified(gateway))
  {
    forall w | w in n.waiters
      ensures WaiterInStep(n.Notified(gateway), w)
    {
      assert WaiterInStep(n, w);
    }
  }

  lemma RegisteredInStep(n: NotifierState, gateway: string, g: nat)
    requires NotifierInStep(n)
    ensures NotifierInStep(n.Registered(gateway, g))
  {
    var n' := n.Registered(gateway, g);
    forall w | w in n'.waiters
      ensures WaiterInStep(n', w)
    {
      assert w in n.waiters ==> WaiterInStep(n, w);
    }
  }

  lemma UnregisteredInStep(n: NotifierState, w: nat)
    requires NotifierInStep(n)
    ensures NotifierInStep(n.Unregistered(w))
  {
    forall v | v in n.Unregistered(w).waiters
      ensures WaiterInStep(n.Unregistered(w), v)
    {
      assert WaiterInStep(n, v);
    }
  }

  lemma NotifierStep(s: System, step: Step)
    requires Fires(s, step) && NotifierInStep(s.notifier)
    ensures NotifierInStep(NotifierAfter(s, step))
  {
    match step
    case NotifyFor(j) => NotifiedInStep(s.notifier, s.jobs[j].gateway);
    case StrayNotify(gateway) => NotifiedInStep(s.notifier, gateway);
    case WaitAfter(p) => RegisteredInStep(s.notifier, s.polls[p].gateway, s.polls[p].generation);
    case WakeUp(p) => UnregisteredInStep(s.notifier, s.polls[p].waiter);
    case TimeOut(p) => UnregisteredInStep(s.notifier, s.polls[p].waiter);
    case Cancel(p) => UnregisteredInStep(s.notifier, s.polls[p].waiter);
    case _ =>
  }

  lemma OwnWaitersStep(s: System, step: Step)
    requires Fires(s, step) && Inv(s)
    ensures OwnWaiters(After(s, step))
  {
    var polls := PollsAfter(s, step);
    forall p | 0 <= p < |polls| && polls[p].Asleep?
      ensures polls[p] == s.polls[p] || (step == WaitAfter(p) && polls[p].waiter == s.notifier.nextWaiterId)
    {
    }
    forall p | 0 <= p < |s.polls| && s.polls[p].Asleep?
      ensures s.polls[p].waiter < s.notifier.nextWaiterId
    {
      assert PollInStep(s, p) && WaiterInStep(s.notifier, s.polls[p].waiter);
    }
  }

  /** What a poll has seen stays complete: a job notified now gets a later generation. */
  lemma SawAllStep(s: System, step: Step, gateway: string, g: nat, seen: nat)
    requires Fires(s, step) && SawAllUpTo(s, gateway, g, seen) && g <= s.notifier.Generation(gateway)
    ensures SawAllUpTo(After(s, step), gateway, g, seen)
  {
    var jobs := JobsAfter(s, step);
    forall j | 0 <= j < |jobs| && jobs[j].gateway == gateway && jobs[j].notifiedAt.Some? && jobs[j].notifiedAt.value <= g
      ensures j < seen
    {
      assert j < |s.jobs| && s.jobs[j] == jobs[j];
    }
  }

  lemma OtherPollStep(s: System, step: Step, p: nat)
    requires Fires(s, step) && Inv(s) && p < |s.polls| && PollsAfter(s, step)[p] == s.polls[p]
    ensures PollInStep(After(s, step), p)
  {
    var poll := s.polls[p];
    assert PollInStep(s, p);
    if poll.Scanning? || poll.Scanned? || poll.Asleep? {
      GenerationsGrow(s, step, poll.gateway);
    }
    if poll.Asleep? {
      assert WaiterInStep(s.notifier, poll.waiter);
      assert step.WakeUp? || step.TimeOut? || step.Cancel? ==> poll.waiter != s.polls[step.p].waiter;
    }
    if poll.Scanned? || poll.Asleep? {
      SawAllStep(s, step, poll.gateway, poll.generation, poll.seen);
    }
  }

  lemma MovedPollStep(s: System, step: Step, p: nat)
    requires Fires(s, step) && Inv(s) && p < |s.polls| && PollsAfter(s, step)[p] != s.polls[p]
    ensures PollInStep(After(s, step), p)
  {
    assert PollInStep(s, p);
    if step.WaitAfter? {
      SawAllStep(s, step, s.polls[p].gateway, s.polls[p].generation, s.polls[p].seen);
    }
  }

  lemma InvStep(s: System, step: Step)
    requires Inv(s)
    ensures Inv(After(s, step))
  {
    if Fires(s, step) {
      JobsStep(s, step);
      NotifierStep(s, step);
      OwnWaitersStep(s, step);
      forall p | 0 <= p < |PollsAfter(s, step)|
        ensures PollInStep(After(s, step), p)
      {
        if PollsAfter(s, step)[p] == s.polls[p] {
          OtherPollStep(s, step, p);
        } else {
          MovedPollStep(s, step, p);
        }
      }
    }
  }

  lemma {:induction false} InvExec(s: System, steps: seq<Step>)
    requires Inv(s)
    ensures Inv(Exec(s, steps))
    decreases |steps|
  {
    if steps != [] {
      InvStep(s, steps[0]);
      InvExec(After(s, steps[0]), steps[1..]);
    }
  }

  // ---- What every run promises ----

  /** No lost wake-up: a sleeping poll with no wake-up on its way holds the current generation,
      and every committed job of its gateway that its last scan missed has its notification still
      to come. */
  lemma NoLostWakeUp(s: System, steps: seq<Step>, p: nat, j: nat)
    requires Initial(s)
    requires p < |Exec(s, steps).polls| && Exec(s, steps).polls[p].Asleep?
    requires Exec(s, steps).polls[p].waiter !in Exec(s, steps).notifier.woken
    ensures var e := Exec(s, steps); var poll := e.polls[p];
      && poll.waiter in e.notifier.waiters
      && poll.generation == e.notifier.Generation(poll.gateway)
      && (j < |e.jobs| && e.jobs[j].gateway == poll.gateway && j >= poll.seen ==> e.jobs[j].notifiedAt == None)
  {
    InvExec(s, steps);
    var e := Exec(s, steps);
    assert PollInStep(e, p) && WaiterInStep(e.notifier, e.polls[p].waiter);
  }

  ghost function GenerationOf(n: NotifierState, gateway: string): nat {
    if gateway in n.generations then n.generations[gateway] else 0
  }

  /** A poll that is woken, that times out, or that finds a notification in between, reads the current
      generation and sees every job committed by then. */
  lemma PollScansAgain(s: System, p: nat, step: Step)
    requires p < |s.polls| && Fires(s, step)
    requires (step == WakeUp(p) || step == TimeOut(p)) || (step == WaitAfter(p) && s.polls[p].generation != GenerationOf(s.notifier, s.polls[p].gateway))
    ensures var e := After(After(After(s, step), ReadGeneration(p)), ScanTable(p)); var gateway := s.polls[p].gateway;
      && e.polls[p] == Scanned(gateway, GenerationOf(s.notifier, gateway), |s.jobs|) && e.jobs == s.jobs
      && (forall q | 0 <= q < |s.polls| && q != p :: e.polls[q] == s.polls[q])
      && (s.polls[p].Asleep? ==> s.polls[p].waiter !in e.notifier.waiters && s.polls[p].waiter !in e.notifier.woken)
  {
    var one := After(s, step);
    assert one.polls[p] == Reading(s.polls[p].gateway);
    var two := After(one, ReadGeneration(p));
    assert two.polls[p] == Scanning(s.polls[p].gateway, GenerationOf(s.notifier, s.polls[p].gateway));
  }

  /** A poll whose generation is current goes to sleep with a waiter of its own. */
  lemma PollFallsAsleep(s: System, p: nat)
    requires p < |s.polls| && s.polls[p].Scanned? && s.polls[p].generation == GenerationOf(s.notifier, s.polls[p].gateway)
    ensures var e, poll, w := After(s, WaitAfter(p)), s.polls[p], s.notifier.nextWaiterId;
      && e.polls == s.polls[p := Asleep(poll.gateway, poll.generation, poll.seen, w)]
      && e.notifier.waiters == s.notifier.waiters[w := Waiter(poll.gateway, poll.generation)]
      && e.notifier.nextWaiterId == w + 1 && e.notifier.woken == s.notifier.woken && e.notifier.generations == s.notifier.generations
  {
  }

  /** A commit with its notification: the job is there, the generation is one more, and exactly the
      gateway's waiters are woken. */
  lemma CommitAndNotify(s: System, gateway: string)
    ensures var e, now := After(After(s, Commit(gateway)), NotifyFor(|s.jobs|)), GenerationOf(s.notifier, gateway) + 1;
      && e.jobs == s.jobs + [Job(gateway, Some(now))] && e.polls == s.polls
      && e.notifier.generations == s.notifier.generations[gateway := now] && e.notifier.waiters == s.notifier.waiters
      && forall w :: w in e.notifier.woken <==> w in s.notifier.woken || (w in s.notifier.waiters && s.notifier.waiters[w].gateway == gateway)
  {
    assert After(s, Commit(gateway)).jobs == s.jobs + [Job(gateway, None)];
  }

  /** The notification that is still to come does wake the poll. */
  lemma PendingNotificationWakes(s: System, p: nat, j: nat)
    requires Inv(s) && p < |s.polls| && s.polls[p].Asleep?
    requires j < |s.jobs| && s.jobs[j].gateway == s.polls[p].gateway && s.jobs[j].notifiedAt == None
    ensures After(s, NotifyFor(j)).polls[p] == s.polls[p] && Fires(After(s, NotifyFor(j)), WakeUp(p))
  {
    assert PollInStep(s, p);
  }
}
