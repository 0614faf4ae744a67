/** Transition-based fleet alerts (`admin_evaluate_alerts`): a flip of a condition is pending until a
    webhook accepts it, and one evaluation attempts at most a fixed number of deliveries. */
module Alerts {
  import opened Wrappers

  datatype AlertType = GatewayOffline | TrendBacklog

  datatype Key = Key(gateway: string, alertType: AlertType)

  datatype AlertState = AlertState(active: bool, lastTransitionAt: Option<int>, lastNotifiedAt: Option<int>)

  /** What one evaluation found out about a gateway that has sent a heartbeat. */
  datatype Check = Check(gateway: string, offline: bool, stale: bool)

  datatype Condition = Condition(key: Key, active: bool)

  /** One event of the answer; `active` tells the alert from its recovery. */
  datatype Event = Event(key: Key, active: bool, occurredAt: int, delivered: bool)

  /** The surroundings of one evaluation; `accepts` holds the keys whose delivery would succeed. */
  datatype Env = Env(now: int, webhook: bool, cap: nat, accepts: set<Key>)

  datatype Run = Run(states: map<Key, AlertState>, attempts: nat, failures: nat, events: seq<Event>)

  /** In the order of the gateways; a gateway that is offline has no backlog. */
  function Conditions(checks: seq<Check>): (c: seq<Condition>)
    ensures |c| == 2 * |checks|
  {
    if checks == [] then []
    else
      var last := checks[|checks| - 1];
      Conditions(checks[..|checks| - 1]) +
        [Condition(Key(last.gateway, GatewayOffline), last.offline),
         Condition(Key(last.gateway, TrendBacklog), !last.offline && last.stale)]
  }

  ghost predicate DistinctKeys(conditions: seq<Condition>) {
    forall i, j | 0 <= i < j < |conditions| :: conditions[i].key != conditions[j].key
  }

  ghost predicate Mentions(conditions: seq<Condition>, key: Key) {
    exists k :: 0 <= k < |conditions| && conditions[k].key == key
  }

  ghost predicate IsChecked(checks: seq<Check>, gateway: string) {
    exists g :: 0 <= g < |checks| && checks[g].gateway == gateway
  }

  lemma {:induction false} ConditionsAreOfCheckedGateways(checks: seq<Check>, i: nat)
    requires i < |Conditions(checks)|
    ensures IsChecked(checks, Conditions(checks)[i].key.gateway)
  {
    var last := |checks| - 1;
    if i < 2 * last {
      ConditionsAreOfCheckedGateways(checks[..last], i);
      var g :| 0 <= g < last && checks[..last][g].gateway == Conditions(checks)[i].key.gateway;
      assert checks[g].gateway == Conditions(checks)[i].key.gateway;
    } else {
      assert checks[last].gateway == Conditions(checks)[i].key.gateway;
    }
  }

  /** The table of gateways has each of them once. */
  ghost predicate DistinctGateways(checks: seq<Check>) {
    forall i, j | 0 <= i < j < |checks| :: checks[i].gateway != checks[j].gateway
  }

  lemma {:induction false} GatewaysGiveDistinctKeys(checks: seq<Check>)
    requires DistinctGateways(checks)
    ensures DistinctKeys(Conditions(checks))
  {
    if checks != [] {
      var last := |checks| - 1;
      GatewaysGiveDistinctKeys(checks[..last]);
      forall i | 0 <= i < 2 * last
        ensures Conditions(checks)[i].key.gateway != checks[last].gateway
      {
        ConditionsAreOfCheckedGateways(checks[..last], i);
        var g :| 0 <= g < last && checks[..last][g].gateway == Conditions(checks[..last])[i].key.gateway;
      }
    }
  }

  // ---- What an evaluation is to report, in terms of the states before it ----

  /** The condition is not as its state has it; a condition without a state is inactive. */
  predicate Flipped(states: map<Key, AlertState>, c: Condition) {
    c.active != (c.key in states && states[c.key].active)
  }

  /** An earlier flip of the condition has not been delivered yet. */
  predicate Waiting(states: map<Key, AlertState>, c: Condition) {
    c.key in states && states[c.key].lastTransitionAt.Some? && states[c.key].lastNotifiedAt.None?
  }

  /** The event tells of the condition's last flip, which stays to be told exactly if there is a
      webhook and it was not delivered. */
  ghost predicate IsEventOf(e: Event, s: AlertState, c: Condition, env: Env) {
    && e.key == c.key && e.active == c.active && s.lastTransitionAt == Some(e.occurredAt)
    && s.lastNotifiedAt == if env.webhook && !e.delivered then None else Some(env.now)
  }

  /** The condition's state after the evaluation, and its event if it has anything to tell. */
  ghost predicate Reported(states: map<Key, AlertState>, run: Run, c: Condition, env: Env) {
    && c.key in run.states && run.states[c.key].active == c.active
    && (if Flipped(states, c) then run.states[c.key].lastTransitionAt == Some(env.now)
        else if c.key in states then run.states[c.key].lastTransitionAt == states[c.key].lastTransitionAt
        else run.states[c.key].lastTransitionAt == None)
    && if Flipped(states, c) || Waiting(states, c) then exists n :: 0 <= n < |run.events| && IsEventOf(run.events[n], run.states[c.key], c, env)
       else
         && run.states[c.key].lastNotifiedAt == (if c.key in states then states[c.key].lastNotifiedAt else None)
         && forall n | 0 <= n < |run.events| :: run.events[n].key != c.key
  }

  /** One event a condition; with a webhook the first `cap` are attempted, each with the outcome that
      its key has. */
  ghost predicate EventsAttempted(run: Run, env: Env) {
    && (forall m, n | 0 <= m < n < |run.events| :: run.events[m].key != run.events[n].key)
    && (forall n | 0 <= n < |run.events| :: run.events[n].delivered <==> env.webhook && n < env.cap && run.events[n].key in env.accepts)
    && run.attempts <= |run.events| && run.attempts <= env.cap
    && (if env.webhook then run.attempts == |run.events| || run.attempts == env.cap else run.attempts == 0)
    && run.failures == |Failed(run.events, run.attempts)|
  }

  ghost function Failed(events: seq<Event>, attempts: nat): set<nat> {
    set n: nat | n < |events| && n < attempts && !events[n].delivered
  }

  ghost predicate IsCondition(c: Condition, check: Check) {
    || c == Condition(Key(check.gateway, GatewayOffline), check.offline)
    || c == Condition(Key(check.gateway, TrendBacklog), !check.offline && check.stale)
  }

  /** One evaluation: both conditions of every checked gateway are reported, and nothing else is. */
  ghost predicate AllReported(states: map<Key, AlertState>, run: Run, checks: seq<Check>, env: Env) {
    && (forall g, c | 0 <= g < |checks| && IsCondition(c, checks[g]) :: Reported(states, run, c, env))
    && (forall n | 0 <= n < |run.events| :: IsChecked(checks, run.events[n].key.gateway))
    && (forall key: Key | !IsChecked(checks, key.gateway) :: (key in run.states <==> key in states) && (key in states ==> run.states[key] == states[key]))
    && EventsAttempted(run, env)
  }

  // ---- One condition ----

  function StateOf(states: map<Key, AlertState>, key: Key): AlertState {
    if key in states then states[key] else AlertState(false, None, None)
  }

  function Transition(s: AlertState, active: bool, now: int): AlertState {
    if active != s.active then AlertState(active, Some(now), None) else s
  }

  predicate Pending(s: AlertState) {
    s.lastTransitionAt.Some? && s.lastNotifiedAt.None?
  }

  function Processed(run: Run, c: Condition, env: Env): Run {
    var s := Transition(StateOf(run.states, c.key), c.active, env.now);
    if !Pending(s) then run.(states := run.states[c.key := s])
    else
      var attempt := env.webhook && run.attempts < env.cap;
      var delivered := attempt && c.key in env.accepts;
      var s' := if !env.webhook || delivered then s.(lastNotifiedAt := Some(env.now)) else s;
      Run(run.states[c.key := s'],
          run.attempts + (if attempt then 1 else 0),
          run.failures + (if attempt && !delivered then 1 else 0),
          run.events + [Event(c.key, s.active, s.lastTransitionAt.value, delivered)])
  }

  /** What processing one condition changes. */
  ghost predicate IsProcessed(before: Run, after: Run, c: Condition, env: Env) {
    && after.states.Keys == before.states.Keys + {c.key}
    && (forall key | key in before.states && key != c.key :: after.states[key] == before.states[key])
    && after.states[c.key].active == c.active
    && (if Flipped(before.states, c) then after.states[c.key].lastTransitionAt == Some(env.now)
        else if c.key in before.states then after.states[c.key].lastTransitionAt == before.states[c.key].lastTransitionAt
        else after.states[c.key].lastTransitionAt == None)
    && if Flipped(before.states, c) || Waiting(before.states, c) then
         && |after.events| == |before.events| + 1 && after.events[..|before.events|] == before.events
         && IsEventOf(after.events[|before.events|], after.states[c.key], c, env)
         && IsAttempted(before, after, after.events[|before.events|], env)
       else
         && after.states[c.key].lastNotifiedAt == (if c.key in before.states then before.states[c.key].lastNotifiedAt else None)
         && after.events == before.events && after.attempts == before.attempts && after.failures == before.failures
  }

  /** An event is attempted while there is a webhook and the cap is not reached. */
  ghost predicate IsAttempted(before: Run, after: Run, e: Event, env: Env) {
    if env.webhook && before.attempts < env.cap then
      && after.attempts == before.attempts + 1 && (e.delivered <==> e.key in env.accepts)
      && after.failures == before.failures + if e.delivered then 0 else 1
    else !e.delivered && after.attempts == before.attempts && after.failures == before.failures
  }

  lemma ProcessedTells(before: Run, c: Condition, env: Env)
    ensures IsProcessed(before, Processed(before, c, env), c, env)
  {
  }

  function Evaluated(states: map<Key, AlertState>, conditions: seq<Condition>, env: Env): Run {
    if conditions == [] then Run(states, 0, 0, [])
    else
      var last := |conditions| - 1;
      Processed(Evaluated(states, conditions[..last], env), conditions[last], env)
  }

  class AlertEvaluator {
    var states: map<Key, AlertState>
    var attempts: nat
    var failures: nat
    var events: seq<Event>

    constructor (states: map<Key, AlertState>)
      ensures this.states == states
    {
      this.states, attempts, failures, events := states, 0, 0, [];
    }

    function AsRun(): Run
      reads this
    {
      Run(states, attempts, failures, events)
    }

    method Process(key: Key, conditionActive: bool, env: Env)
      modifies this
      ensures AsRun() == Processed(old(AsRun()), Condition(key, conditionActive), env)
    {
      if key !in states {
        states := states[key := AlertState(false, None, None)];
      }
      var state := states[key];
      if conditionActive != state.active {
        state := state.(active := conditionActive, lastTransitionAt := Some(env.now), lastNotifiedAt := None);
        states := states[key := state];
      }
      if state.lastTransitionAt == None || state.lastNotifiedAt != None {
        assert states == old(states)[key := state];
        return;
      }
      var delivered := false;
      if !env.webhook {
        state := state.(lastNotifiedAt := Some(env.now));
      } else if attempts < env.cap {
        attempts := attempts + 1;
        delivered := key in env.accepts;
        if delivered {
          state := state.(lastNotifiedAt := Some(env.now));
        } else {
          failures := failures + 1;
        }
      }
      states := states[key := state];
      assert states == old(states)[key := state];
      events := events + [Event(key, state.active, state.lastTransitionAt.value, delivered)];
    }

    method Evaluate(checks: seq<Check>, env: Env)
      modifies this
      ensures AsRun() == Evaluated(old(states), Conditions(checks), env)
      ensures DistinctGateways(checks) ==> AllReported(old(states), Run(states, attempts, failures, events), checks, env)
    {
      attempts, failures, events := 0, 0, [];
      ghost var before := states;
      for g := 0 to |checks|
        invariant AsRun() == Evaluated(before, Conditions(checks[..g]), env)
      {
        ConditionsNext(before, checks, g, env);
        Process(Key(checks[g].gateway, GatewayOffline), checks[g].offline, env);
        Process(Key(checks[g].gateway, TrendBacklog), !checks[g].offline && checks[g].stale, env);
      }
      assert checks[..|checks|] == checks;
      if DistinctGateways(checks) {
        EvaluationTells(before, checks, env);
      }
    }
  }

  lemma ConditionsNext(states: map<Key, AlertState>, checks: seq<Check>, g: nat, env: Env)
    requires g < |checks|
    ensures Evaluated(states, Conditions(checks[..g + 1]), env) ==
      Processed(
        Processed(Evaluated(states, Conditions(checks[..g]), env), Condition(Key(checks[g].gateway, GatewayOffline), checks[g].offline), env),
        Condition(Key(checks[g].gateway, TrendBacklog), !checks[g].offline && checks[g].stale), env)
  {
    var earlier, all := Conditions(checks[..g]), Conditions(checks[..g + 1]);
    assert checks[..g + 1][..g] == checks[..g];
    var n := |earlier|;
    assert all[..n + 1][..n] == earlier;
    assert all == all[..n + 1] + [all[n + 1]] && all[..|all| - 1] == all[..n + 1];
  }

  // ---- What an evaluation reports ----

  lemma ReportedStays(states: map<Key, AlertState>, before: Run, after: Run, c: Condition, next: Condition, env: Env)
    requires Reported(states, before, c, env) && IsProcessed(before, after, next, env) && next.key != c.key
    ensures Reported(states, after, c, env)
  {
    assert before.events <= after.events;
    if Flipped(states, c) || Waiting(states, c) {
      var n :| 0 <= n < |before.events| && IsEventOf(before.events[n], before.states[c.key], c, env);
      assert after.events[n] == before.events[n];
    }
  }

  lemma ReportedNow(states: map<Key, AlertState>, before: Run, after: Run, c: Condition, env: Env)
    requires IsProcessed(before, after, c, env)
    requires (c.key in before.states <==> c.key in states) && (c.key in states ==> before.states[c.key] == states[c.key])
    requires forall n | 0 <= n < |before.events| :: before.events[n].key != c.key
    ensures Reported(states, after, c, env)
  {
  }

  lemma AttemptedNext(before: Run, after: Run, c: Condition, env: Env)
    requires EventsAttempted(before, env) && IsProcessed(before, after, c, env)
    requires forall n | 0 <= n < |before.events| :: before.events[n].key != c.key
    ensures EventsAttempted(after, env)
  {
    if Flipped(before.states, c) || Waiting(before.states, c) {
      var e := after.events[|before.events|];
      assert after.events == before.events + [e];
      FailedNext(before.events, e, before.attempts, after.attempts);
    }
  }

  lemma FailedNext(events: seq<Event>, e: Event, attempts: nat, now: nat)
    requires now == attempts || now == attempts + 1 == |events| + 1
    requires attempts <= |events|
    ensures |Failed(events + [e], now)| == |Failed(events, attempts)| + if now > attempts && !e.delivered then 1 else 0
  {
    assert Failed(events + [e], now) == Failed(events, attempts) + if now > attempts && !e.delivered then {attempts} else {};
  }

  ghost function KeysOf(conditions: seq<Condition>): set<Key> {
    set c | c in conditions :: c.key
  }

  /** Only the conditions' states change, and only they have events. */
  ghost predicate OnlyReported(states: map<Key, AlertState>, run: Run, keys: set<Key>) {
    && (forall n | 0 <= n < |run.events| :: run.events[n].key in keys)
    && run.states.Keys == states.Keys + keys
    && forall key | key in states && key !in keys :: run.states[key] == states[key]
  }

  lemma OnlyReportedNext(states: map<Key, AlertState>, before: Run, after: Run, keys: set<Key>, c: Condition, env: Env)
    requires OnlyReported(states, before, keys) && IsProcessed(before, after, c, env)
    ensures OnlyReported(states, after, keys + {c.key})
  {
    assert before.events <= after.events;
  }

  /** What holds after the first conditions. */
  ghost predicate ReportedSoFar(states: map<Key, AlertState>, run: Run, conditions: seq<Condition>, env: Env) {
    && (forall k | 0 <= k < |conditions| :: Reported(states, run, conditions[k], env))
    && OnlyReported(states, run, KeysOf(conditions)) && EventsAttempted(run, env)
  }

  lemma ReportedNext(states: map<Key, AlertState>, before: Run, after: Run, earlier: seq<Condition>, c: Condition, env: Env)
    requires ReportedSoFar(states, before, earlier, env) && IsProcessed(before, after, c, env) && c.key !in KeysOf(earlier)
    ensures ReportedSoFar(states, after, earlier + [c], env)
  {
    assert KeysOf(earlier + [c]) == KeysOf(earlier) + {c.key};
    OnlyReportedNext(states, before, after, KeysOf(earlier), c, env);
    AttemptedNext(before, after, c, env);
    ReportedNow(states, before, after, c, env);
    forall k | 0 <= k < |earlier|
      ensures Reported(states, after, earlier[k], env)
    {
      ReportedStays(states, before, after, earlier[k], c, env);
    }
  }

  lemma ProcessedReported(states: map<Key, AlertState>, before: Run, earlier: seq<Condition>, c: Condition, env: Env)
    requires ReportedSoFar(states, before, earlier, env) && forall k | 0 <= k < |earlier| :: earlier[k].key != c.key
    ensures ReportedSoFar(states, Processed(before, c, env), earlier + [c], env)
  {
    ProcessedTells(before, c, env);
    ReportedNext(states, before, Processed(before, c, env), earlier, c, env);
  }

  lemma NothingReported(states: map<Key, AlertState>, env: Env)
    ensures ReportedSoFar(states, Run(states, 0, 0, []), [], env)
  {
    assert Failed([], 0) == {};
  }

  lemma {:induction false} ConditionsReported(states: map<Key, AlertState>, conditions: seq<Condition>, env: Env)
    requires DistinctKeys(conditions)
    ensures ReportedSoFar(states, Evaluated(states, conditions, env), conditions, env)
  {
    if conditions == [] {
      NothingReported(states, env);
    } else {
      var last := |conditions| - 1;
      var before, c := Evaluated(states, conditions[..last], env), conditions[last];
      ConditionsReported(states, conditions[..last], env);
      ProcessedReported(states, before, conditions[..last], c, env);
      assert conditions == conditions[..last] + [c];
    }
  }

  /** Every checked gateway has its two conditions, in the order of the gateways. */
  lemma {:induction false} ConditionsInOrder(checks: seq<Check>, g: nat)
    requires g < |checks|
    ensures Conditions(checks)[2 * g] == Condition(Key(checks[g].gateway, GatewayOffline), checks[g].offline)
    ensures Conditions(checks)[2 * g + 1] == Condition(Key(checks[g].gateway, TrendBacklog), !checks[g].offline && checks[g].stale)
  {
    var last := |checks| - 1;
    if g < last {
      ConditionsInOrder(checks[..last], g);
    }
  }

  /** The whole evaluation, in terms of the checks and the states before it. */
  lemma EvaluationTells(states: map<Key, AlertState>, checks: seq<Check>, env: Env)
    requires DistinctGateways(checks)
    ensures AllReported(states, Evaluated(states, Conditions(checks), env), checks, env)
  {
    var conditions := Conditions(checks);
    var run := Evaluated(states, conditions, env);
    GatewaysGiveDistinctKeys(checks);
    ConditionsReported(states, conditions, env);
    forall g, c | 0 <= g < |checks| && IsCondition(c, checks[g])
      ensures Reported(states, run, c, env)
    {
      ConditionsInOrder(checks, g);
      assert c == conditions[2 * g] || c == conditions[2 * g + 1];
    }
    forall key | key in KeysOf(conditions)
      ensures IsChecked(checks, key.gateway)
    {
      var k :| 0 <= k < |conditions| && conditions[k].key == key;
      ConditionsAreOfCheckedGateways(checks, k);
    }
  }

  // ---- One evaluation, in terms of the states before it ----

  predicate PendingNow(states: map<Key, AlertState>, c: Condition, now: int) {
    Pending(Transition(StateOf(states, c.key), c.active, now))
  }

  /** Pending is what has flipped now and what still waits. */
  lemma PendingIs(states: map<Key, AlertState>, c: Condition, now: int)
    ensures PendingNow(states, c, now) <==> Flipped(states, c) || Waiting(states, c)
  {
  }

  /** How many of the conditions are pending in this evaluation. */
  function PendingCount(states: map<Key, AlertState>, conditions: seq<Condition>, now: int): nat {
    if conditions == [] then 0
    else
      var last := |conditions| - 1;
      PendingCount(states, conditions[..last], now) + if PendingNow(states, conditions[last], now) then 1 else 0
  }

  /** Whether the evaluation attempts to deliver the condition at `k`: it is among the first `cap`
      pending ones. */
  predicate Attempts(states: map<Key, AlertState>, conditions: seq<Condition>, env: Env, k: nat)
    requires k < |conditions|
  {
    env.webhook && PendingNow(states, conditions[k], env.now) && PendingCount(states, conditions[..k], env.now) < env.cap
  }

  predicate Delivers(states: map<Key, AlertState>, conditions: seq<Condition>, env: Env, k: nat)
    requires k < |conditions|
  {
    Attempts(states, conditions, env, k) && conditions[k].key in env.accepts
  }

  function FinalState(states: map<Key, AlertState>, conditions: seq<Condition>, env: Env, k: nat): AlertState
    requires k < |conditions|
  {
    var c := conditions[k];
    var s := Transition(StateOf(states, c.key), c.active, env.now);
    if Pending(s) && (!env.webhook || Delivers(states, conditions, env, k)) then s.(lastNotifiedAt := Some(env.now)) else s
  }

  function Min(a: nat, b: nat): nat { if a < b then a else b }

  /** The loop's result: its attempts are the cap or all that is pending, every condition ends in its
      final state, and no other state changes. */
  lemma {:induction false} EvaluationIs(states: map<Key, AlertState>, conditions: seq<Condition>, env: Env)
    requires DistinctKeys(conditions)
    ensures var run := Evaluated(states, conditions, env);
      && run.attempts == (if env.webhook then Min(env.cap, PendingCount(states, conditions, env.now)) else 0)
      && (forall k | 0 <= k < |conditions| :: StateOf(run.states, conditions[k].key) == FinalState(states, conditions, env, k))
      && (forall key | !Mentions(conditions, key) :: StateOf(run.states, key) == StateOf(states, key))
  {
    if conditions != [] {
      var last := |conditions| - 1;
      var earlier := conditions[..last];
      EvaluationIs(states, earlier, env);
      var was := Evaluated(states, earlier, env);
      assert StateOf(was.states, conditions[last].key) == StateOf(states, conditions[last].key);
      forall k | 0 <= k < last
        ensures FinalState(states, conditions, env, k) == FinalState(states, earlier, env, k)
        ensures conditions[k].key != conditions[last].key
      {
        assert earlier[..k] == conditions[..k];
      }
    }
  }

  /** The places of the pending conditions. */
  function PendingPlaces(states: map<Key, AlertState>, conditions: seq<Condition>, now: int): (places: seq<nat>)
    ensures |places| == PendingCount(states, conditions, now)
    ensures forall n | 0 <= n < |places| :: places[n] < |conditions|
  {
    if conditions == [] then []
    else
      var last := |conditions| - 1;
      PendingPlaces(states, conditions[..last], now) + if PendingNow(states, conditions[last], now) then [last] else []
  }

  ghost predicate ArePlacesOfThePending(places: seq<nat>, states: map<Key, AlertState>, conditions: seq<Condition>, now: int) {
    && (forall m, n | 0 <= m < n < |places| :: places[m] < places[n])
    && (forall n | 0 <= n < |places| :: places[n] < |conditions|)
    && (forall k: nat | k < |conditions| :: k in places <==> PendingNow(states, conditions[k], now))
  }

  lemma PlacesNext(places: seq<nat>, states: map<Key, AlertState>, earlier: seq<Condition>, c: Condition, now: int)
    requires ArePlacesOfThePending(places, states, earlier, now)
    ensures ArePlacesOfThePending(places + if PendingNow(states, c, now) then [|earlier|] else [], states, earlier + [c], now)
  {
    var more := places + if PendingNow(states, c, now) then [|earlier|] else [];
    forall k: nat | k < |earlier + [c]|
      ensures k in more <==> PendingNow(states, (earlier + [c])[k], now)
    {
      assert k < |earlier| ==> (k in more <==> k in places);
    }
  }

  /** They are all of the pending conditions, in their order and each once. */
  lemma {:induction false} PlacesOfThePending(states: map<Key, AlertState>, conditions: seq<Condition>, now: int)
    ensures ArePlacesOfThePending(PendingPlaces(states, conditions, now), states, conditions, now)
  {
    if conditions != [] {
      var last := |conditions| - 1;
      PlacesOfThePending(states, conditions[..last], now);
      PlacesNext(PendingPlaces(states, conditions[..last], now), states, conditions[..last], conditions[last], now);
      assert conditions == conditions[..last] + [conditions[last]];
    }
  }

  /** The event of the condition at `k`: its key, whether it is an alert or a recovery, when the
      condition flipped, and whether the event was delivered. */
  ghost predicate Tells(e: Event, states: map<Key, AlertState>, conditions: seq<Condition>, env: Env, k: nat)
    requires k < |conditions|
  {
    && e.key == conditions[k].key && e.active == conditions[k].active
    && Transition(StateOf(states, e.key), e.active, env.now).lastTransitionAt == Some(e.occurredAt)
    && (e.delivered <==> Delivers(states, conditions, env, k))
  }

  lemma TellsInPrefix(e: Event, states: map<Key, AlertState>, conditions: seq<Condition>, env: Env, last: nat, k: nat)
    requires k < last < |conditions| && Tells(e, states, conditions[..last], env, k)
    ensures Tells(e, states, conditions, env, k)
  {
    assert conditions[..last][..k] == conditions[..k];
  }

  /** The n-th event is that of the n-th pending condition, and there are no others. */
  lemma {:induction false} EventsTellTheConditions(states: map<Key, AlertState>, conditions: seq<Condition>, env: Env)
    requires DistinctKeys(conditions)
    ensures var events, places := Evaluated(states, conditions, env).events, PendingPlaces(states, conditions, env.now);
      |events| == |places| && forall n | 0 <= n < |events| :: Tells(events[n], states, conditions, env, places[n])
  {
    if conditions != [] {
      var last := |conditions| - 1;
      var earlier := conditions[..last];
      EventsTellTheConditions(states, earlier, env);
      EvaluationIs(states, earlier, env);
      assert !Mentions(earlier, conditions[last].key);
      var before, places := Evaluated(states, earlier, env).events, PendingPlaces(states, earlier, env.now);
      forall n | 0 <= n < |before|
        ensures Tells(before[n], states, conditions, env, places[n])
      {
        TellsInPrefix(before[n], states, conditions, env, last, places[n]);
      }
    }
  }

  // ---- Many evaluations ----

  datatype Step = Step(conditions: seq<Condition>, env: Env)

  ghost predicate ValidHistory(history: seq<Step>) {
    forall m | 0 <= m < |history| :: DistinctKeys(history[m].conditions)
  }

  ghost function StatesAfter(states: map<Key, AlertState>, history: seq<Step>): map<Key, AlertState> {
    if history == [] then states
    else
      var last := |history| - 1;
      Evaluated(StatesAfter(states, history[..last]), history[last].conditions, history[last].env).states
  }

  ghost predicate Delivered(states: map<Key, AlertState>, step: Step, key: Key) {
    exists e | e in Evaluated(states, step.conditions, step.env).events :: e.key == key && e.delivered
  }

  ghost predicate Flips(states: map<Key, AlertState>, step: Step, key: Key) {
    exists k :: 0 <= k < |step.conditions| && step.conditions[k].key == key && step.conditions[k].active != StateOf(states, key).active
  }

  ghost predicate DeliveredAt(states: map<Key, AlertState>, history: seq<Step>, m: nat, key: Key)
    requires m < |history|
  {
    Delivered(StatesAfter(states, history[..m]), history[m], key)
  }

  ghost predicate FlipsAt(states: map<Key, AlertState>, history: seq<Step>, m: nat, key: Key)
    requires m < |history|
  {
    Flips(StatesAfter(states, history[..m]), history[m], key)
  }

  lemma StepSettles(states: map<Key, AlertState>, step: Step, key: Key)
    requires DistinctKeys(step.conditions)
    ensures var after := Evaluated(states, step.conditions, step.env).states;
      && (Delivered(states, step, key) ==> !Pending(StateOf(after, key)))
      && (!Pending(StateOf(states, key)) && !Flips(states, step, key) ==>
            !Delivered(states, step, key) && !Pending(StateOf(after, key)))
  {
    var conditions, env := step.conditions, step.env;
    var events := Evaluated(states, conditions, env).events;
    EvaluationIs(states, conditions, env);
    EventsTellTheConditions(states, conditions, env);
    if Delivered(states, step, key) {
      var e :| e in events && e.key == key && e.delivered;
      var n :| 0 <= n < |events| && events[n] == e;
      var k := PendingPlaces(states, conditions, env.now)[n];
      assert Tells(events[n], states, conditions, env, k);
      assert conditions[k].key == key;
    }
    if Mentions(conditions, key) {
      var k :| 0 <= k < |conditions| && conditions[k].key == key;
    }
  }

  /** From a settled state nothing is delivered until the condition flips. */
  lemma {:induction false} NothingToDeliverWithoutAFlip(states: map<Key, AlertState>, history: seq<Step>, key: Key, n: nat, j: nat)
    requires ValidHistory(history) && n <= j < |history|
    requires !Pending(StateOf(StatesAfter(states, history[..n]), key))
    requires forall m | n <= m <= j :: !FlipsAt(states, history, m, key)
    ensures !DeliveredAt(states, history, j, key)
    ensures !Pending(StateOf(StatesAfter(states, history[..j + 1]), key))
    decreases j
  {
    if n < j {
      NothingToDeliverWithoutAFlip(states, history, key, n, j - 1);
    }
    assert history[..j + 1][..j] == history[..j];
    assert !FlipsAt(states, history, j, key);
    StepSettles(StatesAfter(states, history[..j]), history[j], key);
  }

  /** Each flip is delivered at most once: between two deliveries the condition has flipped. */
  lemma EachFlipIsDeliveredAtMostOnce(states: map<Key, AlertState>, history: seq<Step>, key: Key, i: nat, j: nat)
    requires ValidHistory(history) && i < j < |history|
    requires DeliveredAt(states, history, i, key) && DeliveredAt(states, history, j, key)
    ensures exists m :: i < m <= j && FlipsAt(states, history, m, key)
  {
    assert history[..i + 1][..i] == history[..i];
    StepSettles(StatesAfter(states, history[..i]), history[i], key);
    if forall m | i + 1 <= m <= j :: !FlipsAt(states, history, m, key) {
      NothingToDeliverWithoutAFlip(states, history, key, i + 1, j);
    }
  }

  /** Without a webhook every flip is acknowledged at once, so that a webhook configured later is told
      nothing of it. */
  lemma NoWebhookAcknowledges(states: map<Key, AlertState>, conditions: seq<Condition>, env: Env, later: Env)
    requires DistinctKeys(conditions) && !env.webhook
    ensures var after := Evaluated(states, conditions, env).states;
      && (forall e | e in Evaluated(states, conditions, env).events :: !e.delivered)
      && Evaluated(after, conditions, later).attempts == 0
      && Evaluated(after, conditions, later).events == []
  {
    var run := Evaluated(states, conditions, env);
    EvaluationIs(states, conditions, env);
    EventsTellTheConditions(states, conditions, env);
    NoneCounted(run.states, conditions, later.now);
    EvaluationIs(run.states, conditions, later);
    EventsTellTheConditions(run.states, conditions, later);
    forall e | e in run.events
      ensures !e.delivered
    {
      var n :| 0 <= n < |run.events| && run.events[n] == e;
      assert Tells(run.events[n], states, conditions, env, PendingPlaces(states, conditions, env.now)[n]);
    }
  }

  lemma {:induction false} NoneCounted(states: map<Key, AlertState>, conditions: seq<Condition>, now: int)
    requires forall k | 0 <= k < |conditions| :: !PendingNow(states, conditions[k], now)
    ensures PendingCount(states, conditions, now) == 0
  {
    if conditions != [] {
      NoneCounted(states, conditions[..|conditions| - 1], now);
    }
  }

  // ---- Draining ----

  ghost predicate AcceptsAll(env: Env, conditions: seq<Condition>) {
    env.webhook && forall k | 0 <= k < |conditions| :: conditions[k].key in env.accepts
  }

  /** After an evaluation whose deliveries all succeed, what is pending is what the cap left out. */
  lemma {:induction false} CapLeavesTheRest(states: map<Key, AlertState>, conditions: seq<Condition>, env: Env, after: map<Key, AlertState>, now: int)
    requires DistinctKeys(conditions) && AcceptsAll(env, conditions)
    requires forall k | 0 <= k < |conditions| :: StateOf(after, conditions[k].key) == FinalState(states, conditions, env, k)
    ensures PendingCount(after, conditions, now) ==
      PendingCount(states, conditions, env.now) - Min(env.cap, PendingCount(states, conditions, env.now))
  {
    if conditions != [] {
      var last := |conditions| - 1;
      var earlier := conditions[..last];
      forall k | 0 <= k < last
        ensures FinalState(states, earlier, env, k) == FinalState(states, conditions, env, k)
      {
        assert earlier[..k] == conditions[..k];
      }
      CapLeavesTheRest(states, earlier, env, after, now);
      assert StateOf(after, conditions[last].key) == FinalState(states, conditions, env, last);
    }
  }

  /** The states after `j` evaluations of the same conditions, at the times of `envs`. */
  ghost function Repeated(states: map<Key, AlertState>, conditions: seq<Condition>, envs: seq<Env>): map<Key, AlertState> {
    if envs == [] then states
    else
      var last := |envs| - 1;
      Evaluated(Repeated(states, conditions, envs[..last]), conditions, envs[last]).states
  }

  function Less(p: nat, q: nat): nat { if p <= q then 0 else p - q }

  lemma OneMoreRun(p: nat, n: nat, cap: nat)
    ensures Less(p, n * cap) - Min(cap, Less(p, n * cap)) == Less(p, (n + 1) * cap)
  {
    assert (n + 1) * cap == n * cap + cap;
  }

  /** With constant conditions and an accepting webhook, of P pending flips max(0, P - j * cap) are
      pending after j evaluations. */
  lemma {:induction false} PendingDrainsByTheCap(states: map<Key, AlertState>, conditions: seq<Condition>, envs: seq<Env>, cap: nat, first: int, now: int)
    requires DistinctKeys(conditions) && envs != [] && envs[0].now == first
    requires forall j | 0 <= j < |envs| :: envs[j].cap == cap && AcceptsAll(envs[j], conditions)
    ensures PendingCount(Repeated(states, conditions, envs), conditions, now) == Less(PendingCount(states, conditions, first), |envs| * cap)
  {
    var last := |envs| - 1;
    var was := Repeated(states, conditions, envs[..last]);
    EvaluationIs(was, conditions, envs[last]);
    CapLeavesTheRest(was, conditions, envs[last], Repeated(states, conditions, envs), now);
    OneMoreRun(PendingCount(states, conditions, first), last, cap);
    if last == 0 {
      assert was == states;
    } else {
      PendingDrainsByTheCap(states, conditions, envs[..last], cap, first, envs[last].now);
    }
  }
}
