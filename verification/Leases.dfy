/** The admission leases of operator-authorised tunnels (`TunnelAllowlist`): a store that drops
    expired leases only when something looks, against the plain map of latest reservations read
    through the filter "expires later than now". Every operation holds the store's lock. */
module Leases {
  import opened Wrappers

  type Leases = map<string, int>

  datatype Op =
    | Reserve(gateway: string, expiry: int, maximum: int)
    | Allow(gateway: string, expiry: int)
    | Allows(gateway: string)
    | Remove(gateway: string)
    | RemoveIfCurrent(gateway: string, expiry: int)
    | ExpiresAt(gateway: string)
    | ActiveCount
    | Clear

  datatype Reply = Done | Flag(value: bool) | Expiry(expiry: Option<int>) | Count(count: nat)

  function Alive(leases: Leases, now: int): Leases {
    map g | g in leases && leases[g] > now :: leases[g]
  }

  /** A gateway that holds a live lease may always extend it; another needs a free place. */
  predicate Grants(live: Leases, gateway: string, maximum: int) {
    gateway in live || (maximum > 0 && |live| < maximum)
  }

  function Lookup(leases: Leases, gateway: string): Option<int> {
    if gateway in leases then Some(leases[gateway]) else None
  }

  // ---- The lazily expiring store ----

  function After(expires: Leases, op: Op, now: int): Leases {
    match op
    case Reserve(gateway, expiry, maximum) =>
      var live := Alive(expires, now);
      if Grants(live, gateway, maximum) then live[gateway := expiry] else live
    case Allow(gateway, expiry) => expires[gateway := expiry]
    case Allows(gateway) => if gateway in expires && expires[gateway] > now then expires else expires - {gateway}
    case Remove(gateway) => expires - {gateway}
    case RemoveIfCurrent(gateway, expiry) =>
      if Lookup(expires, gateway) == Some(expiry) then expires - {gateway} else expires
    case ExpiresAt(_) => Alive(expires, now)
    case ActiveCount => Alive(expires, now)
    case Clear => map[]
  }

  function Answer(expires: Leases, op: Op, now: int): Reply {
    match op
    case Reserve(gateway, _, maximum) => Flag(Grants(Alive(expires, now), gateway, maximum))
    case Allows(gateway) => Flag(gateway in expires && expires[gateway] > now)
    case RemoveIfCurrent(gateway, expiry) => Flag(Lookup(expires, gateway) == Some(expiry))
    case ExpiresAt(gateway) => Expiry(Lookup(Alive(expires, now), gateway))
    case ActiveCount => Count(|Alive(expires, now)|)
    case _ => Done
  }

  class TunnelAllowlist {
    var expires: Leases

    constructor ()
      ensures expires == map[]
    {
      expires := map[];
    }

    /** Drops what has expired. */
    method ExpireLocked(now: int)
      modifies this
      ensures expires == Alive(old(expires), now)
      ensures forall g :: g in expires <==> g in old(expires) && old(expires)[g] > now
      ensures forall g | g in expires :: expires[g] == old(expires)[g]
    {
      var todo := expires.Keys;
      while todo != {}
        invariant todo <= expires.Keys <= old(expires).Keys
        invariant forall g | g in old(expires) :: g in expires <==> g in todo || old(expires)[g] > now
        invariant forall g | g in expires :: expires[g] == old(expires)[g]
        decreases todo
      {
        var gateway :| gateway in todo;
        if expires[gateway] <= now {
          expires := expires - {gateway};
        }
        todo := todo - {gateway};
      }
    }

    method Reserve(gateway: string, expiry: int, maximum: int, now: int) returns (granted: bool)
      modifies this
      ensures expires == After(old(expires), Op.Reserve(gateway, expiry, maximum), now)
      ensures Flag(granted) == Answer(old(expires), Op.Reserve(gateway, expiry, maximum), now)
      ensures granted <==> (gateway in old(expires) && old(expires)[gateway] > now) || |set g | g in old(expires) && old(expires)[g] > now| < maximum
      ensures forall g | g != gateway :: g in expires <==> g in old(expires) && old(expires)[g] > now
      ensures forall g | g != gateway && g in expires :: expires[g] == old(expires)[g]
      ensures if granted then gateway in expires && expires[gateway] == expiry else gateway !in expires
    {
      ExpireLocked(now);
      assert expires.Keys == set g | g in old(expires) && old(expires)[g] > now;
      assert |expires.Keys| == |expires|;
      if gateway !in expires && (maximum <= 0 || |expires| >= maximum) {
        return false;
      }
      expires := expires[gateway := expiry];
      return true;
    }

    method Allow(gateway: string, expiry: int)
      modifies this
      ensures forall now :: expires == After(old(expires), Op.Allow(gateway, expiry), now)
      ensures expires == old(expires)[gateway := expiry]
    {
      expires := expires[gateway := expiry];
    }

    method Allows(gateway: string, now: int) returns (allowed: bool)
      modifies this
      ensures expires == After(old(expires), Op.Allows(gateway), now)
      ensures Flag(allowed) == Answer(old(expires), Op.Allows(gateway), now)
      ensures allowed <==> gateway in old(expires) && old(expires)[gateway] > now
      ensures expires == if allowed then old(expires) else old(expires) - {gateway}
    {
      if gateway !in expires || expires[gateway] <= now {
        expires := expires - {gateway};
        return false;
      }
      return true;
    }

    method Remove(gateway: string)
      modifies this
      ensures forall now :: expires == After(old(expires), Op.Remove(gateway), now)
      ensures expires == old(expires) - {gateway}
    {
      expires := expires - {gateway};
    }

    method RemoveIfCurrent(gateway: string, expiry: int) returns (removed: bool)
      modifies this
      ensures forall now :: expires == After(old(expires), Op.RemoveIfCurrent(gateway, expiry), now)
      ensures forall now :: Flag(removed) == Answer(old(expires), Op.RemoveIfCurrent(gateway, expiry), now)
      ensures removed <==> gateway in old(expires) && old(expires)[gateway] == expiry
      ensures expires == if removed then old(expires) - {gateway} else old(expires)
    {
      if gateway !in expires || expires[gateway] != expiry {
        return false;
      }
      expires := expires - {gateway};
      return true;
    }

    method ExpiresAt(gateway: string, now: int) returns (expiry: Option<int>)
      modifies this
      ensures expires == After(old(expires), Op.ExpiresAt(gateway), now)
      ensures Expiry(expiry) == Answer(old(expires), Op.ExpiresAt(gateway), now)
      ensures expiry == if gateway in old(expires) && old(expires)[gateway] > now then Some(old(expires)[gateway]) else None
      ensures forall g :: g in expires <==> g in old(expires) && old(expires)[g] > now
    {
      ExpireLocked(now);
      expiry := if gateway in expires then Some(expires[gateway]) else None;
    }

    method ActiveCount(now: int) returns (count: nat)
      modifies this
      ensures expires == After(old(expires), Op.ActiveCount, now)
      ensures Count(count) == Answer(old(expires), Op.ActiveCount, now)
      ensures count == |set g | g in old(expires) && old(expires)[g] > now|
      ensures forall g :: g in expires <==> g in old(expires) && old(expires)[g] > now
    {
      ExpireLocked(now);
      assert expires.Keys == set g | g in old(expires) && old(expires)[g] > now;
      assert |expires.Keys| == |expires|;
      count := |expires|;
    }

    method Clear()
      modifies this
      ensures forall now :: expires == After(old(expires), Op.Clear, now)
      ensures expires == map[]
    {
      expires := map[];
    }
  }

  // ---- The simple form: latest reservations, never dropped for being old ----

  function SimpleAfter(latest: Leases, op: Op, now: int): Leases {
    match op
    case Reserve(gateway, expiry, maximum) =>
      if Grants(Alive(latest, now), gateway, maximum) then latest[gateway := expiry] else latest
    case Allow(gateway, expiry) => latest[gateway := expiry]
    case Remove(gateway) => latest - {gateway}
    case RemoveIfCurrent(gateway, expiry) =>
      if Lookup(latest, gateway) == Some(expiry) then latest - {gateway} else latest
    case Clear => map[]
    case _ => latest
  }

  function SimpleAnswer(latest: Leases, op: Op, now: int): Reply {
    match op
    case Reserve(gateway, _, maximum) => Flag(Grants(Alive(latest, now), gateway, maximum))
    case Allows(gateway) => Flag(gateway in Alive(latest, now))
    case RemoveIfCurrent(gateway, expiry) => Flag(Lookup(latest, gateway) == Some(expiry))
    case ExpiresAt(gateway) => Expiry(Lookup(Alive(latest, now), gateway))
    case ActiveCount => Count(|Alive(latest, now)|)
    case _ => Done
  }

  /** The store holds some latest reservations, among them all that are live at `clock`. */
  ghost predicate Refines(expires: Leases, latest: Leases, clock: int) {
    && (forall g | g in expires :: g in latest && expires[g] == latest[g])
    && (forall g | g in latest && latest[g] > clock :: g in expires)
  }

  lemma SameLive(expires: Leases, latest: Leases, clock: int, now: int)
    requires Refines(expires, latest, clock) && clock <= now
    ensures Alive(expires, now) == Alive(latest, now)
  {
  }

  /** An expiry task that comes for the latest lease of its gateway and finds it gone. */
  predicate Preempted(expires: Leases, latest: Leases, op: Op) {
    op.RemoveIfCurrent? && Lookup(latest, op.gateway) == Some(op.expiry) && op.gateway !in expires
  }

  lemma StepRefines(expires: Leases, latest: Leases, clock: int, op: Op, now: int)
    requires Refines(expires, latest, clock) && clock <= now
    ensures Refines(After(expires, op, now), SimpleAfter(latest, op, now), now)
    ensures Answer(expires, op, now) == SimpleAnswer(latest, op, now) <==> !Preempted(expires, latest, op)
  {
    SameLive(expires, latest, clock, now);
  }

  // ---- Runs ----

  datatype Call = Call(op: Op, now: int)

  ghost predicate Monotone(run: seq<Call>) {
    forall i, j | 0 <= i < j < |run| :: run[i].now <= run[j].now
  }

  ghost function Stored(run: seq<Call>): Leases {
    if run == [] then map[] else
      var k := |run| - 1;
      After(Stored(run[..k]), run[k].op, run[k].now)
  }

  ghost function Latest(run: seq<Call>): Leases {
    if run == [] then map[] else
      var k := |run| - 1;
      SimpleAfter(Latest(run[..k]), run[k].op, run[k].now)
  }

  lemma {:induction false} RunRefines(run: seq<Call>, now: int)
    requires Monotone(run) && (run != [] ==> run[|run| - 1].now <= now)
    ensures Refines(Stored(run), Latest(run), now)
  {
    if run != [] {
      var k := |run| - 1;
      RunRefines(run[..k], run[k].now);
      StepRefines(Stored(run[..k]), Latest(run[..k]), run[k].now, run[k].op, run[k].now);
    }
  }

  /** What the clock showed at the last operation that swept `g` since its latest lease was stored. */
  function SweepAfter(sweep: Option<int>, latest: Leases, op: Op, now: int, g: string): Option<int> {
    match op
    case Allow(gateway, _) => if gateway == g then None else sweep
    case Reserve(gateway, _, maximum) =>
      if gateway == g && Grants(Alive(latest, now), g, maximum) then None else Some(now)
    case Allows(gateway) => if gateway == g then Some(now) else sweep
    case ExpiresAt(_) => Some(now)
    case ActiveCount => Some(now)
    case _ => sweep
  }

  ghost function LastSweep(run: seq<Call>, g: string): Option<int> {
    if run == [] then None else
      var k := |run| - 1;
      SweepAfter(LastSweep(run[..k], g), Latest(run[..k]), run[k].op, run[k].now, g)
  }

  /** Some operation looked at the latest lease of `g` after it had expired. */
  ghost predicate SweptAway(run: seq<Call>, g: string)
    requires g in Latest(run)
  {
    Swept(LastSweep(run, g), Latest(run)[g])
  }

  predicate Swept(sweep: Option<int>, expiry: int) {
    sweep.Some? && expiry <= sweep.value
  }

  predicate StoredExactly(expires: Leases, latest: Leases, sweep: Option<int>, g: string) {
    g in expires <==> g in latest && !Swept(sweep, latest[g])
  }

  lemma StepStoresExactly(expires: Leases, latest: Leases, sweep: Option<int>, op: Op, now: int, g: string)
    requires Refines(expires, latest, now) && (sweep.Some? ==> sweep.value <= now)
    requires StoredExactly(expires, latest, sweep, g)
    ensures StoredExactly(After(expires, op, now), SimpleAfter(latest, op, now), SweepAfter(sweep, latest, op, now, g), g)
  {
    SameLive(expires, latest, now, now);
  }

  lemma {:induction false} LastSweepIsPast(run: seq<Call>, g: string, now: int)
    requires Monotone(run) && (run != [] ==> run[|run| - 1].now <= now)
    ensures LastSweep(run, g).Some? ==> LastSweep(run, g).value <= now
  {
    if run != [] {
      var k := |run| - 1;
      LastSweepIsPast(run[..k], g, run[k].now);
    }
  }

  /** The store has dropped a latest lease exactly if some operation saw it expired. */
  lemma {:induction false} StoredUnlessSwept(run: seq<Call>, g: string)
    requires Monotone(run)
    ensures g in Stored(run) <==> g in Latest(run) && !SweptAway(run, g)
  {
    if run != [] {
      var k := |run| - 1;
      var before, op, now := run[..k], run[k].op, run[k].now;
      StoredUnlessSwept(before, g);
      LastSweepIsPast(before, g, now);
      RunRefines(before, now);
      StepStoresExactly(Stored(before), Latest(before), LastSweep(before, g), op, now, g);
    }
  }

  /** In every run on one clock every query is answered as the simple map would answer it; only an
      expiry task misses its own lease, exactly if something saw that lease expired before it. */
  lemma AnswersAgree(run: seq<Call>, op: Op, now: int)
    requires Monotone(run + [Call(op, now)])
    ensures Answer(Stored(run), op, now) == SimpleAnswer(Latest(run), op, now) <==>
      !(op.RemoveIfCurrent? && Lookup(Latest(run), op.gateway) == Some(op.expiry) && SweptAway(run, op.gateway))
  {
    var all := run + [Call(op, now)];
    assert forall i | 0 <= i < |run| :: all[i] == run[i];
    assert all[|run|].now == now;
    RunRefines(run, now);
    StepRefines(Stored(run), Latest(run), now, op, now);
    if op.RemoveIfCurrent? {
      StoredUnlessSwept(run, op.gateway);
    }
  }

  /** The task of a lease that has been renewed removes nothing. */
  lemma SupersededExpiryKeepsTheLease(run: seq<Call>, g: string, earlier: int, now: int)
    requires Monotone(run + [Call(RemoveIfCurrent(g, earlier), now)])
    requires g in Latest(run) && Latest(run)[g] != earlier
    ensures Answer(Stored(run), RemoveIfCurrent(g, earlier), now) == Flag(false)
    ensures Stored(run + [Call(RemoveIfCurrent(g, earlier), now)]) == Stored(run)
  {
    var all := run + [Call(RemoveIfCurrent(g, earlier), now)];
    assert forall i | 0 <= i < |run| :: all[i] == run[i];
    assert all[..|run|] == run && all[|run|].now == now;
    RunRefines(run, now);
  }

  // ---- The bound ----

  function Cap(maximum: int): nat { if maximum > 0 then maximum else 0 }

  /** The operations the service uses, all reservations under one configured maximum. */
  ghost predicate Capped(run: seq<Call>, maximum: int) {
    forall k | 0 <= k < |run| :: !run[k].op.Allow? && (run[k].op.Reserve? ==> run[k].op.maximum == maximum)
  }

  lemma Fewer(part: Leases, whole: Leases)
    requires part.Keys <= whole.Keys
    ensures |part| <= |whole|
  {
    var rest := whole.Keys - part.Keys;
    assert whole.Keys == part.Keys + rest;
    assert |part.Keys| == |part| && |whole.Keys| == |whole|;
  }

  lemma StepBounded(expires: Leases, op: Op, now: int, maximum: int)
    requires |expires| <= Cap(maximum) && !op.Allow? && (op.Reserve? ==> op.maximum == maximum)
    ensures |After(expires, op, now)| <= Cap(maximum)
  {
    var live := Alive(expires, now);
    Fewer(live, expires);
    if op.Reserve? {
      if Grants(live, op.gateway, maximum) && op.gateway in live {
        Fewer(live[op.gateway := op.expiry], live);
      }
    } else if op != ActiveCount && op != Clear && !op.ExpiresAt? {
      Fewer(expires - {op.gateway}, expires);
    }
  }

  /** Neither the stored leases nor the live ones ever exceed the maximum. */
  lemma {:induction false} LeasesBounded(run: seq<Call>, maximum: int, now: int)
    requires Monotone(run) && (run != [] ==> run[|run| - 1].now <= now)
    requires Capped(run, maximum)
    ensures |Stored(run)| <= Cap(maximum)
    ensures |Alive(Latest(run), now)| <= Cap(maximum)
  {
    if run != [] {
      var k := |run| - 1;
      LeasesBounded(run[..k], maximum, run[k].now);
      StepBounded(Stored(run[..k]), run[k].op, run[k].now, maximum);
    }
    RunRefines(run, now);
    Fewer(Alive(Latest(run), now), Stored(run));
  }

  lemma RunThen(run: seq<Call>, call: Call)
    ensures Stored(run + [call]) == After(Stored(run), call.op, call.now)
    ensures Latest(run + [call]) == SimpleAfter(Latest(run), call.op, call.now)
  {
    assert (run + [call])[..|run|] == run;
  }

  lemma ReserveFirst(g: string, expiry: int, now: int)
    requires expiry > now
    ensures Stored([Call(Reserve(g, expiry, 1), now)]) == map[g := expiry]
    ensures Latest([Call(Reserve(g, expiry, 1), now)]) == map[g := expiry]
  {
    var call := Call(Reserve(g, expiry, 1), now);
    RunThen([], call);
    assert [] + [call] == [call];
    assert Alive(map[], now) == map[];
  }

  lemma OverAtItsInstant(g: string, expiry: int)
    ensures Alive(map[g := expiry], expiry) == map[]
  {
  }

  /** A status query at the instant of expiry makes the expiry task miss its lease, so that the task
      does not go on to close the tunnel. */
  lemma ExpiryTaskCanMissItsLease(g: string)
    ensures var run := [Call(Reserve(g, 10, 1), 0), Call(ExpiresAt(g), 10)];
      && Monotone(run)
      && Lookup(Latest(run), g) == Some(10)
      && Answer(Stored(run), RemoveIfCurrent(g, 10), 10) == Flag(false)
  {
    var first, query := [Call(Reserve(g, 10, 1), 0)], Call(ExpiresAt(g), 10);
    ReserveFirst(g, 10, 0);
    RunThen(first, query);
    OverAtItsInstant(g, 10);
    assert first + [query] == [Call(Reserve(g, 10, 1), 0), query];
  }
}
