/** The registry of gateway tunnels: requests that wait on futures, responses that resolve them,
    and connections that replace, lose and close each other (`GatewayTunnel`, `TunnelManager`).
    The event loop is single-threaded, so each method is one step of a run. */
module Tunnels {
  import opened Wrappers

  datatype Outcome = Responded(status: int) | RequestFailed | Disconnected | TimedOut

  datatype Message = ErrorMessage | InvalidMessage | ResponseMessage(status: int) {
    function Result(): (r: Outcome)
      ensures if ResponseMessage? then r.Responded? && r.status == status else r.RequestFailed?
    {
      match this
      case ErrorMessage => RequestFailed
      case InvalidMessage => RequestFailed
      case ResponseMessage(status) => Responded(status)
    }
  }

  class PendingFuture {
    const owner: GatewayTunnel   // the connection whose `request` awaits it
    const requestId: nat
    var outcome: Option<Outcome>

    constructor (owner: GatewayTunnel, requestId: nat)
      ensures this.owner == owner && this.requestId == requestId && outcome == None
    {
      this.owner, this.requestId, outcome := owner, requestId, None;
    }
  }

  class GatewayTunnel {
    const gateway: string
    var pending: map<nat, PendingFuture>

    constructor (gateway: string)
      ensures this.gateway == gateway && pending == map[]
    {
      this.gateway, pending := gateway, map[];
    }

    /** Fails what is still undone and forgets everything pending. */
    method FailPending()
      requires forall id | id in pending :: pending[id].requestId == id
      modifies this`pending, pending.Values
      ensures pending == map[]
      ensures forall f | f in old(pending.Values) ::
        f.outcome == if old(f.outcome) == None then Some(Disconnected) else old(f.outcome)
    {
      var todo := pending.Keys;
      while todo != {}
        invariant todo <= pending.Keys
        invariant pending == old(pending)
        invariant forall f | f in pending.Values ::
          f.outcome == if old(f.outcome) == None && f.requestId !in todo then Some(Disconnected) else old(f.outcome)
        decreases todo
      {
        var id :| id in todo;
        var future := pending[id];
        if future.outcome == None {
          future.outcome := Some(Disconnected);
        }
        todo := todo - {id};
      }
      pending := map[];
    }
  }

  class TunnelManager {
    var tunnels: map<string, GatewayTunnel>
    ghost var all: set<GatewayTunnel>        // every connection ever registered
    ghost var futures: set<PendingFuture>    // every future ever created on one of them

    ghost predicate IsRegistered(t: GatewayTunnel)
      reads this
    {
      t.gateway in tunnels && tunnels[t.gateway] == t
    }

    ghost predicate PendingOn(f: PendingFuture, t: GatewayTunnel)
      reads t
    {
      f.owner == t && f.requestId in t.pending && t.pending[f.requestId] == f
    }

    /** An undone future is pending under its own id on its own connection, and that connection,
        unless it is `t`, is the one registered for its gateway. */
    ghost predicate ValidExcept(t: GatewayTunnel?)
      reads this, all, futures
    {
      && (forall g | g in tunnels :: tunnels[g] in all && tunnels[g].gateway == g)
      && (forall f | f in futures :: f.owner in all)
      && (forall u, id | u in all && id in u.pending :: u.pending[id] in futures && PendingOn(u.pending[id], u))
      && (forall u, id | u in all && id in u.pending :: u.pending[id].requestId == id)
      && (forall f | f in futures && f.outcome == None :: PendingOn(f, f.owner) && (f.owner == t || IsRegistered(f.owner)))
    }

    /** A connection with an undone future is the one registered for its gateway. */
    ghost predicate Valid()
      reads this, all, futures
    {
      ValidExcept(null)
    }

    /** What a step does to the futures there were: those of connection `t` that were undone are
        failed, and no other changes. */
    twostate predicate FailsOnly(new t: GatewayTunnel?)
      reads this, futures
    {
      && futures == old(futures)
      && forall f | f in futures ::
           f.outcome == if old(f.outcome) == None && f.owner == t then Some(Disconnected) else old(f.outcome)
    }

    constructor ()
      ensures Valid() && tunnels == map[] && all == {} && futures == {}
    {
      tunnels, all, futures := map[], {}, {};
    }

    /** A new connection takes over the gateway and fails what waited on the old one. */
    method Register(gateway: string) returns (tunnel: GatewayTunnel, existing: GatewayTunnel?)
      requires Valid()
      modifies this, all, futures
      ensures Valid() && FailsOnly(existing)
      ensures fresh(tunnel) && all == old(all) + {tunnel} && tunnel.gateway == gateway
      ensures existing == if gateway in old(tunnels) then old(tunnels)[gateway] else null
      ensures tunnels == old(tunnels)[gateway := tunnel]
    {
      existing := null;
      if gateway in tunnels {
        existing := tunnels[gateway];
        FailTunnel(existing);
      }
      tunnel := new GatewayTunnel(gateway);
      tunnels := tunnels[gateway := tunnel];
      all := all + {tunnel};
    }

    /** `fail_pending` of one connection, seen from the registry. */
    method FailTunnel(tunnel: GatewayTunnel)
      requires ValidExcept(tunnel) && tunnel in all
      modifies all, futures
      ensures Valid() && FailsOnly(tunnel) && tunnel.pending == map[]
      ensures forall f | f in futures && f.owner == tunnel :: f.outcome != None
    {
      assert forall f | f in tunnel.pending.Values :: f in futures && f.owner == tunnel;
      tunnel.FailPending();
    }

    /** A socket that ends unregisters its connection, unless another has taken over. */
    method Unregister(gateway: string, tunnel: GatewayTunnel)
      requires Valid() && tunnel in all
      modifies this, all, futures
      ensures Valid() && all == old(all)
      ensures var current := gateway in old(tunnels) && old(tunnels)[gateway] == tunnel;
        && tunnels == (if current then old(tunnels) - {gateway} else old(tunnels))
        && FailsOnly(if current then tunnel else null)
    {
      if gateway in tunnels && tunnels[gateway] == tunnel {
        FailTunnel(tunnel);
        tunnels := tunnels - {gateway};
      }
    }

    method CloseGateway(gateway: string) returns (closed: bool)
      requires Valid()
      modifies this, all, futures
      ensures Valid() && all == old(all)
      ensures closed <==> gateway in old(tunnels)
      ensures tunnels == old(tunnels) - {gateway}
      ensures FailsOnly(if closed then old(tunnels)[gateway] else null)
    {
      closed := gateway in tunnels;
      if closed {
        var tunnel := tunnels[gateway];
        tunnels := tunnels - {gateway};
        FailTunnel(tunnel);
      }
    }

    /** `get` followed by the first part of `request`, up to its first await. */
    method BeginRequest(gateway: string, requestId: nat) returns (future: PendingFuture?)
      requires Valid()
      requires forall f | f in futures :: f.requestId != requestId
      modifies this`futures, all
      ensures Valid() && all == old(all) && tunnels == old(tunnels)
      ensures future == null <==> gateway !in tunnels
      ensures future == null ==> futures == old(futures)
      ensures future != null ==> fresh(future) && futures == old(futures) + {future}
      ensures future != null ==> future.outcome == None && future.requestId == requestId && future.owner == tunnels[gateway]
    {
      future := null;
      if gateway in tunnels {
        var tunnel := tunnels[gateway];
        future := new PendingFuture(tunnel, requestId);
        tunnel.pending := tunnel.pending[requestId := future];
        futures := futures + {future};
      }
    }

    /** A message on connection `tunnel`: it resolves at most the undone future of that connection
        that has the message's own request id. */
    method ResolveResponse(tunnel: GatewayTunnel, requestId: nat, message: Message) returns (ghost resolved: PendingFuture?)
      requires Valid() && tunnel in all
      modifies futures
      ensures Valid()
      ensures forall f | f in futures && f != resolved :: f.outcome == old(f.outcome)
      ensures resolved != null ==> resolved in futures && resolved.owner == tunnel && resolved.requestId == requestId
      ensures resolved != null ==> old(resolved.outcome) == None && resolved.outcome == Some(message.Result())
      ensures resolved != null <==> requestId in tunnel.pending && old(tunnel.pending[requestId].outcome) == None
    {
      resolved := null;
      if requestId in tunnel.pending && tunnel.pending[requestId].outcome == None {
        var future := tunnel.pending[requestId];
        resolved := future;
        future.outcome := Some(message.Result());
      }
    }

    /** `wait_for` gives up: it cancels a future that is still undone. */
    method TimeOut(future: PendingFuture)
      requires Valid() && future in futures
      modifies future
      ensures Valid()
      ensures future.outcome == if old(future.outcome) == None then Some(TimedOut) else old(future.outcome)
    {
      if future.outcome == None {
        future.outcome := Some(TimedOut);
      }
    }

    /** The `finally` of `request`, once its future is done. */
    method EndRequest(tunnel: GatewayTunnel, requestId: nat)
      requires Valid() && tunnel in all
      requires requestId in tunnel.pending ==> tunnel.pending[requestId].outcome != None
      modifies tunnel`pending
      ensures Valid() && tunnel.pending == old(tunnel.pending) - {requestId}
    {
      tunnel.pending := tunnel.pending - {requestId};
    }
  }

  // ---- Runs ----

  /** One step of the event loop; connections and requests are named by their order of creation. */
  datatype Event =
    | Connect(gateway: string)
    | SocketEnds(conn: nat)
    | CloseRequested(gateway: string)
    | RequestStarts(gateway: string)
    | MessageArrives(conn: nat, requestId: nat, message: Message)
    | RequestTimesOut(request: nat)
    | RequestEnds(request: nat)

  /** Why an event may resolve a future: a message on the future's own connection with its own id,
      its own timeout, or the removal of its connection. */
  ghost predicate MayResolve(e: Event, f: PendingFuture, conns: seq<GatewayTunnel>, requests: seq<PendingFuture>) {
    match e
    case Connect(gateway) => f.owner.gateway == gateway
    case SocketEnds(conn) => conn < |conns| && f.owner == conns[conn]
    case CloseRequested(gateway) => f.owner.gateway == gateway
    case RequestStarts(_) => false
    case MessageArrives(conn, requestId, _) => conn < |conns| && f.owner == conns[conn] && f.requestId == requestId
    case RequestTimesOut(request) => request < |requests| && f == requests[request]
    case RequestEnds(_) => false
  }

  /** What an event makes of the futures that it resolves. */
  function Given(e: Event): Option<Outcome> {
    match e
    case Connect(_) => Some(Disconnected)
    case SocketEnds(_) => Some(Disconnected)
    case CloseRequested(_) => Some(Disconnected)
    case MessageArrives(_, _, message) => Some(message.Result())
    case RequestTimesOut(_) => Some(TimedOut)
    case RequestStarts(_) => None
    case RequestEnds(_) => None
  }

  class EventLoop {
    const manager: TunnelManager
    var conns: seq<GatewayTunnel>
    var requests: seq<PendingFuture>

    ghost predicate Valid()
      reads this, manager, manager.all, manager.futures
    {
      && manager.Valid()
      && (forall c | 0 <= c < |conns| :: conns[c] in manager.all)
      && (forall r | 0 <= r < |requests| :: requests[r] in manager.futures && requests[r].requestId == r)
      && (forall f | f in manager.futures :: f.requestId < |requests| && requests[f.requestId] == f)
    }

    constructor ()
      ensures fresh(manager) && Valid() && conns == [] && requests == []
      ensures manager.all == {} && manager.futures == {}
    {
      manager := new TunnelManager();
      conns, requests := [], [];
    }

    /** What every event promises: no future that is done changes, and of the others exactly those
        that the event may resolve are resolved, with the outcome it gives. */
    twostate predicate Follows(e: Event)
      reads this, manager, manager.futures
    {
      && old(conns) <= conns && old(requests) <= requests
      && old(manager.futures) <= manager.futures
      && (forall f | f in old(manager.futures) && old(f.outcome) != None :: f.outcome == old(f.outcome))
      && (forall f | f in old(manager.futures) && old(f.outcome) == None ::
            f.outcome == if MayResolve(e, f, old(conns), old(requests)) then Given(e) else None)
      && (forall f | f in manager.futures && f !in old(manager.futures) :: f.outcome == None)
    }

    /** Which connection each gateway has afterwards, and which requests there are. */
    twostate predicate Registers(e: Event)
      reads this, manager
    {
      match e
      case Connect(gateway) =>
        && |conns| == |old(conns)| + 1 && conns[|conns| - 1].gateway == gateway && conns[|conns| - 1] !in old(manager.all)
        && manager.tunnels == old(manager.tunnels)[gateway := conns[|conns| - 1]] && requests == old(requests)
      case SocketEnds(conn) =>
        && conns == old(conns) && requests == old(requests)
        && manager.tunnels == if conn < |old(conns)| && old(manager.IsRegistered(conns[conn])) then old(manager.tunnels) - {old(conns)[conn].gateway}
                              else old(manager.tunnels)
      case CloseRequested(gateway) =>
        conns == old(conns) && requests == old(requests) && manager.tunnels == old(manager.tunnels) - {gateway}
      case RequestStarts(gateway) =>
        && conns == old(conns) && manager.tunnels == old(manager.tunnels)
        && if gateway in old(manager.tunnels) then |requests| == |old(requests)| + 1 && requests[|requests| - 1].owner == manager.tunnels[gateway]
           else requests == old(requests)
      case _ =>
        conns == old(conns) && requests == old(requests) && manager.tunnels == old(manager.tunnels)
    }

    method Handle(e: Event)
      requires Valid()
      modifies this, manager, manager.all, manager.futures
      ensures Valid() && Follows(e) && Registers(e)
      ensures fresh(manager.all - old(manager.all)) && fresh(manager.futures - old(manager.futures))
    {
      match e
      case Connect(gateway) =>
        var tunnel, existing := manager.Register(gateway);
        conns := conns + [tunnel];
      case SocketEnds(conn) =>
        if conn < |conns| {
          manager.Unregister(conns[conn].gateway, conns[conn]);
        }
      case CloseRequested(gateway) =>
        var closed := manager.CloseGateway(gateway);
      case RequestStarts(gateway) =>
        StartRequest(gateway);
      case _ =>
        HandleRequest(e);
    }

    method StartRequest(gateway: string)
      requires Valid()
      modifies this, manager, manager.all, manager.futures
      ensures Valid() && Follows(RequestStarts(gateway)) && Registers(RequestStarts(gateway)) && manager.all == old(manager.all)
      ensures fresh(manager.futures - old(manager.futures))
    {
      var future := manager.BeginRequest(gateway, |requests|);
      if future != null {
        requests := requests + [future];
      }
    }

    method HandleRequest(e: Event)
      requires Valid() && (e.MessageArrives? || e.RequestTimesOut? || e.RequestEnds?)
      modifies this, manager, manager.all, manager.futures
      ensures Valid() && Follows(e) && Registers(e) && manager.all == old(manager.all)
      ensures fresh(manager.futures - old(manager.futures))
    {
      match e
      case MessageArrives(conn, requestId, message) =>
        if conn < |conns| {
          ghost var resolved := manager.ResolveResponse(conns[conn], requestId, message);
        }
      case RequestTimesOut(request) =>
        if request < |requests| {
          manager.TimeOut(requests[request]);
        }
      case RequestEnds(request) =>
        if request < |requests| && requests[request].outcome != None {
          manager.EndRequest(requests[request].owner, requests[request].requestId);
        }
    }
  }

  /** Each future in `when` may be resolved by the event whose number it has. */
  ghost predicate Attributed(when: map<PendingFuture, nat>, events: seq<Event>, conns: seq<GatewayTunnel>, requests: seq<PendingFuture>) {
    forall f | f in when :: when[f] < |events| && MayResolve(events[when[f]], f, conns, requests)
  }

  ghost predicate GivenAt(outcome: Option<Outcome>, events: seq<Event>, k: nat) {
    k < |events| && outcome == Given(events[k])
  }

  lemma GivenAtStays(outcome: Option<Outcome>, before: seq<Event>, e: Event, k: nat)
    requires GivenAt(outcome, before, k)
    ensures GivenAt(outcome, before + [e], k)
  {
  }

  /** The futures that are done, each with the number of the one event that resolved it and with the
      outcome which that event gave. */
  ghost predicate Explains(when: map<PendingFuture, nat>, events: seq<Event>, loop: EventLoop)
    reads loop, loop.manager, loop.manager.futures
  {
    && (forall f | f in loop.manager.futures :: f.outcome != None <==> f in when)
    && (forall f | f in loop.manager.futures && f in when :: GivenAt(f.outcome, events, when[f]))
    && Attributed(when, events, loop.conns, loop.requests)
  }

  ghost function Extended(when: map<PendingFuture, nat>, resolved: set<PendingFuture>, k: nat): map<PendingFuture, nat> {
    when + map f | f in resolved :: k
  }

  lemma AttributedNext(when: map<PendingFuture, nat>, before: seq<Event>, e: Event, resolved: set<PendingFuture>,
    conns: seq<GatewayTunnel>, requests: seq<PendingFuture>, conns': seq<GatewayTunnel>, requests': seq<PendingFuture>)
    requires Attributed(when, before, conns, requests) && conns <= conns' && requests <= requests'
    requires forall f | f in resolved :: MayResolve(e, f, conns, requests)
    ensures Attributed(Extended(when, resolved, |before|), before + [e], conns', requests')
  {
    var after, events := Extended(when, resolved, |before|), before + [e];
    forall f | f in after
      ensures after[f] < |events| && MayResolve(events[after[f]], f, conns', requests')
    {
      if f in resolved {
        assert events[|before|] == e;
      } else {
        assert events[when[f]] == before[when[f]];
      }
    }
  }

  /** One event, with the futures that it resolved. */
  method HandleOne(loop: EventLoop, e: Event) returns (ghost resolved: set<PendingFuture>)
    requires loop.Valid()
    modifies loop, loop.manager, loop.manager.all, loop.manager.futures
    ensures loop.Valid() && old(loop.conns) <= loop.conns && old(loop.requests) <= loop.requests
    ensures old(loop.manager.futures) <= loop.manager.futures && resolved <= old(loop.manager.futures)
    ensures forall f | f in old(loop.manager.futures) :: f in resolved <==>
      old(f.outcome) == None && MayResolve(e, f, old(loop.conns), old(loop.requests))
    ensures forall f | f in resolved :: f.outcome != None && f.outcome == Given(e)
    ensures forall f | f in old(loop.manager.futures) && f !in resolved :: f.outcome == old(f.outcome)
    ensures forall f | f in loop.manager.futures && f !in old(loop.manager.futures) :: f.outcome == None
    ensures fresh(loop.manager.all - old(loop.manager.all)) && fresh(loop.manager.futures - old(loop.manager.futures))
  {
    ghost var undone := set f | f in loop.manager.futures && f.outcome == None;
    loop.Handle(e);
    resolved := set f | f in undone && f.outcome != None;
  }

  /** One more event, explained. */
  method HandleNext(loop: EventLoop, e: Event, ghost when: map<PendingFuture, nat>, ghost before: seq<Event>)
    returns (ghost after: map<PendingFuture, nat>)
    requires loop.Valid() && Explains(when, before, loop) && when.Keys <= loop.manager.futures
    modifies loop, loop.manager, loop.manager.all, loop.manager.futures
    ensures loop.Valid() && Explains(after, before + [e], loop) && after.Keys <= loop.manager.futures
    ensures forall f | f in when :: f in after && after[f] == when[f]
    ensures fresh(loop.manager.all - old(loop.manager.all)) && fresh(loop.manager.futures - old(loop.manager.futures))
  {
    ghost var resolved := HandleOne(loop, e);
    AttributedNext(when, before, e, resolved, old(loop.conns), old(loop.requests), loop.conns, loop.requests);
    after := Extended(when, resolved, |before|);
    forall f | f in loop.manager.futures
      ensures f.outcome != None <==> f in after
      ensures f in after ==> GivenAt(f.outcome, before + [e], after[f])
    {
      if f in when {
        assert f.outcome == old(f.outcome);
        GivenAtStays(f.outcome, before, e, when[f]);
      } else {
        assert (before + [e])[|before|] == e;
      }
    }
  }

  /** Any run ends with a valid registry, and every future that is done was resolved by exactly one
      event, a message on its own connection with its own id, its timeout, or the removal of its
      connection, and has the outcome which that event gave. */
  method Drive(events: seq<Event>) returns (loop: EventLoop, ghost when: map<PendingFuture, nat>)
    ensures fresh(loop) && loop.Valid() && Explains(when, events, loop)
    ensures forall f | f in loop.manager.futures && f.outcome == None :: loop.manager.IsRegistered(f.owner)
  {
    loop := new EventLoop();
    when := map[];
    for k := 0 to |events|
      invariant loop.Valid() && fresh(loop) && fresh(loop.manager) && fresh(loop.manager.all) && fresh(loop.manager.futures)
      invariant Explains(when, events[..k], loop) && when.Keys <= loop.manager.futures
    {
      when := HandleNext(loop, events[k], when, events[..k]);
      assert events[..k] + [events[k]] == events[..k + 1];
    }
    assert events[..|events|] == events;
  }
}
