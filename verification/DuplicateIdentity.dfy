/** The suspicion that two machines share a gateway identity, once by a query for one gateway
    (`_duplicate_identity_status`) and once for many with a rank per gateway
    (`_duplicate_identity_statuses`). Rows of equal time may come in any order, so that a query's
    order is any ranking its ORDER BY allows. */
module DuplicateIdentity {
  import opened Wrappers

  datatype Heartbeat = Heartbeat(gateway: string, timestamp: int, machineId: Option<string>, primaryMac: Option<string>,
    hostname: Option<string>, lanIp: Option<string>)

  const LIMIT: nat := 200

  // ---- The verdict on the rows of one gateway ----

  datatype Reason = MachineIds(count: nat) | PrimaryMacs(count: nat) | HostnamesAndIps(hostnames: nat, ips: nat)

  datatype Verdict = NotSuspected | Suspected(reasons: seq<Reason>, hostnames: set<string>, lanIps: set<string>)

  datatype Field = MachineId | PrimaryMac | Hostname | LanIp

  function FieldOf(h: Heartbeat, field: Field): Option<string> {
    match field
    case MachineId => h.machineId
    case PrimaryMac => h.primaryMac
    case Hostname => h.hostname
    case LanIp => h.lanIp
  }

  /** The values that are neither missing nor empty. */
  function Values(rows: seq<Heartbeat>, field: Field): set<string> {
    set h | h in rows && FieldOf(h, field).Some? && FieldOf(h, field).value != "" :: FieldOf(h, field).value
  }

  function VerdictOn(rows: seq<Heartbeat>): Verdict {
    var machines, macs := |Values(rows, MachineId)|, |Values(rows, PrimaryMac)|;
    var hostnames, ips := Values(rows, Hostname), Values(rows, LanIp);
    var hard := (if machines > 1 then [MachineIds(machines)] else []) + (if macs > 1 then [PrimaryMacs(macs)] else []);
    var reasons := if hard == [] && |hostnames| > 1 && |ips| > 1 then [HostnamesAndIps(|hostnames|, |ips|)] else hard;
    if reasons == [] then NotSuspected else Suspected(reasons, hostnames, ips)
  }

  /** Two machine ids or two primary MACs are each a reason; only without either do hostnames and
      addresses count, and then both must differ. */
  ghost predicate IsVerdict(v: Verdict, machines: set<string>, macs: set<string>, hostnames: set<string>, ips: set<string>) {
    match v
    case NotSuspected => |machines| <= 1 && |macs| <= 1 && (|hostnames| <= 1 || |ips| <= 1)
    case Suspected(reasons, names, addresses) =>
      && names == hostnames && addresses == ips
      && if |machines| > 1 then
           reasons == [MachineIds(|machines|)] + if |macs| > 1 then [PrimaryMacs(|macs|)] else []
         else if |macs| > 1 then reasons == [PrimaryMacs(|macs|)]
         else |hostnames| > 1 && |ips| > 1 && reasons == [HostnamesAndIps(|hostnames|, |ips|)]
  }

  /** The verdict on the rows of the gateway, from their non-empty values. */
  ghost predicate TellsOf(v: Verdict, rows: seq<Heartbeat>, gateway: string) {
    var machines := set h | h in rows && h.gateway == gateway && h.machineId.Some? && h.machineId.value != "" :: h.machineId.value;
    var macs := set h | h in rows && h.gateway == gateway && h.primaryMac.Some? && h.primaryMac.value != "" :: h.primaryMac.value;
    var hostnames := set h | h in rows && h.gateway == gateway && h.hostname.Some? && h.hostname.value != "" :: h.hostname.value;
    var ips := set h | h in rows && h.gateway == gateway && h.lanIp.Some? && h.lanIp.value != "" :: h.lanIp.value;
    IsVerdict(v, machines, macs, hostnames, ips)
  }

  lemma VerdictTells(rows: seq<Heartbeat>, all: seq<Heartbeat>, gateway: string)
    requires forall h :: h in rows <==> h in all && h.gateway == gateway
    ensures TellsOf(VerdictOn(rows), all, gateway)
  {
    assert Values(rows, MachineId) == set h | h in all && h.gateway == gateway && h.machineId.Some? && h.machineId.value != "" :: h.machineId.value;
    assert Values(rows, PrimaryMac) == set h | h in all && h.gateway == gateway && h.primaryMac.Some? && h.primaryMac.value != "" :: h.primaryMac.value;
    assert Values(rows, Hostname) == set h | h in all && h.gateway == gateway && h.hostname.Some? && h.hostname.value != "" :: h.hostname.value;
    assert Values(rows, LanIp) == set h | h in all && h.gateway == gateway && h.lanIp.Some? && h.lanIp.value != "" :: h.lanIp.value;
  }

  /** Neither the order nor the number of equal rows matters. */
  lemma VerdictOnSameRows(a: seq<Heartbeat>, b: seq<Heartbeat>)
    requires forall h :: h in a <==> h in b
    ensures VerdictOn(a) == VerdictOn(b)
  {
    assert Values(a, MachineId) == Values(b, MachineId);
    assert Values(a, PrimaryMac) == Values(b, PrimaryMac);
    assert Values(a, Hostname) == Values(b, Hostname);
    assert Values(a, LanIp) == Values(b, LanIp);
  }

  // ---- Rankings ----

  /** The rows, by position in the table, that a query for the gateway looks at. */
  function Recent(table: seq<Heartbeat>, gateway: string, cutoff: int): set<nat> {
    set i: nat | i < |table| && table[i].gateway == gateway && table[i].timestamp >= cutoff
  }

  ghost predicate Distinct(s: seq<nat>) {
    forall p, q | 0 <= p < q < |s| :: s[p] != s[q]
  }

  /** An order that ORDER BY timestamp DESC may give. */
  ghost predicate IsRanking(table: seq<Heartbeat>, gateway: string, cutoff: int, ranking: seq<nat>) {
    && (forall p | 0 <= p < |ranking| :: ranking[p] in Recent(table, gateway, cutoff))
    && (forall i | i in Recent(table, gateway, cutoff) :: i in ranking)
    && Distinct(ranking)
    && (forall p, q | 0 <= p < q < |ranking| :: table[ranking[p]].timestamp >= table[ranking[q]].timestamp)
  }

  function Top(ranking: seq<nat>, limit: nat): seq<nat> {
    if |ranking| <= limit then ranking else ranking[..limit]
  }

  function Newer(table: seq<Heartbeat>, recent: set<nat>, i: nat): set<nat>
    requires i < |table| && forall j | j in recent :: j < |table|
  {
    set j | j in recent && table[j].timestamp > table[i].timestamp
  }

  function NotOlder(table: seq<Heartbeat>, recent: set<nat>, i: nat): set<nat>
    requires i < |table| && forall j | j in recent :: j < |table|
  {
    set j | j in recent && table[j].timestamp >= table[i].timestamp
  }

  /** No two rows of equal time stand on both sides of the limit. */
  predicate NoTieAtTheCut(table: seq<Heartbeat>, gateway: string, cutoff: int, limit: nat) {
    forall i | i in Recent(table, gateway, cutoff) :: !StraddlesTheCut(table, gateway, cutoff, limit, i)
  }

  predicate StraddlesTheCut(table: seq<Heartbeat>, gateway: string, cutoff: int, limit: nat, i: nat)
    requires i < |table|
  {
    var recent := Recent(table, gateway, cutoff);
    |Newer(table, recent, i)| < limit < |NotOlder(table, recent, i)|
  }

  lemma SmallerSet(a: set<nat>, b: set<nat>)
    requires a <= b
    ensures |a| <= |b|
  {
    assert b == a + (b - a);
  }

  function Elements(s: seq<nat>): set<nat> {
    set i | i in s
  }

  lemma {:induction false} DistinctElements(s: seq<nat>)
    requires Distinct(s)
    ensures |Elements(s)| == |s|
  {
    if s != [] {
      var last := |s| - 1;
      DistinctElements(s[..last]);
      assert s == s[..last] + [s[last]];
      assert Elements(s) == Elements(s[..last]) + {s[last]};
    }
  }

  /** A row's place lies between the number of newer rows and the number of those not older. */
  lemma PlaceInRanking(table: seq<Heartbeat>, gateway: string, cutoff: int, ranking: seq<nat>, p: nat)
    requires IsRanking(table, gateway, cutoff, ranking) && p < |ranking|
    ensures var recent := Recent(table, gateway, cutoff);
      |Newer(table, recent, ranking[p])| <= p < |NotOlder(table, recent, ranking[p])|
  {
    var recent, i := Recent(table, gateway, cutoff), ranking[p];
    DistinctElements(ranking[..p]);
    DistinctElements(ranking[..p + 1]);
    forall j | j in Newer(table, recent, i)
      ensures j in Elements(ranking[..p])
    {
      var q :| 0 <= q < |ranking| && ranking[q] == j;
      assert q < p;
      assert ranking[..p][q] == j;
    }
    SmallerSet(Newer(table, recent, i), Elements(ranking[..p]));
    forall j | j in Elements(ranking[..p + 1])
      ensures j in NotOlder(table, recent, i)
    {
      var q :| 0 <= q <= p && ranking[q] == j;
    }
    SmallerSet(Elements(ranking[..p + 1]), NotOlder(table, recent, i));
  }

  lemma TieAround(table: seq<Heartbeat>, gateway: string, cutoff: int, limit: nat, ranking: seq<nat>, i: nat)
    requires IsRanking(table, gateway, cutoff, ranking) && limit > 0 && i in Recent(table, gateway, cutoff)
    requires StraddlesTheCut(table, gateway, cutoff, limit, i)
    ensures limit < |ranking|
    ensures table[ranking[limit - 1]].timestamp == table[i].timestamp == table[ranking[limit]].timestamp
  {
    var recent := Recent(table, gateway, cutoff);
    DistinctElements(ranking);
    SmallerSet(NotOlder(table, recent, i), Elements(ranking));
    DistinctElements(ranking[..limit]);
    if table[ranking[limit - 1]].timestamp > table[i].timestamp {
      forall j | j in Elements(ranking[..limit])
        ensures j in Newer(table, recent, i)
      {
        var q :| 0 <= q < limit && ranking[q] == j;
      }
      SmallerSet(Elements(ranking[..limit]), Newer(table, recent, i));
    }
    if table[ranking[limit]].timestamp < table[i].timestamp {
      forall j | j in NotOlder(table, recent, i)
        ensures j in Elements(ranking[..limit])
      {
        var q :| 0 <= q < |ranking| && ranking[q] == j;
        assert q < limit;
        assert ranking[..limit][q] == j;
      }
      SmallerSet(NotOlder(table, recent, i), Elements(ranking[..limit]));
    }
  }

  lemma TopHolds(ranking: seq<nat>, limit: nat, p: nat)
    requires Distinct(ranking) && p < |ranking|
    ensures ranking[p] in Elements(Top(ranking, limit)) <==> p < limit
  {
    var top := Top(ranking, limit);
    assert forall q | 0 <= q < |top| :: top[q] == ranking[q];
    if p < limit {
      assert top[p] == ranking[p];
    }
  }

  function Selected(table: seq<Heartbeat>, gateway: string, cutoff: int, limit: nat): set<nat> {
    var recent := Recent(table, gateway, cutoff);
    set i | i in recent && |Newer(table, recent, i)| < limit
  }

  /** Without a tie at the cut every ranking selects the rows with fewer than `limit` newer ones. */
  lemma SelectionWithoutATie(table: seq<Heartbeat>, gateway: string, cutoff: int, limit: nat, ranking: seq<nat>)
    requires IsRanking(table, gateway, cutoff, ranking) && NoTieAtTheCut(table, gateway, cutoff, limit)
    ensures Elements(Top(ranking, limit)) == Selected(table, gateway, cutoff, limit)
  {
    var recent, top := Recent(table, gateway, cutoff), Elements(Top(ranking, limit));
    forall i | i in recent
      ensures i in top <==> |Newer(table, recent, i)| < limit
    {
      var p :| 0 <= p < |ranking| && ranking[p] == i;
      PlaceInRanking(table, gateway, cutoff, ranking, p);
      TopHolds(ranking, limit, p);
    }
    TopIsRecent(table, gateway, cutoff, limit, ranking);
  }

  /** Without a tie at the cut the rows selected are the gateway's rows from the cutoff on that have
      fewer than `limit` rows of the gateway newer than them. */
  lemma NewestAreSelected(table: seq<Heartbeat>, gateway: string, cutoff: int, limit: nat, ranking: seq<nat>, i: nat)
    requires IsRanking(table, gateway, cutoff, ranking) && NoTieAtTheCut(table, gateway, cutoff, limit) && i < |table|
    ensures i in Elements(Top(ranking, limit)) <==>
      && table[i].gateway == gateway && table[i].timestamp >= cutoff
      && |set j: nat | j < |table| && table[j].gateway == gateway && table[j].timestamp > table[i].timestamp| < limit
  {
    var recent := Recent(table, gateway, cutoff);
    SelectionWithoutATie(table, gateway, cutoff, limit, ranking);
    if i in recent {
      assert Newer(table, recent, i) == set j: nat | j < |table| && table[j].gateway == gateway && table[j].timestamp > table[i].timestamp;
    }
  }

  lemma TopIsRecent(table: seq<Heartbeat>, gateway: string, cutoff: int, limit: nat, ranking: seq<nat>)
    requires IsRanking(table, gateway, cutoff, ranking)
    ensures Elements(Top(ranking, limit)) <= Recent(table, gateway, cutoff)
  {
    var top := Top(ranking, limit);
    assert forall q | 0 <= q < |top| :: top[q] == ranking[q];
  }

  /** What a ranking selects is the same for all rankings exactly if there is no tie at the cut. */
  lemma SelectionIsUniqueWithoutATie(table: seq<Heartbeat>, gateway: string, cutoff: int, limit: nat, ranking: seq<nat>)
    requires IsRanking(table, gateway, cutoff, ranking) && limit > 0
    ensures NoTieAtTheCut(table, gateway, cutoff, limit) <==>
      forall other | IsRanking(table, gateway, cutoff, other) :: Elements(Top(other, limit)) == Elements(Top(ranking, limit))
  {
    if NoTieAtTheCut(table, gateway, cutoff, limit) {
      SelectionWithoutATie(table, gateway, cutoff, limit, ranking);
      forall other | IsRanking(table, gateway, cutoff, other)
        ensures Elements(Top(other, limit)) == Elements(Top(ranking, limit))
      {
        SelectionWithoutATie(table, gateway, cutoff, limit, other);
      }
    } else {
      var other := OtherSelection(table, gateway, cutoff, limit, ranking);
    }
  }

  lemma OtherSelection(table: seq<Heartbeat>, gateway: string, cutoff: int, limit: nat, ranking: seq<nat>) returns (other: seq<nat>)
    requires IsRanking(table, gateway, cutoff, ranking) && limit > 0 && !NoTieAtTheCut(table, gateway, cutoff, limit)
    ensures IsRanking(table, gateway, cutoff, other) && Elements(Top(other, limit)) != Elements(Top(ranking, limit))
  {
    var i :| i in Recent(table, gateway, cutoff) && StraddlesTheCut(table, gateway, cutoff, limit, i);
    TieAround(table, gateway, cutoff, limit, ranking, i);
    other := Swapped(ranking, limit - 1);
    SwappedIsARanking(table, gateway, cutoff, ranking, limit - 1);
    TopsDiffer(ranking, other, limit);
  }

  lemma TopsDiffer(ranking: seq<nat>, other: seq<nat>, limit: nat)
    requires Distinct(ranking) && Distinct(other) && 0 < limit < |ranking| == |other|
    requires other[limit - 1] == ranking[limit]
    ensures Elements(Top(other, limit)) != Elements(Top(ranking, limit))
  {
    TopHolds(ranking, limit, limit);
    TopHolds(other, limit, limit - 1);
  }

  function Swapped(ranking: seq<nat>, p: nat): seq<nat>
    requires p + 1 < |ranking|
  {
    ranking[p := ranking[p + 1]][p + 1 := ranking[p]]
  }

  lemma SwappedHolds(ranking: seq<nat>, p: nat, q: nat)
    requires p + 1 < |ranking| && q < |ranking|
    ensures SwappedPlace(p, q) < |ranking|
    ensures Swapped(ranking, p)[q] == ranking[SwappedPlace(p, q)] && Swapped(ranking, p)[SwappedPlace(p, q)] == ranking[q]
  {
  }

  lemma SwappedPair(table: seq<Heartbeat>, gateway: string, cutoff: int, ranking: seq<nat>, p: nat, q: nat, r: nat)
    requires IsRanking(table, gateway, cutoff, ranking) && p + 1 < |ranking|
    requires table[ranking[p]].timestamp == table[ranking[p + 1]].timestamp
    requires q < r < |ranking|
    ensures var other := Swapped(ranking, p);
      && other[q] in Recent(table, gateway, cutoff) && other[r] in Recent(table, gateway, cutoff)
      && other[q] != other[r] && table[other[q]].timestamp >= table[other[r]].timestamp
  {
    SwappedHolds(ranking, p, q);
    SwappedHolds(ranking, p, r);
    var q', r' := SwappedPlace(p, q), SwappedPlace(p, r);
    assert q' < r' || (q' == p + 1 && r' == p);
  }

  /** Neighbours of equal time may stand in either order. */
  lemma SwappedIsARanking(table: seq<Heartbeat>, gateway: string, cutoff: int, ranking: seq<nat>, p: nat)
    requires IsRanking(table, gateway, cutoff, ranking) && p + 1 < |ranking|
    requires table[ranking[p]].timestamp == table[ranking[p + 1]].timestamp
    ensures IsRanking(table, gateway, cutoff, Swapped(ranking, p))
  {
    var other := Swapped(ranking, p);
    forall j | j in Recent(table, gateway, cutoff)
      ensures j in other
    {
      var q :| 0 <= q < |ranking| && ranking[q] == j;
      SwappedHolds(ranking, p, q);
    }
    forall q, r | 0 <= q < r < |other|
      ensures other[q] != other[r] && table[other[q]].timestamp >= table[other[r]].timestamp
    {
      SwappedPair(table, gateway, cutoff, ranking, p, q, r);
    }
  }

  function SwappedPlace(p: nat, q: nat): nat {
    if q == p then p + 1 else if q == p + 1 then p else q
  }

  /** Distinct times leave no tie anywhere. */
  lemma DistinctTimesLeaveNoTie(table: seq<Heartbeat>, gateway: string, cutoff: int, limit: nat)
    requires forall i, j | i in Recent(table, gateway, cutoff) && j in Recent(table, gateway, cutoff) && i != j ::
      table[i].timestamp != table[j].timestamp
    ensures NoTieAtTheCut(table, gateway, cutoff, limit)
  {
    var recent := Recent(table, gateway, cutoff);
    forall i | i in recent
      ensures !StraddlesTheCut(table, gateway, cutoff, limit, i)
    {
      assert NotOlder(table, recent, i) == Newer(table, recent, i) + {i};
    }
  }

  // ---- The two queries ----

  function RowsAt(table: seq<Heartbeat>, places: seq<nat>): (rows: seq<Heartbeat>)
    requires forall p | 0 <= p < |places| :: places[p] < |table|
    ensures |rows| == |places|
    ensures forall p | 0 <= p < |rows| :: rows[p] == table[places[p]]
  {
    seq(|places|, p requires 0 <= p < |places| => table[places[p]])
  }

  function RowsOf(rows: seq<Heartbeat>, gateway: string): seq<Heartbeat> {
    if rows == [] then []
    else
      var last := |rows| - 1;
      RowsOf(rows[..last], gateway) + if rows[last].gateway == gateway then [rows[last]] else []
  }

  lemma {:induction false} InRowsOf(rows: seq<Heartbeat>, gateway: string, h: Heartbeat)
    ensures h in RowsOf(rows, gateway) <==> h in rows && h.gateway == gateway
  {
    if rows != [] {
      InRowsOf(rows[..|rows| - 1], gateway, h);
      assert rows == rows[..|rows| - 1] + [rows[|rows| - 1]];
    }
  }

  lemma InRowsAt(table: seq<Heartbeat>, places: seq<nat>, h: Heartbeat)
    requires forall p | 0 <= p < |places| :: places[p] < |table|
    ensures h in RowsAt(table, places) <==> exists i :: i in Elements(places) && table[i] == h
  {
    var rows := RowsAt(table, places);
    if h in rows {
      var p :| 0 <= p < |rows| && rows[p] == h;
      assert places[p] in Elements(places);
    }
    if i :| i in Elements(places) && table[i] == h {
      var p :| 0 <= p < |places| && places[p] == i;
      assert rows[p] == h;
    }
  }

  /** The fetched rows, grouped by gateway, and a verdict for each group. */
  ghost predicate AreStatuses(statuses: map<string, Verdict>, rows: seq<Heartbeat>) {
    && (forall g :: g in statuses <==> RowsOf(rows, g) != [])
    && (forall g | g in statuses :: statuses[g] == VerdictOn(RowsOf(rows, g)))
  }

  /** One entry per gateway that has a row, which tells of all its rows and of no others. */
  ghost predicate StatusesTell(statuses: map<string, Verdict>, rows: seq<Heartbeat>) {
    && (forall g :: g in statuses <==> exists h :: h in rows && h.gateway == g)
    && (forall g | g in statuses :: TellsOf(statuses[g], rows, g))
  }

  lemma StatusesOfRows(statuses: map<string, Verdict>, rows: seq<Heartbeat>)
    requires AreStatuses(statuses, rows)
    ensures StatusesTell(statuses, rows)
  {
    forall g
      ensures RowsOf(rows, g) != [] <==> exists h :: h in rows && h.gateway == g
      ensures forall h :: h in RowsOf(rows, g) <==> h in rows && h.gateway == g
    {
      forall h
        ensures h in RowsOf(rows, g) <==> h in rows && h.gateway == g
      {
        InRowsOf(rows, g, h);
      }
      if RowsOf(rows, g) != [] {
        assert RowsOf(rows, g)[0] in RowsOf(rows, g);
      }
    }
    forall g | g in statuses
      ensures TellsOf(statuses[g], rows, g)
    {
      VerdictTells(RowsOf(rows, g), rows, g);
    }
  }

  method DuplicateIdentityStatuses(rows: seq<Heartbeat>) returns (statuses: map<string, Verdict>)
    ensures AreStatuses(statuses, rows) && StatusesTell(statuses, rows)
  {
    var grouped: map<string, seq<Heartbeat>> := map[];
    for k := 0 to |rows|
      invariant forall g :: g in grouped <==> RowsOf(rows[..k], g) != []
      invariant forall g | g in grouped :: grouped[g] == RowsOf(rows[..k], g)
    {
      var row := rows[k];
      assert rows[..k + 1][..k] == rows[..k];
      grouped := grouped[row.gateway := (if row.gateway in grouped then grouped[row.gateway] else []) + [row]];
    }
    assert rows[..|rows|] == rows;
    statuses := map[];
    var todo := grouped.Keys;
    while todo != {}
      invariant todo <= grouped.Keys && statuses.Keys == grouped.Keys - todo
      invariant forall g | g in statuses :: statuses[g] == VerdictOn(grouped[g])
      decreases todo
    {
      var gateway :| gateway in todo;
      statuses := statuses[gateway := VerdictOn(grouped[gateway])];
      todo := todo - {gateway};
    }
    StatusesOfRows(statuses, rows);
  }

  /** What the batched query may fetch: for each asked gateway the rows of rank at most `limit` of
      some ranking, all of them in any order. */
  ghost predicate MayFetch(table: seq<Heartbeat>, gateways: set<string>, cutoff: int, limit: nat, rankings: map<string, seq<nat>>, fetched: seq<nat>) {
    && rankings.Keys == gateways
    && (forall g | g in gateways :: IsRanking(table, g, cutoff, rankings[g]))
    && (forall i | i in fetched :: exists g :: g in gateways && i in Elements(Top(rankings[g], limit)))
    && (forall g, i | g in gateways && i in Elements(Top(rankings[g], limit)) :: i in fetched)
    && (forall p | 0 <= p < |fetched| :: fetched[p] < |table|)
  }

  lemma SameRow(table: seq<Heartbeat>, gateways: set<string>, cutoff: int, limit: nat, rankings: map<string, seq<nat>>,
    fetched: seq<nat>, g: string, top: seq<nat>, h: Heartbeat)
    requires MayFetch(table, gateways, cutoff, limit, rankings, fetched) && g in gateways
    requires Elements(top) == Elements(Top(rankings[g], limit)) && forall p | 0 <= p < |top| :: top[p] < |table|
    ensures h in RowsOf(RowsAt(table, fetched), g) <==> h in RowsAt(table, top)
  {
    InRowsOf(RowsAt(table, fetched), g, h);
    InRowsAt(table, fetched, h);
    InRowsAt(table, top, h);
    if h in RowsOf(RowsAt(table, fetched), g) {
      var i :| i in Elements(fetched) && table[i] == h;
      FetchedOfGateway(table, gateways, cutoff, limit, rankings, fetched, g, i);
    }
    if h in RowsAt(table, top) {
      var i :| i in Elements(top) && table[i] == h;
      FetchedOfGateway(table, gateways, cutoff, limit, rankings, fetched, g, i);
    }
  }

  /** Without a tie at its cut a gateway gets from the batch the verdict of its own query, also when
      it has no recent heartbeat and so no entry. */
  lemma BatchAgreesWithSingle(table: seq<Heartbeat>, gateways: set<string>, cutoff: int, limit: nat, rankings: map<string, seq<nat>>,
    fetched: seq<nat>, statuses: map<string, Verdict>, g: string, single: seq<nat>)
    requires MayFetch(table, gateways, cutoff, limit, rankings, fetched) && AreStatuses(statuses, RowsAt(table, fetched))
    requires g in gateways && NoTieAtTheCut(table, g, cutoff, limit) && IsRanking(table, g, cutoff, single)
    ensures forall p | 0 <= p < |Top(single, limit)| :: Top(single, limit)[p] < |table|
    ensures (if g in statuses then statuses[g] else NotSuspected) == VerdictOn(RowsAt(table, Top(single, limit)))
  {
    var top := Top(single, limit);
    TopIsRecent(table, g, cutoff, limit, single);
    assert forall p | 0 <= p < |top| :: top[p] in Elements(top);
    SelectionWithoutATie(table, g, cutoff, limit, single);
    SelectionWithoutATie(table, g, cutoff, limit, rankings[g]);
    SameVerdict(table, gateways, cutoff, limit, rankings, fetched, g, top);
    assert VerdictOn([]) == NotSuspected;
  }

  lemma SameVerdict(table: seq<Heartbeat>, gateways: set<string>, cutoff: int, limit: nat, rankings: map<string, seq<nat>>,
    fetched: seq<nat>, g: string, top: seq<nat>)
    requires MayFetch(table, gateways, cutoff, limit, rankings, fetched) && g in gateways
    requires Elements(top) == Elements(Top(rankings[g], limit)) && forall p | 0 <= p < |top| :: top[p] < |table|
    ensures VerdictOn(RowsOf(RowsAt(table, fetched), g)) == VerdictOn(RowsAt(table, top))
  {
    forall h
      ensures h in RowsOf(RowsAt(table, fetched), g) <==> h in RowsAt(table, top)
    {
      SameRow(table, gateways, cutoff, limit, rankings, fetched, g, top, h);
    }
    VerdictOnSameRows(RowsOf(RowsAt(table, fetched), g), RowsAt(table, top));
  }

  lemma FetchedOfGateway(table: seq<Heartbeat>, gateways: set<string>, cutoff: int, limit: nat, rankings: map<string, seq<nat>>,
    fetched: seq<nat>, g: string, i: nat)
    requires MayFetch(table, gateways, cutoff, limit, rankings, fetched) && g in gateways
    ensures i in Elements(fetched) && table[i].gateway == g <==> i in Elements(Top(rankings[g], limit))
  {
    TopIsRecent(table, g, cutoff, limit, rankings[g]);
    if i in Elements(fetched) {
      var owner :| owner in gateways && i in Elements(Top(rankings[owner], limit));
      TopIsRecent(table, owner, cutoff, limit, rankings[owner]);
    }
  }

  // ---- What a tie at the cut can change ----

  /** The rows that every ranking selects. */
  function Sure(table: seq<Heartbeat>, gateway: string, cutoff: int, limit: nat): set<nat> {
    var recent := Recent(table, gateway, cutoff);
    set i | i in recent && |NotOlder(table, recent, i)| <= limit
  }

  /** The rows of the time that straddles the limit, of which a ranking selects some. */
  function Tied(table: seq<Heartbeat>, gateway: string, cutoff: int, limit: nat): set<nat> {
    set i | i in Recent(table, gateway, cutoff) && StraddlesTheCut(table, gateway, cutoff, limit, i)
  }

  lemma NewerIsSure(table: seq<Heartbeat>, gateway: string, cutoff: int, limit: nat, i: nat, j: nat)
    requires i in Tied(table, gateway, cutoff, limit) && j in Recent(table, gateway, cutoff)
    ensures j in Sure(table, gateway, cutoff, limit) <==> table[j].timestamp > table[i].timestamp
    ensures j in Tied(table, gateway, cutoff, limit) <==> table[j].timestamp == table[i].timestamp
  {
    var recent := Recent(table, gateway, cutoff);
    if table[j].timestamp > table[i].timestamp {
      SmallerSet(NotOlder(table, recent, j), Newer(table, recent, i));
    } else if table[j].timestamp < table[i].timestamp {
      SmallerSet(NotOlder(table, recent, i), Newer(table, recent, j));
      SmallerSet(Newer(table, recent, j), NotOlder(table, recent, j));
    } else {
      assert Newer(table, recent, j) == Newer(table, recent, i) && NotOlder(table, recent, j) == NotOlder(table, recent, i);
    }
  }

  lemma TieSurroundsTheCut(table: seq<Heartbeat>, gateway: string, cutoff: int, limit: nat, i: nat)
    requires i in Tied(table, gateway, cutoff, limit)
    ensures |Sure(table, gateway, cutoff, limit)| < limit
    ensures limit < |Sure(table, gateway, cutoff, limit)| + |Tied(table, gateway, cutoff, limit)| <= |Recent(table, gateway, cutoff)|
  {
    var recent, sure, tied := Recent(table, gateway, cutoff), Sure(table, gateway, cutoff, limit), Tied(table, gateway, cutoff, limit);
    forall j | j in recent
      ensures j in sure <==> j in Newer(table, recent, i)
      ensures j in sure + tied <==> j in NotOlder(table, recent, i)
    {
      NewerIsSure(table, gateway, cutoff, limit, i, j);
    }
    assert sure == Newer(table, recent, i) && sure + tied == NotOlder(table, recent, i);
    assert sure !! tied;
    SmallerSet(sure + tied, recent);
  }

  /** What a ranking selects: every sure row, and of the tied ones as many as there is room for. */
  lemma SelectionWithATie(table: seq<Heartbeat>, gateway: string, cutoff: int, limit: nat, ranking: seq<nat>, i: nat)
    requires IsRanking(table, gateway, cutoff, ranking) && i in Tied(table, gateway, cutoff, limit)
    ensures var top := Elements(Top(ranking, limit));
      && Sure(table, gateway, cutoff, limit) <= top <= Sure(table, gateway, cutoff, limit) + Tied(table, gateway, cutoff, limit)
      && |top| == limit
  {
    var recent, top := Recent(table, gateway, cutoff), Elements(Top(ranking, limit));
    TopIsRecent(table, gateway, cutoff, limit, ranking);
    forall j | j in recent
      ensures j in Sure(table, gateway, cutoff, limit) ==> j in top
      ensures j in top ==> j in Sure(table, gateway, cutoff, limit) + Tied(table, gateway, cutoff, limit)
    {
      var p :| 0 <= p < |ranking| && ranking[p] == j;
      PlaceInRanking(table, gateway, cutoff, ranking, p);
      TopHolds(ranking, limit, p);
    }
    TieSurroundsTheCut(table, gateway, cutoff, limit, i);
    DistinctElements(ranking);
    assert Elements(ranking) == recent;
    DistinctElements(Top(ranking, limit));
  }

  ghost predicate NewestFirst(table: seq<Heartbeat>, order: seq<nat>) {
    && (forall p | 0 <= p < |order| :: order[p] < |table|)
    && forall p, q | 0 <= p < q < |order| :: table[order[p]].timestamp >= table[order[q]].timestamp
  }

  lemma {:induction false} Newest(table: seq<Heartbeat>, rows: set<nat>) returns (i: nat)
    requires rows != {} && forall j | j in rows :: j < |table|
    ensures i in rows && forall j | j in rows :: table[i].timestamp >= table[j].timestamp
  {
    i :| i in rows;
    if rows != {i} {
      assert rows - {i} != {};
      var k := Newest(table, rows - {i});
      i := if table[k].timestamp > table[i].timestamp then k else i;
    }
  }

  lemma StartsWith(i: nat, rest: seq<nat>)
    requires Distinct(rest) && i !in Elements(rest)
    ensures Elements([i] + rest) == {i} + Elements(rest) && Distinct([i] + rest)
    ensures forall j | j in rest :: j in Elements(rest)
  {
  }

  /** Every set of rows can be put in order. */
  lemma {:induction false} InSomeOrder(table: seq<Heartbeat>, rows: set<nat>) returns (order: seq<nat>)
    requires forall j | j in rows :: j < |table|
    ensures Elements(order) == rows && Distinct(order) && NewestFirst(table, order)
    decreases |rows|
  {
    if rows == {} {
      order := [];
    } else {
      var i := Newest(table, rows);
      var rest := InSomeOrder(table, rows - {i});
      order := [i] + rest;
      StartsWith(i, rest);
    }
  }

  ghost predicate AllNotOlder(table: seq<Heartbeat>, top: set<nat>, rest: set<nat>) {
    forall j, k | j in top && k in rest :: j < |table| && k < |table| && table[j].timestamp >= table[k].timestamp
  }

  lemma ChosenFirst(table: seq<Heartbeat>, recent: set<nat>, sure: set<nat>, tied: set<nat>, chosen: set<nat>, i: nat)
    requires i < |table| && sure <= recent && chosen <= tied <= recent && forall j | j in recent :: j < |table|
    requires forall j | j in recent :: (j in sure <==> table[j].timestamp > table[i].timestamp)
    requires forall j | j in recent :: (j in tied <==> table[j].timestamp == table[i].timestamp)
    ensures sure !! chosen && AllNotOlder(table, sure + chosen, recent - (sure + chosen))
  {
  }

  /** Any choice of tied rows that fills the room is what some ranking selects. */
  lemma RankingWith(table: seq<Heartbeat>, gateway: string, cutoff: int, limit: nat, chosen: set<nat>, i: nat) returns (ranking: seq<nat>)
    requires i in Tied(table, gateway, cutoff, limit) && chosen <= Tied(table, gateway, cutoff, limit)
    requires |Sure(table, gateway, cutoff, limit)| + |chosen| == limit
    ensures IsRanking(table, gateway, cutoff, ranking)
    ensures Elements(Top(ranking, limit)) == Sure(table, gateway, cutoff, limit) + chosen
  {
    var recent, sure, tied := Recent(table, gateway, cutoff), Sure(table, gateway, cutoff, limit), Tied(table, gateway, cutoff, limit);
    forall j | j in recent
      ensures j in sure <==> table[j].timestamp > table[i].timestamp
      ensures j in tied <==> table[j].timestamp == table[i].timestamp
    {
      NewerIsSure(table, gateway, cutoff, limit, i, j);
    }
    ChosenFirst(table, recent, sure, tied, chosen, i);
    ranking := OneAfterTheOther(table, gateway, cutoff, limit, sure + chosen, recent - (sure + chosen));
  }

  lemma OneAfterTheOther(table: seq<Heartbeat>, gateway: string, cutoff: int, limit: nat, top: set<nat>, rest: set<nat>) returns (ranking: seq<nat>)
    requires top !! rest && top + rest == Recent(table, gateway, cutoff) && AllNotOlder(table, top, rest) && |top| == limit
    ensures IsRanking(table, gateway, cutoff, ranking) && Elements(Top(ranking, limit)) == top
  {
    var recent := Recent(table, gateway, cutoff);
    assert top <= recent && rest <= recent;
    var first := InSomeOrder(table, top);
    var second := InSomeOrder(table, rest);
    DistinctElements(first);
    Joined(table, gateway, cutoff, top, rest, first, second);
    ranking := first + second;
    TopOfJoined(first, second);
  }

  lemma TopOfJoined(first: seq<nat>, second: seq<nat>)
    ensures Top(first + second, |first|) == first
  {
  }

  lemma Joined(table: seq<Heartbeat>, gateway: string, cutoff: int, top: set<nat>, rest: set<nat>, first: seq<nat>, second: seq<nat>)
    requires Distinct(first) && NewestFirst(table, first) && Elements(first) == top
    requires Distinct(second) && NewestFirst(table, second) && Elements(second) == rest
    requires top + rest == Recent(table, gateway, cutoff) && top !! rest
    requires AllNotOlder(table, top, rest)
    ensures IsRanking(table, gateway, cutoff, first + second)
  {
    var ranking := first + second;
    forall p | 0 <= p < |ranking|
      ensures ranking[p] in if p < |first| then top else rest
    {
      assert ranking[p] in if p < |first| then Elements(first) else Elements(second);
    }
    forall i | i in Recent(table, gateway, cutoff)
      ensures i in ranking
    {
      assert i in first || i in second by { assert i in Elements(first) || i in Elements(second); }
    }
  }

  ghost function TopRows(table: seq<Heartbeat>, gateway: string, cutoff: int, limit: nat, ranking: seq<nat>): seq<Heartbeat>
    requires IsRanking(table, gateway, cutoff, ranking)
  {
    TopIsRecent(table, gateway, cutoff, limit, ranking);
    assert forall p | 0 <= p < |Top(ranking, limit)| :: Top(ranking, limit)[p] in Elements(Top(ranking, limit));
    RowsAt(table, Top(ranking, limit))
  }

  predicate Carries(h: Heartbeat, field: Field, value: string) {
    FieldOf(h, field) == Some(value) && value != ""
  }

  function Carriers(table: seq<Heartbeat>, rows: set<nat>, field: Field, value: string): set<nat> {
    set i | i in rows && i < |table| && Carries(table[i], field, value)
  }

  lemma TopCarries(table: seq<Heartbeat>, gateway: string, cutoff: int, limit: nat, ranking: seq<nat>, field: Field, value: string)
    requires IsRanking(table, gateway, cutoff, ranking)
    ensures value in Values(TopRows(table, gateway, cutoff, limit, ranking), field)
      <==> Carriers(table, Elements(Top(ranking, limit)), field, value) != {}
  {
    var rows, top := TopRows(table, gateway, cutoff, limit, ranking), Top(ranking, limit);
    if value in Values(rows, field) {
      var p :| 0 <= p < |rows| && Carries(rows[p], field, value);
      assert top[p] in Carriers(table, Elements(top), field, value);
    }
    if i :| i in Carriers(table, Elements(top), field, value) {
      var p :| 0 <= p < |top| && top[p] == i;
      assert rows[p] in rows && Carries(rows[p], field, value);
    }
  }

  /** Some choice of tied rows leaves the value out: no sure row carries it, and the tied rows that do
      not carry it can fill the room. */
  predicate CanBeLeftOut(table: seq<Heartbeat>, gateway: string, cutoff: int, limit: nat, field: Field, value: string) {
    var sure, tied := Sure(table, gateway, cutoff, limit), Tied(table, gateway, cutoff, limit);
    && Carriers(table, tied, field, value) != {} && Carriers(table, sure, field, value) == {}
    && |sure| + |tied - Carriers(table, tied, field, value)| >= limit
  }

  lemma {:induction false} SubsetOfSize(rows: set<nat>, n: nat) returns (chosen: set<nat>)
    requires n <= |rows|
    ensures chosen <= rows && |chosen| == n
  {
    if n == 0 {
      chosen := {};
    } else {
      var i :| i in rows;
      var rest := SubsetOfSize(rows - {i}, n - 1);
      chosen := rest + {i};
    }
  }

  lemma SelectedWith(table: seq<Heartbeat>, gateway: string, cutoff: int, limit: nat, field: Field, value: string, i: nat) returns (ranking: seq<nat>)
    requires i in Carriers(table, Tied(table, gateway, cutoff, limit), field, value)
    ensures IsRanking(table, gateway, cutoff, ranking)
    ensures value in Values(TopRows(table, gateway, cutoff, limit, ranking), field)
  {
    var sure, tied := Sure(table, gateway, cutoff, limit), Tied(table, gateway, cutoff, limit);
    TieSurroundsTheCut(table, gateway, cutoff, limit, i);
    var some := SubsetOfSize(tied - {i}, limit - |sure| - 1);
    ranking := RankingWith(table, gateway, cutoff, limit, some + {i}, i);
    assert i in Carriers(table, sure + (some + {i}), field, value);
    TopCarries(table, gateway, cutoff, limit, ranking, field, value);
  }

  lemma SelectedWithout(table: seq<Heartbeat>, gateway: string, cutoff: int, limit: nat, field: Field, value: string, i: nat) returns (ranking: seq<nat>)
    requires CanBeLeftOut(table, gateway, cutoff, limit, field, value) && i in Tied(table, gateway, cutoff, limit)
    ensures IsRanking(table, gateway, cutoff, ranking)
    ensures value !in Values(TopRows(table, gateway, cutoff, limit, ranking), field)
  {
    var sure, tied := Sure(table, gateway, cutoff, limit), Tied(table, gateway, cutoff, limit);
    TieSurroundsTheCut(table, gateway, cutoff, limit, i);
    var others := SubsetOfSize(tied - Carriers(table, tied, field, value), limit - |sure|);
    ranking := RankingWith(table, gateway, cutoff, limit, others, i);
    forall c | c in sure + others
      ensures c !in Carriers(table, sure + others, field, value)
    {
      assert c !in Carriers(table, sure, field, value);
    }
    assert Carriers(table, sure + others, field, value) == {};
    TopCarries(table, gateway, cutoff, limit, ranking, field, value);
  }

  /** A value that cannot be left out is selected by every ranking or by none. */
  lemma SelectedByAll(table: seq<Heartbeat>, gateway: string, cutoff: int, limit: nat, field: Field, value: string, ranking: seq<nat>)
    requires IsRanking(table, gateway, cutoff, ranking) && !CanBeLeftOut(table, gateway, cutoff, limit, field, value)
    requires !NoTieAtTheCut(table, gateway, cutoff, limit)
    ensures value in Values(TopRows(table, gateway, cutoff, limit, ranking), field) <==>
      Carriers(table, Sure(table, gateway, cutoff, limit) + Tied(table, gateway, cutoff, limit), field, value) != {}
  {
    var sure, tied, top := Sure(table, gateway, cutoff, limit), Tied(table, gateway, cutoff, limit), Elements(Top(ranking, limit));
    var i :| i in Recent(table, gateway, cutoff) && StraddlesTheCut(table, gateway, cutoff, limit, i);
    assert i in tied;
    SelectionWithATie(table, gateway, cutoff, limit, ranking, i);
    TopCarries(table, gateway, cutoff, limit, ranking, field, value);
    if Carriers(table, top, field, value) == {} && Carriers(table, sure + tied, field, value) != {} {
      MissedIsLeftOut(table, gateway, cutoff, limit, field, value, top);
    } else if c :| c in Carriers(table, top, field, value) {
      assert c in Carriers(table, sure + tied, field, value);
    }
  }

  lemma MissedIsLeftOut(table: seq<Heartbeat>, gateway: string, cutoff: int, limit: nat, field: Field, value: string, top: set<nat>)
    requires var sure, tied := Sure(table, gateway, cutoff, limit), Tied(table, gateway, cutoff, limit);
      && sure <= top <= sure + tied && |top| == limit
      && Carriers(table, top, field, value) == {} && Carriers(table, sure + tied, field, value) != {}
    ensures CanBeLeftOut(table, gateway, cutoff, limit, field, value)
  {
    var sure, tied := Sure(table, gateway, cutoff, limit), Tied(table, gateway, cutoff, limit);
    var c :| c in Carriers(table, sure + tied, field, value);
    forall i | i in sure
      ensures i !in Carriers(table, sure, field, value)
    {
      assert i !in Carriers(table, top, field, value);
    }
    assert c in Carriers(table, tied, field, value);
    var others := tied - Carriers(table, tied, field, value);
    forall i | i in top
      ensures i in sure + others
    {
      assert i !in Carriers(table, top, field, value);
    }
    SmallerSet(top, sure + others);
  }

  ghost predicate SameValues(table: seq<Heartbeat>, gateway: string, cutoff: int, limit: nat, field: Field, a: seq<nat>, b: seq<nat>)
    requires IsRanking(table, gateway, cutoff, a) && IsRanking(table, gateway, cutoff, b)
  {
    Values(TopRows(table, gateway, cutoff, limit, a), field) == Values(TopRows(table, gateway, cutoff, limit, b), field)
  }

  /** All orders of the ties give a field the same values exactly if none of its values can be left out. */
  lemma ValuesAlikeExactly(table: seq<Heartbeat>, gateway: string, cutoff: int, limit: nat, field: Field)
    ensures (forall a, b | IsRanking(table, gateway, cutoff, a) && IsRanking(table, gateway, cutoff, b) ::
               SameValues(table, gateway, cutoff, limit, field, a, b))
      <==> (forall value :: !CanBeLeftOut(table, gateway, cutoff, limit, field, value))
  {
    if value :| CanBeLeftOut(table, gateway, cutoff, limit, field, value) {
      var i :| i in Carriers(table, Tied(table, gateway, cutoff, limit), field, value);
      var with := SelectedWith(table, gateway, cutoff, limit, field, value, i);
      var without := SelectedWithout(table, gateway, cutoff, limit, field, value, i);
      assert !SameValues(table, gateway, cutoff, limit, field, without, with);
    } else {
      forall a, b | IsRanking(table, gateway, cutoff, a) && IsRanking(table, gateway, cutoff, b)
        ensures SameValues(table, gateway, cutoff, limit, field, a, b)
      {
        AlikeFor(table, gateway, cutoff, limit, field, a, b);
      }
    }
  }

  lemma AlikeFor(table: seq<Heartbeat>, gateway: string, cutoff: int, limit: nat, field: Field, a: seq<nat>, b: seq<nat>)
    requires IsRanking(table, gateway, cutoff, a) && IsRanking(table, gateway, cutoff, b)
    requires forall value :: !CanBeLeftOut(table, gateway, cutoff, limit, field, value)
    ensures SameValues(table, gateway, cutoff, limit, field, a, b)
  {
    forall value
      ensures value in Values(TopRows(table, gateway, cutoff, limit, a), field)
        <==> value in Values(TopRows(table, gateway, cutoff, limit, b), field)
    {
      if NoTieAtTheCut(table, gateway, cutoff, limit) {
        SelectionWithoutATie(table, gateway, cutoff, limit, a);
        SelectionWithoutATie(table, gateway, cutoff, limit, b);
        TopCarries(table, gateway, cutoff, limit, a, field, value);
        TopCarries(table, gateway, cutoff, limit, b, field, value);
      } else {
        SelectedByAll(table, gateway, cutoff, limit, field, value, a);
        SelectedByAll(table, gateway, cutoff, limit, field, value, b);
      }
    }
  }

  /** If no value of any field can be left out, every order of the ties comes to one verdict. */
  lemma OneVerdict(table: seq<Heartbeat>, gateway: string, cutoff: int, limit: nat, a: seq<nat>, b: seq<nat>)
    requires IsRanking(table, gateway, cutoff, a) && IsRanking(table, gateway, cutoff, b)
    requires forall field, value :: !CanBeLeftOut(table, gateway, cutoff, limit, field, value)
    ensures VerdictOn(TopRows(table, gateway, cutoff, limit, a)) == VerdictOn(TopRows(table, gateway, cutoff, limit, b))
  {
    forall field: Field
      ensures SameValues(table, gateway, cutoff, limit, field, a, b)
    {
      AlikeFor(table, gateway, cutoff, limit, field, a, b);
    }
    assert SameValues(table, gateway, cutoff, limit, MachineId, a, b) && SameValues(table, gateway, cutoff, limit, PrimaryMac, a, b);
    assert SameValues(table, gateway, cutoff, limit, Hostname, a, b) && SameValues(table, gateway, cutoff, limit, LanIp, a, b);
  }

  // ---- Two verdicts ----

  /** 201 heartbeats of one time, of which one names another machine. */
  function TiedTable(): (table: seq<Heartbeat>)
    ensures |table| == LIMIT + 1
    ensures forall i | 0 <= i <= LIMIT :: table[i] == Heartbeat("gw", 0, Some(if i == LIMIT then "b" else "a"), None, None, None)
  {
    seq(LIMIT + 1, i => Heartbeat("gw", 0, Some(if i == LIMIT then "b" else "a"), None, None, None))
  }

  function InOrder(n: nat): (ranking: seq<nat>)
    ensures |ranking| == n && forall p | 0 <= p < n :: ranking[p] == p
  {
    seq(n, p => p)
  }

  lemma TiedRankings()
    ensures IsRanking(TiedTable(), "gw", 0, InOrder(LIMIT + 1))
    ensures IsRanking(TiedTable(), "gw", 0, Swapped(InOrder(LIMIT + 1), LIMIT - 1))
  {
    var table, first := TiedTable(), InOrder(LIMIT + 1);
    forall i | i in Recent(table, "gw", 0)
      ensures i in first
    {
      assert first[i] == i;
    }
    SwappedIsARanking(table, "gw", 0, first, LIMIT - 1);
  }

  lemma FirstVerdict(rows: seq<Heartbeat>)
    requires |rows| == LIMIT && forall p | 0 <= p < LIMIT :: rows[p] == Heartbeat("gw", 0, Some("a"), None, None, None)
    ensures VerdictOn(rows) == NotSuspected
  {
    OnlyMachines(rows, {"a"}, 0, 0);
  }

  lemma SecondVerdict(rows: seq<Heartbeat>)
    requires |rows| == LIMIT
    requires forall p | 0 <= p < LIMIT :: rows[p] == Heartbeat("gw", 0, Some(if p == LIMIT - 1 then "b" else "a"), None, None, None)
    ensures VerdictOn(rows) == Suspected([MachineIds(2)], {}, {})
  {
    OnlyMachines(rows, {"a", "b"}, 0, LIMIT - 1);
  }

  /** With a tie at the cut two rankings, so the two queries, may come to different verdicts. */
  lemma TieAtTheCutDecides(first: seq<nat>, second: seq<nat>)
    requires first == InOrder(LIMIT + 1) && second == Swapped(first, LIMIT - 1)
    ensures IsRanking(TiedTable(), "gw", 0, first) && IsRanking(TiedTable(), "gw", 0, second)
    ensures VerdictOn(RowsAt(TiedTable(), Top(first, LIMIT))) == NotSuspected
    ensures VerdictOn(RowsAt(TiedTable(), Top(second, LIMIT))) == Suspected([MachineIds(2)], {}, {})
  {
    TiedRankings();
    FirstVerdict(RowsAt(TiedTable(), Top(first, LIMIT)));
    SecondVerdict(RowsAt(TiedTable(), Top(second, LIMIT)));
  }

  /** Rows that name the machines of the rows at `p` and `q` and nothing else. */
  lemma OnlyMachines(rows: seq<Heartbeat>, machines: set<string>, p: nat, q: nat)
    requires p < |rows| && q < |rows|
    requires forall h | h in rows :: h.primaryMac == None && h.hostname == None && h.lanIp == None
    requires forall h | h in rows :: h.machineId.Some? && h.machineId.value in machines && h.machineId.value != ""
    requires machines == {rows[p].machineId.value, rows[q].machineId.value}
    ensures Values(rows, MachineId) == machines
    ensures Values(rows, PrimaryMac) == {} && Values(rows, Hostname) == {} && Values(rows, LanIp) == {}
  {
    assert rows[p] in rows && rows[q] in rows;
  }
}
