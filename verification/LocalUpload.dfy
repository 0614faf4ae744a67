/** The mirror upload of the edge's local trend samples: an outbox with retry and quarantine,
    and an uploader that bisects the batches the cloud rejects
    (`upload_pending_local_trend_samples` and its recursive `deliver`). */
module LocalUpload {
  import opened Wrappers
  import opened Retry

  datatype OutboxRow = OutboxRow(eventId: string, sample: nat, uploaded: bool, attempts: nat, nextAttemptAt: Option<int>)

  datatype QuarantineRow = QuarantineRow(eventId: string, httpStatus: int, attempts: nat)

  datatype Store = Store(outbox: seq<OutboxRow>, quarantine: map<nat, QuarantineRow>)

  /** What the uploader's query returned for an outbox row. */
  datatype BatchRow = BatchRow(id: nat, eventId: string, attempts: nat)

  datatype HttpOutcome = Accepted | HttpError(status: int) | NoResponse {
    /** A failure that is worth another try. */
    predicate Retryable() {
      NoResponse? || (HttpError? && (status == 408 || status == 429 || status >= 500))
    }

    predicate Rejected() { HttpError? && !Retryable() }
  }

  /** The answer to the n-th request may depend on n, so the cloud may change its mind. */
  type Server = (nat, seq<BatchRow>) -> HttpOutcome

  datatype Timing = Timing(now: int, retryBase: nat, retryCap: nat)

  // ---- What a delivery does, row by row ----

  datatype Effect =
    | Uploaded(row: BatchRow)
    | Quarantined(row: BatchRow, status: int)
    | Postponed(row: BatchRow, retryAt: int)
  {
    predicate Settled() { !Postponed? }
  }

  function Applied(s: Store, e: Effect): Store {
    if e.row.id >= |s.outbox| then s
    else
      var r := s.outbox[e.row.id];
      match e
      case Uploaded(row) =>
        s.(outbox := s.outbox[row.id := r.(uploaded := true, nextAttemptAt := None)])
      case Quarantined(row, status) =>
        s.(outbox := s.outbox[row.id := r.(attempts := r.attempts + 1)],
           quarantine := s.quarantine[row.id := QuarantineRow(row.eventId, status, row.attempts + 1)])
      case Postponed(row, retryAt) =>
        s.(outbox := s.outbox[row.id := r.(attempts := r.attempts + 1, nextAttemptAt := Some(retryAt))])
  }

  function ApplyAll(s: Store, effects: seq<Effect>): Store {
    if effects == [] then s
    else Applied(ApplyAll(s, effects[..|effects| - 1]), effects[|effects| - 1])
  }

  function MaxAttempts(batch: seq<BatchRow>): (most: nat)
    ensures forall i | 0 <= i < |batch| :: batch[i].attempts <= most
    ensures batch != [] ==> exists i :: 0 <= i < |batch| && batch[i].attempts == most
  {
    if batch == [] then 0
    else
      var m := MaxAttempts(batch[1..]);
      if batch[0].attempts > m then batch[0].attempts else m
  }

  function RetryAt(batch: seq<BatchRow>, t: Timing): int {
    t.now + RetrySeconds(MaxAttempts(batch), t.retryBase, t.retryCap)
  }

  function AllUploaded(batch: seq<BatchRow>): seq<Effect> {
    seq(|batch|, i requires 0 <= i < |batch| => Uploaded(batch[i]))
  }

  function AllPostponed(batch: seq<BatchRow>, retryAt: int): seq<Effect> {
    seq(|batch|, i requires 0 <= i < |batch| => Postponed(batch[i], retryAt))
  }

  /** `aborted` stands for the exception that a retryable failure re-raises. */
  datatype Delivery = Delivery(requests: nat, effects: seq<Effect>, aborted: bool)

  function Deliver(batch: seq<BatchRow>, n: nat, server: Server, t: Timing): Delivery
    requires batch != []
    decreases |batch|, 1
  {
    var outcome := server(n, batch);
    if outcome.Accepted? then
      Delivery(1, AllUploaded(batch), false)
    else if outcome.Retryable() then
      Delivery(1, AllPostponed(batch, RetryAt(batch, t)), true)
    else if |batch| == 1 then
      Delivery(1, [Quarantined(batch[0], outcome.status)], false)
    else
      var halves := Halves(batch, n + 1, server, t);
      halves.(requests := halves.requests + 1)
  }

  /** Both halves in turn; an abort in the first skips the second. */
  function Halves(batch: seq<BatchRow>, n: nat, server: Server, t: Timing): Delivery
    requires |batch| > 1
    decreases |batch|, 0
  {
    var left := Deliver(batch[..|batch| / 2], n, server, t);
    if left.aborted then left
    else
      var right := Deliver(batch[|batch| / 2..], n + left.requests, server, t);
      Delivery(left.requests + right.requests, left.effects + right.effects, right.aborted)
  }

  function CountUploaded(effects: seq<Effect>): nat {
    if effects == [] then 0
    else CountUploaded(effects[..|effects| - 1]) + if effects[|effects| - 1].Uploaded? then 1 else 0
  }

  lemma {:induction false} ApplyAllAppend(s: Store, a: seq<Effect>, b: seq<Effect>)
    ensures ApplyAll(s, a + b) == ApplyAll(ApplyAll(s, a), b)
    ensures CountUploaded(a + b) == CountUploaded(a) + CountUploaded(b)
  {
    if b == [] {
      assert a + b == a;
    } else {
      assert (a + b)[..|a + b| - 1] == a + b[..|b| - 1];
      ApplyAllAppend(s, a, b[..|b| - 1]);
    }
  }

  lemma {:induction false} ApplyAllLength(s: Store, effects: seq<Effect>)
    ensures |ApplyAll(s, effects).outbox| == |s.outbox|
  {
    if effects != [] {
      ApplyAllLength(s, effects[..|effects| - 1]);
    }
  }

  class LocalUploader {
    var outbox: seq<OutboxRow>
    var quarantine: map<nat, QuarantineRow>
    var uploaded: nat
    var requests: nat

    function View(): Store
      reads this
    {
      Store(outbox, quarantine)
    }

    constructor (store: Store)
      ensures View() == store && uploaded == 0 && requests == 0
    {
      outbox, quarantine, uploaded, requests := store.outbox, store.quarantine, 0, 0;
    }

    /** The uploader behind its release gate: with the gate shut nothing is sent and nothing changes. */
    method UploadPending(enabled: bool, o: Offer, limit: nat, server: Server, t: Timing) returns (count: nat, aborted: bool)
      requires requests == 0
      modifies this
      ensures !enabled ==> View() == old(View()) && requests == 0 && count == 0
      ensures enabled ==> View() == UploadOnce(old(View()), o, limit, server, t)
      ensures count == uploaded - old(uploaded) == |NewlyUploaded(old(View()), View())|
    {
      count, aborted := 0, false;
      if !enabled {
        return;
      }
      var batch := OfferedFrom(View(), o, limit, 0);
      if batch == [] {
        return;
      }
      var before := uploaded;
      OfferedProps(View(), o, limit, 0);
      ghost var offered := View();
      aborted := DeliverBatch(batch, server, t);
      count := uploaded - before;
      UploadedCounted(offered, o, limit, server, t);
    }

    /** `deliver`: on return the outbox, the quarantine and the counters are what the delivery of
        the batch by this server makes of them. */
    method DeliverBatch(batch: seq<BatchRow>, server: Server, t: Timing) returns (aborted: bool)
      requires batch != []
      requires forall i | 0 <= i < |batch| :: batch[i].id < |outbox|
      modifies this
      ensures var d := Deliver(batch, old(requests), server, t);
        && View() == ApplyAll(old(View()), d.effects)
        && requests == old(requests) + d.requests
        && uploaded == old(uploaded) + CountUploaded(d.effects)
        && aborted == d.aborted
        && |outbox| == |old(outbox)|
      decreases |batch|, 1
    {
      var outcome := server(requests, batch);
      requests := requests + 1;
      if !outcome.Accepted? {
        if outcome.Retryable() {
          RecordFailure(batch, t);
          return true;
        }
        if |batch| == 1 {
          SetAside(batch[0], outcome.status);
          assert ApplyAll(old(View()), []) == old(View());
          return false;
        }
        aborted := DeliverHalves(batch, server, t);
        return;
      }
      MarkUploaded(batch);
      uploaded := uploaded + |batch|;
      return false;
    }

    /** The two recursive calls: an abort in the first half skips the second. */
    method DeliverHalves(batch: seq<BatchRow>, server: Server, t: Timing) returns (aborted: bool)
      requires |batch| > 1
      requires forall i | 0 <= i < |batch| :: batch[i].id < |outbox|
      modifies this
      ensures var d := Halves(batch, old(requests), server, t);
        && View() == ApplyAll(old(View()), d.effects)
        && requests == old(requests) + d.requests
        && uploaded == old(uploaded) + CountUploaded(d.effects)
        && aborted == d.aborted
        && |outbox| == |old(outbox)|
      decreases |batch|, 0
    {
      var mid := |batch| / 2;
      ghost var start, n := View(), requests;
      ghost var left := Deliver(batch[..mid], n, server, t);
      aborted := DeliverBatch(batch[..mid], server, t);
      if aborted {
        assert Halves(batch, n, server, t) == left;
        return;
      }
      ghost var right := Deliver(batch[mid..], requests, server, t);
      assert Halves(batch, n, server, t) == Delivery(left.requests + right.requests, left.effects + right.effects, right.aborted);
      aborted := DeliverBatch(batch[mid..], server, t);
      ApplyAllAppend(start, left.effects, right.effects);
    }

    method MarkUploaded(batch: seq<BatchRow>)
      requires forall i | 0 <= i < |batch| :: batch[i].id < |outbox|
      modifies this`outbox
      ensures |outbox| == |old(outbox)|
      ensures var effects := AllUploaded(batch);
        View() == ApplyAll(old(View()), effects) && CountUploaded(effects) == |batch|
    {
      ghost var effects := AllUploaded(batch);
      for i := 0 to |batch|
        invariant |outbox| == |old(outbox)|
        invariant View() == ApplyAll(old(View()), effects[..i]) && CountUploaded(effects[..i]) == i
      {
        var id := batch[i].id;
        outbox := outbox[id := outbox[id].(uploaded := true, nextAttemptAt := None)];
        assert effects[..i + 1][..i] == effects[..i];
      }
      assert effects[..|batch|] == effects;
    }

    method RecordFailure(batch: seq<BatchRow>, t: Timing)
      requires forall i | 0 <= i < |batch| :: batch[i].id < |outbox|
      modifies this`outbox
      ensures |outbox| == |old(outbox)|
      ensures var effects := AllPostponed(batch, RetryAt(batch, t));
        View() == ApplyAll(old(View()), effects) && CountUploaded(effects) == 0
    {
      var retryAt := RetryAt(batch, t);
      ghost var effects := AllPostponed(batch, RetryAt(batch, t));
      for i := 0 to |batch|
        invariant |outbox| == |old(outbox)|
        invariant View() == ApplyAll(old(View()), effects[..i]) && CountUploaded(effects[..i]) == 0
      {
        var id := batch[i].id;
        outbox := outbox[id := outbox[id].(attempts := outbox[id].attempts + 1, nextAttemptAt := Some(retryAt))];
        assert effects[..i + 1][..i] == effects[..i];
      }
      assert effects[..|batch|] == effects;
    }

    method SetAside(row: BatchRow, status: int)
      requires row.id < |outbox|
      modifies this`outbox, this`quarantine
      ensures |outbox| == |old(outbox)|
      ensures View() == Applied(old(View()), Quarantined(row, status))
    {
      quarantine := quarantine[row.id := QuarantineRow(row.eventId, status, row.attempts + 1)];
      outbox := outbox[row.id := outbox[row.id].(attempts := outbox[row.id].attempts + 1)];
    }
  }

  // ---- What an arbitrary cloud can make of a batch ----

  /** Effect by effect, the rows of the batch from its front. */
  ghost predicate Covers(effects: seq<Effect>, batch: seq<BatchRow>) {
    |effects| <= |batch| && forall i | 0 <= i < |effects| :: effects[i].row == batch[i]
  }

  /** The first `k` effects settle their rows; the others postpone theirs, all to one time. */
  ghost predicate SettledThenPostponed(effects: seq<Effect>, k: nat) {
    && k <= |effects|
    && (forall i | 0 <= i < k :: effects[i].Settled())
    && (forall i | k <= i < |effects| :: (
          effects[i].Postponed? && effects[k].Postponed? && effects[i].retryAt == effects[k].retryAt))
  }

  lemma {:induction false} HalvesShape(batch: seq<BatchRow>, n: nat, server: Server, t: Timing) returns (k: nat)
    requires |batch| > 1
    ensures var d := Halves(batch, n, server, t);
      && Covers(d.effects, batch) && SettledThenPostponed(d.effects, k)
      && (d.aborted <==> k < |d.effects|) && (!d.aborted ==> |d.effects| == |batch|)
    decreases |batch|, 0
  {
    var mid := |batch| / 2;
    var left := Deliver(batch[..mid], n, server, t);
    k := DeliveryShape(batch[..mid], n, server, t);
    if !left.aborted {
      var right := Deliver(batch[mid..], n + left.requests, server, t);
      k := DeliveryShape(batch[mid..], n + left.requests, server, t);
      k := mid + k;
      var d := Halves(batch, n, server, t);
      assert d.effects == left.effects + right.effects;
      forall i | 0 <= i < |d.effects|
        ensures d.effects[i].row == batch[i]
        ensures i < k ==> d.effects[i].Settled()
      {
      }
    }
  }

  /** Whatever the cloud answers, a delivery splits its batch in order into rows it settles, one
      contiguous segment that it postpones, and rows it never touches; it aborts exactly when it
      postpones. */
  lemma {:induction false} DeliveryShape(batch: seq<BatchRow>, n: nat, server: Server, t: Timing) returns (k: nat)
    requires batch != []
    ensures var d := Deliver(batch, n, server, t);
      && Covers(d.effects, batch) && SettledThenPostponed(d.effects, k)
      && (d.aborted <==> k < |d.effects|) && (!d.aborted ==> |d.effects| == |batch|)
    decreases |batch|, 1
  {
    var outcome := server(n, batch);
    if outcome.Accepted? || (outcome.Rejected() && |batch| == 1) {
      k := |batch|;
    } else if outcome.Retryable() {
      k := 0;
    } else {
      k := HalvesShape(batch, n + 1, server, t);
    }
  }

  /** No answers can cost more requests than a full bisection. */
  lemma {:induction false} RequestsAtMostTwiceTheRows(batch: seq<BatchRow>, n: nat, server: Server, t: Timing)
    requires batch != []
    ensures 1 <= Deliver(batch, n, server, t).requests <= 2 * |batch| - 1
    decreases |batch|
  {
    if server(n, batch).Rejected() && |batch| > 1 {
      var mid := |batch| / 2;
      RequestsAtMostTwiceTheRows(batch[..mid], n + 1, server, t);
      var left := Deliver(batch[..mid], n + 1, server, t);
      RequestsAtMostTwiceTheRows(batch[mid..], n + 1 + left.requests, server, t);
    }
  }

  // ---- Why a row was uploaded, quarantined or put off ----

  /** A failure that is worth another try: no answer, a timeout, too many requests or a server error. */
  ghost predicate FailedForNow(outcome: HttpOutcome) {
    outcome.NoResponse? || (outcome.HttpError? && (outcome.status == 408 || outcome.status == 429 || outcome.status >= 500))
  }

  /** The answer to the request that sent these rows accounts for the effect. A row is quarantined only
      if it was sent alone, and rows that are put off wait as long as the one tried most often. */
  ghost predicate CauseOf(e: Effect, sent: seq<BatchRow>, outcome: HttpOutcome, t: Timing) {
    && e.row in sent
    && match e
       case Uploaded(_) => outcome.Accepted?
       case Quarantined(row, status) => sent == [row] && outcome == HttpError(status) && !FailedForNow(outcome)
       case Postponed(_, retryAt) => FailedForNow(outcome) && exists r :: r in sent && WaitsFor(r, sent, retryAt, t)
  }

  ghost predicate WaitsFor(r: BatchRow, sent: seq<BatchRow>, retryAt: int, t: Timing) {
    && (forall i | 0 <= i < |sent| :: sent[i].attempts <= r.attempts)
    && retryAt == t.now + RetrySeconds(r.attempts, t.retryBase, t.retryCap)
  }

  ghost predicate HasCause(e: Effect, batch: seq<BatchRow>, server: Server, t: Timing) {
    exists n: nat, x: nat, y: nat :: x <= y <= |batch| && CauseOf(e, batch[x..y], server(n, batch[x..y]), t)
  }

  lemma CauseInPart(e: Effect, batch: seq<BatchRow>, from: nat, to: nat, server: Server, t: Timing)
    requires from <= to <= |batch| && HasCause(e, batch[from..to], server, t)
    ensures HasCause(e, batch, server, t)
  {
    var n: nat, x: nat, y: nat :| x <= y <= to - from && CauseOf(e, batch[from..to][x..y], server(n, batch[from..to][x..y]), t);
    var sent := batch[from + x..from + y];
    PartOfPart(batch, from, to, x, y);
    assert CauseOf(e, sent, server(n, sent), t);
  }

  lemma PartOfPart(batch: seq<BatchRow>, from: nat, to: nat, x: nat, y: nat)
    requires from <= to <= |batch| && x <= y <= to - from
    ensures batch[from..to][x..y] == batch[from + x..from + y]
  {
    var part, same := batch[from..to][x..y], batch[from + x..from + y];
    forall k | 0 <= k < |part|
      ensures part[k] == same[k]
    {
      assert batch[from..to][x + k] == batch[from + (x + k)];
    }
  }

  /** The request that sent the whole batch accounts for every effect that it ends with. */
  lemma WholeBatchIsCause(batch: seq<BatchRow>, i: nat, n: nat, server: Server, t: Timing)
    requires batch != [] && i < |Deliver(batch, n, server, t).effects| && (!server(n, batch).Rejected() || |batch| == 1)
    ensures HasCause(Deliver(batch, n, server, t).effects[i], batch, server, t)
  {
    var outcome, e := server(n, batch), Deliver(batch, n, server, t).effects[i];
    if outcome.Retryable() {
      var r := MostTried(batch);
      assert WaitsFor(r, batch, RetryAt(batch, t), t);
    } else if !outcome.Accepted? {
      assert batch == [batch[0]];
    }
    assert batch[0..|batch|] == batch;
    assert CauseOf(e, batch, outcome, t);
  }

  /** Whatever the cloud answers, every effect on a row is accounted for by the answer to a request
      that sent a contiguous part of the batch with that row. */
  lemma {:induction false} EveryEffectHasItsCause(batch: seq<BatchRow>, n: nat, server: Server, t: Timing, i: nat)
    requires batch != [] && i < |Deliver(batch, n, server, t).effects|
    ensures HasCause(Deliver(batch, n, server, t).effects[i], batch, server, t)
    decreases |batch|, 1
  {
    if !server(n, batch).Rejected() || |batch| == 1 {
      WholeBatchIsCause(batch, i, n, server, t);
    } else {
      HalvesHaveTheirCause(batch, n + 1, server, t, i);
    }
  }

  lemma {:induction false} HalvesHaveTheirCause(batch: seq<BatchRow>, n: nat, server: Server, t: Timing, i: nat)
    requires |batch| > 1 && i < |Halves(batch, n, server, t).effects|
    ensures HasCause(Halves(batch, n, server, t).effects[i], batch, server, t)
    decreases |batch|, 0
  {
    var mid, e := |batch| / 2, Halves(batch, n, server, t).effects[i];
    var left := Deliver(batch[..mid], n, server, t);
    if i < |left.effects| {
      assert e == left.effects[i];
      EveryEffectHasItsCause(batch[..mid], n, server, t, i);
      assert batch[0..mid] == batch[..mid];
      CauseInPart(e, batch, 0, mid, server, t);
    } else {
      var right := Deliver(batch[mid..], n + left.requests, server, t);
      assert e == right.effects[i - |left.effects|];
      EveryEffectHasItsCause(batch[mid..], n + left.requests, server, t, i - |left.effects|);
      assert batch[mid..|batch|] == batch[mid..];
      CauseInPart(e, batch, mid, |batch|, server, t);
    }
  }

  lemma MostTried(batch: seq<BatchRow>) returns (r: BatchRow)
    requires batch != []
    ensures r in batch && r.attempts == MaxAttempts(batch)
  {
    var i :| 0 <= i < |batch| && batch[i].attempts == MaxAttempts(batch);
    r := batch[i];
  }

  // ---- A cloud that rejects exactly the batches with a poison row ----

  predicate HasPoison(batch: seq<BatchRow>, poison: set<nat>) {
    exists i :: 0 <= i < |batch| && batch[i].id in poison
  }

  ghost predicate RejectsExactly(server: Server, poison: set<nat>) {
    forall n: nat, b: seq<BatchRow> {:trigger server(n, b)} ::
      (HasPoison(b, poison) ==> server(n, b).Rejected()) && (!HasPoison(b, poison) ==> server(n, b) == Accepted)
  }

  function CountPoison(batch: seq<BatchRow>, poison: set<nat>): nat {
    if batch == [] then 0 else (if batch[0].id in poison then 1 else 0) + CountPoison(batch[1..], poison)
  }

  lemma {:induction false} CountPoisonSplit(a: seq<BatchRow>, b: seq<BatchRow>, poison: set<nat>)
    ensures CountPoison(a + b, poison) == CountPoison(a, poison) + CountPoison(b, poison)
  {
    if a == [] {
      assert a + b == b;
    } else {
      assert (a + b)[1..] == a[1..] + b;
      CountPoisonSplit(a[1..], b, poison);
    }
  }

  lemma {:induction false} CountPoisonZero(batch: seq<BatchRow>, poison: set<nat>)
    ensures CountPoison(batch, poison) == 0 <==> !HasPoison(batch, poison)
  {
    if batch != [] {
      CountPoisonZero(batch[1..], poison);
      if HasPoison(batch, poison) && batch[0].id !in poison {
        var i :| 0 <= i < |batch| && batch[i].id in poison;
        assert batch[1..][i - 1].id in poison;
      }
      if HasPoison(batch[1..], poison) {
        var i :| 0 <= i < |batch[1..]| && batch[1..][i].id in poison;
        assert batch[i + 1].id in poison;
      }
    }
  }

  ghost predicate SeparatesPoison(effects: seq<Effect>, batch: seq<BatchRow>, poison: set<nat>) {
    && |effects| == |batch|
    && forall i | 0 <= i < |batch| ::
         effects[i].row == batch[i] && (if batch[i].id in poison then effects[i].Quarantined? else effects[i].Uploaded?)
  }

  lemma {:induction false} HalvesExact(batch: seq<BatchRow>, n: nat, server: Server, t: Timing, poison: set<nat>)
    requires |batch| > 1 && RejectsExactly(server, poison)
    ensures var d := Halves(batch, n, server, t); !d.aborted && SeparatesPoison(d.effects, batch, poison)
    decreases |batch|, 0
  {
    var mid := |batch| / 2;
    BisectionIsExact(batch[..mid], n, server, t, poison);
    var left := Deliver(batch[..mid], n, server, t);
    BisectionIsExact(batch[mid..], n + left.requests, server, t, poison);
    var right := Deliver(batch[mid..], n + left.requests, server, t);
    SeparatesBoth(left.effects, batch[..mid], right.effects, batch[mid..], poison);
    assert batch[..mid] + batch[mid..] == batch;
  }

  /** The bisection quarantines exactly the poison rows and uploads exactly the others. */
  lemma {:induction false} BisectionIsExact(batch: seq<BatchRow>, n: nat, server: Server, t: Timing, poison: set<nat>)
    requires batch != [] && RejectsExactly(server, poison)
    ensures var d := Deliver(batch, n, server, t); !d.aborted && SeparatesPoison(d.effects, batch, poison)
    decreases |batch|, 1
  {
    if !HasPoison(batch, poison) {
      assert server(n, batch) == Accepted;
      assert forall i | 0 <= i < |batch| :: batch[i].id !in poison;
    } else {
      assert server(n, batch).Rejected();
      if |batch| > 1 {
        HalvesExact(batch, n + 1, server, t, poison);
      }
    }
  }

  lemma SeparatesBoth(a: seq<Effect>, x: seq<BatchRow>, b: seq<Effect>, y: seq<BatchRow>, poison: set<nat>)
    requires SeparatesPoison(a, x, poison) && SeparatesPoison(b, y, poison)
    ensures SeparatesPoison(a + b, x + y, poison)
  {
  }

  /** `k` poison rows among `n` cost at most `1 + 2 k ceil(log2 n)` requests. */
  lemma {:induction false} RequestBound(batch: seq<BatchRow>, n: nat, server: Server, t: Timing, poison: set<nat>)
    requires batch != [] && RejectsExactly(server, poison)
    ensures Deliver(batch, n, server, t).requests <= 1 + 2 * CountPoison(batch, poison) * CeilLog2(|batch|)
    decreases |batch|
  {
    CountPoisonZero(batch, poison);
    if HasPoison(batch, poison) && |batch| > 1 {
      assert server(n, batch).Rejected();
      var mid := |batch| / 2;
      var left := Deliver(batch[..mid], n + 1, server, t);
      RequestBound(batch[..mid], n + 1, server, t, poison);
      RequestBound(batch[mid..], n + 1 + left.requests, server, t, poison);
      BisectionIsExact(batch[..mid], n + 1, server, t, poison);
      CountPoisonSplit(batch[..mid], batch[mid..], poison);
      assert batch[..mid] + batch[mid..] == batch;
      CeilLog2Grows(mid, (|batch| + 1) / 2);
      BoundCombines(CountPoison(batch[..mid], poison), CeilLog2(mid),
                    CountPoison(batch[mid..], poison), CeilLog2(|batch| - mid), CeilLog2(|batch|) - 1);
    } else if !HasPoison(batch, poison) {
      assert server(n, batch) == Accepted;
    }
  }

  lemma {:induction false} BoundCombines(a: nat, x: nat, b: nat, y: nat, z: nat)
    requires x <= z && y <= z && a + b >= 1
    ensures 1 + (1 + 2 * a * x) + (1 + 2 * b * y) <= 1 + 2 * (a + b) * (z + 1)
  {
    assert a * x <= a * z && b * y <= b * z;
    assert (a + b) * (z + 1) == a * z + b * z + a + b;
  }

  /** The bound of a full bisection is reached: rejecting every batch costs `2 n - 1` requests. */
  lemma {:induction false} RejectingAllCostsMost(batch: seq<BatchRow>, n: nat, server: Server, t: Timing)
    requires batch != [] && forall k: nat, b: seq<BatchRow> :: server(k, b).Rejected()
    ensures Deliver(batch, n, server, t).requests == 2 * |batch| - 1 && !Deliver(batch, n, server, t).aborted
    decreases |batch|
  {
    assert server(n, batch).Rejected();
    if |batch| > 1 {
      var mid := |batch| / 2;
      RejectingAllCostsMost(batch[..mid], n + 1, server, t);
      var left := Deliver(batch[..mid], n + 1, server, t);
      RejectingAllCostsMost(batch[mid..], n + 1 + left.requests, server, t);
    }
  }

  // ---- The rows offered to an upload ----

  datatype Offer = Offer(now: int, force: bool, retryOnly: bool)

  /** The uploader's `WHERE` clause. */
  predicate Offerable(s: Store, i: nat, o: Offer)
    requires i < |s.outbox|
  {
    var r := s.outbox[i];
    && !r.uploaded && (o.force || r.nextAttemptAt == None || r.nextAttemptAt.value <= o.now)
    && (o.retryOnly ==> r.attempts > 0) && i !in s.quarantine
  }

  /** ... `ORDER BY o.id LIMIT limit`, from row `start` on. */
  function OfferedFrom(s: Store, o: Offer, limit: nat, start: nat): seq<BatchRow>
    decreases |s.outbox| - start
  {
    if start >= |s.outbox| || limit == 0 then []
    else if Offerable(s, start, o) then
      [BatchRow(start, s.outbox[start].eventId, s.outbox[start].attempts)] + OfferedFrom(s, o, limit - 1, start + 1)
    else OfferedFrom(s, o, limit, start + 1)
  }

  ghost predicate Increasing(batch: seq<BatchRow>) {
    forall a, b | 0 <= a < b < |batch| :: batch[a].id < batch[b].id
  }

  lemma {:induction false} OfferedProps(s: Store, o: Offer, limit: nat, start: nat)
    ensures var batch := OfferedFrom(s, o, limit, start);
      && |batch| <= limit && Increasing(batch)
      && forall a | 0 <= a < |batch| :: start <= batch[a].id < |s.outbox| && Offerable(s, batch[a].id, o)
    decreases |s.outbox| - start
  {
    if start < |s.outbox| && limit > 0 {
      if Offerable(s, start, o) {
        OfferedProps(s, o, limit - 1, start + 1);
      } else {
        OfferedProps(s, o, limit, start + 1);
      }
    }
  }

  /** A pending row that has not been set aside and whose time has come; a retry takes only rows that
      have failed before. */
  ghost predicate MayBeSent(s: Store, i: nat, o: Offer) {
    && i < |s.outbox| && !s.outbox[i].uploaded && i !in s.quarantine
    && (s.outbox[i].attempts > 0 || !o.retryOnly)
    && match s.outbox[i].nextAttemptAt
       case None => true
       case Some(at) => o.force || at <= o.now
  }

  ghost predicate IsOffered(s: Store, row: BatchRow, o: Offer) {
    && MayBeSent(s, row.id, o)
    && row.eventId == s.outbox[row.id].eventId && row.attempts == s.outbox[row.id].attempts
  }

  /** The row is in the batch, or the batch is full of rows before it. */
  ghost predicate TakenOrFull(batch: seq<BatchRow>, limit: nat, i: nat) {
    (exists a :: 0 <= a < |batch| && batch[a].id == i) || (|batch| == limit && forall a | 0 <= a < |batch| :: batch[a].id < i)
  }

  lemma TakenNext(row: BatchRow, batch: seq<BatchRow>, limit: nat, i: nat)
    requires row.id < i && TakenOrFull(batch, limit, i)
    ensures TakenOrFull([row] + batch, limit + 1, i)
  {
    var more := [row] + batch;
    if a :| 0 <= a < |batch| && batch[a].id == i {
      assert more[a + 1].id == i;
    }
  }

  /** The offer is the first `limit` rows that may be sent, in outbox order: only such rows, and none
      is passed over. */
  lemma {:induction false} OfferedExactly(s: Store, o: Offer, limit: nat, start: nat)
    ensures var batch := OfferedFrom(s, o, limit, start);
      && |batch| <= limit && Increasing(batch)
      && (forall a | 0 <= a < |batch| :: IsOffered(s, batch[a], o))
      && forall i: nat | start <= i && MayBeSent(s, i, o) :: TakenOrFull(batch, limit, i)
    decreases |s.outbox| - start
  {
    OfferedProps(s, o, limit, start);
    if start < |s.outbox| && limit > 0 {
      if Offerable(s, start, o) {
        OfferedExactly(s, o, limit - 1, start + 1);
        var batch := OfferedFrom(s, o, limit, start);
        assert batch[0].id == start;
        forall i: nat | start < i && MayBeSent(s, i, o)
          ensures TakenOrFull(batch, limit, i)
        {
          TakenNext(batch[0], OfferedFrom(s, o, limit - 1, start + 1), limit - 1, i);
        }
      } else {
        OfferedExactly(s, o, limit, start + 1);
      }
    }
  }

  // ---- Row by row ----

  lemma {:induction false} UntouchedRow(s: Store, effects: seq<Effect>, id: nat)
    requires id < |s.outbox| && forall j | 0 <= j < |effects| :: effects[j].row.id != id
    ensures var s' := ApplyAll(s, effects);
      && |s'.outbox| == |s.outbox| && s'.outbox[id] == s.outbox[id]
      && (id in s'.quarantine <==> id in s.quarantine) && (id in s.quarantine ==> s'.quarantine[id] == s.quarantine[id])
  {
    ApplyAllLength(s, effects);
    if effects != [] {
      UntouchedRow(s, effects[..|effects| - 1], id);
    }
  }

  /** Effects on distinct rows act as if each were alone. */
  lemma {:induction false} TouchedRow(s: Store, effects: seq<Effect>, k: nat)
    requires k < |effects| && effects[k].row.id < |s.outbox|
    requires forall a, b | 0 <= a < b < |effects| :: effects[a].row.id != effects[b].row.id
    ensures var s', id := ApplyAll(s, effects), effects[k].row.id;
      && |s'.outbox| == |s.outbox| && s'.outbox[id] == Applied(s, effects[k]).outbox[id]
      && (id in s'.quarantine <==> id in s.quarantine || effects[k].Quarantined?)
      && (effects[k].Quarantined? ==> s'.quarantine[id] == Applied(s, effects[k]).quarantine[id])
  {
    ApplyAllLength(s, effects);
    var init := effects[..|effects| - 1];
    ApplyAllLength(s, init);
    if k == |init| {
      UntouchedRow(s, init, effects[k].row.id);
    } else {
      TouchedRow(s, init, k);
    }
  }

  lemma {:induction false} EffectsKeepIdentity(s: Store, effects: seq<Effect>)
    ensures |ApplyAll(s, effects).outbox| == |s.outbox|
    ensures forall i | 0 <= i < |s.outbox| :: ApplyAll(s, effects).outbox[i].eventId == s.outbox[i].eventId
    ensures forall i | 0 <= i < |s.outbox| :: ApplyAll(s, effects).outbox[i].sample == s.outbox[i].sample
    ensures forall i | i in s.quarantine :: i in ApplyAll(s, effects).quarantine
  {
    if effects != [] {
      EffectsKeepIdentity(s, effects[..|effects| - 1]);
    }
  }

  ghost function NewlyUploaded(s: Store, s': Store): set<nat> {
    set id: nat | id < |s.outbox| && id < |s'.outbox| && !s.outbox[id].uploaded && s'.outbox[id].uploaded
  }

  lemma {:induction false} EffectsCounted(s: Store, effects: seq<Effect>)
    requires forall a, b | 0 <= a < b < |effects| :: effects[a].row.id != effects[b].row.id
    requires forall a | 0 <= a < |effects| :: effects[a].row.id < |s.outbox| && !s.outbox[effects[a].row.id].uploaded
    ensures CountUploaded(effects) == |NewlyUploaded(s, ApplyAll(s, effects))|
  {
    ApplyAllLength(s, effects);
    if effects != [] {
      var init, e := effects[..|effects| - 1], effects[|effects| - 1];
      EffectsCounted(s, init);
      ApplyAllLength(s, init);
      UntouchedRow(s, init, e.row.id);
      EffectCounted(s, ApplyAll(s, init), e);
    }
  }

  lemma EffectCounted(s: Store, s': Store, e: Effect)
    requires |s'.outbox| == |s.outbox| && e.row.id < |s.outbox| && s'.outbox[e.row.id] == s.outbox[e.row.id] && !s.outbox[e.row.id].uploaded
    ensures |NewlyUploaded(s, Applied(s', e))| == |NewlyUploaded(s, s')| + if e.Uploaded? then 1 else 0
  {
    assert NewlyUploaded(s, Applied(s', e)) == NewlyUploaded(s, s') + if e.Uploaded? then {e.row.id} else {};
  }

  /** The count of an upload is the number of rows that it turned from pending to uploaded. */
  lemma UploadedCounted(s: Store, o: Offer, limit: nat, server: Server, t: Timing)
    requires OfferedFrom(s, o, limit, 0) != []
    ensures var d := Deliver(OfferedFrom(s, o, limit, 0), 0, server, t);
      CountUploaded(d.effects) == |NewlyUploaded(s, UploadOnce(s, o, limit, server, t))|
  {
    var batch := OfferedFrom(s, o, limit, 0);
    OfferedProps(s, o, limit, 0);
    var k := DeliveryShape(batch, 0, server, t);
    var effects := Deliver(batch, 0, server, t).effects;
    forall a | 0 <= a < |effects|
      ensures effects[a].row == batch[a] && effects[a].row.id < |s.outbox| && !s.outbox[effects[a].row.id].uploaded
    {
      assert Offerable(s, batch[a].id, o);
    }
    EffectsCounted(s, effects);
  }

  // ---- Runs of sampling, upload, retry and backfill ----

  /** Each sample's time, the outbox, the sample whose outbox row is still to be inserted, and the
      number of outbox inserts that have failed. */
  datatype Edge = Edge(samples: seq<int>, store: Store, waiting: Option<nat>, failures: nat)

  /** A sample is recorded by two inserts. If the second fails it undoes only itself, and the handler
      around the group commits the first. */
  datatype Step =
    | InsertSample(sampledAt: int)
    | InsertOutboxRow(eventId: string, works: bool)
    | Upload(o: Offer, limit: nat, server: Server, t: Timing)
    | Backfill(since: int, until: int, most: int, chosen: set<nat>)

  /** `event_id` is unique in the outbox: a repeated id would fail the insert. */
  predicate Fresh(outbox: seq<OutboxRow>, eventId: string) {
    forall i | 0 <= i < |outbox| :: outbox[i].eventId != eventId
  }

  /** The rows that a backfill of the range may choose from. */
  predicate Backfillable(e: Edge, i: nat, since: int, until: int) {
    && i < |e.store.outbox| && e.store.outbox[i].uploaded && i !in e.store.quarantine
    && e.store.outbox[i].sample < |e.samples| && since <= e.samples[e.store.outbox[i].sample] <= until
  }

  /** ... `ORDER BY s.sampled_at, o.id`. */
  predicate ComesBefore(e: Edge, i: nat, j: nat)
    requires i < |e.store.outbox| && j < |e.store.outbox|
    requires e.store.outbox[i].sample < |e.samples| && e.store.outbox[j].sample < |e.samples|
  {
    var a, b := e.samples[e.store.outbox[i].sample], e.samples[e.store.outbox[j].sample];
    a < b || (a == b && i < j)
  }

  /** The backfill chooses the first rows of the range, up to its limit. */
  predicate ChosenFirst(e: Edge, since: int, until: int, most: int, chosen: set<nat>) {
    && |chosen| <= most
    && (forall i | i in chosen :: Backfillable(e, i, since, until))
    && forall j | 0 <= j < |e.store.outbox| && j !in chosen && Backfillable(e, j, since, until) ::
         |chosen| == most && forall i | i in chosen :: ComesBefore(e, i, j)
  }

  function Reoffered(outbox: seq<OutboxRow>, chosen: set<nat>): seq<OutboxRow> {
    seq(|outbox|, i requires 0 <= i < |outbox| =>
      if i in chosen then outbox[i].(uploaded := false, nextAttemptAt := None) else outbox[i])
  }

  function UploadOnce(s: Store, o: Offer, limit: nat, server: Server, t: Timing): Store {
    var batch := OfferedFrom(s, o, limit, 0);
    if batch == [] then s else ApplyAll(s, Deliver(batch, 0, server, t).effects)
  }

  function After(e: Edge, step: Step): Edge {
    match step
    case InsertSample(sampledAt) =>
      if e.waiting.Some? then e else e.(samples := e.samples + [sampledAt], waiting := Some(|e.samples|))
    case InsertOutboxRow(eventId, works) =>
      if e.waiting.None? then e
      else if works && Fresh(e.store.outbox, eventId)
      then e.(store := e.store.(outbox := e.store.outbox + [OutboxRow(eventId, e.waiting.value, false, 0, None)]), waiting := None)
      else e.(waiting := None, failures := e.failures + 1)
    case Upload(o, limit, server, t) => e.(store := UploadOnce(e.store, o, limit, server, t))
    case Backfill(since, until, limit, chosen) =>
      if ChosenFirst(e, since, until, Max(1, Min(limit, 1000)), chosen)
      then e.(store := e.store.(outbox := Reoffered(e.store.outbox, chosen)))
      else e
  }

  function Max(a: int, b: int): int {
    if a <= b then b else a
  }

  function Exec(e: Edge, steps: seq<Step>): Edge
    decreases |steps|
  {
    if steps == [] then e else Exec(After(e, steps[0]), steps[1..])
  }

  /** Every row is for a later sample than the row before it, so no two are for one sample. */
  ghost predicate InOrder(outbox: seq<OutboxRow>) {
    forall i, j | 0 <= i < j < |outbox| :: outbox[i].sample < outbox[j].sample
  }

  ghost predicate SamplesBelow(outbox: seq<OutboxRow>, bound: int) {
    forall i | 0 <= i < |outbox| :: outbox[i].sample < bound
  }

  ghost predicate UniqueIds(outbox: seq<OutboxRow>) {
    forall i, j | 0 <= i < j < |outbox| :: outbox[i].eventId != outbox[j].eventId
  }

  ghost predicate QuarantinePending(s: Store) {
    forall i | i in s.quarantine :: i < |s.outbox| && !s.outbox[i].uploaded
  }

  ghost predicate Inv(e: Edge) {
    && InOrder(e.store.outbox) && UniqueIds(e.store.outbox) && QuarantinePending(e.store)
    && SamplesBelow(e.store.outbox, if e.waiting.Some? then |e.samples| - 1 else |e.samples|)
    && (e.waiting.Some? ==> e.waiting.value == |e.samples| - 1)
    && |e.samples| == |e.store.outbox| + e.failures + (if e.waiting.Some? then 1 else 0)
  }

  lemma UploadKeepsQuarantine(s: Store, o: Offer, limit: nat, server: Server, t: Timing, id: nat)
    requires QuarantinePending(s)
    requires id in UploadOnce(s, o, limit, server, t).quarantine
    ensures id < |s.outbox| && |UploadOnce(s, o, limit, server, t).outbox| == |s.outbox|
    ensures !UploadOnce(s, o, limit, server, t).outbox[id].uploaded
  {
    var batch := OfferedFrom(s, o, limit, 0);
    if batch != [] {
      var effects := Deliver(batch, 0, server, t).effects;
      OfferedProps(s, o, limit, 0);
      var k := DeliveryShape(batch, 0, server, t);
      ApplyAllLength(s, effects);
      QuarantineSource(s, effects, id);
      if j: nat :| j < |effects| && effects[j].row.id == id {
        TouchedRow(s, effects, j);
        assert batch[j].id == id && Offerable(s, id, o);
      } else {
        UntouchedRow(s, effects, id);
      }
    }
  }

  lemma {:induction false} QuarantineSource(s: Store, effects: seq<Effect>, id: nat)
    requires id in ApplyAll(s, effects).quarantine
    ensures id in s.quarantine || (id < |s.outbox| && exists j :: 0 <= j < |effects| && effects[j].row.id == id)
  {
    if effects != [] {
      var init := effects[..|effects| - 1];
      ApplyAllLength(s, init);
      if id in ApplyAll(s, init).quarantine {
        QuarantineSource(s, init, id);
      } else {
        assert effects[|init|].row.id == id;
      }
    }
  }

  ghost predicate SameIdentity(a: seq<OutboxRow>, b: seq<OutboxRow>) {
    |a| == |b| && forall i | 0 <= i < |a| :: a[i].eventId == b[i].eventId && a[i].sample == b[i].sample
  }

  lemma IdentityKeepsLinks(a: seq<OutboxRow>, b: seq<OutboxRow>, bound: int)
    requires SameIdentity(a, b) && InOrder(a) && UniqueIds(a) && SamplesBelow(a, bound)
    ensures InOrder(b) && UniqueIds(b) && SamplesBelow(b, bound)
  {
  }

  lemma UploadKeepsIdentity(s: Store, o: Offer, limit: nat, server: Server, t: Timing)
    ensures SameIdentity(s.outbox, UploadOnce(s, o, limit, server, t).outbox)
    ensures forall i | i in s.quarantine :: i in UploadOnce(s, o, limit, server, t).quarantine
  {
    var batch := OfferedFrom(s, o, limit, 0);
    if batch != [] {
      EffectsKeepIdentity(s, Deliver(batch, 0, server, t).effects);
    }
  }

  lemma UploadInv(e: Edge, o: Offer, limit: nat, server: Server, t: Timing)
    requires Inv(e)
    ensures Inv(e.(store := UploadOnce(e.store, o, limit, server, t)))
  {
    var s' := UploadOnce(e.store, o, limit, server, t);
    UploadKeepsIdentity(e.store, o, limit, server, t);
    IdentityKeepsLinks(e.store.outbox, s'.outbox, if e.waiting.Some? then |e.samples| - 1 else |e.samples|);
    forall id | id in s'.quarantine
      ensures id < |s'.outbox| && !s'.outbox[id].uploaded
    {
      UploadKeepsQuarantine(e.store, o, limit, server, t, id);
    }
  }

  lemma BackfillInv(e: Edge, since: int, until: int, chosen: set<nat>)
    requires Inv(e) && forall i | i in chosen :: Backfillable(e, i, since, until)
    ensures Inv(e.(store := e.store.(outbox := Reoffered(e.store.outbox, chosen))))
  {
    var outbox := Reoffered(e.store.outbox, chosen);
    assert SameIdentity(e.store.outbox, outbox);
    IdentityKeepsLinks(e.store.outbox, outbox, if e.waiting.Some? then |e.samples| - 1 else |e.samples|);
  }

  lemma InvStep(e: Edge, step: Step)
    requires Inv(e)
    ensures Inv(After(e, step))
  {
    match step
    case InsertSample(sampledAt) =>
    case InsertOutboxRow(eventId, works) =>
    case Upload(o, limit, server, t) => UploadInv(e, o, limit, server, t);
    case Backfill(since, until, limit, chosen) =>
      if forall i | i in chosen :: Backfillable(e, i, since, until) {
        BackfillInv(e, since, until, chosen);
      }
  }

  /** What one step changes. A sample waits for its outbox row, which is new, pending and untried, or
      fails for good; a backfill makes its rows pending again and due at once. */
  ghost predicate StepIs(e: Edge, step: Step, e': Edge) {
    match step
    case InsertSample(sampledAt) =>
      && e'.store == e.store && e'.failures == e.failures
      && if e.waiting.Some? then e'.samples == e.samples && e'.waiting == e.waiting
         else e'.samples == e.samples + [sampledAt] && e'.waiting == Some(|e.samples|)
    case InsertOutboxRow(eventId, works) =>
      && e'.samples == e.samples && e'.waiting == None && e'.store.quarantine == e.store.quarantine
      && if e.waiting.Some? && works && forall i | 0 <= i < |e.store.outbox| :: e.store.outbox[i].eventId != eventId then
           && e'.failures == e.failures && |e'.store.outbox| == |e.store.outbox| + 1
           && e'.store.outbox[..|e.store.outbox|] == e.store.outbox
           && var row := e'.store.outbox[|e.store.outbox|];
             row.eventId == eventId && row.sample == e.waiting.value && !row.uploaded && row.attempts == 0 && row.nextAttemptAt == None
         else e'.store == e.store && e'.failures == e.failures + if e.waiting.Some? then 1 else 0
    case Upload(_, _, _, _) => e'.samples == e.samples && e'.waiting == e.waiting && e'.failures == e.failures
    case Backfill(since, until, limit, chosen) =>
      && e'.samples == e.samples && e'.waiting == e.waiting && e'.failures == e.failures
      && e'.store.quarantine == e.store.quarantine && |e'.store.outbox| == |e.store.outbox|
      && if FirstOfRange(e, since, until, if limit <= 1 then 1 else if limit >= 1000 then 1000 else limit, chosen)
         then forall i | 0 <= i < |e.store.outbox| :: RowIsBackfilled(e, e', i, chosen)
         else e'.store.outbox == e.store.outbox
  }

  /** An uploaded row of the range that is not in quarantine. */
  ghost predicate InRange(e: Edge, i: nat, since: int, until: int) {
    && i < |e.store.outbox| && e.store.outbox[i].uploaded && i !in e.store.quarantine
    && e.store.outbox[i].sample < |e.samples|
    && since <= e.samples[e.store.outbox[i].sample] && e.samples[e.store.outbox[i].sample] <= until
  }

  /** Rows of the range, and either all of them or as many of the earliest as are allowed. */
  ghost predicate FirstOfRange(e: Edge, since: int, until: int, most: int, chosen: set<nat>) {
    && |chosen| <= most && (forall i | i in chosen :: InRange(e, i, since, until))
    && (|chosen| < most ==> forall j: nat | InRange(e, j, since, until) :: j in chosen)
    && forall i, j: nat | i in chosen && j !in chosen && InRange(e, j, since, until) && InRange(e, i, since, until) ::
         var a, b := e.samples[e.store.outbox[i].sample], e.samples[e.store.outbox[j].sample]; a < b || (a == b && i < j)
  }

  ghost predicate RowIsBackfilled(e: Edge, e': Edge, i: nat, chosen: set<nat>)
    requires i < |e.store.outbox| && i < |e'.store.outbox|
  {
    var was, row := e.store.outbox[i], e'.store.outbox[i];
    if i in chosen then
      !row.uploaded && row.nextAttemptAt == None && row.eventId == was.eventId && row.sample == was.sample && row.attempts == was.attempts
    else row == was
  }

  lemma ChoiceIs(e: Edge, since: int, until: int, most: int, chosen: set<nat>)
    ensures ChosenFirst(e, since, until, most, chosen) <==> FirstOfRange(e, since, until, most, chosen)
  {
    assert forall j: nat :: InRange(e, j, since, until) <==> Backfillable(e, j, since, until);
  }

  lemma StepTells(e: Edge, step: Step)
    ensures StepIs(e, step, After(e, step))
  {
    if step.Backfill? {
      ChoiceIs(e, step.since, step.until, Max(1, Min(step.most, 1000)), step.chosen);
    }
  }

  lemma StepKeepsIdentity(e: Edge, step: Step)
    ensures |e.store.outbox| <= |After(e, step).store.outbox|
    ensures !step.InsertOutboxRow? ==> |After(e, step).store.outbox| == |e.store.outbox|
    ensures forall i | 0 <= i < |e.store.outbox| :: After(e, step).store.outbox[i].eventId == e.store.outbox[i].eventId
    ensures forall i | 0 <= i < |e.store.outbox| :: After(e, step).store.outbox[i].sample == e.store.outbox[i].sample
    ensures forall i | i in e.store.quarantine :: i in After(e, step).store.quarantine
  {
    if step.Upload? {
      UploadKeepsIdentity(e.store, step.o, step.limit, step.server, step.t);
    }
  }

  /** In every run each outbox row keeps its event id and its sample, and no two share either. */
  lemma {:induction false} OutboxMirrorsSamples(e: Edge, steps: seq<Step>)
    requires Inv(e)
    ensures var e' := Exec(e, steps);
      && Inv(e') && |e.store.outbox| <= |e'.store.outbox|
      && (forall i | 0 <= i < |e.store.outbox| :: e'.store.outbox[i].eventId == e.store.outbox[i].eventId)
      && (forall i | 0 <= i < |e.store.outbox| :: e'.store.outbox[i].sample == e.store.outbox[i].sample)
      && (forall i | i in e.store.quarantine :: i in e'.store.quarantine)
    decreases |steps|
  {
    if steps != [] {
      InvStep(e, steps[0]);
      StepKeepsIdentity(e, steps[0]);
      OutboxMirrorsSamples(After(e, steps[0]), steps[1..]);
    }
  }

  ghost predicate HasRow(outbox: seq<OutboxRow>, n: nat) {
    exists i :: 0 <= i < |outbox| && outbox[i].sample == n
  }

  /** Samples and outbox rows are in bijection. */
  ghost predicate Mirrored(e: Edge) {
    forall n | 0 <= n < |e.samples| :: HasRow(e.store.outbox, n)
  }

  lemma {:induction false} FullOrder(outbox: seq<OutboxRow>, i: nat)
    requires InOrder(outbox) && i < |outbox| && forall k | 0 <= k < |outbox| :: outbox[k].sample < |outbox|
    ensures outbox[i].sample == i
  {
    AtLeastItsPlace(outbox, i);
    AtMostItsPlace(outbox, i, |outbox|);
  }

  lemma {:induction false} AtLeastItsPlace(outbox: seq<OutboxRow>, i: nat)
    requires InOrder(outbox) && i < |outbox|
    ensures outbox[i].sample >= i
  {
    if i > 0 {
      AtLeastItsPlace(outbox, i - 1);
    }
  }

  lemma {:induction false} AtMostItsPlace(outbox: seq<OutboxRow>, i: nat, bound: nat)
    requires InOrder(outbox) && i < |outbox| && forall k | 0 <= k < |outbox| :: outbox[k].sample < bound
    ensures outbox[i].sample < bound - (|outbox| - 1 - i)
    decreases |outbox| - i
  {
    if i + 1 < |outbox| {
      AtMostItsPlace(outbox, i + 1, bound);
    }
  }

  function SamplesOf(outbox: seq<OutboxRow>): (r: set<nat>) {
    set i | 0 <= i < |outbox| :: outbox[i].sample
  }

  lemma {:induction false} FewSamples(outbox: seq<OutboxRow>)
    ensures |SamplesOf(outbox)| <= |outbox|
  {
    if outbox != [] {
      var last := |outbox| - 1;
      FewSamples(outbox[..last]);
      assert SamplesOf(outbox) == SamplesOf(outbox[..last]) + {outbox[last].sample};
    }
  }

  function Below(n: nat): (r: set<nat>)
    ensures |r| == n && forall k: nat :: k in r <==> k < n
  {
    if n == 0 then {} else Below(n - 1) + {n - 1}
  }

  lemma MirroredHasEnoughRows(outbox: seq<OutboxRow>, n: nat)
    requires forall k | 0 <= k < n :: HasRow(outbox, k)
    ensures n <= |outbox|
  {
    forall k | k in Below(n)
      ensures k in SamplesOf(outbox)
    {
      assert HasRow(outbox, k);
    }
    FewSamples(outbox);
    var rest := SamplesOf(outbox) - Below(n);
    assert SamplesOf(outbox) == Below(n) + rest;
  }

  /** The bijection holds exactly if no outbox insert has failed and none is still to come. */
  lemma MirroredExactly(e: Edge)
    requires Inv(e)
    ensures Mirrored(e) <==> e.failures == 0 && e.waiting.None?
  {
    var outbox := e.store.outbox;
    if |outbox| == |e.samples| {
      forall n | 0 <= n < |e.samples|
        ensures HasRow(outbox, n)
      {
        FullOrder(outbox, n);
      }
    }
    if Mirrored(e) {
      MirroredHasEnoughRows(outbox, |e.samples|);
    }
  }

  lemma OrphanStep(e: Edge, step: Step, n: nat)
    requires Inv(e) && n < |e.samples| && !HasRow(e.store.outbox, n) && e.waiting != Some(n)
    ensures n < |After(e, step).samples| && !HasRow(After(e, step).store.outbox, n) && After(e, step).waiting != Some(n)
  {
    StepKeepsIdentity(e, step);
    assert forall i | 0 <= i < |e.store.outbox| :: e.store.outbox[i].sample != n;
    var before, after := e.store.outbox, After(e, step).store.outbox;
    forall i | 0 <= i < |after|
      ensures after[i].sample != n
    {
      if i < |before| {
        assert before[i].sample != n;
      }
    }
  }

  /** A sample whose outbox insert failed never gets a row, so no later upload or backfill sends it. */
  lemma {:induction false} OrphanForGood(e: Edge, steps: seq<Step>, n: nat)
    requires Inv(e) && n < |e.samples| && !HasRow(e.store.outbox, n) && e.waiting != Some(n)
    ensures n < |Exec(e, steps).samples| && !HasRow(Exec(e, steps).store.outbox, n)
    decreases |steps|
  {
    if steps != [] {
      InvStep(e, steps[0]);
      OrphanStep(e, steps[0], n);
      OrphanForGood(After(e, steps[0]), steps[1..], n);
    }
  }

  const NO_SAMPLES := Edge([], Store([], map[]), None, 0)

  /** One failed insert leaves a committed sample without an outbox row. */
  lemma FailedInsertLeavesAnOrphan(sampledAt: int, eventId: string)
    ensures var e := Exec(NO_SAMPLES, [InsertSample(sampledAt), InsertOutboxRow(eventId, false)]);
      Inv(e) && e.samples == [sampledAt] && e.waiting.None? && e.store.outbox == [] && !Mirrored(e)
  {
    var steps := [InsertSample(sampledAt), InsertOutboxRow(eventId, false)];
    assert steps[1..] == [InsertOutboxRow(eventId, false)] && steps[1..][1..] == [];
    var one := After(NO_SAMPLES, steps[0]);
    assert one == Edge([sampledAt], Store([], map[]), Some(0), 0);
    assert Exec(one, steps[1..]) == After(one, steps[1]);
    MirroredExactly(After(one, steps[1]));
  }

  /** A quarantined row stays quarantined and pending, and no later upload or backfill takes it. */
  lemma QuarantineIsFinal(e: Edge, steps: seq<Step>, id: nat, o: Offer, limit: nat, since: int, until: int)
    requires Inv(e) && id in e.store.quarantine
    ensures var e' := Exec(e, steps);
      && id in e'.store.quarantine && id < |e'.store.outbox| && !e'.store.outbox[id].uploaded
      && (forall a | 0 <= a < |OfferedFrom(e'.store, o, limit, 0)| :: OfferedFrom(e'.store, o, limit, 0)[a].id != id)
      && !Backfillable(e', id, since, until)
  {
    OutboxMirrorsSamples(e, steps);
    OfferedProps(Exec(e, steps).store, o, limit, 0);
  }

  /** One upload against a cloud that rejects exactly the poison rows: of the offered rows the poison
      ones end in quarantine and the others uploaded. */
  lemma UploadSortsRows(s: Store, o: Offer, limit: nat, server: Server, t: Timing, poison: set<nat>, a: nat)
    requires RejectsExactly(server, poison) && a < |OfferedFrom(s, o, limit, 0)|
    ensures var id := OfferedFrom(s, o, limit, 0)[a].id; var s' := UploadOnce(s, o, limit, server, t);
      && id < |s'.outbox|
      && (s'.outbox[id].uploaded <==> id !in poison) && (id in s'.quarantine <==> id in poison)
  {
    var batch := OfferedFrom(s, o, limit, 0);
    OfferedProps(s, o, limit, 0);
    BisectionIsExact(batch, 0, server, t, poison);
    TouchedRow(s, Deliver(batch, 0, server, t).effects, a);
    assert Offerable(s, batch[a].id, o);
  }

  /** What one upload makes of the `a`-th row it was offered. */
  ghost predicate RowAfter(s: Store, s': Store, batch: seq<BatchRow>, effects: seq<Effect>, a: nat)
    requires a < |batch|
  {
    var id := batch[a].id;
    && id < |s.outbox| == |s'.outbox|
    && s'.outbox[id].eventId == s.outbox[id].eventId && s'.outbox[id].sample == s.outbox[id].sample
    && if a < |effects| then
         match effects[a]
         case Uploaded(_) =>
           && s'.outbox[id].uploaded && s'.outbox[id].nextAttemptAt == None && id !in s'.quarantine
           && s'.outbox[id].attempts == s.outbox[id].attempts
         case Quarantined(_, status) =>
           && !s'.outbox[id].uploaded && s'.outbox[id].nextAttemptAt == s.outbox[id].nextAttemptAt
           && s'.outbox[id].attempts == s.outbox[id].attempts + 1
           && id in s'.quarantine && IsSetAside(s'.quarantine[id], s.outbox[id], status)
         case Postponed(_, retryAt) =>
           && !s'.outbox[id].uploaded && id !in s'.quarantine
           && s'.outbox[id].attempts == s.outbox[id].attempts + 1 && s'.outbox[id].nextAttemptAt == Some(retryAt)
       else s'.outbox[id] == s.outbox[id] && id !in s'.quarantine
  }

  /** The quarantine names the event, the answer's status and the attempt that got it. */
  ghost predicate IsSetAside(q: QuarantineRow, row: OutboxRow, status: int) {
    q.eventId == row.eventId && q.httpStatus == status && q.attempts == row.attempts + 1
  }

  /** Rows that an upload was not offered, and their place in quarantine, are as they were. */
  ghost predicate OthersUntouched(s: Store, s': Store, batch: seq<BatchRow>) {
    forall id: nat | id < |s.outbox| && (forall a | 0 <= a < |batch| :: batch[a].id != id) :: Untouched(s, s', id)
  }

  lemma OthersUntouchedBy(s: Store, o: Offer, limit: nat, server: Server, t: Timing)
    ensures OthersUntouched(s, UploadOnce(s, o, limit, server, t), OfferedFrom(s, o, limit, 0))
  {
    var batch := OfferedFrom(s, o, limit, 0);
    if batch != [] {
      var effects := Deliver(batch, 0, server, t).effects;
      var k := DeliveryShape(batch, 0, server, t);
      forall id: nat | id < |s.outbox| && (forall a | 0 <= a < |batch| :: batch[a].id != id)
        ensures Untouched(s, ApplyAll(s, effects), id)
      {
        UntouchedRow(s, effects, id);
      }
    }
  }

  ghost predicate Untouched(s: Store, s': Store, id: nat) {
    && id < |s.outbox| && id < |s'.outbox| && s'.outbox[id] == s.outbox[id]
    && (id in s'.quarantine <==> id in s.quarantine) && (id in s.quarantine ==> s'.quarantine[id] == s.quarantine[id])
  }

  lemma RowTouched(s: Store, s': Store, o: Offer, batch: seq<BatchRow>, effects: seq<Effect>, a: nat)
    requires a < |batch| && a < |effects| && effects[a].row == batch[a] && IsOffered(s, batch[a], o) && |s'.outbox| == |s.outbox|
    requires var alone, id := Applied(s, effects[a]), batch[a].id;
      && s'.outbox[id] == alone.outbox[id] && (id in s'.quarantine <==> effects[a].Quarantined?)
      && (effects[a].Quarantined? ==> s'.quarantine[id] == alone.quarantine[id])
    ensures RowAfter(s, s', batch, effects, a)
  {
  }

  lemma OfferedRowAfter(s: Store, o: Offer, limit: nat, server: Server, t: Timing, a: nat)
    requires a < |OfferedFrom(s, o, limit, 0)|
    ensures var batch := OfferedFrom(s, o, limit, 0);
      RowAfter(s, UploadOnce(s, o, limit, server, t), batch, Deliver(batch, 0, server, t).effects, a)
  {
    var batch := OfferedFrom(s, o, limit, 0);
    OfferedExactly(s, o, limit, 0);
    var effects := Deliver(batch, 0, server, t).effects;
    var k := DeliveryShape(batch, 0, server, t);
    ApplyAllLength(s, effects);
    assert IsOffered(s, batch[a], o);
    if a < |effects| {
      TouchedRow(s, effects, a);
      RowTouched(s, ApplyAll(s, effects), o, batch, effects, a);
    } else {
      UntouchedRow(s, effects, batch[a].id);
    }
  }

  /** One upload against any cloud, read off the outbox: the offered rows split in order into rows
      uploaded or quarantined, rows that stay pending with one more attempt, and rows left as
      they were; rows are left only when some are put off. */
  lemma UploadSplitsRows(s: Store, o: Offer, limit: nat, server: Server, t: Timing) returns (settled: nat, tried: nat)
    ensures var batch := OfferedFrom(s, o, limit, 0); var s' := UploadOnce(s, o, limit, server, t);
      var effects := if batch == [] then [] else Deliver(batch, 0, server, t).effects;
      && settled <= tried == |effects| <= |batch| && (tried < |batch| ==> settled < tried)
      && SettledThenPostponed(effects, settled)
      && (forall a | 0 <= a < |batch| :: RowAfter(s, s', batch, effects, a)) && OthersUntouched(s, s', batch)
      && forall i | 0 <= i < tried :: effects[i].row == batch[i] && HasCause(effects[i], batch, server, t)
  {
    var batch := OfferedFrom(s, o, limit, 0);
    settled, tried := 0, 0;
    OthersUntouchedBy(s, o, limit, server, t);
    if batch != [] {
      settled := DeliveryShape(batch, 0, server, t);
      tried := |Deliver(batch, 0, server, t).effects|;
      forall i | 0 <= i < tried
        ensures HasCause(Deliver(batch, 0, server, t).effects[i], batch, server, t)
      {
        EveryEffectHasItsCause(batch, 0, server, t, i);
      }
      forall a | 0 <= a < |batch|
        ensures RowAfter(s, UploadOnce(s, o, limit, server, t), batch, Deliver(batch, 0, server, t).effects, a)
      {
        OfferedRowAfter(s, o, limit, server, t, a);
      }
    }
  }
}
