/**
 * Stripe webhook ingestion by several replicas: claim an event under a lease, dispatch it,
 * acknowledge it. Every database access is one atomic step; replicas interleave between
 * steps, carry their own clocks, crash anywhere, and may overlap once a lease has run out.
 */
module StripeWebhook {
  import opened Prelude
  import opened Subscriptions

  const BILLING_EVENT_LEASE_MS: int := 2 * 60 * 1000

  datatype Payload =
    | SubscriptionChanged(sub: StripeSub)
    | SubscriptionDeleted(sub: StripeSub)
    | CheckoutCompleted(forSubscription: bool, customerId: Option<string>, subscriptionId: Option<string>)
    | CheckoutExpired
    | InvoicePaymentFailed(subscriptionId: Option<string>)
    | Unsupported

  /** `created` is in seconds, as the provider sends it. */
  datatype Event = Event(created: int, payload: Payload)

  datatype EventRow = EventRow(startedAt: Option<int>, processedAt: Option<int>, attempts: nat)

  datatype ClaimResult = Claimed | Duplicate | InProgress

  /** Where a replica stands with one delivery; `now` is the clock it read when it started. */
  datatype Worker =
    | Inserting(id: string, event: Event, now: int)
    | Reading(id: string, event: Event, now: int)
    | Reclaiming(id: string, event: Event, now: int)
    | Owning(id: string, event: Event, now: int)
    | Acknowledging(id: string, event: Event, now: int)

  datatype World = World(events: map<string, EventRow>, billing: Billing, workers: map<nat, Worker>)

  datatype Step =
    | Deliver(k: nat, id: string, event: Event, now: int)
    | InsertRow(k: nat)
    | ReadRow(k: nat)
    | Reclaim(k: nat)
    | Dispatch(k: nat, fetched: Option<StripeSub>, at: int)
    | Acknowledge(k: nat, at: int)
    | Crash(k: nat)
    | Manage(sub: StripeSub, at: int, id: string)
    | LinkCustomer(customerId: string, user: string)

  // ------------------------------------------------------------ atomic steps

  predicate LeaseOver(row: EventRow, now: int) {
    row.startedAt.None? || row.startedAt.value <= now - BILLING_EVENT_LEASE_MS
  }

  /** The conditional update that reclaims an abandoned event. */
  predicate Reclaimable(row: EventRow, now: int) {
    row.processedAt.None? && LeaseOver(row, now)
  }

  function FirstClaim(now: int): EventRow {
    EventRow(Some(now), None, 1)
  }

  function NextClaim(row: EventRow, now: int): EventRow {
    row.(startedAt := Some(now), attempts := row.attempts + 1)
  }

  /** What dispatching needs to sync: nothing, a snapshot, or a failure that leaves the event unacknowledged. */
  datatype Work = Nothing | SyncWith(sub: StripeSub) | Fails

  function Retrieved(fetched: Option<StripeSub>): Work {
    if fetched.None? then Fails else SyncWith(fetched.value)
  }

  function WorkFor(event: Event, fetched: Option<StripeSub>): Work {
    match event.payload
    case SubscriptionChanged(sub) => SyncWith(sub)
    case SubscriptionDeleted(sub) => SyncWith(sub.(status := "canceled"))
    case CheckoutCompleted(forSubscription, customerId, subscriptionId) =>
      if !forSubscription || customerId.None? || subscriptionId.None? then Nothing else Retrieved(fetched)
    case CheckoutExpired => Nothing
    case InvoicePaymentFailed(subscriptionId) => if subscriptionId.None? then Nothing else Retrieved(fetched)
    case Unsupported => Nothing
  }

  function Next(w: World, step: Step): World {
    match step
    case Deliver(k, id, event, now) =>
      if k in w.workers then w else w.(workers := w.workers[k := Inserting(id, event, now)])
    case InsertRow(k) =>
      if k !in w.workers || !w.workers[k].Inserting? then w
      else
        var Inserting(id, event, now) := w.workers[k];
        if id in w.events then w.(workers := w.workers[k := Reading(id, event, now)])
        else w.(events := w.events[id := FirstClaim(now)], workers := w.workers[k := Owning(id, event, now)])
    case ReadRow(k) =>
      if k !in w.workers || !w.workers[k].Reading? then w
      else
        var Reading(id, event, now) := w.workers[k];
        if id !in w.events || w.events[id].processedAt.Some? || !LeaseOver(w.events[id], now)
        then w.(workers := w.workers - {k})
        else w.(workers := w.workers[k := Reclaiming(id, event, now)])
    case Reclaim(k) =>
      if k !in w.workers || !w.workers[k].Reclaiming? then w
      else
        var Reclaiming(id, event, now) := w.workers[k];
        if id !in w.events || !Reclaimable(w.events[id], now) then w.(workers := w.workers - {k})
        else w.(events := w.events[id := NextClaim(w.events[id], now)],
                workers := w.workers[k := Owning(id, event, now)])
    case Dispatch(k, fetched, at) =>
      if k !in w.workers || !w.workers[k].Owning? then w
      else
        var Owning(id, event, now) := w.workers[k];
        var work := WorkFor(event, fetched);
        if work.Fails? then w.(workers := w.workers - {k})
        else
          w.(billing := if work.SyncWith? then Sync(w.billing, work.sub, event.created * 1000, id, at) else w.billing,
             workers := w.workers[k := Acknowledging(id, event, now)])
    case Acknowledge(k, at) =>
      if k !in w.workers || !w.workers[k].Acknowledging? then w
      else
        var id := w.workers[k].id;
        w.(events := if id in w.events then w.events[id := w.events[id].(processedAt := Some(at))] else w.events,
           workers := w.workers - {k})
    case Crash(k) => w.(workers := w.workers - {k})
    case Manage(sub, at, id) => w.(billing := Sync(w.billing, sub, at, id, at))
    case LinkCustomer(customerId, user) =>
      if customerId in w.billing.customers then w
      else w.(billing := w.billing.(customers := w.billing.customers[customerId := user]))
  }

  function Run(w: World, steps: seq<Step>): World {
    if steps == [] then w else Next(Run(w, steps[..|steps| - 1]), steps[|steps| - 1])
  }

  // ------------------------------------------------------------------- lease

  /** The claim stamps a step grants for event `id`: none, or the claimant's clock. */
  function Granted(w: World, step: Step, id: string): seq<int> {
    match step
    case InsertRow(k) =>
      if k in w.workers && w.workers[k].Inserting? && w.workers[k].id == id && id !in w.events then [w.workers[k].now]
      else []
    case Reclaim(k) =>
      if k in w.workers && w.workers[k].Reclaiming? && w.workers[k].id == id && id in w.events &&
      Reclaimable(w.events[id], w.workers[k].now)
      then [w.workers[k].now] else []
    case _ => []
  }

  function Grants(w: World, steps: seq<Step>, id: string): seq<int> {
    if steps == [] then []
    else
      var before := steps[..|steps| - 1];
      Grants(w, before, id) + Granted(Run(w, before), steps[|steps| - 1], id)
  }

  ghost predicate LeaseApart(stamps: seq<int>) {
    forall i, j :: 0 <= i < j < |stamps| ==> stamps[j] - stamps[i] >= (j - i) * BILLING_EVENT_LEASE_MS
  }

  /**
   * Whatever the clocks and the interleaving, the claims granted for an event are at least a
   * lease apart, the row counts exactly those claims and remembers the last one.
   */
  lemma {:induction false} ClaimsAreLeaseApart(w: World, steps: seq<Step>, id: string)
    requires id !in w.events
    ensures LeaseApart(Grants(w, steps, id))
    ensures id in Run(w, steps).events <==> Grants(w, steps, id) != []
    ensures id in Run(w, steps).events ==>
              Run(w, steps).events[id].attempts == |Grants(w, steps, id)| &&
              Run(w, steps).events[id].startedAt == Some(Grants(w, steps, id)[|Grants(w, steps, id)| - 1])
  {
    if steps != [] {
      var before := steps[..|steps| - 1];
      ClaimsAreLeaseApart(w, before, id);
      var past, last := Grants(w, before, id), Granted(Run(w, before), steps[|steps| - 1], id);
      if last != [] && past != [] {
        var n := |past|;
        forall i | 0 <= i < n ensures last[0] - past[i] >= (n - i) * BILLING_EVENT_LEASE_MS {
          assert past[n - 1] - past[i] >= (n - 1 - i) * BILLING_EVENT_LEASE_MS;
        }
      }
    }
  }

  /** The real-time bound on attempts. */
  lemma AttemptsAreBoundedByTime(w: World, steps: seq<Step>, id: string)
    requires id !in w.events && id in Run(w, steps).events
    ensures var g := Grants(w, steps, id);
            g != [] && (Run(w, steps).events[id].attempts - 1) * BILLING_EVENT_LEASE_MS <= g[|g| - 1] - g[0]
  {
    ClaimsAreLeaseApart(w, steps, id);
    SpanOfStamps(Grants(w, steps, id));
  }

  lemma SpanOfStamps(stamps: seq<int>)
    requires LeaseApart(stamps) && stamps != []
    ensures (|stamps| - 1) * BILLING_EVENT_LEASE_MS <= stamps[|stamps| - 1] - stamps[0]
  {
    if |stamps| > 1 { assert stamps[|stamps| - 1] - stamps[0] >= (|stamps| - 1 - 0) * BILLING_EVENT_LEASE_MS; }
  }

  lemma {:induction false} ProcessedIsFinal(w: World, steps: seq<Step>, id: string)
    requires id in w.events && w.events[id].processedAt.Some?
    ensures Grants(w, steps, id) == []
    ensures id in Run(w, steps).events && Run(w, steps).events[id].processedAt.Some?
    ensures Run(w, steps).events[id].attempts == w.events[id].attempts
  {
    if steps != [] { ProcessedIsFinal(w, steps[..|steps| - 1], id); }
  }

  predicate Holds(w: World, k: nat, id: string) {
    k in w.workers && (w.workers[k].Owning? || w.workers[k].Acknowledging?) && w.workers[k].id == id
  }

  /** A holder after a step held before, or is the one that was just granted the event. */
  lemma HolderStep(v: World, step: Step, id: string, k: nat)
    requires Holds(Next(v, step), k, id)
    ensures (Holds(v, k, id) && Next(v, step).workers[k].now == v.workers[k].now) ||
            (step in {InsertRow(k), Reclaim(k)} && Granted(v, step, id) == [Next(v, step).workers[k].now])
  {
  }

  /** A grant is the new stamp of the row, at least a lease after the old one; without one the stamp stays. */
  lemma GrantStep(v: World, step: Step, id: string)
    ensures id in v.events ==> id in Next(v, step).events
    ensures Granted(v, step, id) != [] ==>
              id in Next(v, step).events && Next(v, step).events[id].startedAt == Some(Granted(v, step, id)[0])
    ensures Granted(v, step, id) != [] && id in v.events && v.events[id].startedAt.Some? ==>
              Granted(v, step, id)[0] - v.events[id].startedAt.value >= BILLING_EVENT_LEASE_MS
    ensures Granted(v, step, id) == [] && id in v.events ==>
      Next(v, step).events[id].startedAt == v.events[id].startedAt
    ensures Granted(v, step, id) == [] && id !in v.events ==> id !in Next(v, step).events
  {
  }

  /** A replica that holds the event was granted it no later than the last stamp. */
  predicate HeldSince(v: World, id: string, k: nat) {
    Holds(v, k, id) ==>
      id in v.events && v.events[id].startedAt.Some? && v.workers[k].now <= v.events[id].startedAt.value
  }

  lemma HeldSinceStep(v: World, step: Step, id: string, k: nat)
    requires HeldSince(v, id, k)
    ensures HeldSince(Next(v, step), id, k)
  {
    GrantStep(v, step, id);
    if Holds(Next(v, step), k, id) { HolderStep(v, step, id, k); }
  }

  lemma {:induction false} HolderWasGranted(w: World, steps: seq<Step>, id: string, k: nat)
    requires w.workers == map[]
    ensures HeldSince(Run(w, steps), id, k)
  {
    if steps != [] {
      HolderWasGranted(w, steps[..|steps| - 1], id, k);
      HeldSinceStep(Run(w, steps[..|steps| - 1]), steps[|steps| - 1], id, k);
    }
  }

  predicate LeaseBetween(a: int, b: int) {
    a - b >= BILLING_EVENT_LEASE_MS || b - a >= BILLING_EVENT_LEASE_MS
  }

  lemma SecondHolderComesLater(v: World, step: Step, id: string, j: nat, k: nat)
    requires j != k && HeldSince(v, id, j) && HeldSince(v, id, k)
    requires Holds(Next(v, step), j, id) && Holds(Next(v, step), k, id)
    requires Holds(v, j, id) && Holds(v, k, id) ==> LeaseBetween(v.workers[j].now, v.workers[k].now)
    ensures LeaseBetween(Next(v, step).workers[j].now, Next(v, step).workers[k].now)
  {
    HolderStep(v, step, id, j);
    HolderStep(v, step, id, k);
    GrantStep(v, step, id);
  }

  /** Two replicas that hold one event at once were granted it at least a lease apart. */
  lemma {:induction false} HoldersAreLeaseApart(w: World, steps: seq<Step>, id: string, j: nat, k: nat)
    requires w.workers == map[]
    requires j != k && Holds(Run(w, steps), j, id) && Holds(Run(w, steps), k, id)
    ensures LeaseBetween(Run(w, steps).workers[j].now, Run(w, steps).workers[k].now)
  {
    var before := steps[..|steps| - 1];
    HolderWasGranted(w, before, id, j);
    HolderWasGranted(w, before, id, k);
    if Holds(Run(w, before), j, id) && Holds(Run(w, before), k, id) { HoldersAreLeaseApart(w, before, id, j, k); }
    SecondHolderComesLater(Run(w, before), steps[|steps| - 1], id, j, k);
  }

  // -------------------------------------------------- effect on subscriptions

  /** The row a step offers to the subscription `subId`, if its sync step runs with a known status and owner. */
  function Offered(w: World, step: Step, subId: string): (r: seq<Row>)
    ensures forall x :: x in r ==> Stamped(x)
  {
    match step
    case Dispatch(k, fetched, at) =>
      if k !in w.workers || !w.workers[k].Owning? then []
      else
        var work := WorkFor(w.workers[k].event, fetched);
        if !work.SyncWith? || work.sub.id != subId then []
        else OfferedRow(w.billing, work.sub, w.workers[k].event.created * 1000, w.workers[k].id)
    case Manage(sub, at, id) => if sub.id != subId then [] else OfferedRow(w.billing, sub, at, id)
    case _ => []
  }

  function OfferedRow(b: Billing, sub: StripeSub, at: int, id: string): (r: seq<Row>)
    ensures forall x :: x in r ==> Stamped(x)
  {
    var incoming := Incoming(b, sub, at, id);
    if incoming.None? then [] else [incoming.value]
  }

  function Offers(w: World, steps: seq<Step>, subId: string): (r: seq<Row>)
    ensures forall x :: x in r ==> Stamped(x)
  {
    if steps == [] then []
    else
      var before := steps[..|steps| - 1];
      Offers(w, before, subId) + Offered(Run(w, before), steps[|steps| - 1], subId)
  }

  lemma SyncMerges(b: Billing, sub: StripeSub, at: int, id: string, now: int)
    ensures var offered := OfferedRow(b, sub, at, id);
            Lookup(Sync(b, sub, at, id, now).subs, sub.id)
            == if offered == [] then Lookup(b.subs, sub.id) else Some(Merge(Lookup(b.subs, sub.id), offered[0]))
    ensures forall other :: other != sub.id ==> Lookup(Sync(b, sub, at, id, now).subs, other) == Lookup(b.subs, other)
  {
  }

  lemma StepMerges(v: World, step: Step, subId: string)
    ensures var offered := Offered(v, step, subId);
            |offered| <= 1 &&
            Lookup(Next(v, step).billing.subs, subId)
            == if offered == [] then Lookup(v.billing.subs, subId)
               else Some(Merge(Lookup(v.billing.subs, subId), offered[0]))
  {
    match step {
      case Dispatch(k, fetched, at) =>
        if k in v.workers && v.workers[k].Owning? && WorkFor(v.workers[k].event, fetched).SyncWith? {
          SyncMerges(v.billing, WorkFor(v.workers[k].event, fetched).sub, v.workers[k].event.created * 1000,
                     v.workers[k].id, at);
        }
      case Manage(sub, at, id) => SyncMerges(v.billing, sub, at, id, at);
      case _ =>
    }
  }

  /** Every interleaved run refines the one-row fold over the syncs that ran. */
  lemma {:induction false} RunRefinesFold(w: World, steps: seq<Step>, subId: string)
    ensures Lookup(Run(w, steps).billing.subs, subId) == Fold(Lookup(w.billing.subs, subId), Offers(w, steps, subId))
  {
    if steps != [] {
      var before, step := steps[..|steps| - 1], steps[|steps| - 1];
      RunRefinesFold(w, before, subId);
      StepMerges(Run(w, before), step, subId);
      var past, last := Offers(w, before, subId), Offered(Run(w, before), step, subId);
      if last == [] {
        assert past + last == past;
      } else {
        assert (past + last)[..|past|] == past;
      }
    }
  }

  /**
   * Exactly-once effect: the stored row is the snapshot of the greatest-key sync that ran,
   * and if equal keys carry equal snapshots it depends on nothing else about the run.
   */
  lemma GreatestSyncWins(w: World, steps: seq<Step>, subId: string)
    requires subId !in w.billing.subs
    ensures var sent := Offers(w, steps, subId);
            (subId in Run(w, steps).billing.subs <==> sent != []) &&
            (sent != [] ==> Greatest(Run(w, steps).billing.subs[subId], sent))
  {
    RunRefinesFold(w, steps, subId);
    FoldIsGreatest(None, Offers(w, steps, subId));
  }

  lemma RunsThatSawTheSameSyncsAgree(w: World, one: seq<Step>, other: seq<Step>, subId: string)
    requires subId !in w.billing.subs
    requires DeliveryOf(Offers(w, one, subId), Offers(w, other, subId))
    requires GreatestUnique(Offers(w, other, subId))
    ensures Lookup(Run(w, one).billing.subs, subId) == Lookup(Run(w, other).billing.subs, subId)
  {
    var sent := Offers(w, other, subId);
    RunRefinesFold(w, one, subId);
    RunRefinesFold(w, other, subId);
    ConvergesIffGreatestUnique(sent);
    assert DeliveryOf(sent, sent);
  }

  /** A provider customer once linked to a user is never reassigned, whatever events and retries say. */
  lemma {:induction false} CustomerOwnerIsFinal(w: World, steps: seq<Step>, customerId: string)
    requires customerId in w.billing.customers
    ensures customerId in Run(w, steps).billing.customers
    ensures Run(w, steps).billing.customers[customerId] == w.billing.customers[customerId]
  {
    if steps != [] { CustomerOwnerIsFinal(w, steps[..|steps| - 1], customerId); }
  }

  /** The step dispatches event `id` to completion. */
  predicate Dispatches(v: World, step: Step, id: string) {
    step.Dispatch? && step.k in v.workers && v.workers[step.k].Owning? && v.workers[step.k].id == id
    && !WorkFor(v.workers[step.k].event, step.fetched).Fails?
  }

  /** Some step of the run did. */
  predicate Dispatched(w: World, steps: seq<Step>, id: string) {
    steps != [] &&
    (Dispatched(w, steps[..|steps| - 1], id) || Dispatches(Run(w, steps[..|steps| - 1]), steps[|steps| - 1], id))
  }

  /** Event `id` is acknowledged, or a replica is about to. */
  predicate Processed(v: World, id: string) {
    id in v.events && v.events[id].processedAt.Some?
  }

  predicate AboutToAcknowledge(v: World, k: nat, id: string) {
    k in v.workers && v.workers[k].Acknowledging? && v.workers[k].id == id
  }

  lemma OnlyDispatchLeadsToAcknowledging(v: World, step: Step, id: string)
    ensures Processed(Next(v, step), id) ==> Processed(v, id) || exists k :: AboutToAcknowledge(v, k, id)
    ensures forall k :: AboutToAcknowledge(Next(v, step), k, id) ==>
      AboutToAcknowledge(v, k, id) || Dispatches(v, step, id)
  {
    if Processed(Next(v, step), id) && !Processed(v, id) && step.Acknowledge? {
      assert AboutToAcknowledge(v, step.k, id);
    }
  }

  /** At least once: an acknowledged event was dispatched to completion. */
  lemma {:induction false} AcknowledgedWasDispatched(w: World, steps: seq<Step>, id: string)
    requires w.workers == map[] && !Processed(w, id)
    ensures Processed(Run(w, steps), id) ==> Dispatched(w, steps, id)
    ensures forall k :: AboutToAcknowledge(Run(w, steps), k, id) ==> Dispatched(w, steps, id)
  {
    if steps != [] {
      AcknowledgedWasDispatched(w, steps[..|steps| - 1], id);
      OnlyDispatchLeadsToAcknowledging(Run(w, steps[..|steps| - 1]), steps[|steps| - 1], id);
    }
  }

  /** And never lost: an unacknowledged event is claimable by a lone retry as soon as its lease is over. */
  lemma LoneRetryClaimsIffLeaseOver(w: World, k: nat, id: string, event: Event, now: int)
    requires k !in w.workers
    ensures Holds(Run(w, [Deliver(k, id, event, now), InsertRow(k), ReadRow(k), Reclaim(k)]), k, id)
            <==> id !in w.events || Reclaimable(w.events[id], now)
  {
    var a, b, c, d := Deliver(k, id, event, now), InsertRow(k), ReadRow(k), Reclaim(k);
    assert [a, b, c, d][..3] == [a, b, c] && [a, b, c][..2] == [a, b] && [a, b][..1] == [a] && [a][..0] == [];
    assert Run(w, [a]) == Next(w, a);
    assert Run(w, [a, b]) == Next(Next(w, a), b);
    assert Run(w, [a, b, c]) == Next(Next(Next(w, a), b), c);
  }

  /**
   * In milliseconds: an unprocessed event claimed at `start` goes to a lone retry exactly when two
   * minutes have passed, one never stamped at once, a processed one never.
   */
  lemma LoneRetryWaitsTwoMinutes(w: World, k: nat, id: string, event: Event, now: int)
    requires k !in w.workers && id in w.events
    ensures var row := w.events[id];
            Holds(Run(w, [Deliver(k, id, event, now), InsertRow(k), ReadRow(k), Reclaim(k)]), k, id)
            <==> row.processedAt.None? && (row.startedAt.Some? ==> now - row.startedAt.value >= 120000)
  {
    LoneRetryClaimsIffLeaseOver(w, k, id, event, now);
  }

  /** A holder that dispatches and acknowledges settles the event: no later run grants it to anybody. */
  lemma AcknowledgedIsSettled(w: World, k: nat, id: string, at: int, later: seq<Step>, other: nat)
    requires AboutToAcknowledge(w, k, id) && id in w.events
    ensures var v := Next(w, Acknowledge(k, at));
            v.events == w.events[id := w.events[id].(processedAt := Some(at))] && !Holds(v, k, id) &&
            Grants(v, later, id) == [] && Processed(Run(v, later), id) &&
            (Holds(Run(v, later), other, id) ==> Holds(v, other, id))
  {
    var v := Next(w, Acknowledge(k, at));
    ProcessedIsFinal(v, later, id);
    NoGrantNoNewHolder(v, later, id, other);
  }

  lemma {:induction false} NoGrantNoNewHolder(w: World, steps: seq<Step>, id: string, k: nat)
    requires Grants(w, steps, id) == []
    ensures Holds(Run(w, steps), k, id) ==> Holds(w, k, id)
  {
    if steps != [] {
      NoGrantNoNewHolder(w, steps[..|steps| - 1], id, k);
      if Holds(Run(w, steps), k, id) { HolderStep(Run(w, steps[..|steps| - 1]), steps[|steps| - 1], id, k); }
    }
  }

  /** Where in the run event `id` was dispatched to completion. */
  lemma {:induction false} FindDispatch(w: World, steps: seq<Step>, id: string) returns (k: nat)
    requires Dispatched(w, steps, id)
    ensures k < |steps| && Dispatches(Run(w, steps[..k]), steps[k], id)
  {
    var n := |steps| - 1;
    if Dispatched(w, steps[..n], id) {
      k := FindDispatch(w, steps[..n], id);
      assert steps[..n][..k] == steps[..k];
    } else {
      k := n;
    }
  }

  /** The stored row is at or above `key`. */
  predicate AtLeast(b: Billing, subId: string, key: Key) {
    subId in b.subs && KeyLe(key, RowKey(b.subs[subId]))
  }

  /** No step lowers a stored key, and one that offers a row leaves the key at or above it. */
  lemma StepNeverLowers(v: World, step: Step, subId: string, key: Key)
    ensures AtLeast(v.billing, subId, key) ==> AtLeast(Next(v, step).billing, subId, key)
    ensures var offered := Offered(v, step, subId);
            offered != [] ==> AtLeast(Next(v, step).billing, subId, RowKey(offered[0]))
  {
    StepMerges(v, step, subId);
    var offered := Offered(v, step, subId);
    if offered != [] {
      var x := offered[0];
      KeyLeIsTotalOrder(RowKey(x), RowKey(x), RowKey(x));
      if subId in v.billing.subs {
        var old' := v.billing.subs[subId];
        MergeKeepsGreater(old', x);
        KeyLeIsTotalOrder(key, RowKey(old'), RowKey(Merge(Some(old'), x)));
      }
    }
  }

  lemma {:induction false} OfferedIsReflected(w: World, steps: seq<Step>, k: nat, subId: string, key: Key)
    requires k < |steps| && AtLeast(Run(w, steps[..k + 1]).billing, subId, key)
    ensures AtLeast(Run(w, steps).billing, subId, key)
  {
    var n := |steps| - 1;
    if k == n {
      assert steps[..k + 1] == steps;
    } else {
      var before := steps[..n];
      assert before[..k + 1] == steps[..k + 1];
      OfferedIsReflected(w, before, k, subId, key);
      StepNeverLowers(Run(w, before), steps[n], subId, key);
    }
  }

  lemma RunTo(w: World, steps: seq<Step>, k: nat)
    requires k < |steps|
    ensures Run(w, steps[..k + 1]) == Next(Run(w, steps[..k]), steps[k])
  {
    assert steps[..k + 1][..k] == steps[..k];
  }

  /**
   * End to end: a processed event was dispatched in the run, and if its dispatch synced a
   * snapshot of known status and owner, the stored row is at or above that event's key.
   */
  lemma ProcessedEventIsReflected(w: World, steps: seq<Step>, id: string) returns (k: nat)
    requires w.workers == map[] && !Processed(w, id) && Processed(Run(w, steps), id)
    ensures k < |steps| && Dispatches(Run(w, steps[..k]), steps[k], id)
    ensures forall subId :: Offered(Run(w, steps[..k]), steps[k], subId) != [] ==>
      AtLeast(Run(w, steps).billing, subId, RowKey(Offered(Run(w, steps[..k]), steps[k], subId)[0]))
  {
    AcknowledgedWasDispatched(w, steps, id);
    k := FindDispatch(w, steps, id);
    var v := Run(w, steps[..k]);
    RunTo(w, steps, k);
    forall subId | Offered(v, steps[k], subId) != []
      ensures AtLeast(Run(w, steps).billing, subId, RowKey(Offered(v, steps[k], subId)[0]))
    {
      var key := RowKey(Offered(v, steps[k], subId)[0]);
      StepNeverLowers(v, steps[k], subId, key);
      OfferedIsReflected(w, steps, k, subId, key);
    }
  }

  /** For a created, updated or deleted event the offered row is the event's own snapshot under its own key. */
  lemma DispatchOffersTheSnapshot(v: World, step: Step, id: string, sub: StripeSub)
    requires Dispatches(v, step, id)
    requires var event := v.workers[step.k].event;
             event.payload == SubscriptionChanged(sub) ||
             (event.payload.SubscriptionDeleted? && event.payload.sub.(status := "canceled") == sub)
    requires Incoming(v.billing, sub, v.workers[step.k].event.created * 1000, id).Some?
    ensures var at := v.workers[step.k].event.created * 1000;
            Offered(v, step, sub.id) == [Incoming(v.billing, sub, at, id).value] &&
            RowKey(Incoming(v.billing, sub, at, id).value) == At(at, StatusRank(MapStatus(sub.status).value), Some(id))
  {
  }

  /** The event makes the service fetch a subscription: a paid-for checkout or a failed invoice that names one. */
  predicate Fetches(event: Event) {
    match event.payload
    case CheckoutCompleted(forSubscription, customerId, subscriptionId) =>
      forSubscription && customerId.Some? && subscriptionId.Some?
    case InvoicePaymentFailed(subscriptionId) => subscriptionId.Some?
    case _ => false
  }

  /**
   * For those the row stored afterwards is what was fetched, under the event's time and id, unless the
   * stored one is from a later event. When the fetch fails nothing is written and the event stays
   * unacknowledged, so that the provider sends it again.
   */
  lemma FetchedSnapshotIsStored(v: World, k: nat, fetched: Option<StripeSub>, at: int)
    requires k in v.workers && v.workers[k].Owning? && Fetches(v.workers[k].event)
    ensures var id, time, v' := v.workers[k].id, v.workers[k].event.created * 1000, Next(v, Dispatch(k, fetched, at));
            v'.events == v.events &&
            (fetched.None? ==> v'.billing == v.billing && k !in v'.workers) &&
            (fetched.Some? ==> AboutToAcknowledge(v', k, id)) &&
            (fetched.Some? && Applicable(v.billing, fetched.value) &&
             (fetched.value.id in v.billing.subs ==>
               v.billing.subs[fetched.value.id].lastEventAt.None? ||
               v.billing.subs[fetched.value.id].lastEventAt.value < time) ==>
               fetched.value.id in v'.billing.subs &&
               Carries(v'.billing.subs[fetched.value.id], fetched.value,
                       v.billing.customers[fetched.value.customerId], time, id))
  {
    if fetched.Some? && Applicable(v.billing, fetched.value) {
      if fetched.value.id in v.billing.subs ==>
           v.billing.subs[fetched.value.id].lastEventAt.None? ||
           v.billing.subs[fetched.value.id].lastEventAt.value < v.workers[k].event.created * 1000
      {
        SyncStoresTheSnapshot(v.billing, fetched.value, v.workers[k].event.created * 1000, v.workers[k].id, at);
      }
    }
  }

  /** Every other event that carries no snapshot is acknowledged and changes no subscription. */
  lemma OtherEventsChangeNoSubscription(v: World, k: nat, fetched: Option<StripeSub>, at: int)
    requires k in v.workers && v.workers[k].Owning? && !Fetches(v.workers[k].event)
    requires !v.workers[k].event.payload.SubscriptionChanged? && !v.workers[k].event.payload.SubscriptionDeleted?
    ensures var v' := Next(v, Dispatch(k, fetched, at));
            v'.billing == v.billing && v'.events == v.events && AboutToAcknowledge(v', k, v.workers[k].id)
  {
  }

  ghost predicate Leads(w: World, v: World) {
    exists steps :: Run(w, steps) == v
  }

  lemma LeadsOn(w: World, v: World, step: Step)
    requires Leads(w, v)
    ensures Leads(w, Next(v, step))
  {
    var steps :| Run(w, steps) == v;
    assert (steps + [step])[..|steps|] == steps;
    assert Run(w, steps + [step]) == Next(v, step);
  }

  lemma FirstClaimLeads(w: World, id: string, event: Event, now: int)
    requires w.workers == map[] && id !in w.events
    ensures Leads(w, w.(events := w.events[id := FirstClaim(now)], workers := map[0 := Owning(id, event, now)]))
  {
    assert Run(w, []) == w;
    LeadsOn(w, w, Deliver(0, id, event, now));
    var w1 := w.(workers := map[0 := Inserting(id, event, now)]);
    assert Next(w, Deliver(0, id, event, now)) == w1;
    LeadsOn(w, w1, InsertRow(0));
  }

  /** A replica claims a new event, syncs what it fetched and crashes before acknowledging. */
  lemma FirstAttemptCrashes(w: World, id: string, event: Event, now: int, fetched: StripeSub)
    requires w.workers == map[] && id !in w.events
    requires event.payload.InvoicePaymentFailed? && event.payload.subscriptionId.Some?
    ensures Leads(w, w.(events := w.events[id := FirstClaim(now)],
                        billing := Sync(w.billing, fetched, event.created * 1000, id, now)))
  {
    FirstClaimLeads(w, id, event, now);
    var owning := w.(events := w.events[id := FirstClaim(now)], workers := map[0 := Owning(id, event, now)]);
    LeadsOn(w, owning, Dispatch(0, Some(fetched), now));
    assert WorkFor(event, Some(fetched)) == SyncWith(fetched);
    var billing := Sync(w.billing, fetched, event.created * 1000, id, now);
    var synced := owning.(billing := billing, workers := map[0 := Acknowledging(id, event, now)]);
    assert Next(owning, Dispatch(0, Some(fetched), now)) == synced;
    LeadsOn(w, synced, Crash(0));
    assert synced.workers - {0} == map[];
  }

  lemma RetryReclaims(w: World, v: World, id: string, event: Event, now: int)
    requires Leads(w, v) && v.workers == map[] && id in v.events && Reclaimable(v.events[id], now)
    ensures Leads(w, v.(events := v.events[id := NextClaim(v.events[id], now)],
                        workers := map[1 := Owning(id, event, now)]))
  {
    LeadsOn(w, v, Deliver(1, id, event, now));
    var v1 := v.(workers := map[1 := Inserting(id, event, now)]);
    assert Next(v, Deliver(1, id, event, now)) == v1;
    LeadsOn(w, v1, InsertRow(1));
    var v2 := v.(workers := map[1 := Reading(id, event, now)]);
    assert Next(v1, InsertRow(1)) == v2;
    LeadsOn(w, v2, ReadRow(1));
    var v3 := v.(workers := map[1 := Reclaiming(id, event, now)]);
    assert Next(v2, ReadRow(1)) == v3;
    LeadsOn(w, v3, Reclaim(1));
  }

  /** After the lease the retry claims it again and syncs what it fetches now. */
  lemma RetrySyncs(w: World, v: World, id: string, event: Event, now: int, fetched: StripeSub)
    requires Leads(w, v) && v.workers == map[] && id in v.events && Reclaimable(v.events[id], now)
    requires event.payload.InvoicePaymentFailed? && event.payload.subscriptionId.Some?
    ensures exists last :: Leads(w, last) && last.billing == Sync(v.billing, fetched, event.created * 1000, id, now)
  {
    RetryReclaims(w, v, id, event, now);
    var owning := v.(events := v.events[id := NextClaim(v.events[id], now)],
                     workers := map[1 := Owning(id, event, now)]);
    LeadsOn(w, owning, Dispatch(1, Some(fetched), now));
    assert WorkFor(event, Some(fetched)) == SyncWith(fetched);
  }

  /**
   * Equal keys with different snapshots do occur: the retry of a crashed event fetches a
   * subscription that has changed within its status, and its fresher snapshot is skipped.
   */
  lemma RetryKeepsTheFirstFetch(w: World, id: string, event: Event, now: int, first: StripeSub, second: StripeSub)
    requires w.workers == map[] && id !in w.events && id != "" && first.id !in w.billing.subs && second.id == first.id
    requires event.payload.InvoicePaymentFailed? && event.payload.subscriptionId.Some?
    requires var at := event.created * 1000;
             Incoming(w.billing, first, at, id).Some? && Incoming(w.billing, second, at, id).Some? &&
             RowKey(Incoming(w.billing, first, at, id).value) == RowKey(Incoming(w.billing, second, at, id).value)
    ensures exists last :: Leads(w, last) && first.id in last.billing.subs &&
              last.billing.subs[first.id] == Incoming(w.billing, first, event.created * 1000, id).value
    ensures exists last :: Leads(w, last) && first.id in last.billing.subs &&
              last.billing.subs[first.id] == Incoming(w.billing, second, event.created * 1000, id).value
  {
    RetryKeepsOne(w, id, event, now, first, second);
    RetryKeepsOne(w, id, event, now, second, first);
  }

  lemma RetryKeepsOne(w: World, id: string, event: Event, now: int, first: StripeSub, second: StripeSub)
    requires w.workers == map[] && id !in w.events && id != "" && first.id !in w.billing.subs && second.id == first.id
    requires event.payload.InvoicePaymentFailed? && event.payload.subscriptionId.Some?
    requires var at := event.created * 1000;
             Incoming(w.billing, first, at, id).Some? && Incoming(w.billing, second, at, id).Some? &&
             RowKey(Incoming(w.billing, first, at, id).value) == RowKey(Incoming(w.billing, second, at, id).value)
    ensures exists last :: Leads(w, last) && first.id in last.billing.subs &&
              last.billing.subs[first.id] == Incoming(w.billing, first, event.created * 1000, id).value
  {
    var at, later := event.created * 1000, now + BILLING_EVENT_LEASE_MS;
    var once := Sync(w.billing, first, at, id, now);
    var v := w.(events := w.events[id := FirstClaim(now)], billing := once);
    FirstAttemptCrashes(w, id, event, now, first);
    RetrySyncs(w, v, id, event, later, second);
    var a, b := Incoming(w.billing, first, at, id).value, Incoming(w.billing, second, at, id).value;
    SkipIsKeyOrder(a, b);
    KeyLeIsTotalOrder(RowKey(a), RowKey(b), RowKey(a));
    assert Sync(once, second, at, id, later) == once;
  }

  // -------------------------------------------------------- plan cache, whole runs

  function SyncTime(step: Step): Option<int> {
    match step
    case Dispatch(_, _, at) => Some(at)
    case Manage(_, at, _) => Some(at)
    case _ => None
  }

  /** The clock of the sync steps starts at `start`, never goes back, and has reached `end`. */
  predicate Clocked(steps: seq<Step>, start: int, end: int) {
    if steps == [] then start <= end
    else
      var time := SyncTime(steps[|steps| - 1]);
      (time.Some? ==> time.value <= end) &&
      Clocked(steps[..|steps| - 1], start, if time.Some? then time.value else end)
  }

  /** In every reachable state, at every later time, live Plus from the rows is in the cached plan. */
  lemma {:induction false} CachedPlanNeverMissesPlus(w: World, steps: seq<Step>, start: int, end: int)
    requires PlansSound(w.billing, start) && Clocked(steps, start, end)
    ensures PlansSound(Run(w, steps).billing, end)
  {
    if steps == [] {
      PlansStaySound(w.billing, start, end);
    } else {
      var before, step := steps[..|steps| - 1], steps[|steps| - 1];
      var time := SyncTime(step);
      var reached := if time.Some? then time.value else end;
      CachedPlanNeverMissesPlus(w, before, start, reached);
      var v := Run(w, before);
      match step {
        case Dispatch(k, fetched, at) =>
          if k in v.workers && v.workers[k].Owning? && WorkFor(v.workers[k].event, fetched).SyncWith? {
            var event, id := v.workers[k].event, v.workers[k].id;
            SyncKeepsPlansSound(v.billing, WorkFor(event, fetched).sub, event.created * 1000, id, at);
          }
        case Manage(sub, at, id) => SyncKeepsPlansSound(v.billing, sub, at, id, at);
        case _ =>
      }
      PlansStaySound(Run(w, steps).billing, reached, end);
    }
  }

  // ----------------------------------------------------------------- service

  class BillingEvents {
    var events: map<string, EventRow>

    /** Insert, read, conditional update, with no other replica in between. */
    method ClaimBillingEvent(id: string, now: int) returns (r: ClaimResult)
      modifies this
      ensures r == Claimed <==> id !in old(events) || Reclaimable(old(events)[id], now)
      ensures r == Duplicate <==> id in old(events) && old(events)[id].processedAt.Some?
      ensures id in old(events) && old(events)[id].processedAt.None? && old(events)[id].startedAt.Some? ==>
                var waited := now - old(events)[id].startedAt.value;
                (waited >= 120000 ==> r == Claimed) && (waited < 120000 ==> r == InProgress)
      ensures r == Claimed ==> id in events && events[id].startedAt == Some(now) && events[id].processedAt.None?
      ensures r == Claimed ==> events[id].attempts == if id in old(events) then old(events)[id].attempts + 1 else 1
      ensures r == Claimed && id in old(events) ==> events == old(events)[id := NextClaim(old(events)[id], now)]
      ensures r == Claimed && id !in old(events) ==> events == old(events)[id := FirstClaim(now)]
      ensures r != Claimed ==> events == old(events)
    {
      if id !in events {
        events := events[id := EventRow(Some(now), None, 1)];
        return Claimed;
      }
      var existing := events[id];
      if existing.processedAt.Some? { return Duplicate; }
      var leaseCutoff := now - BILLING_EVENT_LEASE_MS;
      if existing.startedAt.Some? && existing.startedAt.value > leaseCutoff { return InProgress; }
      if events[id].processedAt.None? && (events[id].startedAt.None? || events[id].startedAt.value <= leaseCutoff) {
        events := events[id := events[id].(startedAt := Some(now), attempts := events[id].attempts + 1)];
        return Claimed;
      }
      return InProgress;
    }

    method MarkBillingEventProcessed(id: string, now: int)
      requires id in events
      modifies this
      ensures events == old(events)[id := old(events)[id].(processedAt := Some(now))]
    {
      events := events[id := events[id].(processedAt := Some(now))];
    }
  }
}
