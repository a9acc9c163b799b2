/**
 * Stripe subscription snapshots: provider ordering, the upsert keyed by
 * (event time, status rank, event id), and the plan derived from the stored rows.
 */
module Subscriptions {
  import opened Prelude

  datatype Status = ACTIVE | TRIALING | PAST_DUE | CANCELED | UNPAID | INCOMPLETE | EXPIRED

  datatype Plan = FREE | PLUS | ENTERPRISE

  /** A normalised provider snapshot. Times are milliseconds. */
  datatype StripeSub = StripeSub(
    id: string,
    customerId: string,
    status: string,
    priceId: Option<string>,
    periodStart: Option<int>,
    periodEnd: Option<int>,
    cancelAtPeriodEnd: bool,
    canceledAt: Option<int>,
    metadataUserId: Option<string>)

  /** A stored subscription; the two `last` columns are null on rows no event has written. */
  datatype Row = Row(
    userId: string,
    customerId: string,
    priceId: Option<string>,
    status: Status,
    periodStart: Option<int>,
    periodEnd: Option<int>,
    cancelAtPeriodEnd: bool,
    canceledAt: Option<int>,
    lastEventAt: Option<int>,
    lastEventId: Option<string>)

  /** The tables a sync touches: customer owners, subscriptions by provider id, cached plans by user. */
  datatype Billing = Billing(
    customers: map<string, string>,
    subs: map<string, Row>,
    plans: map<string, Plan>)

  datatype SyncResult = Synced | SkippedStale | SkippedUnknownStatus | SkippedNoCustomer

  function MapStatus(status: string): Option<Status> {
    match status
    case "active" => Some(ACTIVE)
    case "trialing" => Some(TRIALING)
    case "past_due" => Some(PAST_DUE)
    case "unpaid" => Some(UNPAID)
    case "incomplete" => Some(INCOMPLETE)
    case "incomplete_expired" => Some(EXPIRED)
    case "canceled" => Some(CANCELED)
    case "paused" => Some(UNPAID)
    case _ => None
  }

  function StatusRank(status: Status): nat {
    match status
    case CANCELED => 60
    case EXPIRED => 50
    case UNPAID => 40
    case INCOMPLETE => 30
    case PAST_DUE => 20
    case ACTIVE => 10
    case TRIALING => 10
  }

  // ---------------------------------------------------------------- ordering

  /** The staleness test, branch for branch. An empty stored id counts as no id. */
  predicate ShouldSkip(existing: Row, status: Status, at: int, id: string) {
    if existing.lastEventAt.None? then false
    else if at < existing.lastEventAt.value then true
    else if at > existing.lastEventAt.value then false
    else if StatusRank(status) < StatusRank(existing.status) then true
    else if StatusRank(status) > StatusRank(existing.status) then false
    else existing.lastEventId.Some? && existing.lastEventId.value != "" && StrLe(id, existing.lastEventId.value)
  }

  /** What orders two writes of one subscription; `Never` is a row without an event time. */
  datatype Key = Never | At(time: int, rank: nat, id: Option<string>)

  function RowKey(row: Row): Key {
    if row.lastEventAt.None? then Never else At(row.lastEventAt.value, StatusRank(row.status), row.lastEventId)
  }

  predicate IdLe(a: Option<string>, b: Option<string>) {
    a.None? || (b.Some? && StrLe(a.value, b.value))
  }

  predicate KeyLe(a: Key, b: Key) {
    a.Never? || (b.At? &&
      (a.time < b.time || (a.time == b.time &&
        (a.rank < b.rank || (a.rank == b.rank && IdLe(a.id, b.id))))))
  }

  lemma KeyLeIsTotalOrder(a: Key, b: Key, c: Key)
    ensures KeyLe(a, b) || KeyLe(b, a)
    ensures KeyLe(a, b) && KeyLe(b, a) ==> a == b
    ensures KeyLe(a, b) && KeyLe(b, c) ==> KeyLe(a, c)
  {
    if a.At? && b.At? && a.id.Some? && b.id.Some? {
      StrLeTotal(a.id.value, b.id.value);
      if StrLe(a.id.value, b.id.value) && StrLe(b.id.value, a.id.value) {
        StrLeAntisymmetric(a.id.value, b.id.value);
      }
      if c.At? && c.id.Some? && StrLe(a.id.value, b.id.value) && StrLe(b.id.value, c.id.value) {
        StrLeTransitive(a.id.value, b.id.value, c.id.value);
      }
    }
  }

  /** Rows written by a sync always carry both event columns. */
  predicate Stamped(row: Row) {
    row.lastEventAt.Some? && row.lastEventId.Some?
  }

  /** The stored row after one sync offered `incoming` for it. */
  function Merge(stored: Option<Row>, incoming: Row): (r: Row)
    requires Stamped(incoming)
  {
    if stored.Some? && ShouldSkip(stored.value, incoming.status, incoming.lastEventAt.value, incoming.lastEventId.value)
    then stored.value
    else incoming
  }

  function Fold(stored: Option<Row>, offered: seq<Row>): (r: Option<Row>)
    requires forall x :: x in offered ==> Stamped(x)
  {
    if offered == [] then stored
    else Some(Merge(Fold(stored, offered[..|offered| - 1]), offered[|offered| - 1]))
  }

  /** The branchy test is the key order, except that an exact tie on an empty id is applied again. */
  lemma SkipIsKeyOrder(existing: Row, incoming: Row)
    requires Stamped(incoming)
    ensures ShouldSkip(existing, incoming.status, incoming.lastEventAt.value, incoming.lastEventId.value)
            <==>
            KeyLe(RowKey(incoming), RowKey(existing)) &&
            !(RowKey(incoming) == RowKey(existing) && incoming.lastEventId == Some(""))
  {
    var id := incoming.lastEventId.value;
    if existing.lastEventId.Some? && existing.lastEventId.value == "" {
      assert StrLe(id, "") <==> id == "";
    }
  }

  lemma MergeKeepsGreater(stored: Row, incoming: Row)
    requires Stamped(incoming)
    ensures KeyLe(RowKey(stored), RowKey(Merge(Some(stored), incoming)))
    ensures KeyLe(RowKey(incoming), RowKey(Merge(Some(stored), incoming)))
  {
    SkipIsKeyOrder(stored, incoming);
    KeyLeIsTotalOrder(RowKey(stored), RowKey(incoming), RowKey(stored));
    KeyLeIsTotalOrder(RowKey(stored), RowKey(stored), RowKey(stored));
    KeyLeIsTotalOrder(RowKey(incoming), RowKey(incoming), RowKey(incoming));
  }

  /** Whatever the order and however often repeated, the fold keeps a row of greatest key. */
  lemma {:induction false} FoldIsGreatest(stored: Option<Row>, offered: seq<Row>)
    requires forall x :: x in offered ==> Stamped(x)
    ensures Fold(stored, offered).Some? <==> stored.Some? || offered != []
    ensures Fold(stored, offered).Some? ==> Fold(stored, offered) == stored || Fold(stored, offered).value in offered
    ensures forall x :: x in offered ==> KeyLe(RowKey(x), RowKey(Fold(stored, offered).value))
    ensures stored.Some? ==> KeyLe(RowKey(stored.value), RowKey(Fold(stored, offered).value))
  {
    if offered == [] {
      if stored.Some? { KeyLeIsTotalOrder(RowKey(stored.value), RowKey(stored.value), RowKey(stored.value)); }
      return;
    }
    var n := |offered| - 1;
    var before, last := Fold(stored, offered[..n]), offered[n];
    FoldIsGreatest(stored, offered[..n]);
    assert offered == offered[..n] + [last];
    KeyLeIsTotalOrder(RowKey(last), RowKey(last), RowKey(last));
    if before.Some? {
      MergeKeepsGreater(before.value, last);
      var now := Fold(stored, offered).value;
      forall x | x in offered ensures KeyLe(RowKey(x), RowKey(now)) {
        if x in offered[..n] { KeyLeIsTotalOrder(RowKey(x), RowKey(before.value), RowKey(now)); }
      }
      if stored.Some? { KeyLeIsTotalOrder(RowKey(stored.value), RowKey(before.value), RowKey(now)); }
    }
  }

  // ------------------------------------------------------------- convergence

  /** `seen` is a delivery of `sent`: any order, any number of repeats, nothing lost. */
  ghost predicate DeliveryOf(seen: seq<Row>, sent: seq<Row>) {
    (forall x :: x in seen ==> x in sent) && (forall x :: x in sent ==> x in seen)
  }

  ghost predicate Greatest(x: Row, sent: seq<Row>) {
    x in sent && forall y :: y in sent ==> KeyLe(RowKey(y), RowKey(x))
  }

  /** The snapshots tied for the greatest key are one and the same. */
  ghost predicate GreatestUnique(sent: seq<Row>) {
    forall x, y :: Greatest(x, sent) && Greatest(y, sent) ==> x == y
  }

  ghost predicate Converges(sent: seq<Row>)
    requires forall x :: x in sent ==> Stamped(x)
  {
    forall p, q :: DeliveryOf(p, sent) && DeliveryOf(q, sent) ==> Fold(None, p) == Fold(None, q)
  }

  lemma FoldOfDeliveryIsGreatest(seen: seq<Row>, sent: seq<Row>)
    requires forall x :: x in sent ==> Stamped(x)
    requires DeliveryOf(seen, sent) && sent != []
    ensures Fold(None, seen).Some? && Greatest(Fold(None, seen).value, sent)
  {
    assert sent[0] in seen;
    FoldIsGreatest(None, seen);
  }

  /** Sandwiching a greatest row around the rest makes the fold end on it. */
  lemma SandwichWins(x: Row, sent: seq<Row>)
    requires forall y :: y in sent ==> Stamped(y)
    requires Greatest(x, sent)
    ensures DeliveryOf([x] + sent + [x], sent)
    ensures Fold(None, [x] + sent + [x]) == Some(x)
  {
    var p := [x] + sent;
    assert p + [x] == [x] + sent + [x];
    assert (p + [x])[..|p|] == p;
    var before := Fold(None, p);
    FoldIsGreatest(None, p);
    assert p[0] == x;
    KeyLeIsTotalOrder(RowKey(before.value), RowKey(x), RowKey(x));
    SkipIsKeyOrder(before.value, x);
    if x.lastEventId != Some("") { StickyStart(x, sent); }
  }

  lemma {:induction false} StickyStart(x: Row, rest: seq<Row>)
    requires Stamped(x) && x.lastEventId != Some("")
    requires forall y :: y in rest ==> Stamped(y) && KeyLe(RowKey(y), RowKey(x))
    ensures Fold(None, [x] + rest) == Some(x)
  {
    if rest == [] {
      assert [x] + rest == [x];
      assert [x][..0] == [];
    } else {
      var n := |rest| - 1;
      StickyStart(x, rest[..n]);
      assert ([x] + rest)[..|rest|] == [x] + rest[..n];
      SkipIsKeyOrder(x, rest[n]);
    }
  }

  lemma UniqueGreatestConverges(sent: seq<Row>, p: seq<Row>, q: seq<Row>)
    requires forall x :: x in sent ==> Stamped(x)
    requires GreatestUnique(sent) && DeliveryOf(p, sent) && DeliveryOf(q, sent)
    ensures Fold(None, p) == Fold(None, q)
  {
    if sent == [] {
      FoldIsGreatest(None, p);
      FoldIsGreatest(None, q);
    } else {
      FoldOfDeliveryIsGreatest(p, sent);
      FoldOfDeliveryIsGreatest(q, sent);
    }
  }

  lemma ConvergingGreatestAgree(sent: seq<Row>, x: Row, y: Row)
    requires forall z :: z in sent ==> Stamped(z)
    requires Converges(sent) && Greatest(x, sent) && Greatest(y, sent)
    ensures x == y
  {
    SandwichWins(x, sent);
    SandwichWins(y, sent);
  }

  /**
   * Folding any delivery of a set of snapshots gives one row exactly when the snapshots
   * tied for the greatest (event time, status rank, event id) agree.
   */
  lemma ConvergesIffGreatestUnique(sent: seq<Row>)
    requires forall x :: x in sent ==> Stamped(x)
    ensures Converges(sent) <==> GreatestUnique(sent)
  {
    if GreatestUnique(sent) {
      forall p, q | DeliveryOf(p, sent) && DeliveryOf(q, sent) ensures Fold(None, p) == Fold(None, q) {
        UniqueGreatestConverges(sent, p, q);
      }
    }
    if Converges(sent) {
      forall x, y | Greatest(x, sent) && Greatest(y, sent) ensures x == y { ConvergingGreatestAgree(sent, x, y); }
    }
  }

  lemma FoldOfTwo(stored: Option<Row>, a: Row, b: Row)
    requires Stamped(a) && Stamped(b)
    ensures Fold(stored, [a, b]) == Some(Merge(Some(Merge(stored, a)), b))
  {
    assert [a, b][..1] == [a] && [a][..0] == [];
    assert Fold(stored, [a]) == Some(Merge(Fold(stored, []), a));
  }

  /**
   * It does happen: an event retried after a crash fetches the subscription again and finds it
   * changed within its status. Both syncs have one key, so the first fetch stays.
   */
  lemma RetriedFetchDiverges(first: Row, second: Row)
    requires Stamped(first) && first.lastEventId != Some("") && RowKey(first) == RowKey(second) && first != second
    ensures Fold(None, [first, second]) == Some(first) && Fold(None, [second, first]) == Some(second)
    ensures !Converges([first, second])
  {
    var a, b := [first, second], [second, first];
    SkipIsKeyOrder(first, second);
    SkipIsKeyOrder(second, first);
    KeyLeIsTotalOrder(RowKey(first), RowKey(first), RowKey(first));
    FoldOfTwo(None, first, second);
    FoldOfTwo(None, second, first);
    assert first in a && second in a && first in b && second in b;
    assert DeliveryOf(a, a) && DeliveryOf(b, a);
  }

  /** The documented case: equal keys carry equal snapshots. */
  lemma EqualKeysConverge(sent: seq<Row>)
    requires forall x :: x in sent ==> Stamped(x)
    requires forall x, y :: x in sent && y in sent && RowKey(x) == RowKey(y) ==> x == y
    ensures Converges(sent)
  {
    forall x, y | Greatest(x, sent) && Greatest(y, sent) ensures x == y {
      KeyLeIsTotalOrder(RowKey(x), RowKey(y), RowKey(x));
    }
    ConvergesIffGreatestUnique(sent);
  }

  /** Two events of one second: the deletion wins in either order. */
  lemma SameSecondDeletionWins(live: Row, deleted: Row)
    requires Stamped(live) && Stamped(deleted) && live.lastEventAt == deleted.lastEventAt
    requires deleted.status == CANCELED && live.status != CANCELED
    ensures Fold(None, [live, deleted]) == Some(deleted) == Fold(None, [deleted, live])
  {
    FoldIsGreatest(None, [live, deleted]);
    FoldIsGreatest(None, [deleted, live]);
    assert live in [live, deleted] && deleted in [live, deleted];
    assert live in [deleted, live] && deleted in [deleted, live];
  }

  /** More generally a status that never grants Plus, or only until the period ends, wins over one that does. */
  lemma SameSecondRevocationWins(granting: Row, revoking: Row)
    requires Stamped(granting) && Stamped(revoking) && granting.lastEventAt == revoking.lastEventAt
    requires granting.status in {ACTIVE, TRIALING, PAST_DUE} && revoking.status !in {ACTIVE, TRIALING, PAST_DUE}
    ensures Fold(None, [granting, revoking]) == Some(revoking) == Fold(None, [revoking, granting])
  {
    FoldIsGreatest(None, [granting, revoking]);
    FoldIsGreatest(None, [revoking, granting]);
    assert granting in [granting, revoking] && revoking in [granting, revoking];
    assert granting in [revoking, granting] && revoking in [revoking, granting];
  }

  /** Statuses from the one that says least against Plus to the one that says most. */
  const BY_SEVERITY: seq<set<Status>> :=
    [{ACTIVE, TRIALING}, {PAST_DUE}, {INCOMPLETE}, {UNPAID}, {EXPIRED}, {CANCELED}]

  /** The documented order of two snapshots: event time, then severity of the status, then event id. */
  predicate ComesLater(later: Row, earlier: Row)
    requires Stamped(later) && Stamped(earlier)
  {
    later.lastEventAt.value > earlier.lastEventAt.value ||
    (later.lastEventAt == earlier.lastEventAt &&
     exists i, j :: 0 <= i <= j < |BY_SEVERITY| && earlier.status in BY_SEVERITY[i] && later.status in BY_SEVERITY[j] &&
       (i < j || !StrLe(later.lastEventId.value, earlier.lastEventId.value)))
  }

  /** Of two snapshots the one that comes later stays, in whichever order they arrive. */
  lemma LaterSnapshotWins(earlier: Row, later: Row)
    requires Stamped(earlier) && Stamped(later) && ComesLater(later, earlier)
    ensures Fold(None, [earlier, later]) == Some(later) == Fold(None, [later, earlier])
  {
    StrLeTotal(later.lastEventId.value, earlier.lastEventId.value);
    if earlier.lastEventId.value == "" { assert StrLe("", later.lastEventId.value); }
    FoldOfTwo(None, earlier, later);
    FoldOfTwo(None, later, earlier);
  }

  // --------------------------------------------------------------- plan cache

  predicate GrantsPlus(status: Status, periodEnd: Option<int>, now: int) {
    if status.ACTIVE? || status.TRIALING? || status.PAST_DUE? then true
    else if status.CANCELED? then periodEnd.Some? && periodEnd.value > now
    else false
  }

  /** Some row of the user grants Plus: the definition, over all of the user's rows. */
  predicate Entitled(subs: map<string, Row>, user: string, now: int) {
    exists k :: k in subs && subs[k].userId == user && GrantsPlus(subs[k].status, subs[k].periodEnd, now)
  }

  function Candidates(subs: map<string, Row>, user: string): map<string, Row> {
    map k | k in subs && subs[k].userId == user && subs[k].status in {ACTIVE, TRIALING, PAST_DUE, CANCELED} :: subs[k]
  }

  /** What the service evaluates: only rows in a candidate status are read. */
  predicate EntitledByQuery(subs: map<string, Row>, user: string, now: int) {
    var candidates := Candidates(subs, user);
    exists k :: k in candidates && GrantsPlus(candidates[k].status, candidates[k].periodEnd, now)
  }

  lemma QueryAgreesWithAllRows(subs: map<string, Row>, user: string, now: int)
    ensures EntitledByQuery(subs, user, now) <==> Entitled(subs, user, now)
  {
    if Entitled(subs, user, now) {
      var k :| k in subs && subs[k].userId == user && GrantsPlus(subs[k].status, subs[k].periodEnd, now);
      assert k in Candidates(subs, user);
    }
  }

  lemma EntitlementOnlyLapses(subs: map<string, Row>, user: string, now: int, later: int)
    requires now <= later && Entitled(subs, user, later)
    ensures Entitled(subs, user, now)
  {
    var k :| k in subs && subs[k].userId == user && GrantsPlus(subs[k].status, subs[k].periodEnd, later);
    assert GrantsPlus(subs[k].status, subs[k].periodEnd, now);
  }

  function RefreshedPlans(b: Billing, user: string, now: int): map<string, Plan> {
    if user !in b.plans then b.plans
    else b.plans[user := if EntitledByQuery(b.subs, user, now) then PLUS else FREE]
  }

  function IncomingRow(sub: StripeSub, status: Status, user: string, at: int, id: string): Row {
    Row(user, sub.customerId, sub.priceId, status, sub.periodStart, sub.periodEnd,
        sub.cancelAtPeriodEnd, sub.canceledAt, Some(at), Some(id))
  }

  /** The row a sync offers to the table; None when the status or the owner is not known. */
  function Incoming(b: Billing, sub: StripeSub, at: int, id: string): (r: Option<Row>)
    ensures r.Some? ==> Stamped(r.value)
  {
    var status := MapStatus(sub.status);
    if status.None? || sub.customerId !in b.customers then None
    else
      var user := b.customers[sub.customerId];
      if sub.metadataUserId.Some? && sub.metadataUserId.value != user then None
      else Some(IncomingRow(sub, status.value, user, at, id))
  }

  function Upserted(b: Billing, subId: string, incoming: Row): Billing
    requires Stamped(incoming)
  {
    b.(subs := b.subs[subId := Merge(Lookup(b.subs, subId), incoming)])
  }

  /** One whole sync: the upsert, and the plan cache of the owner when the row was written. */
  function Sync(b: Billing, sub: StripeSub, at: int, id: string, now: int): Billing {
    var incoming := Incoming(b, sub, at, id);
    if incoming.None? then b
    else if sub.id in b.subs && ShouldSkip(b.subs[sub.id], incoming.value.status, at, id) then b
    else
      var written := Upserted(b, sub.id, incoming.value);
      written.(plans := RefreshedPlans(written, incoming.value.userId, now))
  }

  /** The provider's statuses that grant Plus whatever the period says. */
  const GRANTING: set<string> := {"active", "trialing", "past_due"}

  /** Those that do not; a canceled subscription grants it until its period ends. */
  const NOT_GRANTING: set<string> := {"unpaid", "paused", "incomplete", "incomplete_expired"}

  /** Known status, known owner, and no other owner named by the snapshot. */
  predicate Applicable(b: Billing, sub: StripeSub) {
    sub.status in GRANTING + NOT_GRANTING + {"canceled"} && sub.customerId in b.customers &&
    (sub.metadataUserId.None? || sub.metadataUserId.value == b.customers[sub.customerId])
  }

  /** The stored row carries the snapshot, column by column, under the event's time and id. */
  predicate Carries(row: Row, sub: StripeSub, user: string, at: int, id: string) {
    && row.userId == user
    && row.customerId == sub.customerId
    && row.priceId == sub.priceId
    && row.periodStart == sub.periodStart
    && row.periodEnd == sub.periodEnd
    && row.cancelAtPeriodEnd == sub.cancelAtPeriodEnd
    && row.canceledAt == sub.canceledAt
    && row.lastEventAt == Some(at)
    && row.lastEventId == Some(id)
    && (sub.status == "active" ==> row.status == ACTIVE)
    && (sub.status == "trialing" ==> row.status == TRIALING)
    && (sub.status == "past_due" ==> row.status == PAST_DUE)
    && (sub.status == "canceled" ==> row.status == CANCELED)
    && (sub.status == "incomplete" ==> row.status == INCOMPLETE)
    && (sub.status == "incomplete_expired" ==> row.status == EXPIRED)
    && (sub.status in {"unpaid", "paused"} ==> row.status == UNPAID)
  }

  /** A sync of a subscription that is not stored, or stored from an older event, stores the snapshot; nothing else. */
  lemma SyncStoresTheSnapshot(b: Billing, sub: StripeSub, at: int, id: string, now: int)
    requires Applicable(b, sub)
    requires sub.id in b.subs ==> b.subs[sub.id].lastEventAt.None? || b.subs[sub.id].lastEventAt.value < at
    ensures var subs := Sync(b, sub, at, id, now).subs;
            sub.id in subs && Carries(subs[sub.id], sub, b.customers[sub.customerId], at, id) &&
            subs.Keys == b.subs.Keys + {sub.id} && forall k :: k in b.subs && k != sub.id ==> subs[k] == b.subs[k]
  {
  }

  /** Without a known status and owner, or for an older event, nothing at all is written. */
  lemma SyncIgnores(b: Billing, sub: StripeSub, at: int, id: string, now: int)
    requires !Applicable(b, sub) ||
             (sub.id in b.subs && b.subs[sub.id].lastEventAt.Some? && at < b.subs[sub.id].lastEventAt.value)
    ensures Sync(b, sub, at, id, now) == b
  {
  }

  lemma IncomingCarries(b: Billing, sub: StripeSub, at: int, id: string)
    ensures Incoming(b, sub, at, id).Some? <==> Applicable(b, sub)
    ensures Applicable(b, sub) ==> Carries(Incoming(b, sub, at, id).value, sub, b.customers[sub.customerId], at, id)
  {
  }

  /**
   * What a first snapshot means to its owner, from the provider's words to the cached plan: Plus for
   * a granting status, for a canceled one exactly while the period runs, and otherwise not. Nobody
   * else's plan changes.
   */
  lemma FirstSnapshotDecidesThePlan(b: Billing, sub: StripeSub, at: int, id: string, now: int)
    requires Applicable(b, sub) && sub.id !in b.subs
    requires var user := b.customers[sub.customerId];
             user in b.plans && forall k :: k in b.subs ==> b.subs[k].userId != user
    ensures var user, plans := b.customers[sub.customerId], Sync(b, sub, at, id, now).plans;
            plans == b.plans[user := if sub.status in GRANTING ||
                                        (sub.status == "canceled" && sub.periodEnd.Some? && sub.periodEnd.value > now)
                                     then PLUS else FREE]
  {
    var user, subs := b.customers[sub.customerId], Sync(b, sub, at, id, now).subs;
    QueryAgreesWithAllRows(subs, user, now);
    assert subs[sub.id].userId == user;
  }

  /** Live entitlement of a known user is never missing from the cached plan. */
  predicate PlansSound(b: Billing, now: int) {
    forall u :: u in b.plans && Entitled(b.subs, u, now) ==> b.plans[u] == PLUS
  }

  lemma PlansStaySound(b: Billing, now: int, later: int)
    requires PlansSound(b, now) && now <= later
    ensures PlansSound(b, later)
  {
    forall u | u in b.plans && Entitled(b.subs, u, later) ensures b.plans[u] == PLUS {
      EntitlementOnlyLapses(b.subs, u, now, later);
    }
  }

  lemma SyncKeepsPlansSound(b: Billing, sub: StripeSub, at: int, id: string, now: int)
    requires PlansSound(b, now)
    ensures PlansSound(Sync(b, sub, at, id, now), now)
  {
    var b' := Sync(b, sub, at, id, now);
    var incoming := Incoming(b, sub, at, id);
    if b' != b {
      forall u | u in b'.plans && Entitled(b'.subs, u, now) ensures b'.plans[u] == PLUS {
        QueryAgreesWithAllRows(b'.subs, u, now);
        if u != incoming.value.userId {
          var k :| k in b'.subs && b'.subs[k].userId == u && GrantsPlus(b'.subs[k].status, b'.subs[k].periodEnd, now);
          assert k in b.subs && b.subs[k] == b'.subs[k];
        }
      }
    }
  }

  /** A crash after the upsert and before the cache write: the provider's retry of the event repairs nothing. */
  lemma RetryAfterCrashIsSkipped(b: Billing, sub: StripeSub, at: int, id: string, now: int)
    requires id != "" && Incoming(b, sub, at, id).Some?
    requires Upserted(b, sub.id, Incoming(b, sub, at, id).value).subs[sub.id] == Incoming(b, sub, at, id).value
    ensures var crashed := Upserted(b, sub.id, Incoming(b, sub, at, id).value);
            Sync(crashed, sub, at, id, now) == crashed
  {
    var row := Incoming(b, sub, at, id).value;
    SkipIsKeyOrder(row, row);
    KeyLeIsTotalOrder(RowKey(row), RowKey(row), RowKey(row));
  }

  /** Only the owner of the written row can be missing from the cache, and only through that row. */
  lemma CrashedEntitlement(b: Billing, sub: StripeSub, row: Row, u: string, now: int)
    requires Stamped(row) && Upserted(b, sub.id, row).subs[sub.id] == row
    requires Entitled(Upserted(b, sub.id, row).subs, u, now)
    ensures Entitled(b.subs, u, now) || (u == row.userId && GrantsPlus(row.status, row.periodEnd, now))
  {
    var subs := Upserted(b, sub.id, row).subs;
    var k :| k in subs && subs[k].userId == u && GrantsPlus(subs[k].status, subs[k].periodEnd, now);
    if k != sub.id { assert k in b.subs && b.subs[k] == subs[k]; }
  }

  /**
   * After such a crash the cache misses nobody exactly when the snapshot itself does not grant
   * Plus or its owner's cached plan said PLUS already.
   */
  lemma CrashBeforeCacheWrite(b: Billing, sub: StripeSub, at: int, id: string, now: int)
    requires PlansSound(b, now) && Incoming(b, sub, at, id).Some?
    requires var row := Incoming(b, sub, at, id).value;
             Upserted(b, sub.id, row).subs[sub.id] == row && row.userId in b.plans
    ensures var row := Incoming(b, sub, at, id).value;
            PlansSound(Upserted(b, sub.id, row), now) <==>
            !GrantsPlus(row.status, row.periodEnd, now) || b.plans[row.userId] == PLUS
  {
    var row := Incoming(b, sub, at, id).value;
    var crashed := Upserted(b, sub.id, row);
    if !GrantsPlus(row.status, row.periodEnd, now) || b.plans[row.userId] == PLUS {
      forall u | u in b.plans && Entitled(crashed.subs, u, now) ensures b.plans[u] == PLUS {
        CrashedEntitlement(b, sub, row, u, now);
      }
    } else {
      assert sub.id in crashed.subs && Entitled(crashed.subs, row.userId, now);
    }
  }

  /** It does happen: a first subscription, active and paid, whose owner stays on FREE and no retry helps. */
  lemma PayingUserLeftOnFree(b: Billing, sub: StripeSub, at: int, id: string, now: int)
    requires b.subs == map[] && sub.status == "active" && sub.metadataUserId.None? && sub.customerId in b.customers
    requires b.customers[sub.customerId] in b.plans && b.plans[b.customers[sub.customerId]] == FREE && id != ""
    ensures Incoming(b, sub, at, id).Some? && PlansSound(b, now)
    ensures var row := Incoming(b, sub, at, id).value;
            var crashed := Upserted(b, sub.id, row);
            Entitled(crashed.subs, row.userId, now) && Sync(crashed, sub, at, id, now).plans[row.userId] == FREE
  {
    var row := Incoming(b, sub, at, id).value;
    RetryAfterCrashIsSkipped(b, sub, at, id, now);
    assert sub.id in Upserted(b, sub.id, row).subs;
  }

  /** The upsert decided on an earlier read of the row, as two replicas may do it. */
  function UpsertAfterRead(stored: Option<Row>, read: Option<Row>, incoming: Row): Option<Row>
    requires Stamped(incoming)
  {
    if read.Some? && ShouldSkip(read.value, incoming.status, incoming.lastEventAt.value, incoming.lastEventId.value)
    then stored
    else Some(incoming)
  }

  function StoredKey(stored: Option<Row>): Key {
    if stored.None? then Never else RowKey(stored.value)
  }

  /**
   * The read is an earlier value of the row. The upsert lowers the stored key exactly when the
   * stored row is already above the incoming one and the read did not reach it yet.
   */
  lemma StaleReadLowersKeyIff(stored: Option<Row>, read: Option<Row>, incoming: Row)
    requires Stamped(incoming) && incoming.lastEventId != Some("") && KeyLe(StoredKey(read), StoredKey(stored))
    ensures !KeyLe(StoredKey(stored), StoredKey(UpsertAfterRead(stored, read, incoming))) <==>
            !KeyLe(StoredKey(stored), RowKey(incoming)) && !KeyLe(RowKey(incoming), StoredKey(read))
  {
    if read.Some? { SkipIsKeyOrder(read.value, incoming); }
    KeyLeIsTotalOrder(StoredKey(stored), StoredKey(stored), StoredKey(stored));
  }

  /** Two replicas read the row before either writes: the older event, written last, replaces the newer one. */
  lemma OlderEventOverwrites(read: Option<Row>, newer: Row, older: Row)
    requires Stamped(newer) && Stamped(older) && older.lastEventId != Some("")
    requires !KeyLe(RowKey(newer), RowKey(older)) && !KeyLe(RowKey(older), StoredKey(read))
    ensures UpsertAfterRead(UpsertAfterRead(read, read, newer), read, older) == Some(older)
    ensures Fold(read, [newer, older]) == Some(newer)
  {
    KeyLeIsTotalOrder(RowKey(newer), RowKey(older), StoredKey(read));
    if read.Some? {
      SkipIsKeyOrder(read.value, newer);
      SkipIsKeyOrder(read.value, older);
      KeyLeIsTotalOrder(RowKey(older), RowKey(newer), StoredKey(read));
    }
    SkipIsKeyOrder(newer, older);
    FoldOfTwo(read, newer, older);
  }

  // ----------------------------------------------------------------- service

  /** The tables, updated in place by the service. */
  class SubscriptionStore {
    var customers: map<string, string>
    var subs: map<string, Row>
    var plans: map<string, Plan>

    ghost function Tables(): Billing
      reads this
    {
      Billing(customers, subs, plans)
    }

    constructor (b: Billing)
      ensures Tables() == b
    {
      customers, subs, plans := b.customers, b.subs, b.plans;
    }

    method SyncPlanCacheFromEntitlements(user: string, now: int) returns (plan: Plan)
      modifies this`plans
      ensures plans == RefreshedPlans(old(Tables()), user, now)
      ensures user in plans ==> plan == plans[user] && (plan == PLUS <==> Entitled(subs, user, now))
      ensures user !in plans ==> plan == FREE
    {
      QueryAgreesWithAllRows(subs, user, now);
      if user !in plans { return FREE; }
      plan := if EntitledByQuery(subs, user, now) then PLUS else FREE;
      if plan != plans[user] {
        plans := plans[user := plan];
      }
      assert plans == old(plans)[user := plan];
    }

    method SyncStripeSubscription(sub: StripeSub, at: int, id: string, now: int) returns (r: SyncResult)
      modifies this`subs, this`plans
      ensures Tables() == Sync(old(Tables()), sub, at, id, now)
      ensures r == Synced ==> Lookup(subs, sub.id) == Incoming(old(Tables()), sub, at, id)
      ensures r == Synced ==> sub.customerId in customers && sub.id in subs &&
                              Carries(subs[sub.id], sub, customers[sub.customerId], at, id)
      ensures r == Synced && customers[sub.customerId] in plans ==>
                (plans[customers[sub.customerId]] == PLUS <==> Entitled(subs, customers[sub.customerId], now))
      ensures r in {Synced, SkippedStale} <==> Applicable(old(Tables()), sub)
      ensures r == SkippedStale ==> Incoming(old(Tables()), sub, at, id).Some? && sub.id in subs
      ensures r == SkippedStale ==> KeyLe(RowKey(Incoming(old(Tables()), sub, at, id).value), RowKey(subs[sub.id]))
      ensures r == SkippedUnknownStatus <==> MapStatus(sub.status).None?
      ensures r in {SkippedUnknownStatus, SkippedNoCustomer} <==> Incoming(old(Tables()), sub, at, id).None?
      ensures r != Synced ==> Tables() == old(Tables())
    {
      IncomingCarries(Tables(), sub, at, id);
      var mapped := MapStatus(sub.status);
      if mapped.None? { return SkippedUnknownStatus; }
      if sub.customerId !in customers { return SkippedNoCustomer; }
      var user := customers[sub.customerId];
      if sub.metadataUserId.Some? && sub.metadataUserId.value != user { return SkippedNoCustomer; }
      if sub.id in subs && ShouldSkip(subs[sub.id], mapped.value, at, id) {
        SkipIsKeyOrder(subs[sub.id], IncomingRow(sub, mapped.value, user, at, id));
        return SkippedStale;
      }
      subs := subs[sub.id := Row(user, sub.customerId, sub.priceId, mapped.value, sub.periodStart, sub.periodEnd,
                                 sub.cancelAtPeriodEnd, sub.canceledAt, Some(at), Some(id))];
      var _ := SyncPlanCacheFromEntitlements(user, now);
      return Synced;
    }
  }
}
