/** The lifecycle of a request as a function of idle time, and the database predicates that stand for it. */
module Lifecycle {
  import opened Prelude

  const HOUR_MS: int := 60 * 60 * 1000
  const DAY_MS: int := 24 * HOUR_MS
  const REQUEST_CONFIRMATION_DAYS: int := 7
  const REQUEST_INACTIVE_AFTER_CONFIRM_HOURS: int := 24
  const REQUEST_ARCHIVE_DAYS: int := 10

  datatype Stored = ACTIVA | NEGOCIANDO | CERRADA

  datatype Effective =
    | EffActiva | EffNegociando | EffPausada | EffPendiente | EffInactiva | EffCerrada | EffArchivada

  datatype Row = Row(id: string, userId: string, status: Stored, lastBuyerActivityAt: int, pausedAt: Option<int>,
                     active: bool)

  function ConfirmationCutoff(now: int): int { now - REQUEST_CONFIRMATION_DAYS * DAY_MS }

  function InactiveAfterConfirmCutoff(now: int): int {
    now - REQUEST_CONFIRMATION_DAYS * DAY_MS - REQUEST_INACTIVE_AFTER_CONFIRM_HOURS * HOUR_MS
  }

  function ArchiveCutoff(now: int): int { now - REQUEST_ARCHIVE_DAYS * DAY_MS }

  function EffectiveStatus(r: Row, now: int): Effective {
    if r.status == CERRADA then EffCerrada
    else if r.pausedAt.Some? then EffPausada
    else
      var idle := now - r.lastBuyerActivityAt;
      if idle >= REQUEST_ARCHIVE_DAYS * DAY_MS then EffArchivada
      else if idle >= REQUEST_CONFIRMATION_DAYS * DAY_MS + REQUEST_INACTIVE_AFTER_CONFIRM_HOURS * HOUR_MS
      then EffInactiva
      else if idle >= REQUEST_CONFIRMATION_DAYS * DAY_MS then EffPendiente
      else if r.status == NEGOCIANDO then EffNegociando else EffActiva
  }

  predicate IsVisibleToSellers(r: Row, now: int) {
    r.active && EffectiveStatus(r, now) in {EffActiva, EffNegociando, EffInactiva}
  }

  predicate IsOfferable(r: Row, now: int) {
    r.active && EffectiveStatus(r, now) in {EffActiva, EffNegociando}
  }

  function SellerListPriority(e: Effective): nat {
    if e == EffActiva || e == EffNegociando then 0 else if e == EffInactiva then 1 else 2
  }

  /** The query that hides pending, archived and paused requests. */
  predicate VisibleToSellersWhere(r: Row, now: int) {
    var confirmation, inactive, archive := ConfirmationCutoff(now), InactiveAfterConfirmCutoff(now), ArchiveCutoff(now);
    r.status != CERRADA && r.pausedAt.None? && r.lastBuyerActivityAt >= archive &&
    (r.lastBuyerActivityAt >= confirmation || r.lastBuyerActivityAt < inactive) &&
    !(r.lastBuyerActivityAt < confirmation && r.lastBuyerActivityAt >= inactive)
  }

  /** Its NOT clause adds nothing to its OR clause. */
  predicate VisibleWithoutNot(r: Row, now: int) {
    var confirmation, inactive, archive := ConfirmationCutoff(now), InactiveAfterConfirmCutoff(now), ArchiveCutoff(now);
    r.status != CERRADA && r.pausedAt.None? && r.lastBuyerActivityAt >= archive &&
    (r.lastBuyerActivityAt >= confirmation || r.lastBuyerActivityAt < inactive)
  }

  predicate OnCutoff(r: Row, now: int) {
    r.lastBuyerActivityAt in {ConfirmationCutoff(now), InactiveAfterConfirmCutoff(now), ArchiveCutoff(now)}
  }

  /** Query and status function agree except on open, unpaused rows idle for exactly 7, 8 or 10 days. */
  lemma VisibleQueryIffOffCutoff(r: Row, now: int)
    requires r.active
    ensures VisibleToSellersWhere(r, now) <==> VisibleWithoutNot(r, now)
    ensures (VisibleToSellersWhere(r, now) <==> IsVisibleToSellers(r, now))
            <==> r.status == CERRADA || r.pausedAt.Some? || !OnCutoff(r, now)
  {
  }

  /** At exactly 7 and 10 days the query shows what the status hides, at exactly 8 the other way round. */
  lemma CutoffsDisagree(r: Row, now: int)
    requires r.active && r.status != CERRADA && r.pausedAt.None?
    ensures r.lastBuyerActivityAt in {ConfirmationCutoff(now), ArchiveCutoff(now)} ==>
              VisibleToSellersWhere(r, now) && !IsVisibleToSellers(r, now)
    ensures r.lastBuyerActivityAt == InactiveAfterConfirmCutoff(now) ==>
              !VisibleToSellersWhere(r, now) && IsVisibleToSellers(r, now)
  {
  }

  /** A request takes offers while it is open, unpaused and less than 7 days idle; it is visible then. */
  lemma OfferableIffFresh(r: Row, now: int)
    ensures IsOfferable(r, now) <==>
            r.active && r.status != CERRADA && r.pausedAt.None? &&
            now - r.lastBuyerActivityAt < REQUEST_CONFIRMATION_DAYS * DAY_MS
    ensures IsOfferable(r, now) ==> IsVisibleToSellers(r, now) && VisibleToSellersWhere(r, now)
  {
  }

  /** By whole days without a sign of the buyer: seven live, one pending, two inactive, then archived. */
  lemma StatusByDaysIdle(r: Row, now: int)
    requires r.status != CERRADA && r.pausedAt.None?
    ensures var days, status := (now - r.lastBuyerActivityAt) / 86400000, EffectiveStatus(r, now);
            (days < 7 <==> status in {EffActiva, EffNegociando}) && (days == 7 <==> status == EffPendiente) &&
            (days in {8, 9} <==> status == EffInactiva) && (days >= 10 <==> status == EffArchivada) &&
            (status == EffNegociando ==> r.status == NEGOCIANDO) && (status == EffActiva ==> r.status == ACTIVA) &&
            (IsVisibleToSellers(r, now) <==> r.active && (days < 7 || days in {8, 9}))
  {
  }

  /** A closed or paused request is neither shown nor listed nor offered on, however fresh. */
  lemma ClosedAndPausedAreHidden(r: Row, now: int)
    requires r.status == CERRADA || r.pausedAt.Some?
    ensures !IsVisibleToSellers(r, now) && !IsOfferable(r, now) && !VisibleToSellersWhere(r, now)
    ensures EffectiveStatus(r, now) == if r.status == CERRADA then EffCerrada else EffPausada
  {
  }

  predicate LifecycleScanWhere(r: Row, now: int) {
    var confirmation, inactive, archive := ConfirmationCutoff(now), InactiveAfterConfirmCutoff(now), ArchiveCutoff(now);
    r.active && r.status != CERRADA && r.pausedAt.None? &&
    ((r.lastBuyerActivityAt <= confirmation && r.lastBuyerActivityAt > inactive) ||
     (r.lastBuyerActivityAt <= inactive && r.lastBuyerActivityAt > archive))
  }

  /** The scan query selects exactly the active rows whose status calls for a notification. */
  lemma ScanSelectsExactly(r: Row, now: int)
    ensures LifecycleScanWhere(r, now) <==> r.active && EffectiveStatus(r, now) in {EffPendiente, EffInactiva}
  {
  }
}
