/**
 * The offer and request calls on mutable tables, each run from its reads to its write with
 * no other call in between. Their effect is the one the interleaved model gives such a call.
 */
module OffersService {
  import opened Prelude
  import opened Negotiation
  import Lifecycle

  datatype Outcome = Ok | NotFound | Forbidden | BadRequest | Conflict

  /** One call of the interleaved model, read and written at once. */
  function Uninterrupted(t: Tables, op: Op, newId: string, now: int): Tables {
    var call := Admit(t, op);
    if call.None? then t
    else if call.value.CheckingOthers? then
      if HasOtherCompleted(t, t.offers[op.offerId].requestId, op.offerId) then t
      else Effect(t, Completing(call.value.offerId), newId, now)
    else Effect(t, call.value, newId, now)
  }

  lemma ShapeOfClose(t: Tables, r: string, user: string, now: int)
    requires Inv(t)
    ensures var v := Uninterrupted(t, Close(r, user), "", now);
            Inv(v) &&
            v == (if !Negotiation.Open(t, r, user) then t
                  else t.(offers := EndedAll(t.offers, r, now),
                          requests := t.requests[r := ClosedRequest(t.requests[r])])) &&
            (Negotiation.Open(t, r, user) ==> Quiet(v, r))
  {
    if Negotiation.Open(t, r, user) {
      EffectKeepsInv(t, Closing(r), "", now);
      EndAllStep(t, r, now);
    }
  }

  lemma ShapeOfEdit(t: Tables, op: Op)
    requires Inv(t) && op.Edit?
    ensures var v := Uninterrupted(t, op, "", 0);
            Inv(v) &&
            v == (if Admit(t, op).None? then t
                  else
                    var r := t.requests[op.requestId];
                    t.(requests := t.requests[op.requestId := r.(fields := r.fields + op.writes)])) &&
            (Admit(t, op).Some? && HasLive(t, op.requestId) ==>
             Structure(v.requests[op.requestId]) == Structure(t.requests[op.requestId]))
  {
    if Admit(t, op).Some? {
      var call := Editing(op.requestId, op.writes);
      assert Admit(t, op) == Some(call);
      EffectKeepsInv(t, call, "", 0);
      if HasLive(t, op.requestId) {
        AdmittedEditFindsNothingLive(t, op);
      }
    }
  }

  /** What an edit asks: a live request of the user's own, ACTIVA, and only limited fields under pending offers. */
  predicate Editable(t: Tables, r: string, user: string, provided: set<Field>) {
    provided != {} && r in t.requests && t.requests[r].active && t.requests[r].userId == user &&
    t.requests[r].status == ACTIVA && !HasActive(t, r) && (HasPending(t, r) ==> OnlyLimited(provided))
  }

  /** Accepting is for the buyer; a pending offer not after the close, an accepted one again and again. */
  predicate MayAccept(t: Tables, o: string, user: string) {
    OwnsOffer(t, o, user) &&
    var offer, request := t.offers[o], t.requests[t.offers[o].requestId];
    request.active && (offer.status == ACEPTADA || (offer.status == PENDIENTE && request.status != CERRADA))
  }

  /** One deal a request: of a negotiation that goes on, while the request is open and no other deal was made. */
  predicate MayComplete(t: Tables, o: string, user: string) {
    OwnsOffer(t, o, user) &&
    var offer, request := t.offers[o], t.requests[t.offers[o].requestId];
    request.active && offer.status == ACEPTADA &&
    (offer.dealCompletedAt.Some? ||
     (offer.negotiationEndedAt.None? && request.status != CERRADA && !HasOtherCompleted(t, offer.requestId, o)))
  }

  /** Either party may end an accepted offer that is no deal. */
  predicate MayEnd(t: Tables, o: string, user: string) {
    o in t.offers && t.offers[o].requestId in t.requests &&
    var offer, request := t.offers[o], t.requests[t.offers[o].requestId];
    request.active && (request.userId == user || offer.sellerId == user) &&
    offer.status == ACEPTADA && offer.dealCompletedAt.None?
  }

  /** The acceptance on its own: the offer is accepted, has a chat, and an ACTIVA request is in negotiation. */
  lemma ShapeOfAcceptance(t: Tables, o: string, user: string)
    requires Inv(t)
    ensures var v := Uninterrupted(t, Accept(o, user), "", 0);
            Inv(v) &&
            v == (if !MayAccept(t, o, user) then t
                  else
                    var was, id := t.offers[o], t.offers[o].requestId;
                    Tables(if was.status == PENDIENTE then t.requests[id := t.requests[id].(status := NEGOCIANDO)]
                           else t.requests,
                           t.offers[o := was.(status := ACEPTADA)], t.chats + {o}))
    ensures MayAccept(t, o, user) <==> Admit(t, Accept(o, user)).Some? && t.offers[o].status != RECHAZADA
  {
    if o in t.offers {
      assert OfferOk(t, o);
      if Admit(t, Accept(o, user)).Some? { EffectKeepsInv(t, Accepting(o), "", 0); }
      if MayAccept(t, o, user) && t.offers[o].status == PENDIENTE {
        var requests, id := t.requests, t.offers[o].requestId;
        assert requests[id].status == NEGOCIANDO ==> requests[id := requests[id].(status := NEGOCIANDO)] == requests;
      }
    }
  }

  lemma EditAdmittedIff(t: Tables, r: string, user: string, provided: set<Field>, writes: map<Field, string>)
    requires writes.Keys <= provided || TouchesStructure(provided)
    ensures Admit(t, Edit(r, user, provided, writes)).Some? <==> Editable(t, r, user, provided)
    ensures OnlyLimited(provided) ==> !TouchesStructure(provided)
  {
    if TouchesStructure(provided) {
      var f :| f in provided && Structural(f);
      assert !LimitedEdit(f);
    }
  }

  /** The request as the lifecycle sees it; what matters of the pause is that there is one. */
  function LifecycleRow(id: string, r: Request, lastBuyerActivityAt: int): Lifecycle.Row {
    var status :=
      match r.status
      case ACTIVA => Lifecycle.ACTIVA
      case NEGOCIANDO => Lifecycle.NEGOCIANDO
      case CERRADA => Lifecycle.CERRADA;
    Lifecycle.Row(id, r.userId, status, lastBuyerActivityAt, if r.paused then Some(0) else None, r.active)
  }

  /** What create asks of the lifecycle. */
  predicate Offerable(t: Tables, requestId: string, lastBuyerActivityAt: int, now: int) {
    requestId in t.requests &&
    Lifecycle.IsOfferable(LifecycleRow(requestId, t.requests[requestId], lastBuyerActivityAt), now)
  }

  class Marketplace {
    var requests: map<string, Request>
    var offers: map<string, Offer>
    var chats: set<string>

    ghost function Db(): Tables
      reads this
    {
      Tables(requests, offers, chats)
    }

    method SyncRequestNegotiationStatus(requestId: string)
      modifies this`requests
      ensures Db() == SyncNegotiationStatus(old(Db()), requestId)
      ensures requestId !in old(requests) ==> requests == old(requests)
      ensures requestId in old(requests) ==>
                var was := old(requests)[requestId];
                requestId in requests && requests == old(requests)[requestId := requests[requestId]] &&
                requests[requestId] == was.(status := requests[requestId].status) &&
                requests[requestId].status == if !was.active || was.status == CERRADA then was.status
                                              else if HasActive(old(Db()), requestId) then NEGOCIANDO
                                              else if was.paused then was.status else ACTIVA
    {
      if requestId !in requests || !requests[requestId].active || requests[requestId].status == CERRADA { return; }
      if HasActive(Tables(requests, offers, chats), requestId) {
        if requests[requestId].status == ACTIVA {
          requests := requests[requestId := requests[requestId].(status := NEGOCIANDO)];
        }
        return;
      }
      if requests[requestId].status == NEGOCIANDO && !requests[requestId].paused {
        requests := requests[requestId := requests[requestId].(status := ACTIVA)];
      }
    }

    /**
     * `hidden` is the moderation flag of the request; `seller` and `content` are what the checks of the
     * seller's account and of the offer's text, images, price and rate answer, None when they pass.
     */
    method Create(requestId: string, sellerId: string, lastBuyerActivityAt: int, now: int, newId: string,
                  hidden: bool, seller: Option<Outcome>, content: Option<Outcome>)
      returns (r: Outcome)
      requires newId !in offers && seller != Some(Ok) && content != Some(Ok)
      modifies this`offers
      ensures var op := CreateOffer(requestId, sellerId, Offerable(old(Db()), requestId, lastBuyerActivityAt, now));
              (r == Ok <==> Admit(old(Db()), op).Some? && !hidden && seller.None? && content.None?) &&
              Db() == if r == Ok then Uninterrupted(old(Db()), op, newId, 0) else old(Db())
      ensures requestId !in old(requests) || !old(requests)[requestId].active || hidden ==> r == NotFound
      ensures requestId in old(requests) && old(requests)[requestId].active && !hidden ==>
                var request, days := old(requests)[requestId], (now - lastBuyerActivityAt) / 86400000;
                (request.status == CERRADA ==> r == BadRequest) &&
                (request.status != CERRADA && (request.paused || days == 7 || days >= 10) ==> r == NotFound) &&
                (request.status != CERRADA && !request.paused && 8 <= days < 10 ==> r == BadRequest) &&
                (request.status != CERRADA && !request.paused && days < 7 && seller.Some? ==> r == seller.value) &&
                (request.status != CERRADA && !request.paused && days < 7 && seller.None? ==>
                  if request.userId == sellerId then r == BadRequest
                  else if HasOfferOf(old(Db()), requestId, sellerId) then r == Conflict
                  else r == if content.Some? then content.value else Ok)
      ensures r == Ok ==> newId in offers && Live(offers[newId]) && offers[newId].sellerId == sellerId
      ensures r == Ok ==>
                requestId in requests && requests[requestId].active && !requests[requestId].paused &&
                requests[requestId].status != CERRADA && requests[requestId].userId != sellerId &&
                forall o :: o in old(offers) && old(offers)[o].requestId == requestId ==>
                  old(offers)[o].sellerId != sellerId
      ensures r == Ok ==>
                offers == old(offers)[newId := offers[newId]] &&
                offers[newId].requestId == requestId && offers[newId].status == PENDIENTE &&
                (Location in requests[requestId].fields ==>
                  offers[newId].requestLocation == requests[requestId].fields[Location])
      ensures r == Ok ==> now - lastBuyerActivityAt < Lifecycle.REQUEST_CONFIRMATION_DAYS * Lifecycle.DAY_MS
    {
      if requestId !in requests || !requests[requestId].active { return NotFound; }
      if hidden { return NotFound; }
      if requests[requestId].status == CERRADA { return BadRequest; }
      var lifecycle := LifecycleRow(requestId, requests[requestId], lastBuyerActivityAt);
      Lifecycle.OfferableIffFresh(lifecycle, now);
      if !Lifecycle.IsOfferable(lifecycle, now) {
        if !Lifecycle.IsVisibleToSellers(lifecycle, now) { return NotFound; }
        return BadRequest;
      }
      if seller.Some? { return seller.value; }
      if requests[requestId].userId == sellerId { return BadRequest; }
      if HasOfferOf(Tables(requests, offers, chats), requestId, sellerId) { return Conflict; }
      if content.Some? { return content.value; }
      var location := Value(requests[requestId].fields, Location);
      offers := offers[newId := Offer(requestId, sellerId, location, PENDIENTE, None, None, None)];
      return Ok;
    }

    method AcceptOffer(offerId: string, buyer: string) returns (r: Outcome)
      requires Inv(Db())
      modifies this
      ensures Inv(Db()) && Db() == Uninterrupted(old(Db()), Accept(offerId, buyer), "", 0)
      ensures r == Ok ==>
                offerId in old(offers) && offers == old(offers)[offerId := old(offers)[offerId].(status := ACEPTADA)] &&
                chats == old(chats) + {offerId} &&
                var was, id := old(offers)[offerId], old(offers)[offerId].requestId;
                id in old(requests) && old(requests)[id].userId == buyer && old(requests)[id].active &&
                (was.status == PENDIENTE || was.status == ACEPTADA) &&
                requests == if was.status == PENDIENTE
                            then old(requests)[id := old(requests)[id].(status := NEGOCIANDO)] else old(requests)
      ensures r != Ok ==> Db() == old(Db())
      ensures r == Ok <==> Admit(old(Db()), Accept(offerId, buyer)).Some? && old(offers)[offerId].status != RECHAZADA
      ensures r == Ok <==> MayAccept(old(Db()), offerId, buyer)
      ensures r == Forbidden <==> offerId in old(offers) && !OwnsOffer(old(Db()), offerId, buyer)
      ensures r == NotFound <==>
                offerId !in old(offers) ||
                (OwnsOffer(old(Db()), offerId, buyer) && !old(requests)[old(offers)[offerId].requestId].active)
    {
      ghost var before := Db();
      ShapeOfAcceptance(before, offerId, buyer);
      if offerId !in offers { return NotFound; }
      assert OfferOk(before, offerId);
      var offer := offers[offerId];
      var request := requests[offer.requestId];
      if request.userId != buyer { return Forbidden; }
      if !request.active { return NotFound; }
      if request.status == CERRADA && offer.status != ACEPTADA { return BadRequest; }
      var didTransition := offer.status == PENDIENTE;
      if didTransition {
        offers := offers[offerId := offer.(status := ACEPTADA)];
      } else if offer.status != ACEPTADA {
        return BadRequest;
      }
      chats := chats + {offerId};
      if didTransition && requests[offer.requestId].status == ACTIVA {
        requests := requests[offer.requestId := requests[offer.requestId].(status := NEGOCIANDO)];
      }
      return Ok;
    }

    method RejectOffer(offerId: string, buyer: string) returns (r: Outcome)
      requires Inv(Db())
      modifies this`offers
      ensures Inv(Db()) && Db() == Uninterrupted(old(Db()), Reject(offerId, buyer), "", 0)
      ensures r == Ok <==> OwnsOffer(old(Db()), offerId, buyer) && old(offers)[offerId].status == PENDIENTE
      ensures r == Forbidden <==> offerId in old(offers) && !OwnsOffer(old(Db()), offerId, buyer)
      ensures r == NotFound <==> offerId !in old(offers)
      ensures offers == if r == Ok then old(offers)[offerId := old(offers)[offerId].(status := RECHAZADA)]
                        else old(offers)
    {
      ghost var before := Db();
      if offerId !in offers { return NotFound; }
      assert OfferOk(before, offerId);
      if requests[offers[offerId].requestId].userId != buyer { return Forbidden; }
      if offers[offerId].status != PENDIENTE { return BadRequest; }
      offers := offers[offerId := offers[offerId].(status := RECHAZADA)];
      EffectKeepsInv(before, Rejecting(offerId), "", 0);
      return Ok;
    }

    method CompleteDeal(offerId: string, buyer: string, now: int) returns (r: Outcome)
      requires Inv(Db())
      modifies this`offers, this`requests
      ensures Inv(Db()) && Db() == Uninterrupted(old(Db()), Complete(offerId, buyer), "", now)
      ensures r == Ok <==> MayComplete(old(Db()), offerId, buyer)
      ensures r == Ok ==> offerId in offers && offers[offerId].requestId in requests
      ensures r == Ok ==> PhaseOf(offers[offerId]) == Completed && requests[offers[offerId].requestId].status == CERRADA
      ensures r == Forbidden <==> offerId in old(offers) && !OwnsOffer(old(Db()), offerId, buyer)
      ensures r == NotFound <==>
                offerId !in old(offers) ||
                (OwnsOffer(old(Db()), offerId, buyer) && !old(requests)[old(offers)[offerId].requestId].active)
      ensures r == Ok ==>
                var was, id := old(offers)[offerId], offers[offerId].requestId;
                old(requests)[id].userId == buyer && old(requests)[id].active &&
                offers == old(offers)[offerId := was.(dealCompletedAt := offers[offerId].dealCompletedAt)] &&
                offers[offerId].dealCompletedAt == (if was.dealCompletedAt.Some? then was.dealCompletedAt
                                                    else Some(now)) &&
                requests == if was.dealCompletedAt.Some? then old(requests)
                            else old(requests)[id := old(requests)[id].(status := CERRADA, paused := false)]
      ensures r != Ok ==> Db() == old(Db())
    {
      ghost var before := Db();
      if offerId !in offers { return NotFound; }
      assert OfferOk(before, offerId);
      var offer := offers[offerId];
      var request := requests[offer.requestId];
      if request.userId != buyer { return Forbidden; }
      if !request.active { return NotFound; }
      if offer.status != ACEPTADA || offerId !in chats { return BadRequest; }
      if offer.dealCompletedAt.Some? { return Ok; }
      if offer.negotiationEndedAt.Some? { return BadRequest; }
      if HasOtherCompleted(Tables(requests, offers, chats), offer.requestId, offerId) { return BadRequest; }
      if request.status == CERRADA { return BadRequest; }
      offers := offers[offerId := offer.(dealCompletedAt := Some(now))];
      requests := requests[offer.requestId := request.(status := CERRADA, paused := false)];
      EffectKeepsInv(before, Completing(offerId), "", now);
      return Ok;
    }

    method End(offerId: string, user: string, now: int) returns (r: Outcome)
      requires Inv(Db())
      modifies this
      ensures Inv(Db()) && Db() == Uninterrupted(old(Db()), EndNegotiation(offerId, user), "", now)
      ensures r == Ok ==> offerId in offers && PhaseOf(offers[offerId]) == EndedWithoutDeal
      ensures r == Ok && old(offers)[offerId].negotiationEndedAt.Some? ==> Db() == old(Db())
      ensures r == NotFound <==>
                offerId in old(offers) && old(offers)[offerId].requestId in old(requests) ==>
                  !old(requests)[old(offers)[offerId].requestId].active
      ensures r == Forbidden ==> !OwnsOffer(old(Db()), offerId, user) && old(offers)[offerId].sellerId != user
      ensures r == Ok <==> MayEnd(old(Db()), offerId, user)
      ensures r == Ok && old(offers)[offerId].negotiationEndedAt.None? ==>
                var was, id := old(offers)[offerId], old(offers)[offerId].requestId;
                id in old(requests) && id in requests && chats == old(chats) &&
                (if old(requests)[id].userId == user then offers[offerId].negotiationEndedBy == Some(BUYER)
                 else was.sellerId == user && offers[offerId].negotiationEndedBy == Some(SELLER)) &&
                offers == old(offers)[offerId := was.(negotiationEndedAt := Some(now),
                                                      negotiationEndedBy := offers[offerId].negotiationEndedBy)] &&
                requests == old(requests)[id := old(requests)[id].(status := requests[id].status)] &&
                (old(requests)[id].status != CERRADA && !old(requests)[id].paused ==>
                  requests[id].status == if OthersNegotiate(old(Db()), id, offerId) then NEGOCIANDO else ACTIVA)
      ensures r != Ok ==> Db() == old(Db())
    {
      ghost var before := Db();
      if offerId !in offers { return NotFound; }
      assert OfferOk(before, offerId);
      var offer := offers[offerId];
      var request := requests[offer.requestId];
      if !request.active { return NotFound; }
      var isBuyer := request.userId == user;
      if !isBuyer && offer.sellerId != user { return Forbidden; }
      if offer.status != ACEPTADA || offer.dealCompletedAt.Some? { return BadRequest; }
      if offer.negotiationEndedAt.Some? { return Ok; }
      var endedBy := if isBuyer then BUYER else SELLER;
      EndingLeavesTheStatusOfTheRest(before, offerId, endedBy, now);
      offers := offers[offerId := offer.(negotiationEndedAt := Some(now), negotiationEndedBy := Some(endedBy))];
      chats := chats + {offerId};
      SyncRequestNegotiationStatus(offer.requestId);
      EffectKeepsInv(before, Ending(offerId, endedBy), "", now);
      return Ok;
    }

    method CloseRequest(requestId: string, user: string, now: int) returns (r: Outcome)
      requires Inv(Db())
      modifies this`offers, this`requests
      ensures Inv(Db()) && Db() == Uninterrupted(old(Db()), Close(requestId, user), "", now)
      ensures r == Ok ==> requestId in requests && requests[requestId].status == CERRADA
      ensures r == Ok && old(requests)[requestId].status != CERRADA ==> Quiet(Db(), requestId)
      ensures r == NotFound <==> requestId !in old(requests) || !old(requests)[requestId].active
      ensures r == Ok <==> r != NotFound && old(requests)[requestId].userId == user
      ensures r in {NotFound, Forbidden, Ok}
      ensures r != Ok || old(requests)[requestId].status == CERRADA ==> Db() == old(Db())
      ensures r == Ok && old(requests)[requestId].status != CERRADA ==>
                requests == old(requests)[requestId := old(requests)[requestId].(status := CERRADA, paused := false)] &&
                offers.Keys == old(offers).Keys &&
                forall o :: o in offers ==>
                  var was := old(offers)[o];
                  offers[o] == if was.requestId == requestId && PhaseOf(was) == Negotiating
                               then was.(negotiationEndedAt := Some(now), negotiationEndedBy := Some(BUYER)) else was
    {
      ShapeOfClose(Db(), requestId, user, now);
      if requestId !in requests || !requests[requestId].active { return NotFound; }
      if requests[requestId].userId != user { return Forbidden; }
      if requests[requestId].status == CERRADA { return Ok; }
      offers := EndedAll(offers, requestId, now);
      requests := requests[requestId := requests[requestId].(status := CERRADA, paused := false)];
      return Ok;
    }

    method UpdateRequest(requestId: string, user: string, provided: set<Field>, writes: map<Field, string>)
      returns (r: Outcome)
      requires Inv(Db()) && (writes.Keys <= provided || TouchesStructure(provided))
      modifies this`requests
      ensures Inv(Db()) && Db() == Uninterrupted(old(Db()), Edit(requestId, user, provided, writes), "", 0)
      ensures r == Ok <==> Admit(old(Db()), Edit(requestId, user, provided, writes)).Some?
      ensures r == Ok <==> Editable(old(Db()), requestId, user, provided)
      ensures r == NotFound <==> provided != {} && (requestId !in old(requests) || !old(requests)[requestId].active)
      ensures r == Forbidden <==> provided != {} && r != NotFound && old(requests)[requestId].userId != user
      ensures requests == if r != Ok then old(requests)
                          else
                            var was := old(requests)[requestId];
                            old(requests)[requestId := was.(fields := was.fields + writes)]
      ensures r == Ok && HasLive(old(Db()), requestId) ==>
        Structure(requests[requestId]) == Structure(old(requests)[requestId])
    {
      ShapeOfEdit(Db(), Edit(requestId, user, provided, writes));
      EditAdmittedIff(Db(), requestId, user, provided, writes);
      if provided == {} { return BadRequest; }
      if requestId !in requests || !requests[requestId].active { return NotFound; }
      if requests[requestId].userId != user { return Forbidden; }
      if requests[requestId].status == CERRADA { return BadRequest; }
      if requests[requestId].status == NEGOCIANDO { return BadRequest; }
      if HasActive(Tables(requests, offers, chats), requestId) { return BadRequest; }
      if HasPending(Tables(requests, offers, chats), requestId) {
        if TouchesStructure(provided) { return BadRequest; }
        if !OnlyLimited(provided) { return BadRequest; }
      }
      requests := requests[requestId := requests[requestId].(fields := requests[requestId].fields + writes)];
      return Ok;
    }
  }
}
