/**
 * Requests, offers and chats. Every service call reads first and writes later in one atomic
 * step; calls of buyers and sellers interleave between their read and their write, so a write
 * may act on a stale read. Transactions are single steps.
 */
module Negotiation {
  import opened Prelude

  datatype RequestStatus = ACTIVA | NEGOCIANDO | CERRADA

  datatype OfferStatus = PENDIENTE | ACEPTADA | RECHAZADA

  datatype Party = BUYER | SELLER

  datatype Field =
    | Title | Requirements | Budget | BudgetPeriod | Negotiable | ImageUrls
    | Location | Zone | Operation | CurrencyUnit | CarBrand | CarModel | CarColor | CarYearMin
    | CarCondition | MaxMileage | Bedrooms | MinSqm | MaxSqm

  /** The fields a request with pending offers may still edit. */
  predicate LimitedEdit(f: Field) {
    f.Title? || f.Requirements? || f.Budget? || f.BudgetPeriod? || f.Negotiable? || f.ImageUrls?
  }

  predicate Structural(f: Field) {
    f.Location? || f.Zone? || f.Operation? || f.CurrencyUnit? || f.CarBrand? || f.CarModel? || f.CarColor? ||
    f.CarYearMin?
    || f.CarCondition? || f.MaxMileage? || f.Bedrooms? || f.MinSqm? || f.MaxSqm?
  }

  predicate TouchesStructure(fields: set<Field>) {
    exists f :: f in fields && Structural(f)
  }

  predicate OnlyLimited(fields: set<Field>) {
    forall f :: f in fields ==> LimitedEdit(f)
  }

  datatype Request = Request(
    userId: string, status: RequestStatus, active: bool, paused: bool, fields: map<Field, string>)

  datatype Offer = Offer(
    requestId: string,
    sellerId: string,
    requestLocation: string,
    status: OfferStatus,
    dealCompletedAt: Option<int>,
    negotiationEndedAt: Option<int>,
    negotiationEndedBy: Option<Party>)

  datatype Tables = Tables(requests: map<string, Request>, offers: map<string, Offer>, chats: set<string>)

  /**
   * What a user asks for. `offerable` is the lifecycle answer at the time of the read. The columns
   * an edit writes are the fields provided; only an edit of structure derives others from them.
   */
  datatype Op =
    | CreateOffer(requestId: string, user: string, offerable: bool)
    | Accept(offerId: string, user: string)
    | Reject(offerId: string, user: string)
    | Complete(offerId: string, user: string)
    | EndNegotiation(offerId: string, user: string)
    | Send(offerId: string, user: string)
    | Close(requestId: string, user: string)
    | Edit(requestId: string, user: string, provided: set<Field>, writes: map<Field, string>)
    | Pause(requestId: string, user: string)
    | Renew(requestId: string, user: string)
    | Remove(requestId: string, user: string)

  /** A call that has passed its reads, and what it remembers of them. */
  datatype Call =
    | Creating(requestId: string, user: string, location: string)
    | Accepting(offerId: string)
    | Rejecting(offerId: string)
    | CheckingOthers(offerId: string)
    | Completing(offerId: string)
    | Ending(offerId: string, party: Party)
    | Bumping(requestId: string)
    | Closing(requestId: string)
    | Editing(requestId: string, writes: map<Field, string>)
    | Pausing(requestId: string)
    | Renewing(requestId: string)
    | Removing(requestId: string)

  datatype World = World(t: Tables, calls: map<nat, Call>)

  datatype Step =
    | Publish(requestId: string, user: string, fields: map<Field, string>)
    | Begin(c: nat, op: Op)
    | Commit(c: nat, newId: string, now: int)
    | Abandon(c: nat)

  // -------------------------------------------------------------- vocabulary

  predicate ActiveNegotiation(o: Offer) {
    o.status == ACEPTADA && o.dealCompletedAt.None? && o.negotiationEndedAt.None?
  }

  predicate HasActive(t: Tables, requestId: string) {
    exists o :: o in t.offers && t.offers[o].requestId == requestId && ActiveNegotiation(t.offers[o])
  }

  predicate HasPending(t: Tables, requestId: string) {
    exists o :: o in t.offers && t.offers[o].requestId == requestId && t.offers[o].status == PENDIENTE
  }

  predicate HasOtherCompleted(t: Tables, requestId: string, offerId: string) {
    exists o :: o in t.offers && o != offerId && t.offers[o].requestId == requestId && t.offers[o].dealCompletedAt.Some?
  }

  predicate HasOfferOf(t: Tables, requestId: string, seller: string) {
    exists o :: o in t.offers && t.offers[o].requestId == requestId && t.offers[o].sellerId == seller
  }

  function Value(fields: map<Field, string>, f: Field): string {
    if f in fields then fields[f] else ""
  }

  // ------------------------------------------------------------------- reads

  predicate Open(t: Tables, requestId: string, user: string) {
    requestId in t.requests && t.requests[requestId].active && t.requests[requestId].userId == user
      && t.requests[requestId].status != CERRADA
  }

  predicate OwnsOffer(t: Tables, offerId: string, user: string) {
    offerId in t.offers && t.offers[offerId].requestId in t.requests &&
    t.requests[t.offers[offerId].requestId].userId == user
  }

  /** The reads and guards of a call; None is an error or an answer without a write. */
  function Admit(t: Tables, op: Op): Option<Call> {
    match op
    case CreateOffer(requestId, user, offerable) =>
      if requestId !in t.requests || !t.requests[requestId].active || t.requests[requestId].status == CERRADA
        || !offerable || t.requests[requestId].userId == user || HasOfferOf(t, requestId, user) then None
      else Some(Creating(requestId, user, Value(t.requests[requestId].fields, Location)))
    case Accept(offerId, user) =>
      if !OwnsOffer(t, offerId, user) then None
      else
        var r := t.requests[t.offers[offerId].requestId];
        if !r.active || (r.status == CERRADA && t.offers[offerId].status != ACEPTADA) then None
        else Some(Accepting(offerId))
    case Reject(offerId, user) => if OwnsOffer(t, offerId, user) then Some(Rejecting(offerId)) else None
    case Complete(offerId, user) =>
      if !OwnsOffer(t, offerId, user) then None
      else
        var r := t.requests[t.offers[offerId].requestId];
        if !r.active || !ActiveNegotiation(t.offers[offerId]) || offerId !in t.chats || r.status == CERRADA then None
        else Some(CheckingOthers(offerId))
    case EndNegotiation(offerId, user) =>
      if offerId !in t.offers || t.offers[offerId].requestId !in t.requests then None
      else
        var r := t.requests[t.offers[offerId].requestId];
        if !r.active || !ActiveNegotiation(t.offers[offerId]) then None
        else if r.userId == user then Some(Ending(offerId, BUYER))
        else if t.offers[offerId].sellerId == user then Some(Ending(offerId, SELLER))
        else None
    case Send(offerId, user) =>
      if !OwnsOffer(t, offerId, user) || offerId !in t.chats || t.offers[offerId].negotiationEndedAt.Some? then None
      else Some(Bumping(t.offers[offerId].requestId))
    case Close(requestId, user) => if Open(t, requestId, user) then Some(Closing(requestId)) else None
    case Edit(requestId, user, provided, writes) =>
      if !Open(t, requestId, user) || t.requests[requestId].status == NEGOCIANDO || provided == {} then None
      else if HasActive(t, requestId) then None
      else if HasPending(t, requestId) && (TouchesStructure(provided) || !OnlyLimited(provided)) then None
      else if !(writes.Keys <= provided) && !TouchesStructure(provided) then None
      else Some(Editing(requestId, writes))
    case Pause(requestId, user) =>
      if Open(t, requestId, user) && !t.requests[requestId].paused then Some(Pausing(requestId)) else None
    case Renew(requestId, user) => if Open(t, requestId, user) then Some(Renewing(requestId)) else None
    case Remove(requestId, user) =>
      if requestId !in t.requests || t.requests[requestId].userId != user then None
      else if HasActive(t, requestId) && t.requests[requestId].status != CERRADA then None
      else Some(Removing(requestId))
  }

  // ------------------------------------------------------------------ writes

  /** A conditional status update of one request. */
  function StatusFromTo(t: Tables, requestId: string, from: RequestStatus, to: RequestStatus): Tables {
    if requestId in t.requests && t.requests[requestId].status == from
    then t.(requests := t.requests[requestId := t.requests[requestId].(status := to)]) else t
  }

  function SyncNegotiationStatus(t: Tables, requestId: string): Tables {
    if requestId !in t.requests || !t.requests[requestId].active || t.requests[requestId].status == CERRADA then t
    else if HasActive(t, requestId) then StatusFromTo(t, requestId, ACTIVA, NEGOCIANDO)
    else if t.requests[requestId].status == NEGOCIANDO && !t.requests[requestId].paused
    then StatusFromTo(t, requestId, NEGOCIANDO, ACTIVA)
    else t
  }

  function NewOffer(requestId: string, seller: string, location: string): Offer {
    Offer(requestId, seller, location, PENDIENTE, None, None, None)
  }

  function Ended(o: Offer, party: Party, now: int): Offer {
    o.(negotiationEndedAt := Some(now), negotiationEndedBy := Some(party))
  }

  function WithEnded(t: Tables, o: string, party: Party, now: int): Tables
    requires o in t.offers
  {
    t.(offers := t.offers[o := Ended(t.offers[o], party, now)], chats := t.chats + {o})
  }

  function EndedAll(offers: map<string, Offer>, requestId: string, now: int): map<string, Offer> {
    map o | o in offers ::
      if offers[o].requestId == requestId && ActiveNegotiation(offers[o]) then Ended(offers[o], BUYER, now)
      else offers[o]
  }

  function ClosedRequest(r: Request): Request {
    r.(status := CERRADA, paused := false)
  }

  /** The write of a call. A conditional update that matches no row changes nothing. */
  function Effect(t: Tables, call: Call, newId: string, now: int): Tables {
    match call
    case Creating(requestId, user, location) =>
      if newId in t.offers || HasOfferOf(t, requestId, user) then t
      else t.(offers := t.offers[newId := NewOffer(requestId, user, location)])
    case Accepting(offerId) =>
      if offerId !in t.offers || t.offers[offerId].status == RECHAZADA then t
      else if t.offers[offerId].status == ACEPTADA then t.(chats := t.chats + {offerId})
      else
        StatusFromTo(t.(offers := t.offers[offerId := t.offers[offerId].(status := ACEPTADA)],
                        chats := t.chats + {offerId}),
                     t.offers[offerId].requestId, ACTIVA, NEGOCIANDO)
    case Rejecting(offerId) =>
      if offerId !in t.offers || t.offers[offerId].status != PENDIENTE then t
      else t.(offers := t.offers[offerId := t.offers[offerId].(status := RECHAZADA)])
    case CheckingOthers(_) => t
    case Completing(offerId) =>
      if offerId !in t.offers || !ActiveNegotiation(t.offers[offerId]) then t
      else
        var requestId := t.offers[offerId].requestId;
        if requestId !in t.requests || HasOtherCompleted(t, requestId, offerId) then t
        else t.(offers := t.offers[offerId := t.offers[offerId].(dealCompletedAt := Some(now))],
                requests := t.requests[requestId := ClosedRequest(t.requests[requestId])])
    case Ending(offerId, party) =>
      if offerId !in t.offers || !ActiveNegotiation(t.offers[offerId]) then t
      else
        SyncNegotiationStatus(WithEnded(t, offerId, party, now), t.offers[offerId].requestId)
    case Bumping(requestId) => StatusFromTo(t, requestId, ACTIVA, NEGOCIANDO)
    case Closing(requestId) =>
      if requestId !in t.requests then t
      else t.(offers := EndedAll(t.offers, requestId, now),
              requests := t.requests[requestId := ClosedRequest(t.requests[requestId])])
    case Editing(requestId, writes) =>
      if requestId !in t.requests then t
      else
        var r := t.requests[requestId];
        t.(requests := t.requests[requestId := r.(fields := r.fields + writes)])
    case Pausing(requestId) =>
      if requestId !in t.requests then t
      else t.(requests := t.requests[requestId := t.requests[requestId].(paused := true)])
    case Renewing(requestId) =>
      if requestId !in t.requests then t
      else t.(requests := t.requests[requestId := t.requests[requestId].(paused := false)])
    case Removing(requestId) =>
      if requestId !in t.requests then t
      else t.(requests := t.requests[requestId := t.requests[requestId].(active := false)])
  }

  /** Completing reads the other deals of the request before it writes; every other call is over. */
  function CallsAfter(w: World, c: nat): map<nat, Call>
    requires c in w.calls
  {
    match w.calls[c]
    case CheckingOthers(offerId) =>
      if offerId in w.t.offers && !HasOtherCompleted(w.t, w.t.offers[offerId].requestId, offerId)
      then w.calls[c := Completing(offerId)] else w.calls - {c}
    case _ => w.calls - {c}
  }

  function Next(w: World, step: Step): World {
    match step
    case Publish(requestId, user, fields) =>
      if requestId in w.t.requests then w
      else w.(t := w.t.(requests := w.t.requests[requestId := Request(user, ACTIVA, true, false, fields)]))
    case Begin(c, op) =>
      var call := Admit(w.t, op);
      if c in w.calls || call.None? then w else w.(calls := w.calls[c := call.value])
    case Commit(c, newId, now) =>
      if c !in w.calls then w else World(Effect(w.t, w.calls[c], newId, now), CallsAfter(w, c))
    case Abandon(c) => w.(calls := w.calls - {c})
  }

  function Run(w: World, steps: seq<Step>): World {
    if steps == [] then w else Next(Run(w, steps[..|steps| - 1]), steps[|steps| - 1])
  }

  const EMPTY := World(Tables(map[], map[], {}), map[])

  // ------------------------------------------------------------------ phases

  datatype Phase = Pending | Rejected | Negotiating | Completed | EndedWithoutDeal

  function PhaseOf(o: Offer): Phase {
    match o.status
    case PENDIENTE => Pending
    case RECHAZADA => Rejected
    case ACEPTADA =>
      if o.dealCompletedAt.Some? then Completed else if o.negotiationEndedAt.Some? then EndedWithoutDeal
      else Negotiating
  }

  predicate Edge(p: Phase, q: Phase) {
    p == q || (p == Pending && q in {Rejected, Negotiating}) || (p == Negotiating && q in {Completed, EndedWithoutDeal})
  }

  predicate Reaches(p: Phase, q: Phase) {
    p == q || p == Pending || (p == Negotiating && q in {Completed, EndedWithoutDeal})
  }

  /** The stamps an offer may carry, and the coupling with its request and its chat. */
  predicate OfferOk(t: Tables, o: string)
    requires o in t.offers
  {
    var offer := t.offers[o];
    offer.requestId in t.requests &&
    (offer.status != ACEPTADA ==> offer.dealCompletedAt.None? && offer.negotiationEndedAt.None?) &&
    !(offer.dealCompletedAt.Some? && offer.negotiationEndedAt.Some?) &&
    (o in t.chats <==> offer.status == ACEPTADA) &&
    (PhaseOf(offer) == Negotiating ==> t.requests[offer.requestId].status != ACTIVA) &&
    (PhaseOf(offer) == Completed ==> t.requests[offer.requestId].status == CERRADA)
  }

  predicate SameParties(o: Offer, p: Offer) {
    o.requestId == p.requestId && o.sellerId == p.sellerId
  }

  predicate Inv(t: Tables) {
    (forall o :: o in t.offers ==> OfferOk(t, o)) &&
    t.chats <= t.offers.Keys &&
    (forall o :: o in t.offers && t.offers[o].dealCompletedAt.Some? ==>
      !HasOtherCompleted(t, t.offers[o].requestId, o)) &&
    (forall o, p :: o in t.offers && p in t.offers && SameParties(t.offers[o], t.offers[p]) ==> o == p)
  }

  predicate CallOk(t: Tables, call: Call) {
    match call
    case Creating(requestId, _, _) => requestId in t.requests
    case Accepting(offerId) => offerId in t.offers
    case Editing(requestId, _) => requestId in t.requests
    case _ => true
  }

  predicate CallsOk(w: World) {
    forall c :: c in w.calls ==> CallOk(w.t, w.calls[c])
  }

  /** Two-state facts of every step: nothing disappears, offers move along the edges, CERRADA is final. */
  predicate Advances(t: Tables, v: Tables) {
    (forall o :: o in t.offers ==>
      o in v.offers && SameOffer(t.offers[o], v.offers[o]) && Edge(PhaseOf(t.offers[o]), PhaseOf(v.offers[o]))) &&
    (forall r :: r in t.requests ==>
      r in v.requests && v.requests[r].userId == t.requests[r].userId &&
      (t.requests[r].status == CERRADA ==> v.requests[r].status == CERRADA)) &&
    t.chats <= v.chats
  }

  predicate SameOffer(o: Offer, p: Offer) {
    p.requestId == o.requestId && p.sellerId == o.sellerId && p.requestLocation == o.requestLocation
  }

  /** Rewriting one request in a way that respects the offers on it. */
  lemma RequestStep(t: Tables, r: string, to: Request)
    requires Inv(t)
    requires r in t.requests ==>
      to.userId == t.requests[r].userId && (t.requests[r].status == CERRADA ==> to.status == CERRADA)
    requires to.status == ACTIVA && r in t.requests && t.requests[r].status != ACTIVA ==> !HasActive(t, r)
    ensures var v := t.(requests := t.requests[r := to]); Inv(v) && Advances(t, v)
  {
    var v := t.(requests := t.requests[r := to]);
    forall o | o in v.offers ensures OfferOk(v, o) { assert OfferOk(t, o); }
    forall o | o in v.offers && v.offers[o].dealCompletedAt.Some?
      ensures !HasOtherCompleted(v, v.offers[o].requestId, o)
    {
      assert !HasOtherCompleted(t, t.offers[o].requestId, o);
    }
  }

  /** Rewriting one existing offer, with its chat. */
  lemma OfferStep(t: Tables, o: string, to: Offer, chats: set<string>)
    requires Inv(t) && o in t.offers && SameOffer(t.offers[o], to) && Edge(PhaseOf(t.offers[o]), PhaseOf(to))
    requires chats == t.chats || chats == t.chats + {o}
    requires OfferOk(t.(offers := t.offers[o := to], chats := chats), o)
    requires to.dealCompletedAt.Some? ==> !HasOtherCompleted(t, to.requestId, o)
    ensures var v := t.(offers := t.offers[o := to], chats := chats); Inv(v) && Advances(t, v)
  {
    var v := t.(offers := t.offers[o := to], chats := chats);
    forall p | p in v.offers ensures OfferOk(v, p) { if p != o { assert OfferOk(t, p); } }
    forall p | p in v.offers && v.offers[p].dealCompletedAt.Some?
      ensures !HasOtherCompleted(v, v.offers[p].requestId, p)
    {
      if p != o { assert !HasOtherCompleted(t, t.offers[p].requestId, p); }
    }
  }

  lemma InsertStep(t: Tables, o: string, offer: Offer)
    requires Inv(t) && o !in t.offers && offer.requestId in t.requests && offer.status == PENDIENTE
    requires offer.dealCompletedAt.None? && offer.negotiationEndedAt.None? &&
      !HasOfferOf(t, offer.requestId, offer.sellerId)
    ensures var v := t.(offers := t.offers[o := offer]); Inv(v) && Advances(t, v)
  {
    var v := t.(offers := t.offers[o := offer]);
    forall p | p in v.offers ensures OfferOk(v, p) { if p != o { assert OfferOk(t, p); } }
    forall p | p in v.offers && v.offers[p].dealCompletedAt.Some?
      ensures !HasOtherCompleted(v, v.offers[p].requestId, p)
    {
      assert !HasOtherCompleted(t, t.offers[p].requestId, p);
    }
  }

  lemma EndAllStep(t: Tables, r: string, now: int)
    requires Inv(t)
    ensures var v := t.(offers := EndedAll(t.offers, r, now)); Inv(v) && Advances(t, v) && !HasActive(v, r)
  {
    var v := t.(offers := EndedAll(t.offers, r, now));
    forall p | p in v.offers ensures OfferOk(v, p) { assert OfferOk(t, p); }
    forall p | p in v.offers && v.offers[p].dealCompletedAt.Some?
      ensures !HasOtherCompleted(v, v.offers[p].requestId, p)
    {
      assert !HasOtherCompleted(t, t.offers[p].requestId, p);
    }
  }

  lemma AcceptStep(t: Tables, o: string)
    requires Inv(t) && o in t.offers && t.offers[o].status == PENDIENTE
    ensures var v := Effect(t, Accepting(o), "", 0); Inv(v) && Advances(t, v)
  {
    assert OfferOk(t, o);
    var r := t.offers[o].requestId;
    var u := StatusFromTo(t, r, ACTIVA, NEGOCIANDO);
    RequestStep(t, r, u.requests[r]);
    assert u == t.(requests := t.requests[r := u.requests[r]]);
    OfferStep(u, o, t.offers[o].(status := ACEPTADA), t.chats + {o});
    assert Effect(t, Accepting(o), "", 0) == u.(offers := u.offers[o := t.offers[o].(status := ACEPTADA)],
                                                chats := t.chats + {o});
  }

  lemma AnyAcceptStep(t: Tables, o: string)
    requires Inv(t)
    ensures var v := Effect(t, Accepting(o), "", 0); Inv(v) && Advances(t, v)
  {
    if o in t.offers {
      assert OfferOk(t, o);
      if t.offers[o].status == PENDIENTE {
        AcceptStep(t, o);
      } else if t.offers[o].status == ACEPTADA {
        assert t.chats + {o} == t.chats;
      }
    }
  }

  lemma CompleteStep(t: Tables, o: string, now: int)
    requires Inv(t) && o in t.offers && ActiveNegotiation(t.offers[o]) &&
      !HasOtherCompleted(t, t.offers[o].requestId, o)
    ensures var v := Effect(t, Completing(o), "", now); Inv(v) && Advances(t, v)
  {
    assert OfferOk(t, o);
    var r := t.offers[o].requestId;
    RequestStep(t, r, ClosedRequest(t.requests[r]));
    var u := t.(requests := t.requests[r := ClosedRequest(t.requests[r])]);
    assert !HasOtherCompleted(u, r, o);
    OfferStep(u, o, t.offers[o].(dealCompletedAt := Some(now)), t.chats);
  }

  /** The request status follows its negotiations, and no offer notices. */
  lemma SyncStep(t: Tables, r: string)
    requires Inv(t) && r in t.requests
    ensures var v := SyncNegotiationStatus(t, r); Inv(v) && Advances(t, v)
  {
    var v := SyncNegotiationStatus(t, r);
    RequestStep(t, r, v.requests[r]);
    assert v == t.(requests := t.requests[r := v.requests[r]]);
  }

  lemma AdvancesTwice(t: Tables, u: Tables, v: Tables)
    requires Advances(t, u) && Advances(u, v) && u.offers == v.offers
    ensures Advances(t, v)
  {
  }

  lemma EndOfferStep(t: Tables, o: string, party: Party, now: int)
    requires Inv(t) && o in t.offers && ActiveNegotiation(t.offers[o])
    ensures var u := WithEnded(t, o, party, now);
            Inv(u) && Advances(t, u) && u.requests == t.requests && t.offers[o].requestId in t.requests
  {
    assert OfferOk(t, o);
    OfferStep(t, o, Ended(t.offers[o], party, now), t.chats + {o});
  }

  lemma EndStep(t: Tables, o: string, party: Party, now: int)
    requires Inv(t) && o in t.offers && ActiveNegotiation(t.offers[o])
    ensures var v := Effect(t, Ending(o, party), "", now); Inv(v) && Advances(t, v)
  {
    EndOfferStep(t, o, party, now);
    var u, r := WithEnded(t, o, party, now), t.offers[o].requestId;
    SyncStep(u, r);
    SyncLeavesOffers(u, r);
    AdvancesTwice(t, u, SyncNegotiationStatus(u, r));
  }

  lemma SyncLeavesOffers(t: Tables, r: string)
    ensures SyncNegotiationStatus(t, r).offers == t.offers
  {
  }

  lemma CloseStep(t: Tables, r: string, now: int)
    requires Inv(t)
    ensures var v := Effect(t, Closing(r), "", now); Inv(v) && Advances(t, v)
  {
    if r in t.requests {
      EndAllStep(t, r, now);
      RequestStep(t.(offers := EndedAll(t.offers, r, now)), r, ClosedRequest(t.requests[r]));
    }
  }

  lemma EffectKeepsInv(t: Tables, call: Call, newId: string, now: int)
    requires Inv(t) && CallOk(t, call)
    ensures var v := Effect(t, call, newId, now); Inv(v) && Advances(t, v)
  {
    match call {
      case Creating(requestId, user, location) =>
        if newId !in t.offers && !HasOfferOf(t, requestId, user) {
          InsertStep(t, newId, NewOffer(requestId, user, location));
        }
      case Accepting(o) => AnyAcceptStep(t, o);
      case Rejecting(o) =>
        if o in t.offers && t.offers[o].status == PENDIENTE {
          assert OfferOk(t, o);
          OfferStep(t, o, t.offers[o].(status := RECHAZADA), t.chats);
        }
      case CheckingOthers(_) =>
      case Completing(o) =>
        if o in t.offers && ActiveNegotiation(t.offers[o]) && !HasOtherCompleted(t, t.offers[o].requestId, o) {
          CompleteStep(t, o, now);
        }
      case Ending(o, party) =>
        if o in t.offers && ActiveNegotiation(t.offers[o]) { EndStep(t, o, party, now); }
      case Bumping(r) =>
        if r in t.requests && t.requests[r].status == ACTIVA {
          RequestStep(t, r, t.requests[r].(status := NEGOCIANDO));
        }
      case Closing(r) => CloseStep(t, r, now);
      case Editing(r, writes) => RequestStep(t, r, t.requests[r].(fields := t.requests[r].fields + writes));
      case Pausing(r) => if r in t.requests { RequestStep(t, r, t.requests[r].(paused := true)); }
      case Renewing(r) => if r in t.requests { RequestStep(t, r, t.requests[r].(paused := false)); }
      case Removing(r) => if r in t.requests { RequestStep(t, r, t.requests[r].(active := false)); }
    }
  }

  lemma AdmittedIsOk(t: Tables, op: Op)
    requires Admit(t, op).Some?
    ensures CallOk(t, Admit(t, op).value)
  {
  }

  /** Calls that stay remember things that do not disappear. */
  lemma CallsStayOk(w: World, v: World)
    requires CallsOk(w) && Advances(w.t, v.t)
    requires forall c :: c in v.calls ==> v.calls[c].Completing? || (c in w.calls && v.calls[c] == w.calls[c])
    ensures CallsOk(v)
  {
    forall c | c in v.calls ensures CallOk(v.t, v.calls[c]) {
      if !v.calls[c].Completing? { assert CallOk(w.t, w.calls[c]); }
    }
  }

  lemma BeginStep(w: World, c: nat, op: Op)
    requires Inv(w.t) && CallsOk(w)
    ensures CallsOk(Next(w, Begin(c, op))) && Next(w, Begin(c, op)).t == w.t
  {
    if Admit(w.t, op).Some? { AdmittedIsOk(w.t, op); }
  }

  lemma StepKeepsInv(w: World, step: Step)
    requires Inv(w.t) && CallsOk(w)
    ensures Inv(Next(w, step).t) && CallsOk(Next(w, step)) && Advances(w.t, Next(w, step).t)
  {
    match step {
      case Publish(r, user, fields) =>
        if r !in w.t.requests { RequestStep(w.t, r, Request(user, ACTIVA, true, false, fields)); }
        CallsStayOk(w, Next(w, step));
      case Begin(c, op) => BeginStep(w, c, op);
      case Commit(c, newId, now) =>
        if c in w.calls {
          EffectKeepsInv(w.t, w.calls[c], newId, now);
          CallsStayOk(w, Next(w, step));
        }
      case Abandon(_) => CallsStayOk(w, Next(w, step));
    }
  }

  // ------------------------------------------------------------ main results

  lemma {:induction false} RunsKeepInv(w: World, steps: seq<Step>)
    requires Inv(w.t) && CallsOk(w)
    ensures Inv(Run(w, steps).t) && CallsOk(Run(w, steps))
  {
    if steps != [] {
      RunsKeepInv(w, steps[..|steps| - 1]);
      StepKeepsInv(Run(w, steps[..|steps| - 1]), steps[|steps| - 1]);
    }
  }

  /** What a reader of the tables may rely on for one offer. */
  predicate Coupled(t: Tables, o: string)
    requires o in t.offers
  {
    var offer := t.offers[o];
    offer.requestId in t.requests &&
    (o in t.chats <==> offer.status == ACEPTADA) &&
    (ActiveNegotiation(offer) ==> t.requests[offer.requestId].status in {NEGOCIANDO, CERRADA}) &&
    (offer.dealCompletedAt.Some? ==> t.requests[offer.requestId].status == CERRADA) &&
    (offer.dealCompletedAt.Some? ==> offer.negotiationEndedAt.None? && !HasOtherCompleted(t, offer.requestId, o)) &&
    (offer.dealCompletedAt.Some? || offer.negotiationEndedAt.Some? ==> offer.status == ACEPTADA)
  }

  /** Coupling of offers, chats and request status in every interleaving from nothing. */
  lemma NegotiationsAreCoupled(steps: seq<Step>, o: string)
    requires o in Run(EMPTY, steps).t.offers
    ensures Coupled(Run(EMPTY, steps).t, o)
  {
    RunsKeepInv(EMPTY, steps);
    assert OfferOk(Run(EMPTY, steps).t, o);
  }

  /** Each step moves each offer along one edge of its phase diagram at most. */
  lemma OffersMoveAlongEdges(steps: seq<Step>, step: Step, o: string)
    requires o in Run(EMPTY, steps).t.offers
    ensures var t, v := Run(EMPTY, steps).t, Next(Run(EMPTY, steps), step).t;
            o in v.offers && SameOffer(t.offers[o], v.offers[o]) && Edge(PhaseOf(t.offers[o]), PhaseOf(v.offers[o]))
  {
    RunsKeepInv(EMPTY, steps);
    StepKeepsInv(Run(EMPTY, steps), step);
  }

  /** Over whole runs: phases only go forward, and a closed request stays closed. */
  lemma {:induction false} NothingGoesBack(w: World, steps: seq<Step>, o: string, r: string)
    requires Inv(w.t) && CallsOk(w) && o in w.t.offers && r in w.t.requests
    ensures var v := Run(w, steps).t;
            o in v.offers && Reaches(PhaseOf(w.t.offers[o]), PhaseOf(v.offers[o])) &&
            r in v.requests && (w.t.requests[r].status == CERRADA ==> v.requests[r].status == CERRADA)
  {
    if steps != [] {
      var before := steps[..|steps| - 1];
      NothingGoesBack(w, before, o, r);
      RunsKeepInv(w, before);
      StepKeepsInv(Run(w, before), steps[|steps| - 1]);
    }
  }

  // ------------------------------------------------- what the calls amount to

  /** Some offer of the request other than `o` is accepted and neither completed nor ended. */
  predicate OthersNegotiate(t: Tables, r: string, o: string) {
    exists p :: p in t.offers && p != o && t.offers[p].requestId == r && t.offers[p].status == ACEPTADA &&
      t.offers[p].dealCompletedAt.None? && t.offers[p].negotiationEndedAt.None?
  }

  lemma ActiveAfterEnding(t: Tables, o: string, party: Party, now: int)
    requires o in t.offers
    ensures HasActive(WithEnded(t, o, party, now), t.offers[o].requestId) <==>
            OthersNegotiate(t, t.offers[o].requestId, o)
  {
    var u, r := WithEnded(t, o, party, now), t.offers[o].requestId;
    if OthersNegotiate(t, r, o) {
      var p :| p in t.offers && p != o && t.offers[p].requestId == r && ActiveNegotiation(t.offers[p]);
      assert p in u.offers && ActiveNegotiation(u.offers[p]);
    }
  }

  /**
   * The status follows the negotiations of a live request both ways, but a paused one is not taken
   * back to ACTIVA; nothing else is written.
   */
  lemma StatusAfterSync(t: Tables, r: string)
    requires r in t.requests
    ensures var v, was := SyncNegotiationStatus(t, r), t.requests[r];
            v == t.(requests := v.requests) && r in v.requests &&
            v.requests == t.requests[r := was.(status := v.requests[r].status)] &&
            (was.active && was.status != CERRADA && HasActive(t, r) ==> v.requests[r].status == NEGOCIANDO) &&
            (was.active && was.status != CERRADA && !HasActive(t, r) && !was.paused ==>
              v.requests[r].status == ACTIVA) &&
            (!was.active || was.status == CERRADA || (was.paused && !HasActive(t, r)) ==>
              v.requests[r].status == was.status)
  {
  }

  /**
   * Ending a negotiation of a live, unpaused request: it stays NEGOCIANDO while another negotiation
   * goes on and is ACTIVA again after the last. Paused, closed and removed requests keep their
   * status. The offer is stamped with the party and the time, and nothing else changes.
   */
  lemma EndingLeavesTheStatusOfTheRest(t: Tables, o: string, party: Party, now: int)
    requires Inv(t) && o in t.offers && ActiveNegotiation(t.offers[o])
    ensures var r, v := t.offers[o].requestId, Effect(t, Ending(o, party), "", now);
            r in t.requests && r in v.requests && v.chats == t.chats && o in t.chats &&
            v.offers == t.offers[o := t.offers[o].(negotiationEndedAt := Some(now),
                                                   negotiationEndedBy := Some(party))] &&
            v.requests == t.requests[r := t.requests[r].(status := v.requests[r].status)] &&
            (t.requests[r].active && t.requests[r].status != CERRADA && !t.requests[r].paused ==>
              v.requests[r].status == if OthersNegotiate(t, r, o) then NEGOCIANDO else ACTIVA) &&
            (!t.requests[r].active || t.requests[r].status == CERRADA || t.requests[r].paused ==>
              v.requests[r].status == t.requests[r].status)
  {
    assert OfferOk(t, o);
    var u, r := WithEnded(t, o, party, now), t.offers[o].requestId;
    ActiveAfterEnding(t, o, party, now);
    assert t.chats + {o} == t.chats;
    StatusAfterSync(u, r);
  }

  /** So when the last negotiation ends the buyer may edit again; while another goes on, nothing. */
  lemma EditableAgainAfterEnding(t: Tables, o: string, party: Party, now: int, title: string)
    requires Inv(t) && o in t.offers && ActiveNegotiation(t.offers[o])
    requires var r := t.offers[o].requestId;
             r in t.requests && t.requests[r].active && t.requests[r].status != CERRADA && !t.requests[r].paused
    ensures var r, v := t.offers[o].requestId, Effect(t, Ending(o, party), "", now);
            Admit(v, Edit(r, t.requests[r].userId, {Title}, map[Title := title])).Some? <==> !OthersNegotiate(t, r, o)
  {
    EndingLeavesTheStatusOfTheRest(t, o, party, now);
    ActiveAfterEnding(t, o, party, now);
    assert OnlyLimited({Title});
    assert !TouchesStructure({Title});
  }

  /** A completed deal: the one offer is stamped and its request closed and unpaused. */
  lemma CompletingWrites(t: Tables, o: string, now: int)
    requires Inv(t) && o in t.offers && ActiveNegotiation(t.offers[o])
    requires forall p :: p in t.offers && t.offers[p].requestId == t.offers[o].requestId ==>
      t.offers[p].dealCompletedAt.None?
    ensures var r, v := t.offers[o].requestId, Effect(t, Completing(o), "", now);
            r in t.requests && v.chats == t.chats &&
            v.offers == t.offers[o := t.offers[o].(dealCompletedAt := Some(now))] &&
            v.requests == t.requests[r := t.requests[r].(status := CERRADA, paused := false)]
  {
    assert OfferOk(t, o);
  }

  /** A close: every negotiation of the request is ended by the buyer, and pending offers are left pending. */
  lemma ClosingWrites(t: Tables, r: string, now: int, o: string)
    requires r in t.requests && o in t.offers
    ensures var v := Effect(t, Closing(r), "", now);
            v.requests == t.requests[r := t.requests[r].(status := CERRADA, paused := false)] && v.chats == t.chats &&
            v.offers.Keys == t.offers.Keys &&
            v.offers[o] == if t.offers[o].requestId == r && PhaseOf(t.offers[o]) == Negotiating
                           then t.offers[o].(negotiationEndedAt := Some(now), negotiationEndedBy := Some(BUYER))
                           else t.offers[o]
  {
  }

  /** A closed request takes no offer, acceptance of a pending one, deal, edit, pause or renewal. */
  lemma ClosedRequestRefuses(t: Tables, r: string, o: string, user: string, offerable: bool, writes: map<Field, string>)
    requires r in t.requests && t.requests[r].status == CERRADA
    requires o in t.offers && t.offers[o].requestId == r
    ensures Admit(t, CreateOffer(r, user, offerable)).None?
    ensures t.offers[o].status == PENDIENTE ==> Admit(t, Accept(o, user)).None?
    ensures Admit(t, Complete(o, user)).None?
    ensures Admit(t, Edit(r, user, writes.Keys, writes)).None?
    ensures Admit(t, Pause(r, user)).None? && Admit(t, Renew(r, user)).None?
  {
  }

  /**
   * Removing is for the owner, and not while a negotiation goes on, unless the request is closed.
   * A removed request takes nothing any more but the rejection of an offer and messages.
   */
  lemma RemovedRequestRefuses(t: Tables, r: string, o: string, user: string, other: string, offerable: bool,
                              writes: map<Field, string>)
    requires r in t.requests && o in t.offers && t.offers[o].requestId == r
    ensures Admit(t, Remove(r, user)).Some? <==>
            t.requests[r].userId == user && (t.requests[r].status == CERRADA || !HasActive(t, r))
    ensures Admit(t, Remove(r, user)).Some? ==>
              var v := Effect(t, Admit(t, Remove(r, user)).value, "", 0);
              v == t.(requests := t.requests[r := t.requests[r].(active := false)]) &&
              Admit(v, CreateOffer(r, other, offerable)).None? && Admit(v, Accept(o, other)).None? &&
              Admit(v, Complete(o, other)).None? && Admit(v, EndNegotiation(o, other)).None? &&
              Admit(v, Close(r, other)).None? && Admit(v, Edit(r, other, writes.Keys, writes)).None? &&
              Admit(v, Pause(r, other)).None? && Admit(v, Renew(r, other)).None?
  {
  }

  /** The owner pauses a live request and renews it: the renewal undoes the pause, and the pause changes no more. */
  lemma RenewUndoesPause(t: Tables, r: string, user: string)
    requires r in t.requests && t.requests[r].active && t.requests[r].userId == user
    requires t.requests[r].status != CERRADA && !t.requests[r].paused
    ensures Admit(t, Pause(r, user)).Some?
    ensures var paused := Effect(t, Admit(t, Pause(r, user)).value, "", 0);
            paused == t.(requests := t.requests[r := t.requests[r].(paused := true)]) &&
            Admit(paused, Pause(r, user)).None? && Admit(paused, Renew(r, user)).Some? &&
            Effect(paused, Admit(paused, Renew(r, user)).value, "", 0) == t
  {
    var paused := Effect(t, Admit(t, Pause(r, user)).value, "", 0);
    assert paused.requests[r := paused.requests[r].(paused := false)] == t.requests;
  }

  /**
   * A message in the chat of an offer touches the request only when the buyer sends it: it takes an
   * ACTIVA request back to NEGOCIANDO, unless the negotiation was ended.
   */
  lemma SendingWrites(t: Tables, o: string, user: string)
    requires Inv(t) && o in t.offers
    ensures var r := t.offers[o].requestId;
            r in t.requests &&
            (Admit(t, Send(o, user)).Some? <==>
             t.requests[r].userId == user && t.offers[o].status == ACEPTADA && t.offers[o].negotiationEndedAt.None?) &&
            (Admit(t, Send(o, user)).Some? ==>
              Effect(t, Admit(t, Send(o, user)).value, "", 0)
              == if t.requests[r].status == ACTIVA
                 then t.(requests := t.requests[r := t.requests[r].(status := NEGOCIANDO)]) else t)
  {
    assert OfferOk(t, o);
  }

  // --------------------------------------------------------- after the close

  /** Closed, with no negotiation left open. */
  predicate Quiet(t: Tables, r: string) {
    r in t.requests && t.requests[r].status == CERRADA && !HasActive(t, r)
  }

  /** A buyer's acceptance that read the request before it was closed, of an offer still pending. */
  predicate LateAcceptance(w: World, r: string) {
    exists c :: c in w.calls && w.calls[c].Accepting? && AcceptsPendingOf(w.t, w.calls[c].offerId, r)
  }

  predicate AcceptsPendingOf(t: Tables, o: string, r: string) {
    o in t.offers && t.offers[o].requestId == r && t.offers[o].status == PENDIENTE
  }

  /** The write of close() always leaves the request quiet. */
  lemma CloseLeavesQuiet(w: World, c: nat, newId: string, now: int)
    requires Inv(w.t) && c in w.calls && w.calls[c].Closing? && w.calls[c].requestId in w.t.requests
    ensures Quiet(Next(w, Commit(c, newId, now)).t, w.calls[c].requestId)
  {
    EndAllStep(w.t, w.calls[c].requestId, now);
  }

  /** The only write that makes an offer active is the acceptance of that offer. */
  lemma OnlyAcceptanceActivates(t: Tables, call: Call, newId: string, now: int, o: string)
    requires var v := Effect(t, call, newId, now); o in v.offers && ActiveNegotiation(v.offers[o])
    ensures o in t.offers && t.offers[o].requestId == Effect(t, call, newId, now).offers[o].requestId
    ensures ActiveNegotiation(t.offers[o]) || (call == Accepting(o) && t.offers[o].status == PENDIENTE)
  {
  }

  lemma EffectKeepsQuiet(t: Tables, call: Call, newId: string, now: int, r: string)
    requires Inv(t) && CallOk(t, call) && Quiet(t, r)
    requires !(call.Accepting? && AcceptsPendingOf(t, call.offerId, r))
    ensures Quiet(Effect(t, call, newId, now), r)
  {
    EffectKeepsInv(t, call, newId, now);
    var v := Effect(t, call, newId, now);
    if HasActive(v, r) {
      var o :| o in v.offers && v.offers[o].requestId == r && ActiveNegotiation(v.offers[o]);
      OnlyAcceptanceActivates(t, call, newId, now, o);
    }
  }

  /** An offer that is not pending never becomes pending again. */
  lemma NoLongerPending(t: Tables, v: Tables, o: string, r: string)
    requires Advances(t, v) && o in t.offers && !AcceptsPendingOf(t, o, r)
    ensures !AcceptsPendingOf(v, o, r)
  {
    assert SameOffer(t.offers[o], v.offers[o]) && Edge(PhaseOf(t.offers[o]), PhaseOf(v.offers[o]));
  }

  /** On a closed request no new acceptance of a pending offer is admitted. */
  lemma NoNewAcceptance(w: World, c: nat, op: Op, r: string)
    requires Quiet(w.t, r) && !LateAcceptance(w, r)
    ensures !LateAcceptance(Next(w, Begin(c, op)), r)
  {
    var v := Next(w, Begin(c, op));
    forall d | d in v.calls && v.calls[d].Accepting? ensures !AcceptsPendingOf(v.t, v.calls[d].offerId, r) {
      if d in w.calls { assert v.calls[d] == w.calls[d]; }
    }
  }

  lemma QuietStep(w: World, step: Step, r: string)
    requires Inv(w.t) && CallsOk(w) && Quiet(w.t, r) && !LateAcceptance(w, r)
    ensures Quiet(Next(w, step).t, r) && !LateAcceptance(Next(w, step), r)
  {
    var v := Next(w, step);
    StepKeepsInv(w, step);
    if step.Commit? && step.c in w.calls { EffectKeepsQuiet(w.t, w.calls[step.c], step.newId, step.now, r); }
    if step.Begin? {
      NoNewAcceptance(w, step.c, step.op, r);
    } else {
      forall c | c in v.calls && v.calls[c].Accepting? ensures !AcceptsPendingOf(v.t, v.calls[c].offerId, r) {
        assert w.calls[c] == v.calls[c] && CallOk(w.t, w.calls[c]);
        NoLongerPending(w.t, v.t, v.calls[c].offerId, r);
      }
    }
  }

  lemma {:induction false} QuietRuns(w: World, steps: seq<Step>, r: string)
    requires Inv(w.t) && CallsOk(w) && Quiet(w.t, r) && !LateAcceptance(w, r)
    ensures Quiet(Run(w, steps).t, r) && !LateAcceptance(Run(w, steps), r)
  {
    if steps != [] {
      QuietRuns(w, steps[..|steps| - 1], r);
      RunsKeepInv(w, steps[..|steps| - 1]);
      QuietStep(Run(w, steps[..|steps| - 1]), steps[|steps| - 1], r);
    }
  }

  lemma LateAcceptanceReopens(w: World, r: string) returns (steps: seq<Step>)
    requires Inv(w.t) && CallsOk(w) && LateAcceptance(w, r)
    ensures !Quiet(Run(w, steps).t, r)
  {
    var c :| c in w.calls && w.calls[c].Accepting? && AcceptsPendingOf(w.t, w.calls[c].offerId, r);
    var o := w.calls[c].offerId;
    assert OfferOk(w.t, o);
    steps := [] + [Commit(c, "", 0)];
    RunSnoc(w, [], Commit(c, "", 0));
    var v := Run(w, steps);
    assert v.t.offers[o].status == ACEPTADA && v.t.offers[o].requestId == r && ActiveNegotiation(v.t.offers[o]);
  }

  /**
   * After a close no offer of the request is ever active again, whatever the future,
   * exactly when no acceptance that read the request before the close is still in flight.
   */
  lemma ClosedStaysQuietIffNoLateAcceptance(w: World, r: string)
    requires Inv(w.t) && CallsOk(w) && Quiet(w.t, r)
    ensures (forall steps :: Quiet(Run(w, steps).t, r)) <==> !LateAcceptance(w, r)
  {
    if !LateAcceptance(w, r) {
      forall steps ensures Quiet(Run(w, steps).t, r) { QuietRuns(w, steps, r); }
    } else {
      var steps := LateAcceptanceReopens(w, r);
      assert !Quiet(Run(w, steps).t, r);
    }
  }

  /** A request with one pending offer. */
  const OFFERED := Tables(
    map["r" := Request("buyer", ACTIVA, true, false, map[])], map["o" := NewOffer("r", "seller", "")], {})

  const OFFERING: seq<Step> := [
    Publish("r", "buyer", map[]), Begin(0, CreateOffer("r", "seller", true)), Commit(0, "o", 1)]

  lemma OfferIsReachable()
    ensures Run(EMPTY, OFFERING) == World(OFFERED, map[])
  {
    var s1, s2, s3 := OFFERING[0], OFFERING[1], OFFERING[2];
    var w1 := Next(EMPTY, s1);
    assert w1 == World(OFFERED.(offers := map[]), map[]);
    var w2 := Next(w1, s2);
    assert w2 == World(w1.t, map[0 := Creating("r", "seller", "")]);
    assert Next(w2, s3) == World(OFFERED, map[]);
    RunSnoc(EMPTY, [], s1);
    RunSnoc(EMPTY, [s1], s2);
    RunSnoc(EMPTY, [s1, s2], s3);
    assert [] + [s1] == [s1] && [s1] + [s2] == [s1, s2] && [s1, s2] + [s3] == OFFERING;
  }

  /** From there: read for the acceptance, then a whole close. */
  lemma CloseOvertakesAcceptance(w: World)
    requires w == World(OFFERED, map[])
    ensures var v := Next(Next(Next(w, Begin(1, Accept("o", "buyer"))), Begin(2, Close("r", "buyer"))),
                          Commit(2, "", 2));
            Quiet(v.t, "r") && LateAcceptance(v, "r")
  {
    var w1 := Next(w, Begin(1, Accept("o", "buyer")));
    assert w1 == World(OFFERED, map[1 := Accepting("o")]);
    var w2 := Next(w1, Begin(2, Close("r", "buyer")));
    assert w2 == World(OFFERED, map[1 := Accepting("o"), 2 := Closing("r")]);
    var v := Next(w2, Commit(2, "", 2));
    assert v.calls[1] == Accepting("o") && AcceptsPendingOf(v.t, "o", "r");
  }

  /** A late acceptance does happen: read before the close, written after it. */
  lemma LateAcceptanceIsReachable()
    ensures exists steps :: Quiet(Run(EMPTY, steps).t, "r") && LateAcceptance(Run(EMPTY, steps), "r")
  {
    var s4, s5, s6 := Begin(1, Accept("o", "buyer")), Begin(2, Close("r", "buyer")), Commit(2, "", 2);
    OfferIsReachable();
    CloseOvertakesAcceptance(Run(EMPTY, OFFERING));
    RunSnoc(EMPTY, OFFERING, s4);
    RunSnoc(EMPTY, OFFERING + [s4], s5);
    RunSnoc(EMPTY, OFFERING + [s4] + [s5], s6);
  }

  lemma RunSnoc(w: World, steps: seq<Step>, last: Step)
    ensures Run(w, steps + [last]) == Next(Run(w, steps), last)
  {
    assert (steps + [last])[..|steps|] == steps;
  }

  /**
   * close() on a request that a deal already closed returns before its write, so a second
   * negotiation of that request stays active: closing ends every negotiation exactly when
   * the request was still open or had none.
   */
  lemma CloseCallEndsNegotiations(w: World, c: nat, r: string, user: string, newId: string, now: int)
    requires Inv(w.t) && c !in w.calls && r in w.t.requests && w.t.requests[r].active && w.t.requests[r].userId == user
    ensures var v := Next(Next(w, Begin(c, Close(r, user))), Commit(c, newId, now));
            Quiet(v.t, r) <==> w.t.requests[r].status != CERRADA || !HasActive(w.t, r)
  {
    var u := Next(w, Begin(c, Close(r, user)));
    if w.t.requests[r].status != CERRADA {
      assert u.calls[c] == Closing(r);
      CloseLeavesQuiet(u, c, newId, now);
    }
  }

  ghost predicate Reached(w: World) {
    exists steps :: Run(EMPTY, steps) == w
  }

  lemma ReachedStep(w: World, step: Step)
    requires Reached(w)
    ensures Reached(Next(w, step))
  {
    var steps :| Run(EMPTY, steps) == w;
    RunSnoc(EMPTY, steps, step);
  }

  /** A call run in one go. */
  lemma ReachedCall(t: Tables, op: Op, newId: string, now: int)
    requires Reached(World(t, map[])) && Admit(t, op).Some? && !Admit(t, op).value.CheckingOthers?
    ensures Reached(World(Effect(t, Admit(t, op).value, newId, now), map[]))
  {
    var w, call := World(t, map[]), Admit(t, op).value;
    ReachedStep(w, Begin(0, op));
    assert Next(w, Begin(0, op)) == World(t, map[0 := call]);
    ReachedStep(World(t, map[0 := call]), Commit(0, newId, now));
    assert map[0 := call] - {0} == map[];
  }

  lemma ReachedDeal(t: Tables, o: string, user: string, now: int)
    requires Reached(World(t, map[])) && Admit(t, Complete(o, user)) == Some(CheckingOthers(o))
    requires o in t.offers && !HasOtherCompleted(t, t.offers[o].requestId, o)
    ensures Reached(World(Effect(t, Completing(o), "", now), map[]))
  {
    var w := World(t, map[]);
    ReachedStep(w, Begin(0, Complete(o, user)));
    assert Next(w, Begin(0, Complete(o, user))) == World(t, map[0 := CheckingOthers(o)]);
    ReachedStep(World(t, map[0 := CheckingOthers(o)]), Commit(0, "", now));
    assert map[0 := CheckingOthers(o)][0 := Completing(o)] == map[0 := Completing(o)];
    ReachedStep(World(t, map[0 := Completing(o)]), Commit(0, "", now));
    assert map[0 := Completing(o)] - {0} == map[];
  }

  const SECOND_OFFER := OFFERED.(offers := OFFERED.offers["p" := NewOffer("r", "other", "")])

  /** Both offers accepted. */
  const BOTH := Tables(
    map["r" := Request("buyer", NEGOCIANDO, true, false, map[])],
    map["o" := NewOffer("r", "seller", "").(status := ACEPTADA),
        "p" := NewOffer("r", "other", "").(status := ACEPTADA)],
    {"o", "p"})

  const ONE_ACCEPTED := Tables(
    map["r" := Request("buyer", NEGOCIANDO, true, false, map[])],
    map["o" := NewOffer("r", "seller", "").(status := ACEPTADA), "p" := NewOffer("r", "other", "")],
    {"o"})

  lemma SecondOfferIsReachable()
    ensures Reached(World(SECOND_OFFER, map[]))
  {
    OfferIsReachable();
    assert "other" != "seller" by { assert |"other"| != |"seller"|; }
    assert !HasOfferOf(OFFERED, "r", "other");
    ReachedCall(OFFERED, CreateOffer("r", "other", true), "p", 0);
    assert Effect(OFFERED, Creating("r", "other", ""), "p", 0) == SECOND_OFFER;
  }

  lemma FirstAcceptanceIsReachable()
    ensures Reached(World(ONE_ACCEPTED, map[]))
  {
    SecondOfferIsReachable();
    ReachedCall(SECOND_OFFER, Accept("o", "buyer"), "", 0);
    assert Effect(SECOND_OFFER, Accepting("o"), "", 0) == ONE_ACCEPTED;
  }

  lemma BothIsReachable()
    ensures Reached(World(BOTH, map[]))
  {
    FirstAcceptanceIsReachable();
    ReachedCall(ONE_ACCEPTED, Accept("p", "buyer"), "", 0);
    assert Effect(ONE_ACCEPTED, Accepting("p"), "", 0) == BOTH;
  }

  /**
   * It does happen: two offers accepted, the deal of one completed; the close that follows
   * returns early and the other negotiation stays active.
   */
  lemma CloseAfterDealLeavesNegotiation(now: int)
    ensures var t := Effect(BOTH, Completing("o"), "", now);
            Reached(World(t, map[])) && t.requests["r"].status == CERRADA && Admit(t, Close("r", "buyer")).None? &&
            !Quiet(t, "r")
  {
    BothIsReachable();
    ReachedDeal(BOTH, "o", "buyer", now);
    var t := Effect(BOTH, Completing("o"), "", now);
    assert t.offers["p"] == BOTH.offers["p"] && ActiveNegotiation(t.offers["p"]) && t.offers["p"].requestId == "r";
    assert HasActive(t, "r");
  }

  // ------------------------------------------------------ snapshot agreement

  predicate Live(o: Offer) {
    o.status == PENDIENTE || ActiveNegotiation(o)
  }

  predicate AgreesOn(t: Tables, o: string)
    requires o in t.offers
  {
    Live(t.offers[o]) ==>
      t.offers[o].requestId in t.requests &&
      t.offers[o].requestLocation == Value(t.requests[t.offers[o].requestId].fields, Location)
  }

  /** Every pending or negotiating offer was made for the location the request still has. */
  predicate Agreement(t: Tables) {
    forall o :: o in t.offers ==> AgreesOn(t, o)
  }

  predicate HasLive(t: Tables, r: string) {
    exists o :: o in t.offers && t.offers[o].requestId == r && Live(t.offers[o])
  }

  lemma NothingRevives(t: Tables, call: Call, newId: string, now: int, o: string)
    requires !call.Creating?
    requires var v := Effect(t, call, newId, now); o in v.offers && Live(v.offers[o])
    ensures o in t.offers && Live(t.offers[o]) && SameOffer(t.offers[o], Effect(t, call, newId, now).offers[o])
  {
  }

  lemma OnlyEditsWriteFields(t: Tables, call: Call, newId: string, now: int, r: string)
    requires r in t.requests && !(call.Editing? && call.requestId == r)
    ensures r in Effect(t, call, newId, now).requests &&
      Effect(t, call, newId, now).requests[r].fields == t.requests[r].fields
  {
  }

  lemma EffectAgreement(t: Tables, call: Call, newId: string, now: int)
    requires Agreement(t) && !call.Creating? && !call.Editing?
    ensures Agreement(Effect(t, call, newId, now))
  {
    var v := Effect(t, call, newId, now);
    forall o | o in v.offers ensures AgreesOn(v, o) {
      if Live(v.offers[o]) {
        NothingRevives(t, call, newId, now, o);
        assert AgreesOn(t, o);
        OnlyEditsWriteFields(t, call, newId, now, t.offers[o].requestId);
      }
    }
  }

  lemma AdmittedEditFindsNothingLive(t: Tables, op: Op)
    requires op.Edit? && Admit(t, op).Some? && HasLive(t, op.requestId)
    ensures Admit(t, op) == Some(Editing(op.requestId, op.writes)) && !TouchesStructure(op.writes.Keys)
    ensures Location !in op.writes
  {
    var o :| o in t.offers && t.offers[o].requestId == op.requestId && Live(t.offers[o]);
    assert HasActive(t, op.requestId) || HasPending(t, op.requestId);
    assert Structural(Location);
  }

  // -------------------------------------------------- what overtook a call

  /** A committed write: the call, and the id it was given for a new row. */
  datatype Written = Written(call: Call, newId: string)

  /** What has been committed since the call `c` in flight read the tables, in order. */
  function CommittedSince(w: World, steps: seq<Step>, c: nat): seq<Written> {
    if steps == [] then []
    else
      var before, step := steps[..|steps| - 1], steps[|steps| - 1];
      var v := Run(w, before);
      if step.Begin? && step.c == c && c !in v.calls then []
      else if step.Commit? && step.c != c && step.c in v.calls
      then CommittedSince(w, before, c) + [Written(v.calls[step.c], step.newId)]
      else CommittedSince(w, before, c)
  }

  predicate Moves(call: Call, r: string) {
    call.Editing? && call.requestId == r && Location in call.writes
  }

  predicate OffersOn(call: Call, r: string) {
    call.Creating? && call.requestId == r
  }

  predicate MovedSince(log: seq<Written>, r: string) {
    exists e :: e in log && Moves(e.call, r)
  }

  predicate OfferedSince(log: seq<Written>, r: string) {
    exists e :: e in log && OffersOn(e.call, r)
  }

  /** The location after the moves in `log`, given the one before them. */
  function LastLocation(log: seq<Written>, r: string, start: string): string {
    if log == [] then start
    else
      var last := log[|log| - 1].call;
      if Moves(last, r) then last.writes[Location] else LastLocation(log[..|log| - 1], r, start)
  }

  /** An offer overtaken by a move of its request, or a move overtaken by an offer. */
  predicate MoveAndOfferOverlap(call: Call, log: seq<Written>) {
    match call
    case Creating(r, _, _) => MovedSince(log, r)
    case Editing(r, writes) => Location in writes && OfferedSince(log, r)
    case _ => false
  }

  /** A structural edit overtaken by an offer. */
  predicate EditOvertaken(call: Call, log: seq<Written>) {
    call.Editing? && TouchesStructure(call.writes.Keys) && OfferedSince(log, call.requestId)
  }

  /** No offer on a request commits while a committed move of it is in flight, nor the other way round. */
  predicate MovesAndOffersApart(w: World, steps: seq<Step>) {
    steps == [] ||
    var before, step := steps[..|steps| - 1], steps[|steps| - 1];
    var calls := Run(w, before).calls;
    MovesAndOffersApart(w, before) &&
    (step.Commit? && step.c in calls ==> !MoveAndOfferOverlap(calls[step.c], CommittedSince(w, before, step.c)))
  }

  /** No offer on a request commits between the read and the write of a structural edit of it. */
  predicate EditsNotOvertaken(w: World, steps: seq<Step>) {
    steps == [] ||
    var before, step := steps[..|steps| - 1], steps[|steps| - 1];
    var calls := Run(w, before).calls;
    EditsNotOvertaken(w, before) &&
    (step.Commit? && step.c in calls ==> !EditOvertaken(calls[step.c], CommittedSince(w, before, step.c)))
  }

  /** An offer or an edit in flight has just read the tables, or was in flight already. */
  lemma InFlightBefore(v: World, step: Step, c: nat)
    requires c in Next(v, step).calls && (Next(v, step).calls[c].Creating? || Next(v, step).calls[c].Editing?)
    ensures if c in v.calls
            then v.calls[c] == Next(v, step).calls[c] && !(step.Commit? && step.c == c)
            else step.Begin? && step.c == c && Admit(v.t, step.op) == Some(Next(v, step).calls[c])
  {
  }

  lemma LastLocationUnmoved(log: seq<Written>, r: string, start: string)
    requires !MovedSince(log, r)
    ensures LastLocation(log, r, start) == start
  {
    if log != [] {
      assert log[|log| - 1] in log;
      forall e | e in log[..|log| - 1] ensures !Moves(e.call, r) { assert e in log; }
      LastLocationUnmoved(log[..|log| - 1], r, start);
    }
  }

  lemma LocationStep(t: Tables, call: Call, newId: string, now: int, r: string)
    requires r in t.requests
    ensures var v := Effect(t, call, newId, now);
            r in v.requests &&
            Value(v.requests[r].fields, Location) ==
            if Moves(call, r) then call.writes[Location] else Value(t.requests[r].fields, Location)
  {
    if !(call.Editing? && call.requestId == r) { OnlyEditsWriteFields(t, call, newId, now, r); }
  }

  lemma LastLocationSnoc(log: seq<Written>, e: Written, r: string, start: string)
    ensures LastLocation(log + [e], r, start) ==
            if Moves(e.call, r) then e.call.writes[Location] else LastLocation(log, r, start)
  {
    assert (log + [e])[..|log|] == log;
  }

  /** The request of an offer in flight is where the moves since its read have left it. */
  lemma {:induction false} LocationSinceRead(steps: seq<Step>, c: nat)
    requires c in Run(EMPTY, steps).calls && Run(EMPTY, steps).calls[c].Creating?
    ensures var v := Run(EMPTY, steps);
            var call := v.calls[c];
            call.requestId in v.t.requests &&
            Value(v.t.requests[call.requestId].fields, Location)
            == LastLocation(CommittedSince(EMPTY, steps, c), call.requestId, call.location)
  {
    var before, step := steps[..|steps| - 1], steps[|steps| - 1];
    var v := Run(EMPTY, before);
    InFlightBefore(v, step, c);
    if c in v.calls {
      LocationSinceRead(before, c);
      var r := v.calls[c].requestId;
      if step.Commit? && step.c in v.calls {
        LocationStep(v.t, v.calls[step.c], step.newId, step.now, r);
        LastLocationSnoc(CommittedSince(EMPTY, before, c), Written(v.calls[step.c], step.newId), r,
                         v.calls[c].location);
      }
    }
  }

  predicate LiveOn(t: Tables, o: string, r: string) {
    o in t.offers && t.offers[o].requestId == r && Live(t.offers[o])
  }

  /** A live offer was live before the step, or is the one just written. */
  lemma LiveBefore(t: Tables, call: Call, newId: string, now: int, o: string, r: string)
    requires LiveOn(Effect(t, call, newId, now), o, r)
    ensures LiveOn(t, o, r) || (OffersOn(call, r) && newId == o)
    ensures LiveOn(t, o, r) ==> t.offers[o].requestLocation == Effect(t, call, newId, now).offers[o].requestLocation
  {
    if !call.Creating? { NothingRevives(t, call, newId, now, o); }
  }

  /** Under a structural edit in flight every live offer was written since its read. */
  lemma {:induction false} LiveOffersCameSince(steps: seq<Step>, c: nat, o: string) returns (e: Written)
    requires c in Run(EMPTY, steps).calls && Run(EMPTY, steps).calls[c].Editing?
    requires TouchesStructure(Run(EMPTY, steps).calls[c].writes.Keys)
    requires LiveOn(Run(EMPTY, steps).t, o, Run(EMPTY, steps).calls[c].requestId)
    ensures e in CommittedSince(EMPTY, steps, c) && e.newId == o &&
      OffersOn(e.call, Run(EMPTY, steps).calls[c].requestId)
  {
    var before, step := steps[..|steps| - 1], steps[|steps| - 1];
    var v := Run(EMPTY, before);
    var r := Run(EMPTY, steps).calls[c].requestId;
    InFlightBefore(v, step, c);
    if c !in v.calls {
      assert HasLive(v.t, r);
      AdmittedEditFindsNothingLive(v.t, step.op);
      assert false;
    } else if step.Commit? && step.c in v.calls {
      LiveBefore(v.t, v.calls[step.c], step.newId, step.now, o, r);
      if LiveOn(v.t, o, r) {
        e := LiveOffersCameSince(before, c, o);
      } else {
        e := Written(v.calls[step.c], step.newId);
      }
    } else {
      e := LiveOffersCameSince(before, c, o);
    }
  }

  // ------------------------------------------------ snapshots and the schedule

  lemma OtherOffersStillAgree(t: Tables, r: string, writes: map<Field, string>, o: string)
    requires Agreement(t) && r in t.requests && o in t.offers
    requires Location !in writes || !LiveOn(t, o, r)
    ensures AgreesOn(Effect(t, Editing(r, writes), "", 0), o)
  {
    assert AgreesOn(t, o);
  }

  lemma WrittenOfferAgreesIff(t: Tables, r: string, user: string, location: string, newId: string)
    requires Agreement(t) && r in t.requests
    ensures Agreement(Effect(t, Creating(r, user, location), newId, 0)) <==>
            newId in t.offers || HasOfferOf(t, r, user) || location == Value(t.requests[r].fields, Location)
  {
    var v := Effect(t, Creating(r, user, location), newId, 0);
    forall o | o in t.offers ensures AgreesOn(v, o) { assert AgreesOn(t, o); }
    if !(newId in t.offers || HasOfferOf(t, r, user)) { assert Agreement(v) <==> AgreesOn(v, newId); }
  }

  /** The overtaken write still lands, and what overtook it says something else. */
  predicate Outdated(t: Tables, call: Call, newId: string, log: seq<Written>) {
    match call
    case Creating(r, user, location) =>
      newId !in t.offers && !HasOfferOf(t, r, user) && LastLocation(log, r, location) != location
    case Editing(r, writes) =>
      Location in writes && OffersElsewhere(t, log, r, writes[Location])
    case _ => false
  }

  predicate OffersElsewhere(t: Tables, log: seq<Written>, r: string, location: string) {
    exists e :: e in log && OffersOn(e.call, r) && MadeElsewhere(t, e.newId, r, location)
  }

  predicate MadeElsewhere(t: Tables, o: string, r: string, location: string) {
    LiveOn(t, o, r) && t.offers[o].requestLocation != location
  }

  lemma MoveAgreesIff(steps: seq<Step>, c: nat)
    requires var v := Run(EMPTY, steps); Agreement(v.t) && CallsOk(v) && c in v.calls && v.calls[c].Editing?
    ensures var v := Run(EMPTY, steps);
            Agreement(Effect(v.t, v.calls[c], "", 0)) <==>
              !Outdated(v.t, v.calls[c], "", CommittedSince(EMPTY, steps, c))
  {
    var v := Run(EMPTY, steps);
    var Editing(r, writes) := v.calls[c];
    var after := Effect(v.t, v.calls[c], "", 0);
    var log := CommittedSince(EMPTY, steps, c);
    assert CallOk(v.t, v.calls[c]);
    if Outdated(v.t, v.calls[c], "", log) {
      var e :| e in log && OffersOn(e.call, r) && MadeElsewhere(v.t, e.newId, r, writes[Location]);
      assert !AgreesOn(after, e.newId);
    } else {
      forall o | o in after.offers ensures AgreesOn(after, o) {
        if Location in writes && LiveOn(v.t, o, r) {
          assert Structural(Location);
          var e := LiveOffersCameSince(steps, c, o);
          assert !MadeElsewhere(v.t, e.newId, r, writes[Location]);
        } else {
          OtherOffersStillAgree(v.t, r, writes, o);
        }
      }
    }
  }

  /**
   * Whatever the run, the next write breaks the agreement exactly when the schedule lets a
   * move and an offer overlap, both land, and they name different locations.
   */
  lemma CommitKeepsAgreementIffNotOutdated(steps: seq<Step>, c: nat, newId: string, now: int)
    requires Agreement(Run(EMPTY, steps).t) && c in Run(EMPTY, steps).calls
    ensures Agreement(Next(Run(EMPTY, steps), Commit(c, newId, now)).t) <==>
            !Outdated(Run(EMPTY, steps).t, Run(EMPTY, steps).calls[c], newId, CommittedSince(EMPTY, steps, c))
  {
    var v := Run(EMPTY, steps);
    RunsKeepInv(EMPTY, steps);
    match v.calls[c] {
      case Creating(r, user, location) =>
        LocationSinceRead(steps, c);
        WrittenOfferAgreesIff(v.t, r, user, location, newId);
      case Editing(_, _) => MoveAgreesIff(steps, c);
      case call => EffectAgreement(v.t, call, newId, now);
    }
  }

  lemma OnlyOverlapsAreOutdated(t: Tables, call: Call, newId: string, log: seq<Written>)
    requires Outdated(t, call, newId, log)
    ensures MoveAndOfferOverlap(call, log)
  {
    if call.Creating? && !MovedSince(log, call.requestId) { LastLocationUnmoved(log, call.requestId, call.location); }
  }

  /** Every run that keeps moves and offers of one request apart keeps every live offer's location current. */
  lemma {:induction false} RunsApartAgree(steps: seq<Step>)
    requires MovesAndOffersApart(EMPTY, steps)
    ensures Agreement(Run(EMPTY, steps).t)
  {
    if steps != [] {
      var before, step := steps[..|steps| - 1], steps[|steps| - 1];
      RunsApartAgree(before);
      var v := Run(EMPTY, before);
      if step.Commit? && step.c in v.calls {
        CommitKeepsAgreementIffNotOutdated(before, step.c, step.newId, step.now);
        if Outdated(v.t, v.calls[step.c], step.newId, CommittedSince(EMPTY, before, step.c)) {
          OnlyOverlapsAreOutdated(v.t, v.calls[step.c], step.newId, CommittedSince(EMPTY, before, step.c));
        }
      } else {
        forall o | o in Next(v, step).t.offers ensures AgreesOn(Next(v, step).t, o) { assert AgreesOn(v.t, o); }
      }
    }
  }

  /** One call at a time: nothing else is in flight when a call begins. */
  predicate Serial(w: World, steps: seq<Step>) {
    steps == [] ||
    (Serial(w, steps[..|steps| - 1]) &&
     (steps[|steps| - 1].Begin? ==> Run(w, steps[..|steps| - 1]).calls == map[]))
  }

  lemma {:induction false} SerialCallsAreNotOvertaken(steps: seq<Step>, c: nat, d: nat)
    requires Serial(EMPTY, steps) && c in Run(EMPTY, steps).calls
    ensures CommittedSince(EMPTY, steps, c) == []
    ensures d in Run(EMPTY, steps).calls ==> d == c
  {
    var before, step := steps[..|steps| - 1], steps[|steps| - 1];
    var v := Run(EMPTY, before);
    if c in v.calls {
      SerialCallsAreNotOvertaken(before, c, d);
      if step.Commit? { SerialCallsAreNotOvertaken(before, c, step.c); }
    }
  }

  /** Calls that do not overlap keep offers and edits apart. */
  lemma {:induction false} SerialRunsAreApart(steps: seq<Step>)
    requires Serial(EMPTY, steps)
    ensures MovesAndOffersApart(EMPTY, steps) && EditsNotOvertaken(EMPTY, steps)
  {
    if steps != [] {
      var before, step := steps[..|steps| - 1], steps[|steps| - 1];
      SerialRunsAreApart(before);
      if step.Commit? && step.c in Run(EMPTY, before).calls { SerialCallsAreNotOvertaken(before, step.c, step.c); }
    }
  }

  const MIAMI := Request("buyer", ACTIVA, true, false, map[Location := "Miami, FL"])

  /** A seller and the buyer have both read the request in Miami; the buyer is about to move it to Tampa. */
  const RACING := World(
    Tables(map["r" := MIAMI], map[], {}),
    map[0 := Creating("r", "seller", "Miami, FL"), 1 := Editing("r", map[Location := "Tampa, FL"])])

  const RACE: seq<Step> := [
    Publish("r", "buyer", MIAMI.fields), Begin(0, CreateOffer("r", "seller", true)),
    Begin(1, Edit("r", "buyer", {Location}, map[Location := "Tampa, FL"]))]

  lemma BothReadMiami()
    ensures Admit(RACING.t, CreateOffer("r", "seller", true)) == Some(Creating("r", "seller", "Miami, FL"))
    ensures Admit(RACING.t, Edit("r", "buyer", {Location}, map[Location := "Tampa, FL"])) ==
            Some(Editing("r", map[Location := "Tampa, FL"]))
  {
  }

  lemma RaceIsReachable()
    ensures Run(EMPTY, RACE) == RACING
  {
    BothReadMiami();
    var s1, s2, s3 := RACE[0], RACE[1], RACE[2];
    var w1 := World(RACING.t, map[]);
    var w2 := World(RACING.t, map[0 := RACING.calls[0]]);
    assert Next(EMPTY, s1) == w1;
    assert Next(w1, s2) == w2;
    assert Next(w2, s3) == RACING;
    RunSnoc(EMPTY, [], s1);
    RunSnoc(EMPTY, [s1], s2);
    RunSnoc(EMPTY, [s1, s2], s3);
    assert [] + [s1] == [s1] && [s1] + [s2] == [s1, s2] && [s1, s2] + [s3] == RACE;
  }

  lemma RaceDisagrees()
    ensures !Agreement(Effect(Effect(RACING.t, RACING.calls[1], "", 1), RACING.calls[0], "o", 2))
  {
    var edited := Effect(RACING.t, RACING.calls[1], "", 1);
    assert Value(edited.requests["r"].fields, Location) == "Tampa, FL";
    var both := Effect(edited, RACING.calls[0], "o", 2);
    assert both.offers["o"] == NewOffer("r", "seller", "Miami, FL");
    assert "Tampa, FL"[0] != "Miami, FL"[0];
    assert !AgreesOn(both, "o");
  }

  /** Calls that do overlap break it: an offer written after an edit it had not read. */
  lemma OverlappingCallsDisagree()
    ensures exists steps :: !Agreement(Run(EMPTY, steps).t)
  {
    RaceIsReachable();
    RaceDisagrees();
    RunSnoc(EMPTY, RACE, Commit(1, "", 1));
    RunSnoc(EMPTY, RACE + [Commit(1, "", 1)], Commit(0, "o", 2));
  }

  function Structure(r: Request): map<Field, string> {
    map f | f in r.fields && Structural(f) :: r.fields[f]
  }

  /** The edit changes a structural column. */
  predicate Restructures(r: Request, writes: map<Field, string>) {
    exists f :: f in writes && Structural(f) && !(f in r.fields && r.fields[f] == writes[f])
  }

  lemma StructureChangesIff(t: Tables, r: string, writes: map<Field, string>)
    requires r in t.requests
    ensures Structure(Effect(t, Editing(r, writes), "", 0).requests[r]) != Structure(t.requests[r]) <==>
            Restructures(t.requests[r], writes)
  {
    var old', new' := t.requests[r], Effect(t, Editing(r, writes), "", 0).requests[r];
    if Restructures(old', writes) {
      var f :| f in writes && Structural(f) && !(f in old'.fields && old'.fields[f] == writes[f]);
      assert f in Structure(new') && Structure(new')[f] == writes[f];
    }
  }

  /** An offer written since the edit read the request is still live on it. */
  predicate OfferStands(t: Tables, log: seq<Written>, r: string) {
    exists e :: e in log && OffersOn(e.call, r) && LiveOn(t, e.newId, r)
  }

  /**
   * Whatever the run, the write of a structural edit changes the structure under a live offer
   * exactly when an offer that overtook it still stands and the edit writes something new.
   */
  lemma EditThawsIffOvertaken(steps: seq<Step>, c: nat)
    requires var v := Run(EMPTY, steps);
             c in v.calls && v.calls[c].Editing? && TouchesStructure(v.calls[c].writes.Keys)
    ensures var v := Run(EMPTY, steps);
            var Editing(r, writes) := v.calls[c];
            r in v.t.requests &&
            (HasLive(v.t, r) && Structure(Effect(v.t, v.calls[c], "", 0).requests[r]) != Structure(v.t.requests[r]) <==>
             OfferStands(v.t, CommittedSince(EMPTY, steps, c), r) && Restructures(v.t.requests[r], writes))
  {
    var v := Run(EMPTY, steps);
    RunsKeepInv(EMPTY, steps);
    var Editing(r, writes) := v.calls[c];
    assert CallOk(v.t, v.calls[c]);
    StructureChangesIff(v.t, r, writes);
    if HasLive(v.t, r) {
      var o :| o in v.t.offers && v.t.offers[o].requestId == r && Live(v.t.offers[o]);
      var e := LiveOffersCameSince(steps, c, o);
    }
  }

  lemma StructureStep(t: Tables, call: Call, newId: string, now: int, r: string)
    requires r in t.requests && !(call.Editing? && call.requestId == r && TouchesStructure(call.writes.Keys))
    ensures r in Effect(t, call, newId, now).requests
    ensures Structure(Effect(t, call, newId, now).requests[r]) == Structure(t.requests[r])
  {
    if call.Editing? && call.requestId == r {
      var v := Effect(t, call, newId, now);
      forall f | Structural(f) ensures f !in call.writes { }
      assert Structure(v.requests[r]) == Structure(t.requests[r]);
    } else {
      OnlyEditsWriteFields(t, call, newId, now, r);
    }
  }

  /**
   * In every run where no structural edit is overtaken by an offer on its request, no structural
   * field of a request changes while an offer on it stays pending or negotiating.
   */
  lemma {:induction false} StructureIsFrozenUnderLiveOffer(steps: seq<Step>, n: nat, o: string, r: string)
    requires n <= |steps| && EditsNotOvertaken(EMPTY, steps)
    requires o in Run(EMPTY, steps[..n]).t.offers && LiveOn(Run(EMPTY, steps).t, o, r)
    ensures var t, v := Run(EMPTY, steps[..n]).t, Run(EMPTY, steps).t;
            LiveOn(t, o, r) && r in t.requests && r in v.requests &&
            Structure(v.requests[r]) == Structure(t.requests[r])
  {
    if n == |steps| {
      assert steps[..n] == steps;
      RunsKeepInv(EMPTY, steps);
      assert OfferOk(Run(EMPTY, steps).t, o);
    } else {
      var before, step := steps[..|steps| - 1], steps[|steps| - 1];
      var v := Run(EMPTY, before);
      assert before[..n] == steps[..n];
      OfferIsThere(before, n, o);
      if step.Commit? && step.c in v.calls {
        LiveBefore(v.t, v.calls[step.c], step.newId, step.now, o, r);
        StructureIsFrozenUnderLiveOffer(before, n, o, r);
        EditFindsNoOffer(before, step.c, o, r);
        StructureStep(v.t, v.calls[step.c], step.newId, step.now, r);
      } else {
        StructureIsFrozenUnderLiveOffer(before, n, o, r);
      }
    }
  }

  lemma EditFindsNoOffer(steps: seq<Step>, c: nat, o: string, r: string)
    requires var v := Run(EMPTY, steps);
             c in v.calls && LiveOn(v.t, o, r) && !EditOvertaken(v.calls[c], CommittedSince(EMPTY, steps, c))
    ensures var call := Run(EMPTY, steps).calls[c];
            !(call.Editing? && call.requestId == r && TouchesStructure(call.writes.Keys))
  {
    var call := Run(EMPTY, steps).calls[c];
    if call.Editing? && call.requestId == r && TouchesStructure(call.writes.Keys) {
      var e := LiveOffersCameSince(steps, c, o);
      assert false;
    }
  }

  lemma {:induction false} OfferIsThere(steps: seq<Step>, n: nat, o: string)
    requires n <= |steps| && o in Run(EMPTY, steps[..n]).t.offers
    ensures o in Run(EMPTY, steps).t.offers
  {
    if n == |steps| {
      assert steps[..n] == steps;
    } else {
      var before := steps[..|steps| - 1];
      assert before[..n] == steps[..n];
      OfferIsThere(before, n, o);
      RunsKeepInv(EMPTY, before);
      StepKeepsInv(Run(EMPTY, before), steps[|steps| - 1]);
    }
  }

  /** And it does happen: an offer written between the read and the write of a move. */
  lemma OvertakenEditThaws()
    ensures var steps := RACE + [Commit(0, "o", 1)];
            var t, v := Run(EMPTY, steps).t, Run(EMPTY, steps + [Commit(1, "", 2)]).t;
            LiveOn(t, "o", "r") && LiveOn(v, "o", "r") && "r" in t.requests && "r" in v.requests &&
            Structure(v.requests["r"]) != Structure(t.requests["r"])
  {
    RaceIsReachable();
    RunSnoc(EMPTY, RACE, Commit(0, "o", 1));
    RunSnoc(EMPTY, RACE + [Commit(0, "o", 1)], Commit(1, "", 2));
    var t := Effect(RACING.t, RACING.calls[0], "o", 1);
    assert t == RACING.t.(offers := map["o" := NewOffer("r", "seller", "Miami, FL")]);
    var v := Effect(t, RACING.calls[1], "", 2);
    assert "Tampa, FL"[0] != "Miami, FL"[0];
    assert Structure(v.requests["r"])[Location] == "Tampa, FL" && Structure(t.requests["r"])[Location] == "Miami, FL";
  }
}
