/** The three highlighted offers of a request: two scores, a price order, and one pick per slot. */
module OfferHighlights {
  import opened Prelude
  import opened StableSort
  import UsLocations

  datatype Rating = Rating(avgStars: Option<real>, reviewCount: nat)

  datatype Seller = Seller(hasAvatar: bool, businessName: string, isCompany: bool, rating: Option<Rating>)

  datatype Offer = Offer(id: string, price: real, budget: real, message: string, images: nat, seller: Option<Seller>)

  // ----------------------------------------------------------------- pricing

  datatype PriceStatus = Under | At | Over

  datatype PriceComparison = PriceComparison(budget: real, diff: real, status: PriceStatus)

  function ComparePrices(budget: real, offerPrice: real): PriceComparison {
    var diff := offerPrice - budget;
    PriceComparison(budget, diff, if diff < 0.0 then Under else if diff == 0.0 then At else Over)
  }

  /** How far over a positive budget; a whole budget over when there is none. */
  function OverRatio(c: PriceComparison): real {
    if c.budget > 0.0 then c.diff / c.budget else 1.0
  }

  // ------------------------------------------------------------------ scores

  function PriceFitScore(c: PriceComparison): real {
    if c.status == Under then 32.0
    else if c.status == At then 28.0
    else if OverRatio(c) <= 0.05 then 18.0
    else if OverRatio(c) <= 0.1 then 10.0
    else if OverRatio(c) <= 0.2 then 4.0
    else 0.0
  }

  function RatingScore(seller: Option<Seller>): real {
    if seller.None? || seller.value.rating.None? || seller.value.rating.value.reviewCount == 0 then 0.0
    else
      match seller.value.rating.value.avgStars
      case None => 3.0
      case Some(stars) => if stars * 4.0 < 20.0 then stars * 4.0 else 20.0
  }

  function ImageScore(images: nat): real {
    if images >= 3 then 15.0 else if images >= 1 then 12.0 else 0.0
  }

  function MessageScore(message: string): real {
    var length := |UsLocations.Trim(message)|;
    if length >= 120 then 15.0 else if length >= 60 then 10.0 else if length >= 30 then 6.0 else 0.0
  }

  function ProfileScore(seller: Option<Seller>): real {
    match seller
    case None => 0.0
    case Some(s) =>
      (if s.hasAvatar then 4.0 else 0.0)
      + (if UsLocations.Trim(s.businessName) != "" then 5.0 else 0.0)
      + (if s.isCompany then 3.0 else 0.0)
  }

  function RecommendedScore(o: Offer): real {
    PriceFitScore(ComparePrices(o.budget, o.price))
    + RatingScore(o.seller) + ImageScore(o.images) + MessageScore(o.message)
    + ProfileScore(o.seller)
  }

  function ClosenessScore(c: PriceComparison): real {
    if c.status != Over then 35.0
    else if OverRatio(c) <= 0.1 then 18.0
    else if OverRatio(c) <= 0.2 then 8.0
    else 0.0
  }

  function ClosestMatchScore(o: Offer): real {
    ClosenessScore(ComparePrices(o.budget, o.price)) + ImageScore(o.images) * 1.2 + MessageScore(o.message) * 1.3
    + RatingScore(o.seller) + ProfileScore(o.seller)
  }

  lemma OverRatioGrows(budget: real, low: real, high: real)
    requires low <= high
    ensures OverRatio(ComparePrices(budget, low)) <= OverRatio(ComparePrices(budget, high))
  {
    if budget > 0.0 {
      var a, b := low - budget, high - budget;
      assert b / budget - a / budget == (b - a) / budget;
    }
  }

  /** All else fixed, asking more never raises a score. */
  lemma ScoresFallWithPrice(o: Offer, price: real)
    requires o.price <= price
    ensures RecommendedScore(o.(price := price)) <= RecommendedScore(o)
    ensures ClosestMatchScore(o.(price := price)) <= ClosestMatchScore(o)
  {
    OverRatioGrows(o.budget, o.price, price);
  }

  predicate Rated(seller: Option<Seller>) {
    seller.Some? && seller.value.rating.Some? && seller.value.rating.value.reviewCount > 0
  }

  /** No stars yet counts as less than one star. */
  predicate RatedNoLess(better: Option<Seller>, worse: Option<Seller>) {
    var b := if Rated(better) then better.value.rating.value.avgStars else None;
    var w := if Rated(worse) then worse.value.rating.value.avgStars else None;
    (Rated(worse) ==> Rated(better)) &&
    (b.Some? ==> b.value >= 1.0) && (w.Some? ==> b.Some? && w.value <= b.value)
  }

  predicate ProfileNoLess(better: Option<Seller>, worse: Option<Seller>) {
    worse.Some? ==>
      better.Some? && (worse.value.hasAvatar ==> better.value.hasAvatar) &&
      (UsLocations.Trim(worse.value.businessName) != "" ==> UsLocations.Trim(better.value.businessName) != "") &&
      (worse.value.isCompany ==> better.value.isCompany)
  }

  /** Cheaper, more images, a longer message, better stars, a fuller profile: neither score is lower. */
  lemma BetterOffersScoreNoLess(better: Offer, worse: Offer)
    requires better.budget == worse.budget && better.price <= worse.price && better.images >= worse.images
    requires |UsLocations.Trim(better.message)| >= |UsLocations.Trim(worse.message)|
    requires RatedNoLess(better.seller, worse.seller) && ProfileNoLess(better.seller, worse.seller)
    ensures RecommendedScore(better) >= RecommendedScore(worse)
    ensures ClosestMatchScore(better) >= ClosestMatchScore(worse)
  {
    var fair := worse.(price := better.price);
    ScoresFallWithPrice(fair, worse.price);
    assert fair.(price := worse.price) == worse;
    SellerScoresNoLess(better.seller, worse.seller);
    assert ImageScore(better.images) >= ImageScore(worse.images);
    assert MessageScore(better.message) >= MessageScore(worse.message);
  }

  lemma SellerScoresNoLess(better: Option<Seller>, worse: Option<Seller>)
    requires RatedNoLess(better, worse) && ProfileNoLess(better, worse)
    ensures RatingScore(better) >= RatingScore(worse) && ProfileScore(better) >= ProfileScore(worse)
  {
  }

  /** The steps of the price, in parts of a positive budget. */
  lemma PriceSteps(o: Offer, most: Offer)
    requires o.budget > 0.0 && most == o.(price := 2.0 * o.budget)
    ensures RecommendedScore(o) - RecommendedScore(most)
            == if o.price < o.budget then 32.0 else if o.price == o.budget then 28.0
               else if o.price <= 1.05 * o.budget then 18.0 else if o.price <= 1.1 * o.budget then 10.0
               else if o.price <= 1.2 * o.budget then 4.0 else 0.0
    ensures ClosestMatchScore(o) - ClosestMatchScore(most)
            == if o.price <= o.budget then 35.0 else if o.price <= 1.1 * o.budget then 18.0
               else if o.price <= 1.2 * o.budget then 8.0 else 0.0
  {
    RatioIff(o.price - o.budget, o.budget, 0.05);
    RatioIff(o.price - o.budget, o.budget, 0.1);
    RatioIff(o.price - o.budget, o.budget, 0.2);
    assert most.price - most.budget == o.budget && o.budget / o.budget == 1.0;
  }

  lemma RatioIff(diff: real, budget: real, part: real)
    requires budget > 0.0
    ensures diff / budget <= part <==> diff <= part * budget
  {
    var ratio := diff / budget;
    assert ratio * budget == diff;
    if ratio <= part { assert ratio * budget <= part * budget; } else { assert ratio * budget > part * budget; }
  }

  /** The steps of the images and of the message; the closest match weighs both higher. */
  lemma ContentSteps(o: Offer, bare: Offer)
    requires bare == o.(images := 0, message := "")
    ensures var images := if o.images == 0 then 0.0 else if o.images < 3 then 12.0 else 15.0;
            var length := |UsLocations.Trim(o.message)|;
            var words := if length < 30 then 0.0 else if length < 60 then 6.0 else if length < 120 then 10.0 else 15.0;
            RecommendedScore(o) == RecommendedScore(bare) + images + words &&
            ClosestMatchScore(o) == ClosestMatchScore(bare) + 1.2 * images + 1.3 * words
  {
    assert UsLocations.Trim("") == "";
  }

  /** What the seller adds to both scores: four points a star up to five stars, and the three marks of a profile. */
  lemma SellerSteps(o: Offer, anonymous: Offer)
    requires anonymous == o.(seller := None) && o.seller.Some?
    ensures var s := o.seller.value;
            var stars := if !Rated(o.seller) then 0.0 else if s.rating.value.avgStars.None? then 3.0
                         else if s.rating.value.avgStars.value >= 5.0 then 20.0
                         else 4.0 * s.rating.value.avgStars.value;
            var name := if UsLocations.Trim(s.businessName) == "" then 0.0 else 5.0;
            var gain := stars + (if s.hasAvatar then 4.0 else 0.0) + name + (if s.isCompany then 3.0 else 0.0);
            RecommendedScore(o) == RecommendedScore(anonymous) + gain &&
            ClosestMatchScore(o) == ClosestMatchScore(anonymous) + gain
  {
  }

  // ------------------------------------------------------------------- slots

  datatype Slot = Recommended | LowestPrice | ClosestMatch

  datatype Highlight = Highlight(offerId: string, slot: Slot, price: real)

  const SLOTS: seq<Slot> := [Recommended, LowestPrice, ClosestMatch]

  predicate MoreRecommended(a: Offer, b: Offer) { RecommendedScore(a) > RecommendedScore(b) }

  predicate Cheaper(a: Offer, b: Offer) { a.price < b.price }

  predicate Closer(a: Offer, b: Offer) { ClosestMatchScore(a) > ClosestMatchScore(b) }

  /** What a slot sorts by. */
  function Order(slot: Slot): (Offer, Offer) -> bool {
    match slot
    case Recommended => MoreRecommended
    case LowestPrice => Cheaper
    case ClosestMatch => Closer
  }

  lemma OrdersAreStrictWeak(slot: Slot)
    ensures StrictWeak(Order(slot))
  {
  }

  function HighlightOf(o: Offer, slot: Slot): Highlight {
    Highlight(o.id, slot, o.price)
  }

  function Ids(picked: seq<Highlight>): (ids: set<string>)
    ensures |ids| <= |picked|
  {
    if picked == [] then {} else Ids(picked[..|picked| - 1]) + {picked[|picked| - 1].offerId}
  }

  function Unused(ids: set<string>): Offer -> bool {
    (o: Offer) => o.id !in ids
  }

  /** Highlight `k` is the earliest best offer, by its slot's order, among those not picked before it. */
  ghost predicate PickedAt(offers: seq<Offer>, picked: seq<Highlight>, k: nat)
    requires k < |picked| <= |SLOTS|
  {
    exists i: nat ::
      FirstBestAmong(Order(SLOTS[k]), Unused(Ids(picked[..k])), offers, i) &&
      picked[k] == HighlightOf(offers[i], SLOTS[k])
  }

  ghost predicate WellPicked(offers: seq<Offer>, picked: seq<Highlight>) {
    |picked| <= |SLOTS| && forall k :: 0 <= k < |picked| ==> PickedAt(offers, picked, k)
  }

  /** A pick depends on the earlier ones only. */
  lemma PickedAtPrefix(offers: seq<Offer>, some: seq<Highlight>, more: seq<Highlight>, k: nat)
    requires k < |some| <= |more| <= |SLOTS| && some[..k + 1] == more[..k + 1]
    ensures PickedAt(offers, some, k) <==> PickedAt(offers, more, k)
  {
    assert some[..k] == some[..k + 1][..k] == more[..k];
    assert some[k] == some[..k + 1][k] == more[k];
  }

  lemma LastIsPicked(offers: seq<Offer>, picked: seq<Highlight>, i: nat)
    requires 0 < |picked| <= |SLOTS|
    requires FirstBestAmong(Order(SLOTS[|picked| - 1]), Unused(Ids(picked[..|picked| - 1])), offers, i)
    requires picked[|picked| - 1] == HighlightOf(offers[i], SLOTS[|picked| - 1])
    ensures PickedAt(offers, picked, |picked| - 1)
  {
  }

  lemma WellPickedExtends(offers: seq<Offer>, picked: seq<Highlight>, h: Highlight)
    requires WellPicked(offers, picked) && |picked| < |SLOTS|
    requires PickedAt(offers, picked + [h], |picked|)
    ensures WellPicked(offers, picked + [h])
  {
    var next := picked + [h];
    forall k | 0 <= k < |next| ensures PickedAt(offers, next, k) {
      if k < |picked| {
        assert next[..k + 1] == picked[..k + 1];
        PickedAtPrefix(offers, picked, next, k);
      }
    }
  }

  lemma IdsOfSnoc(picked: seq<Highlight>, h: Highlight)
    ensures (picked + [h])[..|picked|] == picked && Ids(picked + [h]) == Ids(picked) + {h.offerId}
  {
  }

  lemma PickNext(offers: seq<Offer>, picked: seq<Highlight>, i: nat)
    requires WellPicked(offers, picked) && |picked| < |SLOTS|
    requires FirstBestAmong(Order(SLOTS[|picked|]), Unused(Ids(picked)), offers, i)
    ensures WellPicked(offers, picked + [HighlightOf(offers[i], SLOTS[|picked|])])
    ensures Ids(picked + [HighlightOf(offers[i], SLOTS[|picked|])]) == Ids(picked) + {offers[i].id}
  {
    var h := HighlightOf(offers[i], SLOTS[|picked|]);
    IdsOfSnoc(picked, h);
    LastIsPicked(offers, picked + [h], i);
    WellPickedExtends(offers, picked, h);
  }

  /** A slot takes the head of its sorted pool. */
  lemma PickHead(offers: seq<Offer>, picked: seq<Highlight>)
    requires WellPicked(offers, picked) && |picked| < |SLOTS| && Filter(Unused(Ids(picked)), offers) != []
    ensures var slot := SLOTS[|picked|];
            var o := Sort(Order(slot), Filter(Unused(Ids(picked)), offers))[0];
            WellPicked(offers, picked + [HighlightOf(o, slot)]) &&
            Ids(picked + [HighlightOf(o, slot)]) == Ids(picked) + {o.id}
  {
    OrdersAreStrictWeak(SLOTS[|picked|]);
    var i := SelectedHead(Order(SLOTS[|picked|]), Unused(Ids(picked)), offers);
    PickNext(offers, picked, i);
  }

  lemma EmptyPoolMeansAllPicked(offers: seq<Offer>, ids: set<string>)
    ensures Filter(Unused(ids), offers) == [] <==> forall o :: o in offers ==> o.id in ids
  {
    var pool := Filter(Unused(ids), offers);
    if pool != [] { assert pool[0] in pool; }
  }

  /** The picks leave no offer out unless all three slots are filled. */
  method PickOfferHighlights(offers: seq<Offer>) returns (result: seq<Highlight>)
    ensures WellPicked(offers, result)
    ensures |result| < |SLOTS| ==> forall o :: o in offers ==> o.id in Ids(result)
  {
    if offers == [] { return []; }
    result := [];
    if |offers| == 1 {
      assert FirstBestAmong(Order(SLOTS[0]), Unused(Ids([])), offers, 0);
      PickNext(offers, [], 0);
      result := [HighlightOf(offers[0], Recommended)];
      assert result == [] + [HighlightOf(offers[0], SLOTS[0])];
      return;
    }
    var used: set<string> := {};
    for s := 0 to |SLOTS|
      invariant WellPicked(offers, result) && used == Ids(result) && |result| <= s
      invariant |result| < s ==> forall o :: o in offers ==> o.id in used
    {
      if |result| >= 3 { break; }
      var pool := Filter(Unused(used), offers);
      EmptyPoolMeansAllPicked(offers, used);
      if pool == [] { continue; }
      var offer := Sort(Order(SLOTS[s]), pool)[0];
      PickHead(offers, result);
      used := used + {offer.id};
      result := result + [HighlightOf(offer, SLOTS[s])];
    }
  }

  /** First comes the earliest offer with the highest score. */
  lemma FirstIsMostRecommended(offers: seq<Offer>, picked: seq<Highlight>) returns (i: nat)
    requires WellPicked(offers, picked) && |picked| >= 1
    ensures i < |offers| && picked[0] == Highlight(offers[i].id, Recommended, offers[i].price)
    ensures forall o :: o in offers ==> RecommendedScore(o) <= RecommendedScore(offers[i])
    ensures forall j :: 0 <= j < i ==> RecommendedScore(offers[j]) < RecommendedScore(offers[i])
  {
    assert PickedAt(offers, picked, 0);
    var free := Unused(Ids(picked[..0]));
    i :| FirstBestAmong(Order(SLOTS[0]), free, offers, i) && picked[0] == HighlightOf(offers[i], SLOTS[0]);
    forall j | 0 <= j < |offers| ensures !MoreRecommended(offers[j], offers[i]) {
      assert free(offers[j]);
    }
    forall j | 0 <= j < i ensures MoreRecommended(offers[i], offers[j]) {
      assert free(offers[j]);
    }
  }

  /** Then the earliest of the cheapest among the others. */
  lemma SecondIsCheapestOfTheRest(offers: seq<Offer>, picked: seq<Highlight>) returns (i: nat)
    requires WellPicked(offers, picked) && |picked| >= 2
    ensures i < |offers| && picked[1] == Highlight(offers[i].id, LowestPrice, offers[i].price)
    ensures offers[i].id != picked[0].offerId
    ensures forall o :: o in offers && o.id != picked[0].offerId ==> offers[i].price <= o.price
    ensures forall j :: 0 <= j < i && offers[j].id != picked[0].offerId ==> offers[i].price < offers[j].price
  {
    assert PickedAt(offers, picked, 1);
    var free := Unused(Ids(picked[..1]));
    i :| FirstBestAmong(Order(SLOTS[1]), free, offers, i) && picked[1] == HighlightOf(offers[i], SLOTS[1]);
    forall j | 0 <= j < |offers| && offers[j].id != picked[0].offerId
      ensures !Cheaper(offers[j], offers[i]) && (j < i ==> Cheaper(offers[i], offers[j]))
    {
      assert free(offers[j]);
    }
  }

  /** And the earliest of the closest matches among what is left. */
  lemma ThirdIsClosestOfTheRest(offers: seq<Offer>, picked: seq<Highlight>) returns (i: nat)
    requires WellPicked(offers, picked) && |picked| >= 3
    ensures i < |offers| && picked[2] == Highlight(offers[i].id, ClosestMatch, offers[i].price)
    ensures offers[i].id != picked[0].offerId && offers[i].id != picked[1].offerId
    ensures forall o :: o in offers && o.id != picked[0].offerId && o.id != picked[1].offerId ==>
      ClosestMatchScore(o) <= ClosestMatchScore(offers[i])
    ensures forall j :: 0 <= j < i && offers[j].id != picked[0].offerId && offers[j].id != picked[1].offerId ==>
      ClosestMatchScore(offers[j]) < ClosestMatchScore(offers[i])
  {
    assert PickedAt(offers, picked, 2);
    var two := picked[..2];
    assert Ids(two) == {picked[0].offerId, picked[1].offerId};
    var free := Unused(Ids(two));
    i :| FirstBestAmong(Order(SLOTS[2]), free, offers, i) && picked[2] == HighlightOf(offers[i], SLOTS[2]);
    forall j | 0 <= j < |offers| && offers[j].id != picked[0].offerId && offers[j].id != picked[1].offerId
      ensures !Closer(offers[j], offers[i]) && (j < i ==> Closer(offers[i], offers[j]))
    {
      assert free(offers[j]);
    }
  }

  // ---------------------------------------------------------------- counting

  ghost predicate DistinctIds(offers: seq<Offer>) {
    forall i, j :: 0 <= i < j < |offers| ==> offers[i].id != offers[j].id
  }

  function OfferIds(offers: seq<Offer>): (ids: set<string>)
    ensures forall o :: o in offers ==> o.id in ids
  {
    if offers == [] then {} else {offers[0].id} + OfferIds(offers[1..])
  }

  lemma {:induction false} OfferIdIsOfAnOffer(offers: seq<Offer>, id: string) returns (i: nat)
    requires id in OfferIds(offers)
    ensures i < |offers| && offers[i].id == id
  {
    if offers[0].id == id { return 0; }
    i := OfferIdIsOfAnOffer(offers[1..], id);
    i := i + 1;
  }

  lemma {:induction false} OfferIdsCount(offers: seq<Offer>)
    requires DistinctIds(offers)
    ensures |OfferIds(offers)| == |offers|
  {
    if offers != [] {
      var rest := offers[1..];
      assert DistinctIds(rest) by {
        forall i, j | 0 <= i < j < |rest| ensures rest[i].id != rest[j].id {
          assert offers[i + 1].id != offers[j + 1].id;
        }
      }
      OfferIdsCount(rest);
      forall id | id in OfferIds(rest) ensures id != offers[0].id {
        var i := OfferIdIsOfAnOffer(rest, id);
        assert id == offers[i + 1].id;
      }
    }
  }

  lemma {:induction false} PicksAreDistinct(offers: seq<Offer>, picked: seq<Highlight>)
    requires WellPicked(offers, picked)
    ensures |Ids(picked)| == |picked| && Ids(picked) <= OfferIds(offers)
  {
    if picked != [] {
      var n := |picked| - 1;
      var before := picked[..n];
      forall k | 0 <= k < |before| ensures PickedAt(offers, before, k) {
        assert before[..k + 1] == picked[..k + 1];
        PickedAtPrefix(offers, before, picked, k);
      }
      PicksAreDistinct(offers, before);
      assert PickedAt(offers, picked, n);
    }
  }

  /** Offers with distinct ids: three highlights, or all of them, and no offer twice. */
  lemma HighlightsAreThreeOrAll(offers: seq<Offer>, picked: seq<Highlight>)
    requires DistinctIds(offers) && WellPicked(offers, picked)
    requires |picked| < |SLOTS| ==> forall o :: o in offers ==> o.id in Ids(picked)
    ensures |picked| == (if |offers| < 3 then |offers| else 3)
    ensures forall i, j :: 0 <= i < j < |picked| ==> picked[i].offerId != picked[j].offerId
  {
    OfferIdsCount(offers);
    PicksAreDistinct(offers, picked);
    SubsetSize(Ids(picked), OfferIds(offers));
    if |picked| < 3 {
      forall id | id in OfferIds(offers) ensures id in Ids(picked) {
        var i := OfferIdIsOfAnOffer(offers, id);
        assert offers[i] in offers;
      }
      SubsetSize(OfferIds(offers), Ids(picked));
    }
    forall i, j | 0 <= i < j < |picked| ensures picked[i].offerId != picked[j].offerId {
      assert PickedAt(offers, picked, j);
      InIds(picked[..j], i);
    }
  }

  lemma {:induction false} InIds(picked: seq<Highlight>, i: nat)
    requires i < |picked|
    ensures picked[i].offerId in Ids(picked)
  {
    if i < |picked| - 1 { InIds(picked[..|picked| - 1], i); }
  }

  lemma {:induction false} SubsetSize<T>(a: set<T>, b: set<T>)
    requires a <= b
    ensures |a| <= |b|
  {
    if a != {} {
      var x :| x in a;
      SubsetSize(a - {x}, b - {x});
    }
  }
}
