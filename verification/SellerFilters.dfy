/**
 * The filters of a seller: the matcher behind saved-search alerts against the query
 * behind the listing, which the matcher claims to replicate.
 */
module SellerFilters {
  import opened Prelude
  import opened UsLocations
  import opened RequestLocation

  datatype Country = AR | US

  datatype Category = AUTOS | INMOBILIARIA

  datatype Operation = COMPRA | ALQUILER

  function CategoryName(c: Category): string {
    match c
    case AUTOS => "AUTOS"
    case INMOBILIARIA => "INMOBILIARIA"
  }

  function OperationName(o: Operation): string {
    match o
    case COMPRA => "COMPRA"
    case ALQUILER => "ALQUILER"
  }

  const CAR_COLOR_NO_PREFERENCE := "Sin preferencia"

  /** The filter panel: every field a string, "" when unset. */
  datatype Filters = Filters(
    category: string, operation: string, state: string, location: string, zone: string,
    bedrooms: string, minSqm: string, maxSqm: string,
    carBrand: string, carModel: string, carColor: string, carYearMin: string, carCondition: string, maxMileage: string)

  const EMPTY_SELLER_FILTERS := Filters("", "", "", "", "", "", "", "", "", "", "", "", "", "")

  /** The columns of a request that filters look at; `carNew` is the car condition, NEW or null. */
  datatype Row = Row(
    country: Country, category: Category, operation: Operation,
    state: Option<string>, location: string, zone: Option<string>,
    bedrooms: Option<int>, minSqm: Option<int>, maxSqm: Option<int>,
    carBrand: Option<string>, carModel: Option<string>, carColor: Option<string>,
    carYearMin: Option<int>, carNew: bool, maxMileage: Option<int>)

  /** How create and update store place and mileage. */
  predicate Normalised(r: Row) {
    (r.country == US ==> r.state == StateFromUsLocation(r.location)) &&
    (r.zone.Some? ==> Trim(r.zone.value) != "") &&
    (r.carNew ==> r.maxMileage.None?)
  }

  /** The columns of the other category are null, as create leaves them. */
  predicate OwnColumns(r: Row) {
    match r.category
    case AUTOS => r.bedrooms.None? && r.minSqm.None? && r.maxSqm.None?
    case INMOBILIARIA =>
      r.carBrand.None? && r.carModel.None? && r.carColor.None? && r.carYearMin.None? && !r.carNew && r.maxMileage.None?
  }

  // ----------------------------------------------------------------- numbers

  predicate IsDigit(c: char) { '0' <= c <= '9' }

  predicate Digits(s: string) {
    s != "" && forall i :: 0 <= i < |s| ==> IsDigit(s[i])
  }

  function Numeral(s: string): nat
    requires forall i :: 0 <= i < |s| ==> IsDigit(s[i])
  {
    if s == "" then 0
    else
      var digit := s[|s| - 1];
      assert IsDigit(digit);
      10 * Numeral(s[..|s| - 1]) + (digit as int - '0' as int)
  }

  function DigitPrefix(s: string): (r: string)
    ensures forall i :: 0 <= i < |r| ==> IsDigit(r[i])
    ensures r <= s && (|r| < |s| ==> !IsDigit(s[|r|]))
  {
    if s != "" && IsDigit(s[0]) then [s[0]] + DigitPrefix(s[1..]) else ""
  }

  /** parseInt(s, 10): leading space, a sign, digits, and anything after them; None for NaN. */
  function ParseInt(s: string): Option<int> {
    var t := TrimLeft(s);
    var signed := t != "" && (t[0] == '-' || t[0] == '+');
    var digits := DigitPrefix(if signed then t[1..] else t);
    if digits == "" then None
    else
      var n: int := Numeral(digits);
      Some(if signed && t[0] == '-' then -n else n)
  }

  lemma ParseIntOfDigits(s: string)
    requires Digits(s)
    ensures ParseInt(s) == Some(Numeral(s))
  {
    assert !IsSpace(s[0]);
    assert TrimLeft(s) == s;
    var digits := DigitPrefix(s);
    assert digits == s;
  }

  /** The whole number a query parameter decodes to when it lies in [low, high]. */
  function DecodeInt(s: string, low: int, high: int): Option<int> {
    if Digits(s) && low <= Numeral(s) <= high then Some(Numeral(s)) else None
  }

  /** An absent parameter is fine; a present one must decode. */
  predicate IntAccepted(s: string, low: int, high: int) {
    s == "" || DecodeInt(s, low, high).Some?
  }

  // ------------------------------------------------------------------- panel

  function EffectiveCategory(f: Filters, locked: Option<Category>): string {
    if locked.Some? then CategoryName(locked.value) else f.category
  }

  predicate SendsEstate(f: Filters, locked: Option<Category>) {
    EffectiveCategory(f, locked) != CategoryName(AUTOS)
  }

  predicate SendsAuto(f: Filters, locked: Option<Category>) {
    EffectiveCategory(f, locked) != CategoryName(INMOBILIARIA)
  }

  /** The filters that reach the API: no category when the seller's is locked, no fields of the other category. */
  function Sent(f: Filters, locked: Option<Category>): Filters {
    var general := f.(category := if locked.Some? then "" else f.category);
    var estate := if SendsEstate(f, locked) then general else general.(bedrooms := "", minSqm := "", maxSqm := "");
    if SendsAuto(f, locked) then estate
    else estate.(carBrand := "", carModel := "", carColor := "", carYearMin := "", carCondition := "", maxMileage := "")
  }

  method SellerFiltersToSearchParams(f: Filters, locked: Option<Category>) returns (params: Filters)
    ensures params == Sent(f, locked)
    ensures params.category == if locked.Some? then "" else f.category
    ensures (params.operation, params.state, params.location, params.zone) == (f.operation, f.state, f.location, f.zone)
    ensures var asked := if locked.Some? then CategoryName(locked.value) else f.category;
            (params.bedrooms, params.minSqm, params.maxSqm)
            == (if asked == "AUTOS" then ("", "", "") else (f.bedrooms, f.minSqm, f.maxSqm)) &&
            (params.carBrand, params.carModel, params.carColor)
            == (if asked == "INMOBILIARIA" then ("", "", "") else (f.carBrand, f.carModel, f.carColor)) &&
            (params.carYearMin, params.carCondition, params.maxMileage)
            == if asked == "INMOBILIARIA" then ("", "", "") else (f.carYearMin, f.carCondition, f.maxMileage)
  {
    params := EMPTY_SELLER_FILTERS;
    var estate, auto := SendsEstate(f, locked), SendsAuto(f, locked);
    if locked.None? && f.category != "" { params := params.(category := f.category); }
    params := SetGeneral(params, f);
    if estate {
      if f.bedrooms != "" { params := params.(bedrooms := f.bedrooms); }
      if f.minSqm != "" { params := params.(minSqm := f.minSqm); }
      if f.maxSqm != "" { params := params.(maxSqm := f.maxSqm); }
    }
    if auto { params := SetAuto(params, f); }
  }

  method SetGeneral(p: Filters, f: Filters) returns (params: Filters)
    requires p.operation == "" && p.state == "" && p.location == "" && p.zone == ""
    ensures params == p.(operation := f.operation, state := f.state, location := f.location, zone := f.zone)
  {
    params := p;
    if f.operation != "" { params := params.(operation := f.operation); }
    if f.state != "" { params := params.(state := f.state); }
    if f.location != "" { params := params.(location := f.location); }
    if f.zone != "" { params := params.(zone := f.zone); }
  }

  method SetAuto(p: Filters, f: Filters) returns (params: Filters)
    requires p.carBrand == "" && p.carModel == "" && p.carColor == ""
    requires p.carYearMin == "" && p.carCondition == "" && p.maxMileage == ""
    ensures params == p.(carBrand := f.carBrand, carModel := f.carModel, carColor := f.carColor,
                         carYearMin := f.carYearMin, carCondition := f.carCondition, maxMileage := f.maxMileage)
  {
    params := p;
    if f.carBrand != "" { params := params.(carBrand := f.carBrand); }
    if f.carModel != "" { params := params.(carModel := f.carModel); }
    if f.carColor != "" { params := params.(carColor := f.carColor); }
    if f.carYearMin != "" { params := params.(carYearMin := f.carYearMin); }
    if f.carCondition != "" { params := params.(carCondition := f.carCondition); }
    if f.maxMileage != "" { params := params.(maxMileage := f.maxMileage); }
  }

  function One(s: string): nat { if s == "" then 0 else 1 }

  function GeneralSet(f: Filters): nat {
    One(f.operation) + One(f.state) + One(f.location) + One(f.zone)
  }

  function EstateSet(f: Filters): nat {
    One(f.bedrooms) + One(f.minSqm) + One(f.maxSqm)
  }

  function AutoSet(f: Filters): nat {
    One(f.carBrand) + One(f.carModel) + One(f.carColor) + One(f.carYearMin) + One(f.carCondition) + One(f.maxMileage)
  }

  /** How many fields are set. */
  function FieldsSet(f: Filters): nat {
    One(f.category) + GeneralSet(f) + EstateSet(f) + AutoSet(f)
  }

  /** The badge counts exactly the parameters that are sent. */
  function ActiveCount(f: Filters, locked: Option<Category>): nat {
    FieldsSet(Sent(f, locked))
  }

  method CountActiveSellerFilters(f: Filters, locked: Option<Category>) returns (n: nat)
    ensures n == ActiveCount(f, locked)
  {
    CountOfSent(f, locked);
    n := CountGeneral(f);
    if locked.None? && f.category != "" { n := n + 1; }
    if SendsEstate(f, locked) {
      if f.bedrooms != "" { n := n + 1; }
      if f.minSqm != "" { n := n + 1; }
      if f.maxSqm != "" { n := n + 1; }
    }
    if SendsAuto(f, locked) { n := CountAuto(f, n); }
  }

  method CountGeneral(f: Filters) returns (n: nat)
    ensures n == GeneralSet(f)
  {
    n := 0;
    if f.operation != "" { n := n + 1; }
    if f.state != "" { n := n + 1; }
    if f.location != "" { n := n + 1; }
    if f.zone != "" { n := n + 1; }
  }

  method CountAuto(f: Filters, start: nat) returns (n: nat)
    ensures n == start + AutoSet(f)
  {
    n := start;
    if f.carBrand != "" { n := n + 1; }
    if f.carModel != "" { n := n + 1; }
    if f.carColor != "" { n := n + 1; }
    if f.carYearMin != "" { n := n + 1; }
    if f.carCondition != "" { n := n + 1; }
    if f.maxMileage != "" { n := n + 1; }
  }

  lemma CountOfSent(f: Filters, locked: Option<Category>)
    ensures ActiveCount(f, locked) ==
            One(if locked.Some? then "" else f.category) + GeneralSet(f)
            + (if SendsEstate(f, locked) then EstateSet(f) else 0)
            + (if SendsAuto(f, locked) then AutoSet(f) else 0)
  {
  }

  // ----------------------------------------------------------------- matcher

  predicate MatchesAuto(r: Row, f: Filters) {
    (f.carBrand == "" || r.carBrand == Some(f.carBrand)) &&
    (f.carModel == "" || r.carModel == Some(f.carModel)) &&
    (f.carColor == "" || r.carColor == Some(f.carColor) || r.carColor == Some(CAR_COLOR_NO_PREFERENCE)) &&
    (f.carCondition == "" || r.carNew) &&
    (f.carYearMin == "" || ParseInt(f.carYearMin).None? || r.carYearMin.None? ||
     r.carYearMin.value <= ParseInt(f.carYearMin).value) &&
    (f.maxMileage == "" || ParseInt(f.maxMileage).None? || r.carNew || r.maxMileage.None?
     || r.maxMileage.value <= ParseInt(f.maxMileage).value)
  }

  predicate MatchesEstate(r: Row, f: Filters) {
    (f.bedrooms == "" || ParseInt(f.bedrooms).None? || r.bedrooms == ParseInt(f.bedrooms)) &&
    (f.minSqm == "" || ParseInt(f.minSqm).None? || r.minSqm.None? || r.minSqm.value <= ParseInt(f.minSqm).value) &&
    (f.maxSqm == "" || ParseInt(f.maxSqm).None? || r.maxSqm.None? || r.maxSqm.value >= ParseInt(f.maxSqm).value)
  }

  predicate MatchesPlace(r: Row, f: Filters, sellerCountry: Country) {
    if sellerCountry == US then
      RequestMatchesUsLocationFilter(r.state, r.location, r.zone, Selection(f.state, f.location, f.zone))
    else
      (f.location == "" || r.location == f.location) && (f.zone == "" || r.zone == Some(f.zone))
  }

  /** requestMatchesSellerFilters, for the category saved with the search. */
  predicate Matches(r: Row, f: Filters, sellerCountry: Country, saved: Option<Category>) {
    var category := EffectiveCategory(f, saved);
    var cat := if category != "" then category else CategoryName(r.category);
    r.country == sellerCountry
    && ActiveCount(f, saved) != 0
    && (category == "" || CategoryName(r.category) == category)
    && (f.operation == "" || OperationName(r.operation) == f.operation)
    && MatchesPlace(r, f, sellerCountry)
    && (cat != CategoryName(INMOBILIARIA) && r.category == AUTOS ==> MatchesAuto(r, f))
    && (cat != CategoryName(AUTOS) && r.category == INMOBILIARIA ==> MatchesEstate(r, f))
  }

  // ------------------------------------------------------------------- query

  /** The validated query of the listing endpoint; strings are "" when absent. */
  datatype Query = Query(
    category: Option<Category>, operation: Option<Operation>, state: string, location: string, zone: string,
    bedrooms: Option<int>, minSqm: Option<int>, maxSqm: Option<int>,
    carBrand: string, carModel: string, carColor: string, carYearMin: Option<int>, carCondition: bool,
    maxMileage: Option<int>)

  /** What the validation pipe lets through; anything else is answered 400. */
  predicate Accepted(p: Filters) {
    (p.category == "" || p.category == CategoryName(AUTOS) || p.category == CategoryName(INMOBILIARIA)) &&
    (p.operation == "" || p.operation == OperationName(COMPRA) || p.operation == OperationName(ALQUILER)) &&
    IntAccepted(p.bedrooms, 1, 10) && IntAccepted(p.minSqm, 10, 5000) && IntAccepted(p.maxSqm, 10, 5000) &&
    IntAccepted(p.carYearMin, 1990, 2100) && IntAccepted(p.maxMileage, 5000, 100000) &&
    (p.carCondition == "" || p.carCondition == "NEW")
  }

  function Decode(p: Filters): Query {
    Query(
      if p.category == "" then None else if p.category == CategoryName(AUTOS) then Some(AUTOS) else Some(INMOBILIARIA),
      if p.operation == "" then None else if p.operation == OperationName(COMPRA) then Some(COMPRA) else Some(ALQUILER),
      p.state, p.location, p.zone,
      DecodeInt(p.bedrooms, 1, 10), DecodeInt(p.minSqm, 10, 5000), DecodeInt(p.maxSqm, 10, 5000),
      p.carBrand, p.carModel, p.carColor, DecodeInt(p.carYearMin, 1990, 2100), p.carCondition != "",
      DecodeInt(p.maxMileage, 5000, 100000))
  }

  predicate HasAutoFilter(q: Query) {
    q.carBrand != "" || q.carModel != "" || q.carColor != "" || q.carYearMin.Some? || q.carCondition ||
    q.maxMileage.Some?
  }

  predicate HasEstateFilter(q: Query) {
    q.bedrooms.Some? || q.minSqm.Some? || q.maxSqm.Some?
  }

  /** The category the query asks for: the seller's, the filter's, or one the other filters suggest. */
  function QueryCategory(q: Query, sellerCategory: Option<Category>): Option<Category> {
    if sellerCategory.Some? then sellerCategory
    else if q.category.Some? then q.category
    else if HasAutoFilter(q) && !HasEstateFilter(q) && q.zone == "" then Some(AUTOS)
    else if HasEstateFilter(q) && !HasAutoFilter(q) && q.zone == "" then Some(INMOBILIARIA)
    else None
  }

  predicate PlaceWhere(q: Query, sellerCountry: Country, r: Row) {
    (q.location == "" || r.location == q.location) &&
    (q.state == "" || sellerCountry != US || r.state == Some(q.state)) &&
    (q.zone == "" || r.zone == Some(q.zone) || (sellerCountry == US && q.location != "" && r.zone.None?))
  }

  predicate EstateWhere(q: Query, r: Row) {
    (q.bedrooms.None? || r.bedrooms == q.bedrooms) &&
    (q.minSqm.None? || r.minSqm.None? || r.minSqm.value <= q.minSqm.value) &&
    (q.maxSqm.None? || r.maxSqm.None? || r.maxSqm.value >= q.maxSqm.value)
  }

  predicate AutoWhere(q: Query, r: Row) {
    (q.carBrand == "" || r.carBrand == Some(q.carBrand)) &&
    (q.carModel == "" || r.carModel == Some(q.carModel)) &&
    (q.carColor == "" || r.carColor == Some(q.carColor) || r.carColor == Some(CAR_COLOR_NO_PREFERENCE)) &&
    (q.carYearMin.None? || r.carYearMin.None? || r.carYearMin.value <= q.carYearMin.value) &&
    (q.carCondition ==> r.carNew) &&
    (q.maxMileage.None? || (r.maxMileage.None? && !r.carNew) || r.carNew
     || (r.maxMileage.Some? && r.maxMileage.value <= q.maxMileage.value))
  }

  /** The filter part of the listing's where clause. */
  predicate Where(q: Query, sellerCountry: Country, sellerCategory: Option<Category>, r: Row) {
    var category := QueryCategory(q, sellerCategory);
    r.country == sellerCountry
    && (category.None? || r.category == category.value)
    && (q.operation.None? || r.operation == q.operation.value)
    && PlaceWhere(q, sellerCountry, r)
    && EstateWhere(q, r)
    && AutoWhere(q, r)
  }

  // ------------------------------------------------------- what a query finds

  /** A limit is no limit, or the limit that lets more through. */
  predicate AtLeastAs(wide: Option<int>, narrow: Option<int>) {
    wide.None? || (narrow.Some? && wide.value >= narrow.value)
  }

  predicate AtMostAs(wide: Option<int>, narrow: Option<int>) {
    wide.None? || (narrow.Some? && wide.value <= narrow.value)
  }

  /** The query asks no more: fields unset or the same, a later year, more mileage, more room to start, less to end. */
  predicate AsksNoMore(wide: Query, narrow: Query) {
    && wide.category == narrow.category
    && (wide.operation.None? || wide.operation == narrow.operation)
    && wide.state in {"", narrow.state} && wide.location in {"", narrow.location} && wide.zone in {"", narrow.zone}
    && (wide.location == "" ==> wide.zone == "")
    && (wide.bedrooms.None? || wide.bedrooms == narrow.bedrooms)
    && AtLeastAs(wide.minSqm, narrow.minSqm) && AtMostAs(wide.maxSqm, narrow.maxSqm)
    && wide.carBrand in {"", narrow.carBrand} && wide.carModel in {"", narrow.carModel}
    && wide.carColor in {"", narrow.carColor} && (wide.carCondition ==> narrow.carCondition)
    && AtLeastAs(wide.carYearMin, narrow.carYearMin) && AtLeastAs(wide.maxMileage, narrow.maxMileage)
  }

  /** Within one category, asking no more finds no less. */
  lemma WiderQueriesFindNoLess(wide: Query, narrow: Query, country: Country, category: Option<Category>, r: Row)
    requires AsksNoMore(wide, narrow) && (category.Some? || narrow.category.Some?)
    requires Where(narrow, country, category, r)
    ensures Where(wide, country, category, r)
  {
  }

  /** The query that repeats what a request says. */
  function Asking(r: Row): Query {
    Query(Some(r.category), Some(r.operation), if r.state.Some? then r.state.value else "", r.location,
          if r.zone.Some? then r.zone.value else "", r.bedrooms, r.minSqm, r.maxSqm,
          if r.carBrand.Some? then r.carBrand.value else "", if r.carModel.Some? then r.carModel.value else "",
          if r.carColor.Some? then r.carColor.value else "", r.carYearMin, r.carNew, r.maxMileage)
  }

  /**
   * It finds that request, and with one value moved it does not: another place, operation, number of
   * rooms, brand, model or colour, a lower year, mileage or size, or a new car where a used one will do.
   */
  lemma RequestIsFoundByItsOwnWords(r: Row, q: Query, n: int, word: string)
    requires OwnColumns(r) && q == Asking(r) && word != ""
    ensures Where(q, r.country, Some(r.category), r) && Where(q, r.country, None, r)
    ensures word != r.location ==> !Where(q.(location := word), r.country, Some(r.category), r)
    ensures r.zone.Some? && word != r.zone.value ==> !Where(q.(zone := word), r.country, Some(r.category), r)
    ensures r.country == US && r.state != Some(word) ==> !Where(q.(state := word), US, Some(r.category), r)
    ensures forall o :: o != r.operation ==> !Where(q.(operation := Some(o)), r.country, Some(r.category), r)
    ensures r.bedrooms != Some(n) ==> !Where(q.(bedrooms := Some(n)), r.country, Some(r.category), r)
    ensures r.minSqm.Some? && n < r.minSqm.value ==> !Where(q.(minSqm := Some(n)), r.country, Some(r.category), r)
    ensures r.maxSqm.Some? && n > r.maxSqm.value ==> !Where(q.(maxSqm := Some(n)), r.country, Some(r.category), r)
    ensures r.carBrand != Some(word) ==> !Where(q.(carBrand := word), r.country, Some(r.category), r)
    ensures r.carModel != Some(word) ==> !Where(q.(carModel := word), r.country, Some(r.category), r)
    ensures r.carColor !in {Some(word), Some("Sin preferencia")} ==>
              !Where(q.(carColor := word), r.country, Some(r.category), r)
    ensures r.carYearMin.Some? && n < r.carYearMin.value ==>
              !Where(q.(carYearMin := Some(n)), r.country, Some(r.category), r)
    ensures !r.carNew && r.maxMileage.Some? && n < r.maxMileage.value ==>
              !Where(q.(maxMileage := Some(n)), r.country, Some(r.category), r)
    ensures !r.carNew ==> !Where(q.(carCondition := true), r.country, Some(r.category), r)
  {
  }

  // --------------------------------------------------------------- agreement

  /** The filters as the panel holds them: places without outer spaces. */
  predicate TrimmedPlace(f: Filters) {
    Trimmed(f.state) && Trimmed(f.location) && Trimmed(f.zone)
  }

  lemma IntsAgree(s: string, low: int, high: int)
    requires IntAccepted(s, low, high) && s != ""
    ensures ParseInt(s) == DecodeInt(s, low, high)
  {
    ParseIntOfDigits(s);
  }

  lemma StoredStateIsTrimmed(location: string)
    ensures var s := StateFromUsLocation(location);
            s.Some? ==> s.value != "" && Trim(s.value) == s.value
  {
    if StateFromUsLocation(location).Some? {
      ParsedIsPrintable(location);
      TrimOfTrimmed(StateFromUsLocation(location).value);
    }
  }

  lemma PlacesAgree(r: Row, f: Filters, p: Filters, country: Country)
    requires Normalised(r) && r.country == country && TrimmedPlace(f)
    requires p.state == f.state && p.location == f.location && p.zone == f.zone
    ensures MatchesPlace(r, f, country) <==> PlaceWhere(Decode(p), country, r)
  {
    TrimOfTrimmed(f.state);
    TrimOfTrimmed(f.location);
    TrimOfTrimmed(f.zone);
    if country == US { StoredStateIsTrimmed(r.location); }
  }

  /** The auto half, when the auto filters are sent. */
  lemma AutosAgree(r: Row, f: Filters, p: Filters)
    requires Normalised(r) && Accepted(p)
    requires p.carBrand == f.carBrand && p.carModel == f.carModel && p.carColor == f.carColor
    requires p.carYearMin == f.carYearMin && p.carCondition == f.carCondition && p.maxMileage == f.maxMileage
    ensures MatchesAuto(r, f) <==> AutoWhere(Decode(p), r)
  {
    if f.carYearMin != "" { IntsAgree(f.carYearMin, 1990, 2100); }
    if f.maxMileage != "" { IntsAgree(f.maxMileage, 5000, 100000); }
  }

  lemma EstatesAgree(r: Row, f: Filters, p: Filters)
    requires Accepted(p)
    requires p.bedrooms == f.bedrooms && p.minSqm == f.minSqm && p.maxSqm == f.maxSqm
    ensures MatchesEstate(r, f) <==> EstateWhere(Decode(p), r)
  {
    if f.bedrooms != "" { IntsAgree(f.bedrooms, 1, 10); }
    if f.minSqm != "" { IntsAgree(f.minSqm, 10, 5000); }
    if f.maxSqm != "" { IntsAgree(f.maxSqm, 10, 5000); }
  }

  lemma OperationsAgree(r: Row, p: Filters)
    requires Accepted(p)
    ensures (p.operation == "" || OperationName(r.operation) == p.operation) <==>
            (Decode(p).operation.None? || r.operation == Decode(p).operation.value)
  {
    assert |OperationName(COMPRA)| != |OperationName(ALQUILER)|;
  }

  lemma CategoriesAgree(r: Row, f: Filters, locked: Option<Category>)
    requires Accepted(Sent(f, locked)) && EffectiveCategory(f, locked) != ""
    ensures var category := QueryCategory(Decode(Sent(f, locked)), locked);
            category.Some? && EffectiveCategory(f, locked) == CategoryName(category.value) &&
            (CategoryName(r.category) == EffectiveCategory(f, locked) <==> r.category == category.value)
  {
    assert |CategoryName(AUTOS)| != |CategoryName(INMOBILIARIA)|;
  }

  lemma UnsetAutoAsksNothing(p: Filters, r: Row)
    requires p.carBrand == p.carModel == p.carColor == p.carYearMin == p.carCondition == p.maxMileage == ""
    ensures AutoWhere(Decode(p), r)
  {
  }

  lemma UnsetEstateAsksNothing(p: Filters, r: Row)
    requires p.bedrooms == p.minSqm == p.maxSqm == ""
    ensures EstateWhere(Decode(p), r)
  {
  }

  /** For a request of the category asked for, the clauses of that category decide. */
  lemma OwnClausesDecide(r: Row, f: Filters, locked: Option<Category>)
    requires Normalised(r) && Accepted(Sent(f, locked)) && EffectiveCategory(f, locked) == CategoryName(r.category)
    ensures EstateWhere(Decode(Sent(f, locked)), r) && AutoWhere(Decode(Sent(f, locked)), r) <==>
            (if r.category == AUTOS then MatchesAuto(r, f) else MatchesEstate(r, f))
  {
    var p := Sent(f, locked);
    assert |CategoryName(AUTOS)| != |CategoryName(INMOBILIARIA)|;
    if r.category == AUTOS {
      UnsetEstateAsksNothing(p, r);
      AutosAgree(r, f, p);
    } else {
      UnsetAutoAsksNothing(p, r);
      EstatesAgree(r, f, p);
    }
  }

  /** With the category fixed, by the seller or by the filter, matcher and query pick the same rows. */
  lemma MatcherAgreesWithQuery(r: Row, f: Filters, country: Country, locked: Option<Category>)
    requires Normalised(r) && TrimmedPlace(f) && Accepted(Sent(f, locked))
    requires EffectiveCategory(f, locked) != ""
    ensures Matches(r, f, country, locked) <==>
            ActiveCount(f, locked) > 0 && Where(Decode(Sent(f, locked)), country, locked, r)
  {
    CategoriesAgree(r, f, locked);
    if r.country == country && EffectiveCategory(f, locked) == CategoryName(r.category) {
      var p := Sent(f, locked);
      OperationsAgree(r, p);
      PlacesAgree(r, f, p, country);
      OwnClausesDecide(r, f, locked);
      assert |CategoryName(AUTOS)| != |CategoryName(INMOBILIARIA)|;
    }
  }

  /**
   * Filters without a category that ask something of the other kind of request: they suggest
   * the other category, or compare a column that is null there.
   */
  predicate AsksOtherKind(f: Filters, category: Category) {
    var q := Decode(Sent(f, None));
    match category
    case AUTOS => q.bedrooms.Some? || QueryCategory(q, None) == Some(INMOBILIARIA)
    case INMOBILIARIA =>
      q.carBrand != "" || q.carModel != "" || q.carColor != "" || q.carCondition ||
      QueryCategory(q, None) == Some(AUTOS)
  }

  /** Without a category the alert also goes out for requests of the other kind; exactly those the query leaves out. */
  lemma QueryIsMatcherOnOwnKind(r: Row, f: Filters, country: Country)
    requires Normalised(r) && OwnColumns(r) && TrimmedPlace(f) && Accepted(Sent(f, None))
    requires f.category == ""
    ensures ActiveCount(f, None) > 0 && Where(Decode(Sent(f, None)), country, None, r) <==>
            Matches(r, f, country, None) && !AsksOtherKind(f, r.category)
  {
    var p := Sent(f, None);
    assert |CategoryName(AUTOS)| != |CategoryName(INMOBILIARIA)|;
    OperationsAgree(r, p);
    if r.country == country { PlacesAgree(r, f, p, country); }
    AutosAgree(r, f, p);
    EstatesAgree(r, f, p);
  }

  lemma UnsetPlaceMatchesAll(r: Row, f: Filters, country: Country)
    requires f.state == f.location == f.zone == ""
    ensures MatchesPlace(r, f, country)
  {
    assert Trim("") == "";
  }

  /** Every estate request alerts a seller who filters by car brand only, and is not in that seller's listing. */
  lemma AlertOutsideTheListing(r: Row, f: Filters)
    requires r.category == INMOBILIARIA && f.carBrand != "" && f == EMPTY_SELLER_FILTERS.(carBrand := f.carBrand)
    ensures Accepted(Sent(f, None)) && Matches(r, f, r.country, None)
    ensures !Where(Decode(Sent(f, None)), r.country, None, r)
  {
    assert |CategoryName(AUTOS)| != |CategoryName(INMOBILIARIA)|;
    assert Sent(f, None) == f;
    UnsetPlaceMatchesAll(r, f, r.country);
    assert QueryCategory(Decode(f), None) == Some(AUTOS);
  }
}
