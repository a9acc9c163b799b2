/** The location part of a request form or filter: the sanitiser of a selection. */
module RequestLocation {
  import opened Prelude
  import opened UsLocations

  /** The launch tables: states open for requests, the markets of each, and the areas of a market by storage key. */
  datatype Catalog = Catalog(states: seq<string>, markets: map<string, seq<string>>, areas: map<string, seq<string>>) {
    /** What the tables must satisfy; they grow as markets go live, so nothing else is said about them. */
    predicate Valid() {
      "FL" in states && forall state :: state in states ==> state in markets && HasMarkets(state)
    }

    predicate HasMarkets(state: string)
      requires state in markets
    {
      markets[state] != [] && Printable(Location(state, markets[state][0]))
    }
  }

  /** The tables as they stand. */
  function LaunchCatalog(areas: map<string, seq<string>>): (c: Catalog)
    ensures c.Valid()
  {
    var markets := ["Miami", "Fort Lauderdale", "West Palm Beach", "Orlando", "Tampa",
                    "St. Petersburg", "Naples", "Fort Myers", "Sarasota", "Jacksonville"];
    assert markets[0] == "Miami";
    assert Printable(Location("FL", "Miami"));
    var c := Catalog(["FL"], map["FL" := markets], areas);
    assert c.HasMarkets("FL");
    c
  }

  predicate IsLaunchLocation(c: Catalog, location: string)
    requires c.Valid()
  {
    var parsed := ParseUsAreaLocation(location);
    parsed.Some? && parsed.value.state in c.states && parsed.value.area in c.markets[parsed.value.state]
  }

  predicate IsAreaOf(c: Catalog, location: string, zone: string) {
    var parsed := ParseUsAreaLocation(location);
    parsed.Some? &&
    var key := FormatUsAreaLocation(parsed.value.state, parsed.value.area);
    key in c.areas && zone in c.areas[key]
  }

  datatype Selection = Selection(state: string, location: string, zone: string)

  /** How the location and the zone of a selection look up. */
  datatype Looked = Looked(place: Option<Location>, launch: bool, listed: bool)

  function Look(c: Catalog, s: Selection): Looked
    requires c.Valid()
  {
    Looked(ParseUsAreaLocation(s.location), IsLaunchLocation(c, s.location), IsAreaOf(c, s.location, s.zone))
  }

  /** State, location and zone fit together and are open for launch; empty parts allow anything. */
  predicate Fits(c: Catalog, s: Selection, look: Looked) {
    (s.state == "" || s.state in c.states) &&
    (s.state == "" ==> s.location == "") &&
    (s.location != "" ==>
      Trimmed(s.location) && look.launch && look.place.Some? && look.place.value.state == s.state) &&
    (s.zone != "" ==> s.location != "" && Trimmed(s.zone) && look.listed)
  }

  predicate Consistent(c: Catalog, s: Selection)
    requires c.Valid()
  {
    Fits(c, s, Look(c, s))
  }

  /** The state asked for, or that of the location; one that is not open is replaced. */
  function ChosenState(c: Catalog, s: Selection, look: Looked, allowEmpty: bool): (state: string)
    requires c.Valid()
    ensures state == "" || state in c.states
  {
    var wanted := if s.state == "" && look.place.Some? then look.place.value.state else s.state;
    if wanted == "" || wanted in c.states then wanted else if allowEmpty then "" else "FL"
  }

  predicate KeepsLocation(c: Catalog, s: Selection, look: Looked, allowEmpty: bool)
    requires c.Valid()
  {
    var state := ChosenState(c, s, look, allowEmpty);
    state != "" && s.location != "" && look.place.Some? && look.place.value.state == state && look.launch
  }

  /** The outcome for trimmed input, part by part. */
  function Chosen(c: Catalog, s: Selection, look: Looked, allowEmpty: bool): Selection
    requires c.Valid()
  {
    var state := ChosenState(c, s, look, allowEmpty);
    var filled := if state == "" && !allowEmpty then c.states[0] else state;
    var kept := KeepsLocation(c, s, look, allowEmpty);
    Selection(
      filled,
      if kept then s.location
      else if allowEmpty then ""
      else FormatUsAreaLocation(filled, c.markets[filled][0]),
      if kept && look.listed then s.zone else "")
  }

  function TrimmedParts(s: Selection): Selection {
    Selection(Trim(s.state), Trim(s.location), Trim(s.zone))
  }

  /** The selection the sanitiser must return. */
  function Sanitized(c: Catalog, input: Selection, allowEmpty: bool): Selection
    requires c.Valid()
  {
    var s := TrimmedParts(input);
    Chosen(c, s, Look(c, s), allowEmpty)
  }

  method SanitizeUsLocationSelection(c: Catalog, input: Selection, allowEmpty: bool) returns (r: Selection)
    requires c.Valid()
    ensures r == Sanitized(c, input, allowEmpty)
    ensures Consistent(c, r)
    ensures !allowEmpty ==> r.state != "" && r.location != ""
  {
    SanitizedIsConsistent(c, input, allowEmpty);
    var trimmed := TrimmedParts(input);
    var look := Look(c, trimmed);
    r := SanitizeTrimmed(c, trimmed, look, allowEmpty);
  }

  /** The body for trimmed parts: the location is looked up as given, and cleared when it does not fit. */
  method SanitizeTrimmed(c: Catalog, s: Selection, look: Looked, allowEmpty: bool) returns (r: Selection)
    requires c.Valid()
    ensures r == Chosen(c, s, look, allowEmpty)
  {
    var state, location, zone := s.state, s.location, s.zone;
    if look.place.Some? && (state == "" || state == look.place.value.state) {
      state := look.place.value.state;
    }
    if state != "" && state !in c.states {
      state := if allowEmpty then "" else "FL";
    }
    if state != "" && location != "" && (look.place.None? || look.place.value.state != state || !look.launch) {
      location, zone := "", "";
    }
    if state == "" {
      location, zone := "", "";
    }
    if location == "" {
      zone := "";
    } else if look.place.Some? && zone != "" && !look.listed {
      zone := "";
    }
    if !allowEmpty {
      if state == "" { state := c.states[0]; }
      if location == "" { location := FormatUsAreaLocation(state, c.markets[state][0]); }
    }
    return Selection(state, location, zone);
  }

  lemma DefaultLocationIsLaunch(c: Catalog, state: string)
    requires c.Valid() && state in c.states
    ensures var location := FormatUsAreaLocation(state, c.markets[state][0]);
            Trimmed(location) && location != "" && IsLaunchLocation(c, location) &&
            ParseUsAreaLocation(location) == Some(Location(state, c.markets[state][0]))
  {
    assert c.HasMarkets(state);
    FormatSplits(state, c.markets[state][0]);
    ParseOfFormat(state, c.markets[state][0]);
  }

  lemma KeptFits(c: Catalog, s: Selection, look: Looked, allowEmpty: bool, listed: bool)
    requires c.Valid() && Trimmed(s.location) && Trimmed(s.zone)
    requires KeepsLocation(c, s, look, allowEmpty)
    requires Chosen(c, s, look, allowEmpty).zone == s.zone ==> listed == look.listed
    ensures Fits(c, Chosen(c, s, look, allowEmpty), look.(listed := listed))
  {
  }

  lemma FilledFits(c: Catalog, s: Selection, look: Looked, allowEmpty: bool, look': Looked)
    requires c.Valid()
    requires !KeepsLocation(c, s, look, allowEmpty)
    requires var r := Chosen(c, s, look, allowEmpty);
             r.location != "" ==>
               Trimmed(r.location) && look'.launch && look'.place == Some(Location(r.state, c.markets[r.state][0]))
    ensures Fits(c, Chosen(c, s, look, allowEmpty), look')
  {
  }

  lemma SanitizedIsConsistent(c: Catalog, input: Selection, allowEmpty: bool)
    requires c.Valid()
    ensures Consistent(c, Sanitized(c, input, allowEmpty))
    ensures var r := Sanitized(c, input, allowEmpty); !allowEmpty ==> r.state != "" && r.location != ""
  {
    TrimDropsSpace(input.location);
    TrimDropsSpace(input.zone);
    TrimmedIsConsistent(c, TrimmedParts(input), allowEmpty);
  }

  lemma TrimmedIsConsistent(c: Catalog, s: Selection, allowEmpty: bool)
    requires c.Valid() && Trimmed(s.location) && Trimmed(s.zone)
    ensures var r := Chosen(c, s, Look(c, s), allowEmpty);
            Consistent(c, r) && (!allowEmpty ==> r.state != "" && r.location != "")
  {
    var look := Look(c, s);
    var r := Chosen(c, s, look, allowEmpty);
    OpenStatesAreNotEmpty(c);
    if KeepsLocation(c, s, look, allowEmpty) {
      KeptFits(c, s, look, allowEmpty, IsAreaOf(c, r.location, r.zone));
    } else {
      if !allowEmpty { DefaultLocationIsLaunch(c, r.state); }
      FilledFits(c, s, look, allowEmpty, Look(c, r));
    }
  }

  lemma OpenStatesAreNotEmpty(c: Catalog)
    requires c.Valid()
    ensures forall state :: state in c.states ==> state != "" && Trimmed(state)
  {
    forall state | state in c.states ensures state != "" && Trimmed(state) {
      assert c.HasMarkets(state);
    }
  }

  lemma FittingIsChosen(c: Catalog, s: Selection, look: Looked, allowEmpty: bool)
    requires c.Valid() && Fits(c, s, look)
    requires s.location == "" ==> look.place.None?
    requires allowEmpty || (s.state != "" && s.location != "")
    ensures Chosen(c, s, look, allowEmpty) == s
  {
  }

  /** A consistent selection passes through unchanged (it must be complete where it may not be empty). */
  lemma ConsistentIsKept(c: Catalog, s: Selection, allowEmpty: bool)
    requires c.Valid() && Consistent(c, s)
    requires allowEmpty || (s.state != "" && s.location != "")
    requires Trimmed(s.state)
    ensures Sanitized(c, s, allowEmpty) == s
  {
    assert TrimmedParts(s) == s by {
      TrimOfTrimmed(s.state);
      TrimOfTrimmed(s.location);
      TrimOfTrimmed(s.zone);
    }
    FittingIsChosen(c, s, Look(c, s), allowEmpty);
  }

  lemma SanitizeIsIdempotent(c: Catalog, input: Selection, allowEmpty: bool)
    requires c.Valid()
    ensures Sanitized(c, Sanitized(c, input, allowEmpty), allowEmpty) == Sanitized(c, input, allowEmpty)
  {
    SanitizedIsConsistent(c, input, allowEmpty);
    OpenStatesAreNotEmpty(c);
    ConsistentIsKept(c, Sanitized(c, input, allowEmpty), allowEmpty);
  }

  /**
   * What becomes of a selection that is not consistent. A location open for launch brings its own
   * state along when none is given, and stays; a zone stays with it exactly when it is listed there.
   */
  lemma LocationBringsItsState(c: Catalog, input: Selection, allowEmpty: bool)
    requires c.Valid() && IsLaunchLocation(c, Trim(input.location)) && Trim(input.location) != ""
    requires var state := ParseUsAreaLocation(Trim(input.location)).value.state;
             state != "" && Trim(input.state) in {"", state}
    ensures var location, zone := Trim(input.location), Trim(input.zone);
            Sanitized(c, input, allowEmpty)
            == Selection(ParseUsAreaLocation(location).value.state, location,
                         if IsAreaOf(c, location, zone) then zone else "")
  {
  }

  /**
   * A location that is not open or lies in another state goes, and the zone with it: to nothing where
   * that is allowed, else to the first market of the state. A state that is not open counts as none,
   * or as Florida.
   */
  lemma MisfitLocationGoes(c: Catalog, input: Selection)
    requires c.Valid() && Trim(input.state) != ""
    requires var place := ParseUsAreaLocation(Trim(input.location));
             !IsLaunchLocation(c, Trim(input.location)) || place.value.state != Trim(input.state)
    ensures var state := if Trim(input.state) in c.states then Trim(input.state) else "";
            Sanitized(c, input, true) == Selection(state, "", "")
    ensures var state := if Trim(input.state) in c.states then Trim(input.state) else "FL";
            var place := ParseUsAreaLocation(Trim(input.location));
            !(IsLaunchLocation(c, Trim(input.location)) && place.value.state == state) ==>
              Sanitized(c, input, false) == Selection(state, FormatUsAreaLocation(state, c.markets[state][0]), "")
  {
  }

  // ------------------------------------------------------------ filter match

  /** No zone stored, or a blank one: any area of the city. */
  predicate IsRequestAreaAny(zone: Option<string>) {
    zone.None? || Trim(zone.value) == ""
  }

  function StateFromUsLocation(location: string): Option<string> {
    var parsed := ParseUsAreaLocation(location);
    if parsed.Some? then Some(parsed.value.state) else None
  }

  predicate RequestMatchesUsLocationFilter(state: Option<string>, location: string, zone: Option<string>,
                                           filter: Selection)
  {
    var wanted := TrimmedParts(filter);
    var own := if state.Some? && Trim(state.value) != "" then Some(Trim(state.value))
               else StateFromUsLocation(location);
    (wanted.state == "" || own == Some(wanted.state)) &&
    (wanted.location == "" || location == wanted.location) &&
    (wanted.zone == "" || (if IsRequestAreaAny(zone) then wanted.location != "" else zone == Some(wanted.zone)))
  }
}
