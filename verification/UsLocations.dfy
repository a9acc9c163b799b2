/** US request locations: the printer and parser of "Area, ST" and the sanitiser of a selection. */
module UsLocations {
  import opened Prelude

  // ----------------------------------------------------------------- strings

  predicate IsLineBreak(c: char) {
    c == '\n' || c == '\r' || c == '\U{2028}' || c == '\U{2029}'
  }

  /** White space as String.trim and the regular expression class see it. */
  predicate IsSpace(c: char) {
    IsLineBreak(c) || c == '\t' || c == '\U{B}' || c == '\U{C}' || c == ' ' || c == '\U{A0}' || c == '\U{1680}'
    || '\U{2000}' <= c <= '\U{200A}' || c == '\U{202F}' || c == '\U{205F}' || c == '\U{3000}' || c == '\U{FEFF}'
  }

  predicate AllSpace(s: string) {
    forall i :: 0 <= i < |s| ==> IsSpace(s[i])
  }

  predicate SingleLine(s: string) {
    forall i :: 0 <= i < |s| ==> !IsLineBreak(s[i])
  }

  predicate Trimmed(s: string) {
    s == "" || (!IsSpace(s[0]) && !IsSpace(s[|s| - 1]))
  }

  function TrimLeft(s: string): string {
    if s != "" && IsSpace(s[0]) then TrimLeft(s[1..]) else s
  }

  function TrimRight(s: string): string {
    if s != "" && IsSpace(s[|s| - 1]) then TrimRight(s[..|s| - 1]) else s
  }

  function Trim(s: string): string {
    TrimRight(TrimLeft(s))
  }

  lemma {:induction false} TrimLeftDropsSpace(s: string)
    ensures var r := TrimLeft(s);
            (r == "" || !IsSpace(r[0])) && |r| <= |s| && r == s[|s| - |r|..] && AllSpace(s[..|s| - |r|])
  {
    if s != "" && IsSpace(s[0]) {
      TrimLeftDropsSpace(s[1..]);
      var r := TrimLeft(s[1..]);
      assert s[..|s| - |r|] == [s[0]] + s[1..][..|s| - 1 - |r|];
    }
  }

  lemma {:induction false} TrimRightDropsSpace(s: string)
    ensures var r := TrimRight(s);
            (r == "" || !IsSpace(r[|r| - 1])) && |r| <= |s| && r == s[..|r|] && AllSpace(s[|r|..])
  {
    if s != "" && IsSpace(s[|s| - 1]) {
      TrimRightDropsSpace(s[..|s| - 1]);
      var r := TrimRight(s[..|s| - 1]);
      assert s[|r|..] == s[..|s| - 1][|r|..] + [s[|s| - 1]];
    }
  }

  /** Trimming leaves a trimmed stretch of the text with nothing but space around it. */
  lemma TrimDropsSpace(s: string)
    ensures Trimmed(Trim(s))
    ensures SingleLine(s) ==> SingleLine(Trim(s))
    ensures s != "" && !IsSpace(s[0]) ==> Trim(s) != "" && Trim(s)[0] == s[0]
  {
    TrimLeftDropsSpace(s);
    TrimRightDropsSpace(TrimLeft(s));
  }

  lemma TrimOfTrimmed(s: string)
    ensures Trim(s) == s <==> Trimmed(s)
  {
    TrimDropsSpace(s);
  }

  // -------------------------------------------------------- print and parse

  predicate IsStateCode(s: string) {
    s == "FL" || s == "TX" || s == "CA" || s == "NY" || s == "AZ" || s == "NV" || s == "GA" || s == "NC"
  }

  datatype Location = Location(state: string, area: string)

  /** The storage key. */
  function FormatUsAreaLocation(state: string, area: string): string {
    area + ", " + state
  }

  predicate Capital(c: char) { 'A' <= c <= 'Z' }

  /** The pattern, with its lazy group ending at `i`: text, comma, spaces, two capitals. */
  predicate SplitsAt(t: string, i: nat) {
    1 <= i && i + 3 <= |t| && t[i] == ','
    && (forall k :: 0 <= k < i ==> !IsLineBreak(t[k]))
    && (forall k :: i < k < |t| - 2 ==> IsSpace(t[k]))
    && Capital(t[|t| - 2]) && Capital(t[|t| - 1])
  }

  /** The lazy match: the first split from `i` on. */
  function FirstSplit(t: string, i: nat): Option<nat>
    decreases |t| - i
  {
    if SplitsAt(t, i) then Some(i)
    else if i >= |t| then None
    else FirstSplit(t, i + 1)
  }

  lemma {:induction false} FirstSplitSplits(t: string, i: nat)
    ensures var r := FirstSplit(t, i); r.Some? ==> i <= r.value && SplitsAt(t, r.value)
    decreases |t| - i
  {
    if !SplitsAt(t, i) && i < |t| { FirstSplitSplits(t, i + 1); }
  }

  lemma {:induction false} FirstSplitFinds(t: string, i: nat, j: nat)
    requires SplitsAt(t, j) && i <= j
    ensures FirstSplit(t, i) == Some(j)
    decreases |t| - i
  {
    if SplitsAt(t, i) { SplitIsUnique(t, i, j); } else { FirstSplitFinds(t, i + 1, j); }
  }

  /** What a trimmed text stands for. */
  function ParseTrimmed(t: string): Option<Location> {
    var split := FirstSplit(t, 1);
    FirstSplitSplits(t, 1);
    if split.None? || !IsStateCode(t[|t| - 2..]) then None
    else Some(Location(t[|t| - 2..], Trim(t[..split.value])))
  }

  function ParseUsAreaLocation(value: string): Option<Location> {
    if Trim(value) == "" then None else ParseTrimmed(Trim(value))
  }

  /** There is never more than one way to split, so lazy or greedy makes no difference. */
  lemma SplitIsUnique(t: string, i: nat, j: nat)
    requires SplitsAt(t, i) && SplitsAt(t, j)
    ensures i == j
  {
  }

  lemma ParseTrimmedAt(t: string, i: nat)
    requires SplitsAt(t, i)
    ensures ParseTrimmed(t) ==
            if IsStateCode(t[|t| - 2..]) then Some(Location(t[|t| - 2..], Trim(t[..i]))) else None
  {
    FirstSplitFinds(t, 1, i);
  }

  lemma FormatSplits(state: string, area: string)
    requires IsStateCode(state) && area != "" && Trimmed(area) && SingleLine(area)
    ensures var t := FormatUsAreaLocation(state, area);
            SplitsAt(t, |area|) && Trimmed(t) && t[..|area|] == area && t[|t| - 2..] == state
  {
    assert |state| == 2 && Capital(state[0]) && Capital(state[1]);
  }

  /** Parsing what was printed gives back the state and the area, commas in the area included. */
  lemma ParseOfFormat(state: string, area: string)
    requires IsStateCode(state) && area != "" && Trimmed(area) && SingleLine(area)
    ensures ParseUsAreaLocation(FormatUsAreaLocation(state, area)) == Some(Location(state, area))
  {
    var t := FormatUsAreaLocation(state, area);
    FormatSplits(state, area);
    ParseTrimmedAt(t, |area|);
    TrimOfTrimmed(t);
    TrimOfTrimmed(area);
  }

  /** What can come out of the parser. */
  predicate Printable(p: Location) {
    IsStateCode(p.state) && p.state != "" && Trimmed(p.state) && p.area != "" && Trimmed(p.area) && SingleLine(p.area)
  }

  lemma ParsedIsPrintable(value: string)
    requires ParseUsAreaLocation(value).Some?
    ensures Printable(ParseUsAreaLocation(value).value)
  {
    var t := Trim(value);
    var i := FirstSplit(t, 1).value;
    TrimDropsSpace(value);
    FirstSplitSplits(t, 1);
    TrimDropsSpace(t[..i]);
    assert SingleLine(t[..i]) && t[..i][0] == t[0];
  }

  /** Re-printing a parsed value is a fixed point. */
  lemma FormatOfParseIsStable(value: string)
    requires ParseUsAreaLocation(value).Some?
    ensures var p := ParseUsAreaLocation(value).value;
            ParseUsAreaLocation(FormatUsAreaLocation(p.state, p.area)) == Some(p)
  {
    ParsedIsPrintable(value);
    ParseOfFormat(ParseUsAreaLocation(value).value.state, ParseUsAreaLocation(value).value.area);
  }
}
