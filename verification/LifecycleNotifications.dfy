/**
 * Hourly lifecycle notifications: a scan reads the requests whose status calls for one, then
 * turns to them one by one: it checks the user's preferences and inserts a row under a unique
 * dedupe key. Scans of several replicas interleave with each other and with everything else:
 * requests change, users mute and delete notifications, inserts fail, replicas crash.
 */
module LifecycleNotifications {
  import opened Prelude
  import opened Lifecycle
  import opened StableSort

  datatype Kind = REQUEST_EXPIRING | REQUEST_INACTIVE

  /** The unique index on notifications. */
  datatype Note = Note(userId: string, dedupeKey: string)

  function KindName(kind: Kind): string {
    match kind case REQUEST_EXPIRING => "REQUEST_EXPIRING" case REQUEST_INACTIVE => "REQUEST_INACTIVE"
  }

  function DigitsOf(n: nat): (s: string)
    ensures s != [] && ':' !in s && '-' !in s
  {
    var digit := [('0' as int + n % 10) as char];
    if n < 10 then digit else DigitsOf(n / 10) + digit
  }

  function Decimal(n: int): (s: string)
    ensures ':' !in s && s != [] && (s[0] == '-' <==> n < 0)
  {
    if n < 0 then "-" + DigitsOf(-n) else DigitsOf(n)
  }

  function DedupeKey(kind: Kind, requestId: string, lastBuyerActivityAt: int): string {
    KindName(kind) + ":" + requestId + ":" + Decimal(lastBuyerActivityAt)
  }

  lemma {:induction false} DigitsAreInjective(a: nat, b: nat)
    requires DigitsOf(a) == DigitsOf(b)
    ensures a == b
  {
    var s, t := DigitsOf(a), DigitsOf(b);
    assert s[|s| - 1] == ('0' as int + a % 10) as char && t[|t| - 1] == ('0' as int + b % 10) as char;
    if a >= 10 && b >= 10 {
      assert s[..|s| - 1] == DigitsOf(a / 10) && t[..|t| - 1] == DigitsOf(b / 10);
      DigitsAreInjective(a / 10, b / 10);
    }
  }

  lemma DecimalIsInjective(a: int, b: int)
    requires Decimal(a) == Decimal(b)
    ensures a == b
  {
    if a < 0 && b < 0 {
      assert Decimal(a)[1..] == DigitsOf(-a) && Decimal(b)[1..] == DigitsOf(-b);
      DigitsAreInjective(-a, -b);
    } else if a >= 0 && b >= 0 {
      DigitsAreInjective(a, b);
    }
  }

  function AfterLastColon(s: string): string {
    if s == "" || s[|s| - 1] == ':' then "" else AfterLastColon(s[..|s| - 1]) + [s[|s| - 1]]
  }

  lemma {:induction false} AfterLastColonIsTail(a: string, x: string)
    requires ':' !in x
    ensures AfterLastColon(a + ":" + x) == x
  {
    var s := a + ":" + x;
    if x != "" {
      AfterLastColonIsTail(a, x[..|x| - 1]);
      assert s[..|s| - 1] == a + ":" + x[..|x| - 1];
    }
  }

  lemma LastColonSplits(a: string, x: string, b: string, y: string)
    requires ':' !in x && ':' !in y && a + ":" + x == b + ":" + y
    ensures a == b && x == y
  {
    AfterLastColonIsTail(a, x);
    AfterLastColonIsTail(b, y);
    assert (a + ":" + x)[..|a|] == a && (b + ":" + y)[..|b|] == b;
  }

  /** One key per (kind, request, activity time), whatever the ids look like. */
  lemma DedupeKeyIsInjective(k: Kind, r: string, t: int, k': Kind, r': string, t': int)
    requires DedupeKey(k, r, t) == DedupeKey(k', r', t')
    ensures k == k' && r == r' && t == t'
  {
    var a, b := KindName(k) + ":" + r, KindName(k') + ":" + r';
    LastColonSplits(a, Decimal(t), b, Decimal(t'));
    DecimalIsInjective(t, t');
    assert a[8] == KindName(k)[8] && b[8] == KindName(k')[8];
    assert KindName(REQUEST_EXPIRING)[8] == 'E' && KindName(REQUEST_INACTIVE)[8] == 'I';
    assert a[17..] == r && b[17..] == r';
  }

  // -------------------------------------------------------------------- scan

  /** The notification a status calls for. */
  function KindFor(e: Effective): Option<Kind> {
    match e
    case EffPendiente => Some(REQUEST_EXPIRING)
    case EffInactiva => Some(REQUEST_INACTIVE)
    case _ => None
  }

  function NoteFor(kind: Kind, r: Row): Note {
    Note(r.userId, DedupeKey(kind, r.id, r.lastBuyerActivityAt))
  }

  datatype Mute = Mute(userId: string, kind: Kind)

  /** The notifications that must exist after a scan: stated from the status function alone. */
  predicate IsDue(r: Row, muted: set<Mute>, now: int, note: Note) {
    var kind := KindFor(EffectiveStatus(r, now));
    r.active && kind.Some? && Mute(r.userId, kind.value) !in muted && note == NoteFor(kind.value, r)
  }

  /** At most one notification is due for one row. */
  function DueOf(r: Row, muted: set<Mute>, now: int): (notes: set<Note>)
    ensures forall n :: n in notes <==> IsDue(r, muted, now, n)
  {
    var kind := KindFor(EffectiveStatus(r, now));
    if r.active && kind.Some? && Mute(r.userId, kind.value) !in muted then {NoteFor(kind.value, r)} else {}
  }

  function Due(table: seq<Row>, muted: set<Mute>, now: int): set<Note> {
    if table == [] then {} else Due(table[..|table| - 1], muted, now) + DueOf(table[|table| - 1], muted, now)
  }

  lemma {:induction false} DueHasARow(table: seq<Row>, muted: set<Mute>, now: int, note: Note) returns (r: Row)
    requires note in Due(table, muted, now)
    ensures r in table && IsDue(r, muted, now, note)
  {
    var n := |table| - 1;
    if note in DueOf(table[n], muted, now) { return table[n]; }
    r := DueHasARow(table[..n], muted, now, note);
  }

  lemma {:induction false} RowIsInDue(table: seq<Row>, muted: set<Mute>, now: int, i: nat)
    requires i < |table|
    ensures DueOf(table[i], muted, now) <= Due(table, muted, now)
  {
    if i < |table| - 1 { RowIsInDue(table[..|table| - 1], muted, now, i); }
  }

  lemma DueMeansSomeRowIsDue(table: seq<Row>, muted: set<Mute>, now: int, note: Note)
    ensures note in Due(table, muted, now) <==> exists r :: r in table && IsDue(r, muted, now, note)
  {
    if note in Due(table, muted, now) { var r := DueHasARow(table, muted, now, note); }
    if r :| r in table && IsDue(r, muted, now, note) {
      var i :| 0 <= i < |table| && table[i] == r;
      RowIsInDue(table, muted, now, i);
    }
  }

  /** The unique index. */
  predicate Unique(rows: seq<Note>) {
    forall i, j :: 0 <= i < j < |rows| ==> rows[i] != rows[j]
  }

  class Notifications {
    var rows: seq<Note>
    var muted: set<Mute>

    /** The gated, deduplicated insert. `fails` is a database error on this insert. */
    method Create(userId: string, kind: Kind, requestId: string, lastBuyerActivityAt: int, fails: bool)
      returns (created: bool)
      requires Unique(rows)
      modifies this`rows
      ensures Unique(rows)
      ensures var note := Note(userId, DedupeKey(kind, requestId, lastBuyerActivityAt));
              created == (Mute(userId, kind) !in muted && note !in old(rows) && !fails) &&
              rows == old(rows) + if created then [note] else []
    {
      if Mute(userId, kind) in muted { return false; }
      var note := Note(userId, DedupeKey(kind, requestId, lastBuyerActivityAt));
      if note in rows || fails { return false; }
      rows := rows + [note];
      return true;
    }

    /** One turn of the scan. */
    method NotifyRow(r: Row, now: int, failing: set<Note>)
      requires Unique(rows)
      modifies this`rows
      ensures Unique(rows) && old(rows) <= rows
      ensures forall n :: n in rows <==> n in old(rows) || (n in DueOf(r, muted, now) && n !in failing)
    {
      ScanSelectsExactly(r, now);
      if LifecycleScanWhere(r, now) {
        var status := EffectiveStatus(r, now);
        if status == EffPendiente {
          var fails := NoteFor(REQUEST_EXPIRING, r) in failing;
          var _ := Create(r.userId, REQUEST_EXPIRING, r.id, r.lastBuyerActivityAt, fails);
        } else if status == EffInactiva {
          var fails := NoteFor(REQUEST_INACTIVE, r) in failing;
          var _ := Create(r.userId, REQUEST_INACTIVE, r.id, r.lastBuyerActivityAt, fails);
        }
      }
    }

    method ScanRequestLifecycle(table: seq<Row>, now: int, failing: set<Note>)
      requires Unique(rows)
      modifies this`rows
      ensures Unique(rows) && old(rows) <= rows
      ensures forall n :: n in rows <==> n in old(rows) || (n in Due(table, muted, now) && n !in failing)
    {
      for i := 0 to |table|
        invariant Unique(rows) && old(rows) <= rows
        invariant forall n :: n in rows <==> n in old(rows) || (n in Due(table[..i], muted, now) && n !in failing)
      {
        assert table[..i + 1][..i] == table[..i];
        NotifyRow(table[i], now, failing);
      }
      assert table[..|table|] == table;
    }
  }

  // -------------------------------------------------------------- whole runs

  /** What a created notification announces. */
  datatype Event = Event(userId: string, kind: Kind, requestId: string, at: int)

  /**
   * A scan under way: the rows it still turns to, whether the preferences of the first of them
   * have been checked, and whether every insert so far has worked.
   */
  datatype Scan = Scan(now: int, todo: seq<Row>, checked: bool, clean: bool)

  /** `owners` says whose request is whose, once and for all; `events` and `finished` are kept for the record. */
  datatype World = World(
    owners: map<string, string>, table: seq<Row>, muted: set<Mute>, rows: seq<Note>,
    scans: map<nat, Scan>, events: seq<Event>, finished: seq<int>)

  datatype Step =
    | BeginScan(k: nat, now: int)
    | CheckPreferences(k: nat)
    | InsertRow(k: nat, fails: bool)
    | CrashScan(k: nat)
    | ChangeRequests(table: seq<Row>)
    | SetMuted(muted: set<Mute>)
    | Delete(note: Note)

  predicate Owned(table: seq<Row>, owners: map<string, string>) {
    forall r :: r in table ==> r.id in owners && owners[r.id] == r.userId
  }

  function Selected(table: seq<Row>, now: int): seq<Row> {
    Filter((r: Row) => LifecycleScanWhere(r, now), table)
  }

  function Without(rows: seq<Note>, note: Note): (r: seq<Note>)
    ensures forall n :: n in r <==> n in rows && n != note
  {
    if rows == [] then []
    else (if rows[0] == note then [] else [rows[0]]) + Without(rows[1..], note)
  }

  /** A scan goes on, or ends; one that ends with every insert done is recorded. */
  function Continue(w: World, k: nat, scan: Scan): World {
    if scan.todo != [] then w.(scans := w.scans[k := scan])
    else w.(scans := w.scans - {k}, finished := w.finished + if scan.clean then [scan.now] else [])
  }

  function NextTurn(scan: Scan): Scan
    requires scan.todo != []
  {
    scan.(todo := scan.todo[1..], checked := false)
  }

  function HeadKind(scan: Scan): Option<Kind>
    requires scan.todo != []
  {
    KindFor(EffectiveStatus(scan.todo[0], scan.now))
  }

  function EventFor(kind: Kind, r: Row): Event {
    Event(r.userId, kind, r.id, r.lastBuyerActivityAt)
  }

  function Next(w: World, step: Step): World {
    match step
    case BeginScan(k, now) =>
      if k in w.scans then w else Continue(w, k, Scan(now, Selected(w.table, now), false, true))
    case CheckPreferences(k) =>
      if k !in w.scans || w.scans[k].todo == [] || w.scans[k].checked then w
      else
        var scan := w.scans[k];
        var kind := HeadKind(scan);
        if kind.None? || Mute(scan.todo[0].userId, kind.value) in w.muted then Continue(w, k, NextTurn(scan))
        else w.(scans := w.scans[k := scan.(checked := true)])
    case InsertRow(k, fails) =>
      if k !in w.scans || w.scans[k].todo == [] || !w.scans[k].checked || HeadKind(w.scans[k]).None? then w
      else
        var scan := w.scans[k];
        var kind, r := HeadKind(scan).value, scan.todo[0];
        if fails then Continue(w, k, NextTurn(scan).(clean := false))
        else if NoteFor(kind, r) in w.rows then Continue(w, k, NextTurn(scan))
        else
          Continue(w.(rows := w.rows + [NoteFor(kind, r)], events := w.events + [EventFor(kind, r)]), k, NextTurn(scan))
    case CrashScan(k) => w.(scans := w.scans - {k})
    case ChangeRequests(table) => if Owned(table, w.owners) then w.(table := table) else w
    case SetMuted(muted) => w.(muted := muted)
    case Delete(note) => w.(rows := Without(w.rows, note))
  }

  function Run(w: World, steps: seq<Step>): World {
    if steps == [] then w else Next(Run(w, steps[..|steps| - 1]), steps[|steps| - 1])
  }

  /** Nothing announced, nothing under way. */
  predicate Fresh(w: World) {
    Owned(w.table, w.owners) && w.rows == [] && w.scans == map[] && w.events == [] && w.finished == []
  }

  predicate Tells(e: Event, kind: Kind, requestId: string, at: int) {
    e.kind == kind && e.requestId == requestId && e.at == at
  }

  /** How often a request was announced in one way for one activity time, to whomever. */
  function Announced(events: seq<Event>, kind: Kind, requestId: string, at: int): nat {
    if events == [] then 0
    else
      var n := |events| - 1;
      var e := events[n];
      Announced(events[..n], kind, requestId, at) + if Tells(e, kind, requestId, at) then 1 else 0
  }

  /** How often the user deleted that notification. */
  function Deletions(w: World, steps: seq<Step>, note: Note): nat {
    if steps == [] then 0
    else
      var before, step := steps[..|steps| - 1], steps[|steps| - 1];
      Deletions(w, before, note) + if step == Delete(note) && note in Run(w, before).rows then 1 else 0
  }

  // --------------------------------------------------------------- invariant

  /** Scans turn to requests of their owners only, and the unique index holds. */
  predicate Inv(w: World) {
    Owned(w.table, w.owners) && Unique(w.rows) && forall k :: k in w.scans ==> Owned(w.scans[k].todo, w.owners)
  }

  lemma {:induction false} WithoutIsUnique(rows: seq<Note>, note: Note)
    requires Unique(rows)
    ensures Unique(Without(rows, note))
  {
    if rows != [] {
      WithoutIsUnique(rows[1..], note);
      var rest := Without(rows[1..], note);
      forall i | 0 <= i < |rest| ensures rest[i] != rows[0] {
        assert rest[i] in rows[1..];
        var j :| 0 <= j < |rows| - 1 && rows[1..][j] == rest[i];
        assert rows[j + 1] != rows[0];
      }
    }
  }

  lemma ContinueKeepsInv(w: World, k: nat, scan: Scan)
    requires Inv(w) && Owned(scan.todo, w.owners)
    ensures Inv(Continue(w, k, scan))
  {
  }

  lemma InsertKeepsInv(w: World, k: nat, fails: bool)
    requires Inv(w)
    ensures Inv(Next(w, InsertRow(k, fails))) && Next(w, InsertRow(k, fails)).owners == w.owners
  {
    if k in w.scans && w.scans[k].todo != [] && HeadKind(w.scans[k]).Some? {
      var kind, r := HeadKind(w.scans[k]).value, w.scans[k].todo[0];
      var v := w.(rows := w.rows + [NoteFor(kind, r)], events := w.events + [EventFor(kind, r)]);
      ContinueKeepsInv(w, k, NextTurn(w.scans[k]));
      ContinueKeepsInv(w, k, NextTurn(w.scans[k]).(clean := false));
      if NoteFor(kind, r) !in w.rows { ContinueKeepsInv(v, k, NextTurn(w.scans[k])); }
    }
  }

  lemma StepKeepsInv(w: World, step: Step)
    requires Inv(w)
    ensures Inv(Next(w, step)) && Next(w, step).owners == w.owners
  {
    match step
    case BeginScan(k, now) => ContinueKeepsInv(w, k, Scan(now, Selected(w.table, now), false, true));
    case CheckPreferences(k) =>
      if k in w.scans && w.scans[k].todo != [] { ContinueKeepsInv(w, k, NextTurn(w.scans[k])); }
    case InsertRow(k, fails) => InsertKeepsInv(w, k, fails);
    case Delete(note) => WithoutIsUnique(w.rows, note);
    case _ =>
  }

  lemma {:induction false} RunsKeepInv(w: World, steps: seq<Step>)
    requires Inv(w)
    ensures Inv(Run(w, steps)) && Run(w, steps).owners == w.owners
  {
    if steps != [] {
      RunsKeepInv(w, steps[..|steps| - 1]);
      StepKeepsInv(Run(w, steps[..|steps| - 1]), steps[|steps| - 1]);
    }
  }

  /** The only step that announces is an insert that works; its row was not there before. */
  predicate Inserts(w: World, step: Step) {
    step.InsertRow? && !step.fails && step.k in w.scans && w.scans[step.k].todo != [] && w.scans[step.k].checked &&
    HeadKind(w.scans[step.k]).Some? && NoteFor(HeadKind(w.scans[step.k]).value, w.scans[step.k].todo[0]) !in w.rows
  }

  lemma WhatAStepInserts(w: World, step: Step)
    ensures var v := Next(w, step);
            if Inserts(w, step)
            then var kind, r := HeadKind(w.scans[step.k]).value, w.scans[step.k].todo[0];
                 v.rows == w.rows + [NoteFor(kind, r)] && v.events == w.events + [EventFor(kind, r)]
            else v.events == w.events && v.rows == if step.Delete? then Without(w.rows, step.note) else w.rows
  {
  }

  lemma AnnouncedOfSnoc(events: seq<Event>, e: Event, kind: Kind, requestId: string, at: int)
    ensures Announced(events + [e], kind, requestId, at) ==
            Announced(events, kind, requestId, at) + if Tells(e, kind, requestId, at) then 1 else 0
  {
    assert (events + [e])[..|events|] == events;
  }

  /** One key per announcement: the insert of any other leaves the row of this one as it was. */
  lemma InsertOfOther(kind: Kind, r: Row, userId: string, kind': Kind, requestId: string, at: int)
    requires NoteFor(kind, r) == Note(userId, DedupeKey(kind', requestId, at))
    ensures (kind, r.id, r.lastBuyerActivityAt) == (kind', requestId, at)
  {
    DedupeKeyIsInjective(kind, r.id, r.lastBuyerActivityAt, kind', requestId, at);
  }

  /** A step that announces it brings its row, and only its deletion takes the row away. */
  lemma AnnouncementStep(w: World, step: Step, kind: Kind, requestId: string, at: int)
    requires Inv(w) && requestId in w.owners
    ensures var v, note := Next(w, step), Note(w.owners[requestId], DedupeKey(kind, requestId, at));
            Announced(v.events, kind, requestId, at) ==
            Announced(w.events, kind, requestId, at) + if note in v.rows && note !in w.rows then 1 else 0
    ensures var v, note := Next(w, step), Note(w.owners[requestId], DedupeKey(kind, requestId, at));
            note in w.rows ==> (note !in v.rows <==> step == Delete(note))
  {
    var note := Note(w.owners[requestId], DedupeKey(kind, requestId, at));
    WhatAStepInserts(w, step);
    if Inserts(w, step) {
      var k, r := HeadKind(w.scans[step.k]).value, w.scans[step.k].todo[0];
      AnnouncedOfSnoc(w.events, EventFor(k, r), kind, requestId, at);
      if NoteFor(k, r) == note { InsertOfOther(k, r, note.userId, kind, requestId, at); }
    }
  }

  /**
   * Whatever the schedule of scans, replicas, mutes and crashes: for each (kind, request, activity
   * time) the announcements are its deletions, plus one while its row is there.
   */
  lemma {:induction false} AnnouncementsBalanceDeletions(
    w: World, steps: seq<Step>, kind: Kind, requestId: string, at: int)
    requires Fresh(w) && requestId in w.owners
    ensures var v, note := Run(w, steps), Note(w.owners[requestId], DedupeKey(kind, requestId, at));
            Announced(v.events, kind, requestId, at) == Deletions(w, steps, note) + if note in v.rows then 1 else 0
  {
    if steps != [] {
      var before, step := steps[..|steps| - 1], steps[|steps| - 1];
      AnnouncementsBalanceDeletions(w, before, kind, requestId, at);
      RunsKeepInv(w, before);
      AnnouncementStep(Run(w, before), step, kind, requestId, at);
    }
  }

  /** So each is announced once at most, and once more for every deletion. */
  lemma AnnouncedOncePlusDeletions(w: World, steps: seq<Step>, kind: Kind, requestId: string, at: int)
    requires Fresh(w) && requestId in w.owners
    ensures Announced(Run(w, steps).events, kind, requestId, at) <=
            1 + Deletions(w, steps, Note(w.owners[requestId], DedupeKey(kind, requestId, at)))
  {
    AnnouncementsBalanceDeletions(w, steps, kind, requestId, at);
  }

  lemma {:induction false} NothingDeleted(w: World, steps: seq<Step>, note: Note)
    requires Delete(note) !in steps
    ensures Deletions(w, steps, note) == 0
  {
    if steps != [] {
      assert steps[|steps| - 1] in steps;
      NothingDeleted(w, steps[..|steps| - 1], note);
    }
  }

  /** While the user keeps the notification, no (kind, request, activity time) is announced twice. */
  lemma AtMostOnce(w: World, steps: seq<Step>, kind: Kind, requestId: string, at: int)
    requires Fresh(w) && requestId in w.owners
    requires Delete(Note(w.owners[requestId], DedupeKey(kind, requestId, at))) !in steps
    ensures Announced(Run(w, steps).events, kind, requestId, at) <= 1
  {
    NothingDeleted(w, steps, Note(w.owners[requestId], DedupeKey(kind, requestId, at)));
    AnnouncementsBalanceDeletions(w, steps, kind, requestId, at);
  }

  lemma RunSnoc(w: World, steps: seq<Step>, last: Step)
    ensures Run(w, steps + [last]) == Next(Run(w, steps), last)
  {
    assert (steps + [last])[..|steps|] == steps;
  }

  /** The three steps of a scan that finds one request due. */
  lemma OneScan(w: World, k: nat, now: int, r: Row, kind: Kind)
    requires w.table == [r] && k !in w.scans && LifecycleScanWhere(r, now) &&
      KindFor(EffectiveStatus(r, now)) == Some(kind)
    requires Mute(r.userId, kind) !in w.muted && NoteFor(kind, r) !in w.rows
    ensures Next(Next(Next(w, BeginScan(k, now)), CheckPreferences(k)), InsertRow(k, false)) ==
            w.(rows := w.rows + [NoteFor(kind, r)], events := w.events + [EventFor(kind, r)],
               finished := w.finished + [now])
  {
    var scan := Scan(now, [r], false, true);
    assert Selected([r], now) == [r] by { assert [r][1..] == []; }
    var w1 := Next(w, BeginScan(k, now));
    assert w1 == w.(scans := w.scans[k := scan]);
    var w2 := Next(w1, CheckPreferences(k));
    assert w2 == w.(scans := w.scans[k := scan.(checked := true)]);
    assert [r][1..] == [];
    assert w.scans[k := scan.(checked := true)] - {k} == w.scans;
  }

  ghost predicate Leads(w: World, v: World) {
    exists steps :: Run(w, steps) == v
  }

  lemma LeadsOn(w: World, v: World, step: Step)
    requires Leads(w, v)
    ensures Leads(w, Next(v, step))
  {
    var steps :| Run(w, steps) == v;
    RunSnoc(w, steps, step);
  }

  lemma LeadsThroughScan(w: World, v: World, now: int, r: Row, kind: Kind)
    requires Leads(w, v) && v.table == [r] && v.scans == map[] && Mute(r.userId, kind) !in v.muted
    requires LifecycleScanWhere(r, now) && KindFor(EffectiveStatus(r, now)) == Some(kind) && NoteFor(kind, r) !in v.rows
    ensures Leads(w, v.(rows := v.rows + [NoteFor(kind, r)], events := v.events + [EventFor(kind, r)],
                        finished := v.finished + [now]))
  {
    OneScan(v, 0, now, r, kind);
    LeadsOn(w, v, BeginScan(0, now));
    LeadsOn(w, Next(v, BeginScan(0, now)), CheckPreferences(0));
    LeadsOn(w, Next(Next(v, BeginScan(0, now)), CheckPreferences(0)), InsertRow(0, false));
  }

  lemma LeadsThroughDelete(w: World, v: World, note: Note)
    requires Leads(w, v) && v.rows == [note]
    ensures Leads(w, v.(rows := []))
  {
    LeadsOn(w, v, Delete(note));
    assert [note][1..] == [];
    assert Without([note], note) == [];
  }

  lemma AnnouncedTwice(e: Event)
    ensures Announced([e, e], e.kind, e.requestId, e.at) == 2
  {
    AnnouncedOfSnoc([], e, e.kind, e.requestId, e.at);
    AnnouncedOfSnoc([e], e, e.kind, e.requestId, e.at);
    assert [] + [e] == [e] && [e] + [e] == [e, e];
  }

  lemma ScannedTwice(w: World, now: int, r: Row, kind: Kind)
    requires Fresh(w) && w.table == [r] && Mute(r.userId, kind) !in w.muted
    requires LifecycleScanWhere(r, now) && KindFor(EffectiveStatus(r, now)) == Some(kind)
    ensures var note, e := NoteFor(kind, r), EventFor(kind, r);
            Leads(w, w.(rows := [note], events := [e, e], finished := [now, now]))
  {
    var note, e := NoteFor(kind, r), EventFor(kind, r);
    assert Run(w, []) == w;
    LeadsThroughScan(w, w, now, r, kind);
    var once := w.(rows := [note], events := [e], finished := [now]);
    assert [] + [note] == [note] && [] + [e] == [e] && [] + [now] == [now];
    assert Leads(w, once);
    LeadsThroughDelete(w, once, note);
    var deleted := once.(rows := []);
    LeadsThroughScan(w, deleted, now, r, kind);
    assert [e] + [e] == [e, e] && [now] + [now] == [now, now];
  }

  /** A notification deleted while still due is announced again by the next scan. */
  lemma DeletedWhileDueComesBack(w: World, now: int, r: Row, kind: Kind)
    requires Fresh(w) && w.table == [r] && Mute(r.userId, kind) !in w.muted
    requires LifecycleScanWhere(r, now) && KindFor(EffectiveStatus(r, now)) == Some(kind)
    ensures exists steps :: Announced(Run(w, steps).events, kind, r.id, r.lastBuyerActivityAt) == 2
  {
    ScannedTwice(w, now, r, kind);
    var e := EventFor(kind, r);
    var steps :| Run(w, steps) == w.(rows := [NoteFor(kind, r)], events := [e, e], finished := [now, now]);
    AnnouncedTwice(e);
  }

  // ------------------------------------------------------------ exactly once

  /** When the notification becomes due, unless the buyer comes back: after seven days, after eight days. */
  function DueFrom(kind: Kind, r: Row): int {
    r.lastBuyerActivityAt + match kind case REQUEST_EXPIRING => 7 * 86400000 case REQUEST_INACTIVE => 8 * 86400000
  }

  /** For how long: the day until the other one takes over, the two days until the request is archived. */
  function DueTo(kind: Kind, r: Row): int {
    r.lastBuyerActivityAt + match kind case REQUEST_EXPIRING => 8 * 86400000 case REQUEST_INACTIVE => 10 * 86400000
  }

  predicate InWindow(now: int, kind: Kind, r: Row) {
    DueFrom(kind, r) <= now < DueTo(kind, r)
  }

  lemma StatusCallsForItInWindow(r: Row, kind: Kind, now: int)
    requires r.status != CERRADA && r.pausedAt.None?
    ensures KindFor(EffectiveStatus(r, now)) == Some(kind) <==> InWindow(now, kind, r)
  {
  }

  lemma DueIsOfThatRow(table: seq<Row>, muted: set<Mute>, r: Row, kind: Kind, now: int)
    requires forall q :: q in table && q.id == r.id ==> q == r
    requires NoteFor(kind, r) in Due(table, muted, now)
    ensures KindFor(EffectiveStatus(r, now)) == Some(kind)
  {
    var q := DueHasARow(table, muted, now, NoteFor(kind, r));
    InsertOfOther(KindFor(EffectiveStatus(q, now)).value, q, r.userId, kind, r.id, r.lastBuyerActivityAt);
  }

  /**
   * That is exactly when a scan on its own finds an open, unpaused request due: expiring from 7 to 8
   * days idle, inactive from 8 to 10.
   */
  lemma DueIffInWindow(table: seq<Row>, muted: set<Mute>, r: Row, kind: Kind, now: int)
    requires r in table && Eligible(r) && Mute(r.userId, kind) !in muted
    requires forall q :: q in table && q.id == r.id ==> q == r
    ensures NoteFor(kind, r) in Due(table, muted, now) <==> InWindow(now, kind, r)
  {
    StatusCallsForItInWindow(r, kind, now);
    if NoteFor(kind, r) in Due(table, muted, now) {
      DueIsOfThatRow(table, muted, r, kind, now);
    } else {
      DueMeansSomeRowIsDue(table, muted, now, NoteFor(kind, r));
      assert !IsDue(r, muted, now, NoteFor(kind, r));
    }
  }

  predicate Eligible(r: Row) {
    r.active && r.status != CERRADA && r.pausedAt.None?
  }

  /** Nobody touches the request or mutes its owner. */
  predicate LeftAlone(w: World, steps: seq<Step>, r: Row, kind: Kind) {
    r in Run(w, steps).table && Mute(r.userId, kind) !in Run(w, steps).muted &&
    (steps == [] || LeftAlone(w, steps[..|steps| - 1], r, kind))
  }

  /** Scans of that time that are clean so far have the request before them, or its row is there. */
  predicate Attended(w: World, r: Row, kind: Kind) {
    var note := NoteFor(kind, r);
    (forall k :: k in w.scans && w.scans[k].clean && InWindow(w.scans[k].now, kind, r) ==>
      r in w.scans[k].todo || note in w.rows) &&
    (forall t :: t in w.finished && InWindow(t, kind, r) ==> note in w.rows)
  }

  lemma ContinueKeepsAttended(w: World, k: nat, scan: Scan, r: Row, kind: Kind)
    requires Attended(w, r, kind)
    requires scan.clean && InWindow(scan.now, kind, r) ==> r in scan.todo || NoteFor(kind, r) in w.rows
    ensures Attended(Continue(w, k, scan), r, kind)
  {
  }

  lemma AttendedStep(w: World, step: Step, r: Row, kind: Kind)
    requires Attended(w, r, kind) && Eligible(r) && r in w.table && Mute(r.userId, kind) !in w.muted
    requires step != Delete(NoteFor(kind, r))
    ensures Attended(Next(w, step), r, kind)
  {
    match step
    case BeginScan(k, now) =>
      StatusCallsForItInWindow(r, kind, now);
      ScanSelectsExactly(r, now);
      ContinueKeepsAttended(w, k, Scan(now, Selected(w.table, now), false, true), r, kind);
    case CheckPreferences(k) =>
      if k in w.scans && w.scans[k].todo != [] {
        StatusCallsForItInWindow(r, kind, w.scans[k].now);
        if w.scans[k].todo[0] != r || !InWindow(w.scans[k].now, kind, r) {
          ContinueKeepsAttended(w, k, NextTurn(w.scans[k]), r, kind);
        }
      }
    case InsertRow(k, fails) =>
      if k in w.scans && w.scans[k].todo != [] && HeadKind(w.scans[k]).Some? {
        StatusCallsForItInWindow(r, kind, w.scans[k].now);
        var own, head := HeadKind(w.scans[k]).value, w.scans[k].todo[0];
        var v := w.(rows := w.rows + [NoteFor(own, head)], events := w.events + [EventFor(own, head)]);
        ContinueKeepsAttended(w, k, NextTurn(w.scans[k]).(clean := false), r, kind);
        if NoteFor(own, head) in w.rows {
          ContinueKeepsAttended(w, k, NextTurn(w.scans[k]), r, kind);
        } else {
          ContinueKeepsAttended(v, k, NextTurn(w.scans[k]), r, kind);
        }
      }
    case _ =>
  }

  lemma {:induction false} AttendedRun(w: World, steps: seq<Step>, r: Row, kind: Kind)
    requires Fresh(w) && Eligible(r) && LeftAlone(w, steps, r, kind) && Delete(NoteFor(kind, r)) !in steps
    ensures Attended(Run(w, steps), r, kind)
  {
    if steps != [] {
      assert steps[|steps| - 1] in steps;
      AttendedRun(w, steps[..|steps| - 1], r, kind);
      AttendedStep(Run(w, steps[..|steps| - 1]), steps[|steps| - 1], r, kind);
    }
  }

  /** Each scan starts at most a day after the one before. */
  predicate Daily(times: seq<int>) {
    forall i :: 0 < i < |times| ==> times[i] <= times[i - 1] + DAY_MS
  }

  /** They begin before that time is over and go on into it. */
  predicate CoverTheTime(times: seq<int>, kind: Kind, r: Row) {
    Daily(times) && times != [] && times[0] < DueTo(kind, r) && times[|times| - 1] >= DueFrom(kind, r)
  }

  lemma {:induction false} SomeScanHitsTheTime(times: seq<int>, kind: Kind, r: Row) returns (i: nat)
    requires CoverTheTime(times, kind, r)
    ensures i < |times| && InWindow(times[i], kind, r)
  {
    var n := |times| - 1;
    if n == 0 || times[n - 1] < DueFrom(kind, r) {
      i := n;
    } else {
      i := SomeScanHitsTheTime(times[..n], kind, r);
    }
  }

  /**
   * An open, unpaused request left alone, with scans that run to their end at least daily, is
   * announced exactly once as expiring and exactly once as inactive, whatever the replicas and
   * failures in between.
   */
  lemma AnnouncedExactlyOnce(w: World, steps: seq<Step>, r: Row, kind: Kind)
    requires Fresh(w) && Eligible(r) && LeftAlone(w, steps, r, kind) && Delete(NoteFor(kind, r)) !in steps
    requires CoverTheTime(Run(w, steps).finished, kind, r)
    ensures Announced(Run(w, steps).events, kind, r.id, r.lastBuyerActivityAt) == 1
  {
    var i := SomeScanHitsTheTime(Run(w, steps).finished, kind, r);
    AttendedRun(w, steps, r, kind);
    StillOwned(w, steps, r, kind);
    NothingDeleted(w, steps, NoteFor(kind, r));
    AnnouncementsBalanceDeletions(w, steps, kind, r.id, r.lastBuyerActivityAt);
  }

  /** The simplest such run: one scan within that time. */
  lemma OneScanInTime(w: World, r: Row, kind: Kind, now: int)
    requires Fresh(w) && w.table == [r] && Eligible(r) && Mute(r.userId, kind) !in w.muted
    requires InWindow(now, kind, r)
    ensures var steps := [] + [BeginScan(0, now)] + [CheckPreferences(0)] + [InsertRow(0, false)];
            LeftAlone(w, steps, r, kind) && CoverTheTime(Run(w, steps).finished, kind, r) &&
            Announced(Run(w, steps).events, kind, r.id, r.lastBuyerActivityAt) == 1
  {
    var a, b, c := BeginScan(0, now), CheckPreferences(0), InsertRow(0, false);
    StatusCallsForItInWindow(r, kind, now);
    ScanSelectsExactly(r, now);
    OneScan(w, 0, now, r, kind);
    var steps := [] + [a] + [b] + [c];
    RunSnoc(w, [], a);
    RunSnoc(w, [] + [a], b);
    RunSnoc(w, [] + [a] + [b], c);
    ScansTouchNoRequest(w, steps);
    assert LeftAlone(w, steps, r, kind) by { UntouchedIsLeftAlone(w, steps, r, kind); }
    AnnouncedExactlyOnce(w, steps, r, kind);
  }

  predicate OnlyScans(steps: seq<Step>) {
    forall i :: 0 <= i < |steps| ==> !steps[i].ChangeRequests? && !steps[i].SetMuted? && !steps[i].Delete?
  }

  lemma {:induction false} ScansTouchNoRequest(w: World, steps: seq<Step>)
    requires OnlyScans(steps)
    ensures Run(w, steps).table == w.table && Run(w, steps).muted == w.muted
  {
    if steps != [] { ScansTouchNoRequest(w, steps[..|steps| - 1]); }
  }

  lemma {:induction false} UntouchedIsLeftAlone(w: World, steps: seq<Step>, r: Row, kind: Kind)
    requires OnlyScans(steps) && r in w.table && Mute(r.userId, kind) !in w.muted
    ensures LeftAlone(w, steps, r, kind)
  {
    ScansTouchNoRequest(w, steps);
    if steps != [] { UntouchedIsLeftAlone(w, steps[..|steps| - 1], r, kind); }
  }

  lemma StillOwned(w: World, steps: seq<Step>, r: Row, kind: Kind)
    requires Fresh(w) && LeftAlone(w, steps, r, kind)
    ensures r.id in w.owners && w.owners[r.id] == r.userId
  {
    RunsKeepInv(w, steps);
  }

  // ------------------------------------------------------------------- muting

  /** The user keeps this kind muted all along. */
  predicate MutedThroughout(w: World, steps: seq<Step>, m: Mute) {
    m in Run(w, steps).muted && (steps == [] || MutedThroughout(w, steps[..|steps| - 1], m))
  }

  /** Nothing of it was announced, and no scan is about to. */
  predicate Silent(w: World, m: Mute) {
    (forall e :: e in w.events ==> !(e.userId == m.userId && e.kind == m.kind)) &&
    forall k :: k in w.scans && w.scans[k].checked && w.scans[k].todo != [] ==>
      !(w.scans[k].todo[0].userId == m.userId && HeadKind(w.scans[k]) == Some(m.kind))
  }

  lemma SilentStep(w: World, step: Step, m: Mute)
    requires Silent(w, m) && m in w.muted
    ensures Silent(Next(w, step), m)
  {
    WhatAStepInserts(w, step);
    if Inserts(w, step) { assert Silent(w, m) && step.k in w.scans; }
  }

  /** What a user keeps muted is never announced to them. */
  lemma {:induction false} MutedIsSilent(w: World, steps: seq<Step>, m: Mute)
    requires Fresh(w) && MutedThroughout(w, steps, m)
    ensures Silent(Run(w, steps), m)
  {
    if steps != [] {
      MutedIsSilent(w, steps[..|steps| - 1], m);
      assert m in Run(w, steps[..|steps| - 1]).muted;
      SilentStep(Run(w, steps[..|steps| - 1]), steps[|steps| - 1], m);
    }
  }
}
