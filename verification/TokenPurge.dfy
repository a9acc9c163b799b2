/**
 * Refresh, verification and reset tokens, and the nightly purge. Refreshing, logging out, verifying
 * and resetting read a row first and write it later, so that a purge can fall in between.
 */
module TokenPurge {
  import opened Prelude

  const DAY_MS: int := 24 * 60 * 60 * 1000
  const HOUR_MS: int := 60 * 60 * 1000

  // -------------------------------------------------------------------- data

  /** `active` stands for an account that is neither blocked nor suspended and whose market is open. */
  datatype User = User(password: string, verified: bool, active: bool)

  /** A stored token; `spent` is a refresh token revoked or a reset token used. */
  datatype Row = Row(userId: string, expiresAt: int, spent: bool)

  type Table = map<nat, Row>

  /** A call that has read its row and not yet written. */
  datatype Pending =
    | Refreshing(token: nat, userId: string)
    | LoggingOut(token: nat, found: bool)
    | Verifying(token: nat, userId: string, already: bool)
    | Resetting(token: nat, userId: string, password: string)

  datatype State = State(
    users: map<string, User>, refresh: Table, verify: Table, reset: Table, calls: map<nat, Pending>, next: nat)

  datatype Op =
    | Register(userId: string, password: string)
    | Login(userId: string, password: string)
    | Resend(userId: string)
    | Forgot(userId: string)
    | BeginRefresh(call: nat, token: nat)
    | BeginLogout(call: nat, token: nat)
    | BeginVerify(call: nat, token: nat)
    | BeginReset(call: nat, token: nat, password: string)
    | Finish(call: nat)
    | SetActive(userId: string, active: bool)
    | Purge

  /** What the caller gets to see, mail included. */
  datatype Outcome =
    | Tokens(refreshToken: nat)
    | Registered(refreshToken: nat, mailed: nat)
    | Mailed(token: nat)
    | Verified(already: bool)
    | Done | Started | Unauthorized | Forbidden | BadRequest | Conflict | ServerError

  datatype Event = Event(now: int, op: Op)

  // ------------------------------------------------------------------ tables

  /** A row that no call will accept any more; verification tokens are only ever too old. */
  predicate Dead(row: Row, now: int, once: bool) {
    (once && row.spent) || row.expiresAt < now
  }

  predicate Usable(table: Table, token: nat, now: int, once: bool) {
    token in table && !Dead(table[token], now, once)
  }

  function WithoutDead(table: Table, now: int, once: bool): Table {
    map t | t in table && !Dead(table[t], now, once) :: table[t]
  }

  function WithoutUser(table: Table, userId: string): Table {
    map t | t in table && table[t].userId != userId :: table[t]
  }

  function Spend(table: Table, token: nat): Table {
    if token in table then table[token := table[token].(spent := true)] else table
  }

  function SpendUser(table: Table, userId: string): Table {
    map t | t in table :: if table[t].userId == userId then table[t].(spent := true) else table[t]
  }

  // ------------------------------------------------------------------- steps

  /** How long each kind of token lives; the refresh life is configured. */
  datatype Config = Config(refreshMs: int)

  function IssueRefresh(c: Config, s: State, now: int, userId: string): State {
    s.(refresh := s.refresh[s.next := Row(userId, now + c.refreshMs, false)], next := s.next + 1)
  }

  function SendVerification(s: State, now: int, userId: string): State {
    s.(verify := WithoutUser(s.verify, userId)[s.next := Row(userId, now + DAY_MS, false)], next := s.next + 1)
  }

  function SendReset(s: State, now: int, userId: string): State {
    s.(reset := WithoutUser(s.reset, userId)[s.next := Row(userId, now + HOUR_MS, false)], next := s.next + 1)
  }

  function Begin(s: State, call: nat, p: Pending): State {
    s.(calls := s.calls[call := p])
  }

  function UserOf(s: State, userId: string): User {
    if userId in s.users then s.users[userId] else User("", false, false)
  }

  function SetUser(s: State, userId: string, user: User): State {
    s.(users := s.users[userId := user])
  }

  /** The reset token is used and every session of the user revoked. */
  function SpendBoth(s: State, token: nat, userId: string): State {
    s.(reset := Spend(s.reset, token), refresh := SpendUser(s.refresh, userId))
  }

  /** The write half of a call. Updating or deleting a row that is gone is an error, deleting by user is not. */
  function FinishCall(c: Config, s: State, now: int, p: Pending): (State, Outcome) {
    match p
    case Refreshing(token, userId) =>
      if token !in s.refresh then (s, ServerError)
      else (IssueRefresh(c, s.(refresh := Spend(s.refresh, token)), now, userId), Tokens(s.next))
    case LoggingOut(token, found) =>
      if !found then (s, Done)
      else if token !in s.refresh then (s, ServerError)
      else (s.(refresh := Spend(s.refresh, token)), Done)
    case Verifying(token, userId, already) =>
      if already then
        if token !in s.verify then (s, ServerError) else (s.(verify := s.verify - {token}), Verified(true))
      else
        (SetUser(s, userId, UserOf(s, userId).(verified := true)).(verify := WithoutUser(s.verify, userId)),
         Verified(false))
    case Resetting(token, userId, password) =>
      if token !in s.reset then (s, ServerError)
      else
        (SpendBoth(SetUser(s, userId, UserOf(s, userId).(password := password)), token, userId), Done)
  }

  function PurgeExpiredTokens(s: State, now: int): State {
    s.(refresh := WithoutDead(s.refresh, now, true), verify := WithoutDead(s.verify, now, false),
       reset := WithoutDead(s.reset, now, true))
  }

  function Next(c: Config, s: State, e: Event): (State, Outcome) {
    var now := e.now;
    match e.op
    case Register(userId, password) =>
      if userId in s.users then (s, Conflict)
      else
        var s1 := SendVerification(SetUser(s, userId, User(password, false, true)), now, userId);
        (IssueRefresh(c, s1, now, userId), Registered(s1.next, s.next))
    case Login(userId, password) =>
      if userId !in s.users || s.users[userId].password != password then (s, Unauthorized)
      else if !s.users[userId].active then (s, Forbidden)
      else (IssueRefresh(c, s, now, userId), Tokens(s.next))
    case Resend(userId) =>
      if userId !in s.users then (s, Unauthorized)
      else if s.users[userId].verified then (s, BadRequest)
      else (SendVerification(s, now, userId), Mailed(s.next))
    case Forgot(userId) =>
      if userId !in s.users then (s, Done) else (SendReset(s, now, userId), Mailed(s.next))
    case BeginRefresh(call, token) =>
      if call in s.calls then (s, Conflict)
      else if !Usable(s.refresh, token, now, true) then (s, Unauthorized)
      else if !UserOf(s, s.refresh[token].userId).active then (s, Forbidden)
      else (Begin(s, call, Refreshing(token, s.refresh[token].userId)), Started)
    case BeginLogout(call, token) =>
      if call in s.calls then (s, Conflict)
      else (Begin(s, call, LoggingOut(token, token in s.refresh && !s.refresh[token].spent)), Started)
    case BeginVerify(call, token) =>
      if call in s.calls then (s, Conflict)
      else if !Usable(s.verify, token, now, false) then (s, BadRequest)
      else
        var userId := s.verify[token].userId;
        (Begin(s, call, Verifying(token, userId, UserOf(s, userId).verified)), Started)
    case BeginReset(call, token, password) =>
      if call in s.calls then (s, Conflict)
      else if !Usable(s.reset, token, now, true) then (s, BadRequest)
      else (Begin(s, call, Resetting(token, s.reset[token].userId, password)), Started)
    case Finish(call) =>
      if call !in s.calls then (s, Conflict)
      else
        var p := s.calls[call];
        FinishCall(c, Over(s, call), now, p)
    case SetActive(userId, active) =>
      if userId !in s.users then (s, Done) else (SetUser(s, userId, s.users[userId].(active := active)), Done)
    case Purge => (PurgeExpiredTokens(s, now), Done)
  }

  function After(c: Config, s: State, events: seq<Event>): State
    decreases |events|
  {
    if events == [] then s else After(c, Next(c, s, events[0]).0, events[1..])
  }

  /** What callers saw; a purge shows them nothing. */
  function Seen(c: Config, s: State, events: seq<Event>): seq<Outcome>
    decreases |events|
  {
    if events == [] then []
    else
      var (s', outcome) := Next(c, s, events[0]);
      (if events[0].op.Purge? then [] else [outcome]) + Seen(c, s', events[1..])
  }

  function WithoutPurges(events: seq<Event>): seq<Event> {
    if events == [] then []
    else (if events[0].op.Purge? then [] else [events[0]]) + WithoutPurges(events[1..])
  }

  predicate ClockFrom(now: int, events: seq<Event>)
    decreases |events|
  {
    events == [] || (now <= events[0].now && ClockFrom(events[0].now, events[1..]))
  }

  // -------------------------------------------------------------- simulation

  /** The purged table lacks dead rows only. */
  predicate TableSim(purged: Table, full: Table, now: int, once: bool) {
    (forall t :: t in purged ==> t in full && purged[t] == full[t]) &&
    (forall t :: t in full && t !in purged ==> Dead(full[t], now, once))
  }

  /** The row that the write half of a call needs is there in both or in neither. */
  predicate RowKept(purged: State, full: State, p: Pending) {
    match p
    case Refreshing(token, _) => token in full.refresh ==> token in purged.refresh
    case LoggingOut(token, found) => found && token in full.refresh ==> token in purged.refresh
    case Verifying(token, _, already) => already && token in full.verify ==> token in purged.verify
    case Resetting(token, _, _) => token in full.reset ==> token in purged.reset
  }

  /** A logout that found no row, where without the purge it found one that no longer matters. */
  predicate FoundLess(purged: State, full: State, p: Pending, f: Pending) {
    p.LoggingOut? && f == p.(found := true) && !p.found &&
    p.token in full.refresh && p.token !in purged.refresh
  }

  predicate CallSim(purged: State, full: State, p: Pending, f: Pending) {
    (p == f && RowKept(purged, full, f)) || FoundLess(purged, full, p, f)
  }

  /** Tokens are handed out in order; none is stored before its time. */
  predicate Tidy(s: State) {
    forall t :: t in s.refresh ==> t < s.next
  }

  predicate Sim(purged: State, full: State, now: int) {
    purged.users == full.users && purged.next == full.next && Tidy(full) &&
    TableSim(purged.refresh, full.refresh, now, true) &&
    TableSim(purged.verify, full.verify, now, false) &&
    TableSim(purged.reset, full.reset, now, true) &&
    purged.calls.Keys == full.calls.Keys &&
    forall c :: c in full.calls ==> CallSim(purged, full, purged.calls[c], full.calls[c])
  }

  /** The purge would take a row from under a call that has read it and still has to write it. */
  predicate Interferes(s: State, now: int, p: Pending) {
    match p
    case Refreshing(token, _) => token in s.refresh && Dead(s.refresh[token], now, true)
    case LoggingOut(token, found) => found && token in s.refresh && Dead(s.refresh[token], now, true)
    case Verifying(token, _, already) => already && token in s.verify && Dead(s.verify[token], now, false)
    case Resetting(token, _, _) => token in s.reset && Dead(s.reset[token], now, true)
  }

  predicate PurgeIsSafe(s: State, now: int) {
    forall c :: c in s.calls ==> !Interferes(s, now, s.calls[c])
  }

  lemma TimePasses(purged: State, full: State, now: int, later: int)
    requires Sim(purged, full, now) && now <= later
    ensures Sim(purged, full, later)
  {
  }

  lemma SpendKeepsSim(purged: Table, full: Table, now: int, token: nat)
    requires TableSim(purged, full, now, true)
    ensures TableSim(Spend(purged, token), Spend(full, token), now, true)
    ensures Spend(purged, token).Keys == purged.Keys && Spend(full, token).Keys == full.Keys
  {
  }

  lemma SpendUserKeepsSim(purged: Table, full: Table, now: int, userId: string)
    requires TableSim(purged, full, now, true)
    ensures TableSim(SpendUser(purged, userId), SpendUser(full, userId), now, true)
    ensures SpendUser(purged, userId).Keys == purged.Keys && SpendUser(full, userId).Keys == full.Keys
  {
  }

  lemma WithoutUserKeepsSim(purged: Table, full: Table, now: int, once: bool, userId: string)
    requires TableSim(purged, full, now, once)
    ensures TableSim(WithoutUser(purged, userId), WithoutUser(full, userId), now, once)
    ensures forall t :: t in full && t in purged && t in WithoutUser(full, userId) ==> t in WithoutUser(purged, userId)
    ensures forall t :: t in WithoutUser(full, userId) ==> t in full
  {
  }

  /** Changing a table pair to one that keeps the relation and loses no needed row. */
  predicate Loses(purged: Table, full: Table, purged': Table, full': Table) {
    exists t :: t in full' && t !in purged' && !(t in full && t !in purged)
  }

  /** The refresh table loses nothing, and gains nothing but newly handed out tokens. */
  predicate OnlyNewTokens(table: Table, table': Table, next: nat) {
    table.Keys <= table'.Keys && forall t :: t in table' && t !in table ==> t >= next
  }

  lemma SimOfTables(purged: State, full: State, purged': State, full': State, now: int)
    requires Sim(purged, full, now) && Tidy(full')
    requires purged'.users == full'.users && purged'.next == full'.next
    requires purged'.calls == purged.calls && full'.calls == full.calls
    requires OnlyNewTokens(purged.refresh, purged'.refresh, full.next) &&
      OnlyNewTokens(full.refresh, full'.refresh, full.next)
    requires TableSim(purged'.refresh, full'.refresh, now, true)
    requires !Loses(purged.refresh, full.refresh, purged'.refresh, full'.refresh)
    requires TableSim(purged'.verify, full'.verify, now, false)
    requires !Loses(purged.verify, full.verify, purged'.verify, full'.verify)
    requires TableSim(purged'.reset, full'.reset, now, true)
    requires !Loses(purged.reset, full.reset, purged'.reset, full'.reset)
    ensures Sim(purged', full', now)
  {
    forall c | c in full'.calls ensures CallSim(purged', full', purged'.calls[c], full'.calls[c]) {
      assert CallSim(purged, full, purged.calls[c], full.calls[c]);
    }
  }

  lemma IssueKeepsSim(c: Config, purged: State, full: State, now: int, userId: string)
    requires Sim(purged, full, now)
    ensures Sim(IssueRefresh(c, purged, now, userId), IssueRefresh(c, full, now, userId), now)
  {
    SimOfTables(purged, full, IssueRefresh(c, purged, now, userId), IssueRefresh(c, full, now, userId), now);
  }

  lemma VerificationMailKeepsSim(purged: State, full: State, now: int, userId: string)
    requires Sim(purged, full, now)
    ensures Sim(SendVerification(purged, now, userId), SendVerification(full, now, userId), now)
  {
    WithoutUserKeepsSim(purged.verify, full.verify, now, false, userId);
    SimOfTables(purged, full, SendVerification(purged, now, userId), SendVerification(full, now, userId), now);
  }

  lemma ResetMailKeepsSim(purged: State, full: State, now: int, userId: string)
    requires Sim(purged, full, now)
    ensures Sim(SendReset(purged, now, userId), SendReset(full, now, userId), now)
  {
    WithoutUserKeepsSim(purged.reset, full.reset, now, true, userId);
    SimOfTables(purged, full, SendReset(purged, now, userId), SendReset(full, now, userId), now);
  }

  lemma RefreshKeepsSim(c: Config, purged: State, full: State, now: int, token: nat, userId: string)
    requires Sim(purged, full, now) && RowKept(purged, full, Refreshing(token, userId))
    ensures var p := Refreshing(token, userId);
            FinishCall(c, purged, now, p).1 == FinishCall(c, full, now, p).1 &&
            Sim(FinishCall(c, purged, now, p).0, FinishCall(c, full, now, p).0, now)
  {
    SpendKeepsSim(purged.refresh, full.refresh, now, token);
    var purged', full' := purged.(refresh := Spend(purged.refresh, token)),
      full.(refresh := Spend(full.refresh, token));
    SimOfTables(purged, full, purged', full', now);
    IssueKeepsSim(c, purged', full', now, userId);
  }

  lemma VerifyAgainKeepsSim(purged: State, full: State, now: int, token: nat)
    requires Sim(purged, full, now)
    ensures Sim(purged.(verify := purged.verify - {token}), full.(verify := full.verify - {token}), now)
  {
    SimOfTables(purged, full, purged.(verify := purged.verify - {token}), full.(verify := full.verify - {token}), now);
  }

  lemma VerifiedKeepsSim(purged: State, full: State, now: int, userId: string)
    requires Sim(purged, full, now)
    ensures Sim(purged.(verify := WithoutUser(purged.verify, userId)),
                full.(verify := WithoutUser(full.verify, userId)), now)
  {
    WithoutUserKeepsSim(purged.verify, full.verify, now, false, userId);
    SimOfTables(purged, full, purged.(verify := WithoutUser(purged.verify, userId)),
                full.(verify := WithoutUser(full.verify, userId)), now);
  }

  lemma VerifyKeepsSim(c: Config, purged: State, full: State, now: int, p: Pending)
    requires Sim(purged, full, now) && RowKept(purged, full, p) && p.Verifying?
    ensures FinishCall(c, purged, now, p).1 == FinishCall(c, full, now, p).1
    ensures Sim(FinishCall(c, purged, now, p).0, FinishCall(c, full, now, p).0, now)
  {
    if p.already {
      VerifyAgainKeepsSim(purged, full, now, p.token);
    } else {
      var user := UserOf(full, p.userId).(verified := true);
      UsersKeepSim(purged, full, now, p.userId, user);
      VerifiedKeepsSim(SetUser(purged, p.userId, user), SetUser(full, p.userId, user), now, p.userId);
    }
  }

  lemma SpendBothKeepsSim(purged: State, full: State, now: int, token: nat, userId: string)
    requires Sim(purged, full, now)
    ensures Sim(SpendBoth(purged, token, userId), SpendBoth(full, token, userId), now)
  {
    SpendKeepsSim(purged.reset, full.reset, now, token);
    SpendUserKeepsSim(purged.refresh, full.refresh, now, userId);
    SimOfTables(purged, full, SpendBoth(purged, token, userId), SpendBoth(full, token, userId), now);
  }

  lemma ResetKeepsSim(c: Config, purged: State, full: State, now: int, p: Pending)
    requires Sim(purged, full, now) && RowKept(purged, full, p) && p.Resetting?
    ensures FinishCall(c, purged, now, p).1 == FinishCall(c, full, now, p).1
    ensures Sim(FinishCall(c, purged, now, p).0, FinishCall(c, full, now, p).0, now)
  {
    var user := UserOf(full, p.userId).(password := p.password);
    UsersKeepSim(purged, full, now, p.userId, user);
    SpendBothKeepsSim(SetUser(purged, p.userId, user), SetUser(full, p.userId, user), now, p.token, p.userId);
  }

  lemma LogoutKeepsSim(c: Config, purged: State, full: State, now: int, p: Pending)
    requires Sim(purged, full, now) && RowKept(purged, full, p) && p.LoggingOut?
    ensures FinishCall(c, purged, now, p).1 == FinishCall(c, full, now, p).1
    ensures Sim(FinishCall(c, purged, now, p).0, FinishCall(c, full, now, p).0, now)
  {
    SpendKeepsSim(purged.refresh, full.refresh, now, p.token);
    var purged', full' := purged.(refresh := Spend(purged.refresh, p.token)),
      full.(refresh := Spend(full.refresh, p.token));
    SimOfTables(purged, full, purged', full', now);
  }

  /** Revoking a row that is purged already shows nowhere. */
  lemma LateLogoutKeepsSim(purged: State, full: State, now: int, token: nat)
    requires Sim(purged, full, now) && token in full.refresh && token !in purged.refresh
    ensures Sim(purged, full.(refresh := Spend(full.refresh, token)), now)
  {
    SpendKeepsSim(purged.refresh, full.refresh, now, token);
    assert Spend(purged.refresh, token) == purged.refresh;
    SimOfTables(purged, full, purged, full.(refresh := Spend(full.refresh, token)), now);
  }

  function Over(s: State, call: nat): State {
    s.(calls := s.calls - {call})
  }

  lemma OverKeepsSim(purged: State, full: State, now: int, call: nat)
    requires Sim(purged, full, now)
    ensures Sim(Over(purged, call), Over(full, call), now)
  {
    var purged', full' := Over(purged, call), Over(full, call);
    forall d | d in full'.calls ensures CallSim(purged', full', purged'.calls[d], full'.calls[d]) {
      assert CallSim(purged, full, purged.calls[d], full.calls[d]);
    }
  }

  lemma FinishCallKeepsSim(c: Config, purged: State, full: State, now: int, p: Pending)
    requires Sim(purged, full, now) && RowKept(purged, full, p)
    ensures FinishCall(c, purged, now, p).1 == FinishCall(c, full, now, p).1
    ensures Sim(FinishCall(c, purged, now, p).0, FinishCall(c, full, now, p).0, now)
  {
    match p
    case Refreshing(token, userId) => RefreshKeepsSim(c, purged, full, now, token, userId);
    case LoggingOut(_, _) => LogoutKeepsSim(c, purged, full, now, p);
    case Verifying(_, _, _) => VerifyKeepsSim(c, purged, full, now, p);
    case Resetting(_, _, _) => ResetKeepsSim(c, purged, full, now, p);
  }

  lemma FinishKeepsSim(c: Config, purged: State, full: State, now: int, call: nat)
    requires Sim(purged, full, now)
    ensures SameStep(c, purged, full, Event(now, Finish(call)))
  {
    if call in full.calls {
      var p, f := purged.calls[call], full.calls[call];
      assert CallSim(purged, full, p, f);
      OverKeepsSim(purged, full, now, call);
      var purged', full' := Over(purged, call), Over(full, call);
      if FoundLess(purged, full, p, f) {
        LateLogoutKeepsSim(purged', full', now, f.token);
        assert FinishCall(c, purged', now, p) == (purged', Done);
        assert FinishCall(c, full', now, f) == (full'.(refresh := Spend(full'.refresh, f.token)), Done);
      } else {
        assert RowKept(purged', full', f);
        FinishCallKeepsSim(c, purged', full', now, f);
      }
    }
  }

  /** A new call: what it has read is related. */
  lemma BeginKeepsSim(purged: State, full: State, now: int, call: nat, p: Pending, f: Pending)
    requires Sim(purged, full, now)
    ensures CallSim(purged, full, p, f) ==> Sim(Begin(purged, call, p), Begin(full, call, f), now)
  {
    if CallSim(purged, full, p, f) {
      var purged', full' := Begin(purged, call, p), Begin(full, call, f);
      forall d | d in full'.calls ensures CallSim(purged', full', purged'.calls[d], full'.calls[d]) {
        if d != call { assert CallSim(purged, full, purged.calls[d], full.calls[d]); }
      }
    }
  }

  lemma UsableInBoth(purged: Table, full: Table, token: nat, now: int, once: bool)
    requires TableSim(purged, full, now, once)
    ensures Usable(purged, token, now, once) <==> Usable(full, token, now, once)
    ensures Usable(full, token, now, once) ==> token in purged && purged[token] == full[token]
  {
  }

  lemma UsersKeepSim(purged: State, full: State, now: int, userId: string, user: User)
    requires Sim(purged, full, now)
    ensures Sim(SetUser(purged, userId, user), SetUser(full, userId, user), now)
  {
    SimOfTables(purged, full, SetUser(purged, userId, user), SetUser(full, userId, user), now);
  }

  predicate SameStep(c: Config, purged: State, full: State, e: Event) {
    Next(c, purged, e).1 == Next(c, full, e).1 && Sim(Next(c, purged, e).0, Next(c, full, e).0, e.now)
  }

  lemma RegisterStep(c: Config, purged: State, full: State, now: int, userId: string, password: string)
    requires Sim(purged, full, now)
    ensures SameStep(c, purged, full, Event(now, Register(userId, password)))
  {
    var user := User(password, false, true);
    UsersKeepSim(purged, full, now, userId, user);
    var purged', full' := SetUser(purged, userId, user), SetUser(full, userId, user);
    VerificationMailKeepsSim(purged', full', now, userId);
    IssueKeepsSim(c, SendVerification(purged', now, userId), SendVerification(full', now, userId), now, userId);
  }

  lemma BeginLogoutStep(c: Config, purged: State, full: State, now: int, call: nat, token: nat)
    requires Sim(purged, full, now)
    ensures SameStep(c, purged, full, Event(now, BeginLogout(call, token)))
  {
    var p := LoggingOut(token, token in purged.refresh && !purged.refresh[token].spent);
    var f := LoggingOut(token, token in full.refresh && !full.refresh[token].spent);
    assert CallSim(purged, full, p, f);
    BeginKeepsSim(purged, full, now, call, p, f);
  }

  lemma BeginRefreshStep(c: Config, purged: State, full: State, now: int, call: nat, token: nat)
    requires Sim(purged, full, now)
    ensures SameStep(c, purged, full, Event(now, BeginRefresh(call, token)))
  {
    UsableInBoth(purged.refresh, full.refresh, token, now, true);
    if token in full.refresh {
      var p := Refreshing(token, full.refresh[token].userId);
      BeginKeepsSim(purged, full, now, call, p, p);
    }
  }

  lemma BeginVerifyStep(c: Config, purged: State, full: State, now: int, call: nat, token: nat)
    requires Sim(purged, full, now)
    ensures SameStep(c, purged, full, Event(now, BeginVerify(call, token)))
  {
    UsableInBoth(purged.verify, full.verify, token, now, false);
    if token in full.verify {
      var userId := full.verify[token].userId;
      var p := Verifying(token, userId, UserOf(full, userId).verified);
      BeginKeepsSim(purged, full, now, call, p, p);
    }
  }

  lemma BeginResetStep(c: Config, purged: State, full: State, now: int, call: nat, token: nat, password: string)
    requires Sim(purged, full, now)
    ensures SameStep(c, purged, full, Event(now, BeginReset(call, token, password)))
  {
    UsableInBoth(purged.reset, full.reset, token, now, true);
    if token in full.reset {
      var p := Resetting(token, full.reset[token].userId, password);
      BeginKeepsSim(purged, full, now, call, p, p);
    }
  }

  lemma AccountStep(c: Config, purged: State, full: State, e: Event)
    requires Sim(purged, full, e.now) && (e.op.Login? || e.op.Resend? || e.op.Forgot? || e.op.SetActive?)
    ensures SameStep(c, purged, full, e)
  {
    var userId := e.op.userId;
    match e.op
    case Login(_, _) => IssueKeepsSim(c, purged, full, e.now, userId);
    case SetActive(_, active) => UsersKeepSim(purged, full, e.now, userId, UserOf(full, userId).(active := active));
    case Resend(_) => VerificationMailKeepsSim(purged, full, e.now, userId);
    case Forgot(_) => ResetMailKeepsSim(purged, full, e.now, userId);
  }

  /** Every step but a purge: same outcome, and still related. */
  lemma StepKeepsSim(c: Config, purged: State, full: State, e: Event)
    requires Sim(purged, full, e.now) && !e.op.Purge?
    ensures SameStep(c, purged, full, e)
  {
    match e.op
    case Register(userId, password) => RegisterStep(c, purged, full, e.now, userId, password);
    case BeginLogout(call, token) => BeginLogoutStep(c, purged, full, e.now, call, token);
    case BeginRefresh(call, token) => BeginRefreshStep(c, purged, full, e.now, call, token);
    case BeginVerify(call, token) => BeginVerifyStep(c, purged, full, e.now, call, token);
    case BeginReset(call, token, password) => BeginResetStep(c, purged, full, e.now, call, token, password);
    case Finish(call) => FinishKeepsSim(c, purged, full, e.now, call);
    case _ => AccountStep(c, purged, full, e);
  }

  lemma PurgeKeepsSim(purged: State, full: State, now: int)
    requires Sim(purged, full, now) && PurgeIsSafe(purged, now)
    ensures Sim(PurgeExpiredTokens(purged, now), full, now)
  {
    var purged' := PurgeExpiredTokens(purged, now);
    forall d | d in full.calls ensures CallSim(purged', full, purged'.calls[d], full.calls[d]) {
      assert CallSim(purged, full, purged.calls[d], full.calls[d]);
      assert !Interferes(purged, now, purged.calls[d]);
    }
  }

  // ------------------------------------------------------------ main results

  /** At every purge of the run no call in flight needs a row that it deletes. */
  predicate PurgesAreSafe(c: Config, s: State, events: seq<Event>)
    decreases |events|
  {
    events == [] ||
    ((events[0].op.Purge? ==> PurgeIsSafe(s, events[0].now)) && PurgesAreSafe(c, Next(c, s, events[0]).0, events[1..]))
  }

  lemma {:induction false} PurgedRunLooksTheSame(c: Config, purged: State, full: State, now: int, events: seq<Event>)
    requires Sim(purged, full, now) && ClockFrom(now, events) && PurgesAreSafe(c, purged, events)
    ensures Seen(c, purged, events) == Seen(c, full, WithoutPurges(events))
    decreases |events|
  {
    if events != [] {
      var e, rest := events[0], events[1..];
      TimePasses(purged, full, now, e.now);
      if e.op.Purge? {
        PurgeKeepsSim(purged, full, e.now);
        PurgedRunLooksTheSame(c, PurgeExpiredTokens(purged, e.now), full, e.now, rest);
        assert WithoutPurges(events) == WithoutPurges(rest);
      } else {
        StepKeepsSim(c, purged, full, e);
        PurgedRunLooksTheSame(c, Next(c, purged, e).0, Next(c, full, e).0, e.now, rest);
        assert WithoutPurges(events) == [e] + WithoutPurges(rest);
        assert ([e] + WithoutPurges(rest))[1..] == WithoutPurges(rest);
      }
    }
  }

  predicate NoPurge(events: seq<Event>) {
    forall i :: 0 <= i < |events| ==> !events[i].op.Purge?
  }

  lemma {:induction false} NothingToLeaveOut(c: Config, s: State, events: seq<Event>)
    requires NoPurge(events)
    ensures WithoutPurges(events) == events && PurgesAreSafe(c, s, events)
    decreases |events|
  {
    if events != [] {
      NothingToLeaveOut(c, Next(c, s, events[0]).0, events[1..]);
      assert events == [events[0]] + events[1..];
    }
  }

  lemma TidyUnobservableIffSafe(c: Config, s: State, now: int)
    requires Tidy(s)
    ensures PurgeIsSafe(s, now) <==>
            forall later :: NoPurge(later) && ClockFrom(now, later) ==>
              Seen(c, PurgeExpiredTokens(s, now), later) == Seen(c, s, later)
  {
    var purged := PurgeExpiredTokens(s, now);
    if PurgeIsSafe(s, now) {
      PurgeKeepsSim(s, s, now);
      forall later | NoPurge(later) && ClockFrom(now, later) ensures Seen(c, purged, later) == Seen(c, s, later) {
        NothingToLeaveOut(c, purged, later);
        PurgedRunLooksTheSame(c, purged, s, now, later);
      }
    } else {
      var call :| call in s.calls && Interferes(s, now, s.calls[call]);
      var later := [Event(now, Finish(call))];
      assert NoPurge(later) && ClockFrom(now, later);
      SeenOfOne(c, purged, later[0]);
      SeenOfOne(c, s, later[0]);
      FinishFindsTheRowGone(c, s, now, call);
    }
  }

  lemma SeenOfOne(c: Config, s: State, e: Event)
    requires !e.op.Purge?
    ensures Seen(c, s, [e]) == [Next(c, s, e).1]
  {
    assert Seen(c, Next(c, s, e).0, [e][1..]) == [];
  }

  lemma FinishFindsTheRowGone(c: Config, s: State, now: int, call: nat)
    requires call in s.calls && Interferes(s, now, s.calls[call])
    ensures Next(c, PurgeExpiredTokens(s, now), Event(now, Finish(call))).1 == ServerError
    ensures Next(c, s, Event(now, Finish(call))).1 != ServerError
  {
    var p := s.calls[call];
    match p
    case Refreshing(token, userId) =>
    case LoggingOut(token, found) =>
    case Verifying(token, userId, already) =>
    case Resetting(token, userId, password) =>
  }

  const NOBODY := State(map[], map[], map[], map[], map[], 0)

  lemma FinishKeepsTidy(c: Config, s: State, now: int, p: Pending)
    requires Tidy(s)
    ensures Tidy(FinishCall(c, s, now, p).0)
  {
  }

  lemma StepKeepsTidy(c: Config, s: State, e: Event)
    requires Tidy(s)
    ensures Tidy(Next(c, s, e).0)
  {
    match e.op
    case Finish(call) => if call in s.calls { FinishKeepsTidy(c, Over(s, call), e.now, s.calls[call]); }
    case _ =>
  }

  /** Every state of every run from nothing is tidy. */
  lemma {:induction false} RunsKeepTidy(c: Config, s: State, events: seq<Event>)
    requires Tidy(s)
    ensures Tidy(After(c, s, events))
    decreases |events|
  {
    if events != [] {
      StepKeepsTidy(c, s, events[0]);
      RunsKeepTidy(c, Next(c, s, events[0]).0, events[1..]);
    }
  }

  /** After any past, over the whole run that follows, the purges change nothing that any caller sees. */
  lemma PurgeIsUnobservable(c: Config, past: seq<Event>, now: int, events: seq<Event>)
    requires ClockFrom(now, events) && PurgesAreSafe(c, After(c, NOBODY, past), events)
    ensures Seen(c, After(c, NOBODY, past), events) == Seen(c, After(c, NOBODY, past), WithoutPurges(events))
  {
    RunsKeepTidy(c, NOBODY, past);
    PurgedRunLooksTheSame(c, After(c, NOBODY, past), After(c, NOBODY, past), now, events);
  }

  /**
   * After any past, a purge can be told from no purge by some later events exactly when it takes a
   * row from under a call in flight.
   */
  lemma UnobservableIffSafe(c: Config, past: seq<Event>, now: int)
    ensures PurgeIsSafe(After(c, NOBODY, past), now) <==>
            forall later :: NoPurge(later) && ClockFrom(now, later) ==>
              Seen(c, PurgeExpiredTokens(After(c, NOBODY, past), now), later) == Seen(c, After(c, NOBODY, past), later)
  {
    RunsKeepTidy(c, NOBODY, past);
    TidyUnobservableIffSafe(c, After(c, NOBODY, past), now);
  }

  lemma AfterTwo(c: Config, s: State, a: Event, b: Event)
    ensures After(c, s, [a, b]) == Next(c, Next(c, s, a).0, b).0
  {
    assert [a, b][1..] == [b] && [b][1..] == [];
    assert After(c, Next(c, s, a).0, [b]) == After(c, Next(c, Next(c, s, a).0, b).0, []);
  }

  /** A purge does meet such a call: a refresh read in the last moment of its token, a purge just after. */
  lemma RefreshInTheLastMoment(c: Config, userId: string, password: string)
    requires c.refreshMs >= 0
    ensures var events := [Event(0, Register(userId, password)), Event(c.refreshMs, BeginRefresh(0, 1))];
            ClockFrom(0, events) && !PurgeIsSafe(After(c, NOBODY, events), c.refreshMs + 1)
  {
    var a, b := Event(0, Register(userId, password)), Event(c.refreshMs, BeginRefresh(0, 1));
    AfterTwo(c, NOBODY, a, b);
    var s := Next(c, NOBODY, a).0;
    assert s.refresh == map[1 := Row(userId, c.refreshMs, false)] && UserOf(s, userId).active;
    var s' := Next(c, s, b).0;
    assert s'.calls[0] == Refreshing(1, userId) && Interferes(s', c.refreshMs + 1, s'.calls[0]);
    assert [a, b][1..] == [b] && [b][1..] == [];
  }

  /** The clock must not run backwards: a token purged at 10 would still be accepted at 3. */
  lemma BackwardClockShowsThePurge(c: Config)
    ensures exists s: State, e: Event ::
      Next(c, PurgeExpiredTokens(s, 10), e).1 != Next(c, s, e).1 && e.now == 3 && s.calls == map[]
  {
    var s := State(map["u" := User("p", true, true)], map[0 := Row("u", 5, false)], map[], map[], map[], 1);
    var e := Event(3, BeginRefresh(0, 0));
    assert 0 !in PurgeExpiredTokens(s, 10).refresh;
    assert Next(c, PurgeExpiredTokens(s, 10), e).1 == Unauthorized;
    assert Next(c, s, e).1 == Started;
  }

  // ------------------------------------------------------ what callers rely on

  predicate Accepts(c: Config, s: State, at: int, begin: Op) {
    Next(c, s, Event(at, begin)).1 == Started
  }

  /** Handed out before, and revoked or purged since. */
  predicate Revoked(s: State, token: nat) {
    token < s.next && (token in s.refresh ==> s.refresh[token].spent)
  }

  predicate SameSession(s: State, v: State, token: nat) {
    token in s.refresh && token in v.refresh && v.refresh[token] == s.refresh[token]
  }

  /** A session opened by a login, or for an address that was free. */
  predicate OpenedBy(s: State, op: Op, v: State, token: nat) {
    token in v.refresh && s.next <= token && (op.Login? || (op.Register? && op.userId !in s.users)) &&
    v.refresh[token].userId == op.userId
  }

  lemma RegisterSessions(c: Config, s: State, e: Event, token: nat)
    requires e.op.Register?
    ensures var v := Next(c, s, e).0;
            s.next <= v.next && s.users.Keys <= v.users.Keys && v.calls == s.calls &&
            (token in v.refresh ==> SameSession(s, v, token) || OpenedBy(s, e.op, v, token))
  {
  }

  lemma PurgeSessions(c: Config, s: State, e: Event, token: nat)
    requires e.op.Purge?
    ensures var v := Next(c, s, e).0;
            v.next == s.next && v.users == s.users && v.calls == s.calls &&
            (token in v.refresh ==> SameSession(s, v, token))
  {
  }

  /** Sessions change by no other step but the write half of a call. */
  lemma SessionStep(c: Config, s: State, e: Event, token: nat)
    requires !e.op.Finish?
    ensures var v := Next(c, s, e).0;
            s.next <= v.next && s.users.Keys <= v.users.Keys &&
            (token in v.refresh ==> SameSession(s, v, token) || OpenedBy(s, e.op, v, token))
  {
    match e.op
    case Register(_, _) => RegisterSessions(c, s, e, token);
    case Purge => PurgeSessions(c, s, e, token);
    case _ =>
  }

  lemma RevokedStep(c: Config, s: State, e: Event, token: nat)
    requires Revoked(s, token)
    ensures Revoked(Next(c, s, e).0, token)
  {
    if e.op.Finish? {
      if e.op.call in s.calls { FinishKeepsRevoked(c, Over(s, e.op.call), e.now, s.calls[e.op.call], token); }
    } else {
      SessionStep(c, s, e, token);
    }
  }

  lemma FinishKeepsRevoked(c: Config, s: State, now: int, p: Pending, token: nat)
    requires Revoked(s, token)
    ensures Revoked(FinishCall(c, s, now, p).0, token)
  {
  }

  /** A revoked session is never taken again, whatever happens later. */
  lemma {:induction false} RevokedIsFinal(c: Config, s: State, events: seq<Event>, token: nat, call: nat, at: int)
    requires Revoked(s, token)
    ensures Revoked(After(c, s, events), token)
    ensures !Accepts(c, After(c, s, events), at, BeginRefresh(call, token))
    decreases |events|
  {
    if events != [] {
      RevokedStep(c, s, events[0], token);
      RevokedIsFinal(c, Next(c, s, events[0]).0, events[1..], token, call, at);
    }
  }

  /** Rotation: the old token is revoked for good, the new one is taken until it expires and not after. */
  lemma RefreshRotates(c: Config, s: State, call: nat, token: nat, userId: string, now: int,
                       later: seq<Event>, k: nat, at: int)
    requires Tidy(s) && call in s.calls && s.calls[call] == Refreshing(token, userId) && token in s.refresh
    requires userId in s.users && s.users[userId].active && k !in s.calls
    ensures var (v, outcome) := Next(c, s, Event(now, Finish(call)));
            outcome == Tokens(s.next) && v.users == s.users && v.verify == s.verify && v.reset == s.reset &&
            Revoked(v, token) && !Accepts(c, After(c, v, later), at, BeginRefresh(k, token)) &&
            (Accepts(c, v, at, BeginRefresh(k, s.next)) <==> at <= now + c.refreshMs) &&
            forall t :: t in s.refresh && t != token ==> t in v.refresh && v.refresh[t] == s.refresh[t]
  {
    var v := Next(c, s, Event(now, Finish(call))).0;
    RevokedIsFinal(c, v, later, token, k, at);
  }

  /** After a logout the token is refused for good; the answer does not say whether there was one. */
  lemma LogoutRevokes(c: Config, s: State, call: nat, token: nat, now: int, then': int,
                      later: seq<Event>, k: nat, at: int)
    requires Tidy(s) && token < s.next && call !in s.calls
    ensures var u := Next(c, s, Event(now, BeginLogout(call, token))).0;
            var (v, outcome) := Next(c, u, Event(then', Finish(call)));
            outcome == Done && v.users == s.users && v.verify == s.verify && v.reset == s.reset &&
            v.refresh.Keys == s.refresh.Keys &&
            (forall t :: t in s.refresh && t != token ==> v.refresh[t] == s.refresh[t]) &&
            !Accepts(c, After(c, v, later), at, BeginRefresh(k, token))
  {
    var u := Next(c, s, Event(now, BeginLogout(call, token))).0;
    var v := Next(c, u, Event(then', Finish(call))).0;
    RevokedIsFinal(c, v, later, token, k, at);
  }

  /**
   * A password reset: the new password counts, the link is spent, and whatever happens later no
   * session that the user had is taken again. Other users' passwords, sessions and links stay.
   */
  lemma ResetEndsTheSessions(c: Config, s: State, call: nat, now: int, later: seq<Event>, k: nat, at: int, old': nat)
    requires Tidy(s) && call in s.calls && s.calls[call].Resetting? && s.calls[call].token in s.reset
    requires var userId := s.calls[call].userId;
             userId in s.users && old' in s.refresh && s.refresh[old'].userId == userId
    ensures var Resetting(token, userId, password) := s.calls[call];
            var (v, outcome) := Next(c, s, Event(now, Finish(call)));
            outcome == Done &&
            v.users == s.users[userId := s.users[userId].(password := password)] && v.verify == s.verify &&
            v.refresh.Keys == s.refresh.Keys && v.reset.Keys == s.reset.Keys &&
            (forall t :: t in s.refresh && s.refresh[t].userId != userId ==> v.refresh[t] == s.refresh[t]) &&
            (forall t :: t in s.reset && t != token ==> v.reset[t] == s.reset[t]) &&
            !Accepts(c, v, at, BeginReset(k, token, password)) &&
            !Accepts(c, After(c, v, later), at, BeginRefresh(k, old'))
  {
    var v := Next(c, s, Event(now, Finish(call))).0;
    RevokedIsFinal(c, v, later, old', k, at);
  }

  /** No session of the user can be refreshed. */
  predicate SignedOut(s: State, userId: string) {
    forall t :: t in s.refresh && s.refresh[t].userId == userId ==> s.refresh[t].spent
  }

  /** A refresh of the user has read a row that is still there, and has not been written. */
  predicate RefreshInFlight(s: State, userId: string) {
    exists call :: call in s.calls && RefreshOf(s, s.calls[call], userId)
  }

  predicate RefreshOf(s: State, p: Pending, userId: string) {
    p.Refreshing? && p.userId == userId && p.token in s.refresh
  }

  /** Tokens that calls remember have been handed out. */
  predicate Issued(s: State) {
    Tidy(s) && forall call :: call in s.calls && s.calls[call].Refreshing? ==> s.calls[call].token < s.next
  }

  lemma FinishKeepsCalls(c: Config, s: State, now: int, p: Pending)
    ensures FinishCall(c, s, now, p).0.calls == s.calls && s.next <= FinishCall(c, s, now, p).0.next
  {
  }

  lemma NextGrows(c: Config, s: State, e: Event)
    ensures s.next <= Next(c, s, e).0.next
  {
    if e.op.Finish? {
      if e.op.call in s.calls { FinishKeepsCalls(c, Over(s, e.op.call), e.now, s.calls[e.op.call]); }
    } else {
      SessionStep(c, s, e, 0);
    }
  }

  predicate Begins(op: Op) {
    op.BeginRefresh? || op.BeginLogout? || op.BeginVerify? || op.BeginReset?
  }

  lemma OnlyBeginsAddCalls(c: Config, s: State, e: Event)
    requires !Begins(e.op) && !e.op.Finish?
    ensures Next(c, s, e).0.calls == s.calls
  {
  }

  /** A refresh in flight was so before, or has just read a live token of its user. */
  lemma RefreshesBefore(c: Config, s: State, e: Event, call: nat)
    requires var v := Next(c, s, e).0; call in v.calls && v.calls[call].Refreshing?
    ensures var p := Next(c, s, e).0.calls[call];
            (call in s.calls && s.calls[call] == p) ||
            (e.op.BeginRefresh? && Next(c, s, e).0.refresh == s.refresh && p.token in s.refresh &&
             !s.refresh[p.token].spent && s.refresh[p.token].userId == p.userId)
  {
    if e.op.Finish? {
      if e.op.call in s.calls { FinishKeepsCalls(c, Over(s, e.op.call), e.now, s.calls[e.op.call]); }
    } else if !Begins(e.op) {
      OnlyBeginsAddCalls(c, s, e);
    }
  }

  lemma StepKeepsIssued(c: Config, s: State, e: Event)
    requires Issued(s)
    ensures Issued(Next(c, s, e).0)
  {
    StepKeepsTidy(c, s, e);
    NextGrows(c, s, e);
    var v := Next(c, s, e).0;
    forall call | call in v.calls && v.calls[call].Refreshing? ensures v.calls[call].token < v.next {
      RefreshesBefore(c, s, e, call);
    }
  }

  lemma {:induction false} RunsKeepIssued(c: Config, s: State, events: seq<Event>)
    requires Issued(s)
    ensures Issued(After(c, s, events))
    decreases |events|
  {
    if events != [] {
      StepKeepsIssued(c, s, events[0]);
      RunsKeepIssued(c, Next(c, s, events[0]).0, events[1..]);
    }
  }

  predicate NoLogin(events: seq<Event>, userId: string) {
    forall i :: 0 <= i < |events| ==> !(events[i].op.Login? && events[i].op.userId == userId)
  }

  lemma FinishKeepsSignedOut(c: Config, s: State, now: int, p: Pending, userId: string)
    requires Tidy(s) && SignedOut(s, userId) && !RefreshOf(s, p, userId)
    ensures SignedOut(FinishCall(c, s, now, p).0, userId)
    ensures forall t :: t in FinishCall(c, s, now, p).0.refresh && t < s.next ==> t in s.refresh
  {
  }

  lemma SignedOutTables(c: Config, s: State, e: Event, userId: string)
    requires Issued(s) && userId in s.users && SignedOut(s, userId) && !RefreshInFlight(s, userId)
    requires !(e.op.Login? && e.op.userId == userId)
    ensures var v := Next(c, s, e).0;
            userId in v.users && SignedOut(v, userId) && forall t :: t in v.refresh && t < s.next ==> t in s.refresh
  {
    if e.op.Finish? {
      if e.op.call in s.calls {
        assert !RefreshOf(s, s.calls[e.op.call], userId);
        FinishKeepsSignedOut(c, Over(s, e.op.call), e.now, s.calls[e.op.call], userId);
      }
    } else {
      var v := Next(c, s, e).0;
      SessionStep(c, s, e, 0);
      forall t | t in v.refresh ensures SameSession(s, v, t) || OpenedBy(s, e.op, v, t) { SessionStep(c, s, e, t); }
    }
  }

  lemma SignedOutStep(c: Config, s: State, e: Event, userId: string)
    requires Issued(s) && userId in s.users && SignedOut(s, userId) && !RefreshInFlight(s, userId)
    requires !(e.op.Login? && e.op.userId == userId)
    ensures var v := Next(c, s, e).0; userId in v.users && SignedOut(v, userId) && !RefreshInFlight(v, userId)
  {
    var v := Next(c, s, e).0;
    SignedOutTables(c, s, e, userId);
    forall call | call in v.calls ensures !RefreshOf(v, v.calls[call], userId) {
      if v.calls[call].Refreshing? {
        RefreshesBefore(c, s, e, call);
        if call in s.calls { assert !RefreshOf(s, s.calls[call], userId); }
      }
    }
  }

  lemma {:induction false} SignedOutStays(c: Config, s: State, events: seq<Event>, userId: string)
    requires Issued(s) && userId in s.users && SignedOut(s, userId) && !RefreshInFlight(s, userId)
    requires NoLogin(events, userId)
    ensures SignedOut(After(c, s, events), userId)
    decreases |events|
  {
    if events != [] {
      SignedOutStep(c, s, events[0], userId);
      StepKeepsIssued(c, s, events[0]);
      SignedOutStays(c, Next(c, s, events[0]).0, events[1..], userId);
    }
  }

  /**
   * A reset signs the user out everywhere. It lasts until the next login with the new password
   * exactly when no refresh of that user was in flight: its write issues a session after the reset.
   */
  lemma ResetLastsIffNoRefreshInFlight(c: Config, past: seq<Event>, call: nat, now: int)
    requires var s := After(c, NOBODY, past);
             call in s.calls && s.calls[call].Resetting? && s.calls[call].token in s.reset
    ensures var s := After(c, NOBODY, past);
            var userId, v := s.calls[call].userId, Next(c, s, Event(now, Finish(call))).0;
            SignedOut(v, userId) &&
            ((forall later :: NoLogin(later, userId) ==> SignedOut(After(c, v, later), userId))
             <==> !RefreshInFlight(s, userId))
  {
    var s := After(c, NOBODY, past);
    var userId, v := s.calls[call].userId, Next(c, s, Event(now, Finish(call))).0;
    RunsKeepIssued(c, NOBODY, past);
    StepKeepsIssued(c, s, Event(now, Finish(call)));
    if RefreshInFlight(s, userId) {
      var other :| other in s.calls && RefreshOf(s, s.calls[other], userId);
      var last := Event(now, Finish(other));
      assert [last][1..] == [] && After(c, v, [last]) == After(c, Next(c, v, last).0, []);
      assert v.next in Next(c, v, last).0.refresh;
      assert NoLogin([last], userId) && !SignedOut(After(c, v, [last]), userId);
    } else {
      forall k | k in v.calls ensures !RefreshOf(v, v.calls[k], userId) {
        assert !RefreshOf(s, s.calls[k], userId);
      }
      forall later | NoLogin(later, userId) ensures SignedOut(After(c, v, later), userId) {
        SignedOutStays(c, v, later, userId);
      }
    }
  }

  lemma AfterFour(c: Config, s: State, a: Event, b: Event, d: Event, e: Event)
    ensures After(c, s, [a, b, d, e]) == Next(c, Next(c, Next(c, Next(c, s, a).0, b).0, d).0, e).0
  {
    assert [a, b, d, e][1..] == [b, d, e] && [b, d, e][1..] == [d, e];
    AfterTwo(c, Next(c, Next(c, s, a).0, b).0, d, e);
  }

  /** It does happen: a session is being refreshed while the password is reset. */
  lemma RefreshOverlapsReset(c: Config, userId: string, password: string, other: string)
    requires c.refreshMs >= 0
    ensures var s := After(c, NOBODY, [Event(0, Register(userId, password)), Event(0, Forgot(userId)),
                                       Event(0, BeginRefresh(0, 1)), Event(0, BeginReset(1, 2, other))]);
            1 in s.calls && s.calls[1] == Resetting(2, userId, other) && 2 in s.reset && RefreshInFlight(s, userId)
  {
    var a, b := Event(0, Register(userId, password)), Event(0, Forgot(userId));
    var d, e := Event(0, BeginRefresh(0, 1)), Event(0, BeginReset(1, 2, other));
    AfterFour(c, NOBODY, a, b, d, e);
    var s1 := Next(c, NOBODY, a).0;
    assert s1.refresh == map[1 := Row(userId, c.refreshMs, false)] && s1.next == 2 && UserOf(s1, userId).active;
    var s2 := Next(c, s1, b).0;
    assert s2.reset[2] == Row(userId, HOUR_MS, false) && s2.refresh == s1.refresh && s2.calls == map[];
    var s3 := Next(c, s2, d).0;
    assert s3.calls == map[0 := Refreshing(1, userId)];
    var s4 := Next(c, s3, e).0;
    assert 0 in s4.calls && RefreshOf(s4, s4.calls[0], userId);
  }

  /** A verification link: it verifies its user, and no link of the user is taken after it. Others' are. */
  lemma VerifyingUsesUpTheLinks(c: Config, s: State, call: nat, now: int, k: nat, at: int, link: nat)
    requires call in s.calls && s.calls[call].Verifying? && !s.calls[call].already && s.calls[call].userId in s.users
    requires k !in s.calls
    ensures var userId := s.calls[call].userId;
            var (v, outcome) := Next(c, s, Event(now, Finish(call)));
            outcome == Verified(false) && v.refresh == s.refresh && v.reset == s.reset &&
            v.users == s.users[userId := s.users[userId].(verified := true)] &&
            (Accepts(c, v, at, BeginVerify(k, link)) <==>
             link in s.verify && s.verify[link].userId != userId && at <= s.verify[link].expiresAt)
  {
  }

  /** A new verification link replaces the user's earlier ones and works for 24 hours. */
  lemma OnlyTheNewestLinkVerifies(c: Config, s: State, userId: string, now: int, k: nat, at: int, link: nat)
    requires userId in s.users && !s.users[userId].verified && k !in s.calls
    ensures var (v, outcome) := Next(c, s, Event(now, Resend(userId)));
            outcome == Mailed(s.next) && v.users == s.users && v.refresh == s.refresh && v.reset == s.reset &&
            (Accepts(c, v, at, BeginVerify(k, link)) <==>
             if link == s.next then at <= now + 24 * 3600 * 1000
             else link in s.verify && s.verify[link].userId != userId && at <= s.verify[link].expiresAt)
  {
  }

  /** A new reset link replaces the user's earlier ones and works for an hour. */
  lemma OnlyTheNewestLinkResets(c: Config, s: State, userId: string, now: int, k: nat, at: int, link: nat,
                                password: string)
    requires userId in s.users && k !in s.calls
    ensures var (v, outcome) := Next(c, s, Event(now, Forgot(userId)));
            outcome == Mailed(s.next) && v.users == s.users && v.refresh == s.refresh && v.verify == s.verify &&
            (Accepts(c, v, at, BeginReset(k, link, password)) <==>
             if link == s.next then at <= now + 3600 * 1000
             else link in s.reset && s.reset[link].userId != userId && !s.reset[link].spent &&
                  at <= s.reset[link].expiresAt)
  {
  }

  /**
   * From registration to the first session: the password given is the one that logs in, the mailed
   * link verifies for 24 hours, and the session lasts as configured. An address is taken once.
   */
  lemma RegistrationOpensTheAccount(c: Config, s: State, userId: string, password: string, now: int, k: nat, at: int,
                                    guess: string)
    requires Tidy(s) && userId !in s.users && k !in s.calls
    ensures var (v, outcome) := Next(c, s, Event(now, Register(userId, password)));
            outcome == Registered(s.next + 1, s.next) &&
            (Accepts(c, v, at, BeginVerify(k, s.next)) <==> at <= now + 24 * 3600 * 1000) &&
            (Accepts(c, v, at, BeginRefresh(k, s.next + 1)) <==> at <= now + c.refreshMs) &&
            !v.users[userId].verified &&
            (Next(c, v, Event(at, Login(userId, guess))).1.Tokens? <==> guess == password) &&
            Next(c, v, Event(at, Register(userId, guess))).1 == Conflict
  {
  }

  /** A login issues a session for as long as configured, with the right password and an active account. */
  lemma LoginOpensASession(c: Config, s: State, userId: string, password: string, now: int, k: nat, at: int)
    requires Tidy(s) && k !in s.calls
    ensures var (v, outcome) := Next(c, s, Event(now, Login(userId, password)));
            (outcome == Tokens(s.next) <==>
             userId in s.users && s.users[userId].password == password && s.users[userId].active) &&
            (outcome == Tokens(s.next) ==>
              (Accepts(c, v, at, BeginRefresh(k, s.next)) <==> at <= now + c.refreshMs) &&
              v.refresh == s.refresh[s.next := v.refresh[s.next]] && v.users == s.users) &&
            (outcome != Tokens(s.next) ==> v == s)
  {
  }

  // ----------------------------------------------------- one call on its own

  /** The read half at `now` and the write half at `later`, with nothing in between. */
  function Uninterrupted(c: Config, s: State, now: int, begin: Op, later: int): (State, Outcome) {
    var (s', outcome) := Next(c, s, Event(now, begin));
    if outcome == Started then Next(c, s', Event(later, Finish(0))) else (s', outcome)
  }

  /** The service over its tables, one call at a time. */
  class AuthService {
    const config: Config
    var users: map<string, User>
    var refreshTokens: Table
    var verificationTokens: Table
    var resetTokens: Table
    var next: nat

    constructor (config: Config)
      ensures this.config == config && Snapshot() == State(map[], map[], map[], map[], map[], 0)
    {
      this.config, users, refreshTokens, verificationTokens, resetTokens, next := config, map[], map[], map[], map[], 0;
    }

    function Snapshot(): State
      reads this
    {
      State(users, refreshTokens, verificationTokens, resetTokens, map[], next)
    }

    method IssueRefreshToken(userId: string, now: int) returns (token: nat)
      modifies `refreshTokens, `next
      ensures Snapshot() == IssueRefresh(config, old(Snapshot()), now, userId) && token == old(next)
    {
      token := next;
      refreshTokens := refreshTokens[token := Row(userId, now + config.refreshMs, false)];
      next := next + 1;
    }

    method Refresh(token: nat, now: int, later: int) returns (outcome: Outcome)
      modifies this
      ensures (Snapshot(), outcome) == Uninterrupted(config, old(Snapshot()), now, BeginRefresh(0, token), later)
      ensures outcome.Tokens? <==>
                token in old(refreshTokens) && !old(refreshTokens)[token].spent &&
                now <= old(refreshTokens)[token].expiresAt && old(refreshTokens)[token].userId in old(users) &&
                old(users)[old(refreshTokens)[token].userId].active
      ensures outcome.Tokens? ==>
                var was := old(refreshTokens)[token];
                outcome.refreshToken == old(next) && next == old(next) + 1 &&
                refreshTokens == old(refreshTokens)[token := was.(spent := true)]
                                                   [old(next) := Row(was.userId, later + config.refreshMs, false)]
      ensures !outcome.Tokens? ==> outcome in {Unauthorized, Forbidden} && Snapshot() == old(Snapshot())
    {
      if token !in refreshTokens || refreshTokens[token].spent || refreshTokens[token].expiresAt < now {
        return Unauthorized;
      }
      var stored := refreshTokens[token];
      if stored.userId !in users || !users[stored.userId].active { return Forbidden; }
      refreshTokens := refreshTokens[token := stored.(spent := true)];
      var issued := IssueRefreshToken(stored.userId, later);
      assert map[0 := Refreshing(token, stored.userId)] - {0} == map[];
      return Tokens(issued);
    }

    method Logout(token: nat, now: int, later: int) returns (outcome: Outcome)
      modifies `refreshTokens
      ensures (Snapshot(), outcome) == Uninterrupted(config, old(Snapshot()), now, BeginLogout(0, token), later)
      ensures outcome == Done && (token in refreshTokens ==> refreshTokens[token].spent)
      ensures refreshTokens.Keys == old(refreshTokens).Keys
      ensures forall t :: t in refreshTokens && t != token ==> refreshTokens[t] == old(refreshTokens)[t]
    {
      assert map[0 := LoggingOut(token, token in refreshTokens && !refreshTokens[token].spent)] - {0} == map[];
      if token in refreshTokens && !refreshTokens[token].spent {
        refreshTokens := refreshTokens[token := refreshTokens[token].(spent := true)];
      }
      return Done;
    }

    method VerifyEmail(token: nat, now: int, later: int) returns (outcome: Outcome)
      requires token in verificationTokens ==> verificationTokens[token].userId in users
      modifies this
      ensures (Snapshot(), outcome) == Uninterrupted(config, old(Snapshot()), now, BeginVerify(0, token), later)
      ensures outcome == BadRequest <==>
                (token in old(verificationTokens) ==> old(verificationTokens)[token].expiresAt < now)
      ensures outcome == BadRequest ==> Snapshot() == old(Snapshot())
      ensures outcome != BadRequest ==>
                var owner := old(verificationTokens)[token].userId;
                outcome == Verified(old(users)[owner].verified) &&
                users == old(users)[owner := old(users)[owner].(verified := true)] &&
                forall t :: Lookup(verificationTokens, t)
                  == if t in old(verificationTokens) && t != token &&
                        (old(verificationTokens)[t].userId != owner || old(users)[owner].verified)
                     then Some(old(verificationTokens)[t]) else None
    {
      if token !in verificationTokens || verificationTokens[token].expiresAt < now { return BadRequest; }
      var record := verificationTokens[token];
      assert map[0 := Verifying(token, record.userId, users[record.userId].verified)] - {0} == map[];
      if users[record.userId].verified {
        verificationTokens := verificationTokens - {token};
        return Verified(true);
      }
      users := users[record.userId := users[record.userId].(verified := true)];
      verificationTokens := WithoutUser(verificationTokens, record.userId);
      return Verified(false);
    }

    method ForgotPassword(userId: string, now: int) returns (outcome: Outcome)
      modifies `resetTokens, `next
      ensures (Snapshot(), outcome) == Next(config, old(Snapshot()), Event(now, Forgot(userId)))
      ensures userId !in users ==> outcome == Done && Snapshot() == old(Snapshot())
      ensures userId in users ==>
                outcome == Mailed(old(next)) &&
                forall t :: Lookup(resetTokens, t)
                  == if t == old(next) then Some(Row(userId, now + 3600 * 1000, false))
                     else if t in old(resetTokens) && old(resetTokens)[t].userId != userId
                     then Some(old(resetTokens)[t]) else None
    {
      if userId !in users { return Done; }
      resetTokens := WithoutUser(resetTokens, userId);
      resetTokens := resetTokens[next := Row(userId, now + HOUR_MS, false)];
      next := next + 1;
      return Mailed(next - 1);
    }

    method ResetPassword(token: nat, password: string, now: int, later: int) returns (outcome: Outcome)
      requires token in resetTokens ==> resetTokens[token].userId in users
      modifies this
      ensures (Snapshot(), outcome) == Uninterrupted(config, old(Snapshot()), now, BeginReset(0, token, password),
                                                     later)
      ensures outcome == Done <==>
                token in old(resetTokens) && !old(resetTokens)[token].spent && now <= old(resetTokens)[token].expiresAt
      ensures outcome == Done ==>
                var owner := old(resetTokens)[token].userId;
                users == old(users)[owner := old(users)[owner].(password := password)] &&
                resetTokens == old(resetTokens)[token := old(resetTokens)[token].(spent := true)] &&
                refreshTokens.Keys == old(refreshTokens).Keys &&
                forall t :: t in refreshTokens ==>
                  var was := old(refreshTokens)[t];
                  refreshTokens[t] == if was.userId == owner then was.(spent := true) else was
      ensures outcome != Done ==> outcome == BadRequest && Snapshot() == old(Snapshot())
    {
      if token !in resetTokens || resetTokens[token].spent || resetTokens[token].expiresAt < now { return BadRequest; }
      var record := resetTokens[token];
      users := users[record.userId := users[record.userId].(password := password)];
      resetTokens := resetTokens[token := record.(spent := true)];
      refreshTokens := SpendUser(refreshTokens, record.userId);
      assert map[0 := Resetting(token, record.userId, password)] - {0} == map[];
      return Done;
    }

    method Purge(now: int)
      modifies `refreshTokens, `verificationTokens, `resetTokens
      ensures Snapshot() == PurgeExpiredTokens(old(Snapshot()), now)
      ensures forall t :: t in refreshTokens <==>
        t in old(refreshTokens) && !old(refreshTokens)[t].spent && old(refreshTokens)[t].expiresAt >= now
      ensures forall t :: t in verificationTokens <==>
        t in old(verificationTokens) && old(verificationTokens)[t].expiresAt >= now
      ensures forall t :: t in resetTokens <==>
        t in old(resetTokens) && !old(resetTokens)[t].spent && old(resetTokens)[t].expiresAt >= now
      ensures forall t :: t in refreshTokens ==> refreshTokens[t] == old(refreshTokens)[t]
      ensures forall t :: t in verificationTokens ==> verificationTokens[t] == old(verificationTokens)[t]
      ensures forall t :: t in resetTokens ==> resetTokens[t] == old(resetTokens)[t]
    {
      var refresh, verify, reset := refreshTokens, verificationTokens, resetTokens;
      refreshTokens := map t | t in refresh && !(refresh[t].expiresAt < now || refresh[t].spent) :: refresh[t];
      verificationTokens := map t | t in verify && !(verify[t].expiresAt < now) :: verify[t];
      resetTokens := map t | t in reset && !(reset[t].expiresAt < now || reset[t].spent) :: reset[t];
    }
  }
}
