/**
 * Hosted checkout: one remote customer per user and one remote session per attempt, although
 * callers race and may crash between the remote create and the local write. The provider is a
 * map from idempotency key to the object it created under that key.
 */
module Checkout {
  import opened Prelude

  const BILLING_CHECKOUT_TTL_MS: int := 23 * 60 * 60 * 1000

  datatype Remote =
    | Customer(id: string, userId: string)
    | Session(id: string, url: string, expiresAtUnix: Option<int>)

  datatype CheckoutStatus = OPEN | COMPLETE | EXPIRED | CANCELED

  datatype Attempt = Attempt(
    userId: string,
    sessionId: Option<string>,
    url: Option<string>,
    status: CheckoutStatus,
    expiresAt: int)

  /** Where a caller stands; `now` is its own clock, `cust` the customer it resolved. */
  datatype Caller =
    | FindingCustomer(user: string, now: int)
    | CreatingCustomer(user: string, now: int)
    | SavingCustomer(user: string, cust: string, now: int)
    | RereadingCustomer(user: string, now: int)
    | Expiring(user: string, cust: string, now: int)
    | FindingOpen(user: string, cust: string, now: int)
    | Claiming(user: string, cust: string, now: int)
    | RefindingOpen(user: string, cust: string, now: int)
    | Opening(user: string, row: string, now: int)
    | Saving(row: string, session: Remote, now: int)
    | Canceling(row: string)
    | Done(row: string, sessionId: string, url: string)

  datatype Tables = Tables(
    remote: map<string, Remote>,
    customers: map<string, string>,
    attempts: map<string, Attempt>)

  datatype World = World(t: Tables, callers: map<nat, Caller>)

  datatype Step =
    | Start(k: nat, user: string, now: int)
    | FindCustomer(k: nat)
    | CreateCustomer(k: nat, freshId: string)
    | SaveCustomer(k: nat)
    | RereadCustomer(k: nat)
    | ExpireStale(k: nat)
    | FindOpen(k: nat, found: Option<string>)
    | ClaimRow(k: nat, freshRow: string)
    | OpenSession(k: nat, made: Remote)
    | RefuseSession(k: nat)
    | SaveSession(k: nat)
    | CancelRow(k: nat)
    | Crash(k: nat)
    | MarkSession(sessionId: string, status: CheckoutStatus)

  const CUSTOMER_PREFIX := "billing-customer:stripe:"
  const CHECKOUT_PREFIX := "billing-checkout:"

  function CustomerKey(user: string): string { CUSTOMER_PREFIX + user }

  function CheckoutKey(row: string): string { CHECKOUT_PREFIX + row }

  /** Keys of different users, of different attempts, and of the two kinds never meet. */
  lemma KeysAreInjective(a: string, b: string)
    ensures CustomerKey(a) == CustomerKey(b) ==> a == b
    ensures CheckoutKey(a) == CheckoutKey(b) ==> a == b
    ensures CustomerKey(a) != CheckoutKey(b)
  {
    assert CustomerKey(a)[|CUSTOMER_PREFIX|..] == a && CustomerKey(b)[|CUSTOMER_PREFIX|..] == b;
    assert CheckoutKey(a)[|CHECKOUT_PREFIX|..] == a && CheckoutKey(b)[|CHECKOUT_PREFIX|..] == b;
    assert CustomerKey(a)[9] == 'u' && CheckoutKey(b)[9] == 'h';
  }

  predicate Complete(a: Attempt) {
    a.url.Some? && a.url.value != "" && a.sessionId.Some? && a.sessionId.value != ""
  }

  predicate IsOpenFor(attempts: map<string, Attempt>, row: string, user: string, now: int) {
    row in attempts && attempts[row].userId == user && attempts[row].status.OPEN? && attempts[row].expiresAt > now
  }

  /** The partial unique index: at most one OPEN attempt per user. */
  predicate HasOtherOpen(attempts: map<string, Attempt>, user: string, row: string) {
    exists r :: r in attempts && r != row && attempts[r].userId == user && attempts[r].status.OPEN?
  }

  function Expired(attempts: map<string, Attempt>, user: string, now: int): map<string, Attempt> {
    map r | r in attempts ::
      if attempts[r].userId == user && attempts[r].status.OPEN? && attempts[r].expiresAt <= now
      then attempts[r].(status := EXPIRED) else attempts[r]
  }

  function Marked(attempts: map<string, Attempt>, sessionId: string, status: CheckoutStatus): map<string, Attempt> {
    map r | r in attempts ::
      if attempts[r].sessionId == Some(sessionId) then attempts[r].(status := status) else attempts[r]
  }

  function Attached(a: Attempt, s: Remote, now: int): Attempt
    requires s.Session?
  {
    a.(sessionId := Some(s.id), url := Some(s.url), status := OPEN,
       expiresAt := if s.expiresAtUnix.Some? then s.expiresAtUnix.value * 1000 else now + BILLING_CHECKOUT_TTL_MS)
  }

  function NewAttempt(user: string, now: int): Attempt {
    Attempt(user, None, None, OPEN, now + BILLING_CHECKOUT_TTL_MS)
  }

  predicate FreshId(remote: map<string, Remote>, id: string) {
    forall key :: key in remote ==> remote[key].id != id
  }

  /** The provider: the object of the key, created on first use. */
  function Made(remote: map<string, Remote>, key: string, made: Remote): map<string, Remote> {
    if key in remote then remote else remote[key := made]
  }

  predicate IsAnswer(attempts: map<string, Attempt>, found: Option<string>, user: string, now: int) {
    if found.Some? then IsOpenFor(attempts, found.value, user, now)
    else forall r :: r in attempts ==> !IsOpenFor(attempts, r, user, now)
  }

  /** A step that the situation rules out changes nothing. */
  predicate Enabled(t: Tables, c: Caller, step: Step) {
    match step
    case FindCustomer(_) => c.FindingCustomer?
    case CreateCustomer(_, freshId) =>
      c.CreatingCustomer? && (CustomerKey(c.user) in t.remote || FreshId(t.remote, freshId))
    case SaveCustomer(_) => c.SavingCustomer?
    case RereadCustomer(_) => c.RereadingCustomer?
    case ExpireStale(_) => c.Expiring?
    case FindOpen(_, found) => (c.FindingOpen? || c.RefindingOpen?) && IsAnswer(t.attempts, found, c.user, c.now)
    case ClaimRow(_, freshRow) => c.Claiming? && freshRow !in t.attempts
    case OpenSession(_, made) =>
      c.Opening? && made.Session? && (CheckoutKey(c.row) in t.remote || FreshId(t.remote, made.id))
    case RefuseSession(_) => c.Opening?
    case SaveSession(_) => c.Saving? && c.row in t.attempts && c.session.Session?
    case CancelRow(_) => c.Canceling?
    case Crash(_) => true
    case _ => false
  }

  /** What the step of a caller does to the database and the provider. */
  function TablesNext(t: Tables, c: Caller, step: Step): Tables
    requires Enabled(t, c, step)
  {
    match step
    case CreateCustomer(_, freshId) => t.(remote := Made(t.remote, CustomerKey(c.user), Customer(freshId, c.user)))
    case SaveCustomer(_) => if c.user in t.customers then t else t.(customers := t.customers[c.user := c.cust])
    case ExpireStale(_) => t.(attempts := Expired(t.attempts, c.user, c.now))
    case ClaimRow(_, freshRow) =>
      if HasOtherOpen(t.attempts, c.user, freshRow) then t
      else t.(attempts := t.attempts[freshRow := NewAttempt(c.user, c.now)])
    case OpenSession(_, made) => t.(remote := Made(t.remote, CheckoutKey(c.row), made))
    case SaveSession(_) =>
      if HasOtherOpen(t.attempts, t.attempts[c.row].userId, c.row) then t
      else t.(attempts := t.attempts[c.row := Attached(t.attempts[c.row], c.session, c.now)])
    case CancelRow(_) =>
      if c.row in t.attempts && t.attempts[c.row].status.OPEN? && t.attempts[c.row].sessionId.None?
      then t.(attempts := t.attempts[c.row := t.attempts[c.row].(status := CANCELED)]) else t
    case _ => t
  }

  /** What a caller does with the open attempt it was given. */
  function WithRow(t: Tables, row: string, user: string, now: int): Caller
    requires row in t.attempts
  {
    var a := t.attempts[row];
    if Complete(a) then Done(row, a.sessionId.value, a.url.value) else Opening(user, row, now)
  }

  /** Where the caller stands after its step; None when it has thrown or crashed. */
  function CallerNext(t: Tables, c: Caller, step: Step): Option<Caller>
    requires Enabled(t, c, step)
  {
    match step
    case FindCustomer(_) =>
      if c.user in t.customers then Some(Expiring(c.user, t.customers[c.user], c.now))
      else Some(CreatingCustomer(c.user, c.now))
    case CreateCustomer(_, freshId) =>
      var key := CustomerKey(c.user);
      Some(SavingCustomer(c.user, if key in t.remote then t.remote[key].id else freshId, c.now))
    case SaveCustomer(_) =>
      if c.user in t.customers then Some(RereadingCustomer(c.user, c.now)) else Some(Expiring(c.user, c.cust, c.now))
    case RereadCustomer(_) =>
      if c.user in t.customers then Some(Expiring(c.user, t.customers[c.user], c.now)) else None
    case ExpireStale(_) => Some(FindingOpen(c.user, c.cust, c.now))
    case FindOpen(_, found) =>
      if found.Some? then Some(WithRow(t, found.value, c.user, c.now))
      else if c.FindingOpen? then Some(Claiming(c.user, c.cust, c.now)) else None
    case ClaimRow(_, freshRow) =>
      if HasOtherOpen(t.attempts, c.user, freshRow) then Some(RefindingOpen(c.user, c.cust, c.now))
      else Some(Opening(c.user, freshRow, c.now))
    case OpenSession(_, made) =>
      var key := CheckoutKey(c.row);
      Some(Saving(c.row, if key in t.remote then t.remote[key] else made, c.now))
    case RefuseSession(_) => Some(Canceling(c.row))
    case SaveSession(_) =>
      if HasOtherOpen(t.attempts, t.attempts[c.row].userId, c.row) then None
      else Some(Done(c.row, c.session.id, c.session.url))
    case _ => None
  }

  function Next(w: World, step: Step): World {
    match step
    case Start(k, user, now) =>
      if k in w.callers then w else w.(callers := w.callers[k := FindingCustomer(user, now)])
    case MarkSession(sessionId, status) =>
      if status.OPEN? then w else w.(t := w.t.(attempts := Marked(w.t.attempts, sessionId, status)))
    case _ =>
      if step.k !in w.callers || !Enabled(w.t, w.callers[step.k], step) then w
      else
        var c := CallerNext(w.t, w.callers[step.k], step);
        World(TablesNext(w.t, w.callers[step.k], step),
              if c.Some? then w.callers[step.k := c.value] else w.callers - {step.k})
  }

  function Run(w: World, steps: seq<Step>): World {
    if steps == [] then w else Next(Run(w, steps[..|steps| - 1]), steps[|steps| - 1])
  }

  // -------------------------------------------------------------- invariants

  predicate KeyedRight(attempts: map<string, Attempt>, key: string, made: Remote) {
    match made
    case Customer(_, user) => key == CustomerKey(user)
    case Session(_, _, _) =>
      |key| >= |CHECKOUT_PREFIX| && key == CheckoutKey(key[|CHECKOUT_PREFIX|..]) && key[|CHECKOUT_PREFIX|..] in attempts
  }

  /** Every remote object was created under the key of its own user or attempt. */
  predicate RemoteKeyed(t: Tables) {
    forall key :: key in t.remote ==> KeyedRight(t.attempts, key, t.remote[key])
  }

  predicate IsSessionOf(t: Tables, row: string, sessionId: string, url: string) {
    row in t.attempts && CheckoutKey(row) in t.remote &&
    t.remote[CheckoutKey(row)].Session? && t.remote[CheckoutKey(row)].id == sessionId &&
    t.remote[CheckoutKey(row)].url == url
  }

  predicate IsCustomerOf(t: Tables, user: string, cust: string) {
    CustomerKey(user) in t.remote && t.remote[CustomerKey(user)] == Customer(cust, user)
  }

  predicate RowAttached(t: Tables, r: string)
    requires r in t.attempts
  {
    t.attempts[r].sessionId.Some? ==>
      t.attempts[r].url.Some? && IsSessionOf(t, r, t.attempts[r].sessionId.value, t.attempts[r].url.value)
  }

  /** The unique index holds: a user's OPEN attempts are one. */
  predicate OneOpenPerUser(attempts: map<string, Attempt>) {
    forall r :: r in attempts && attempts[r].status.OPEN? ==> !HasOtherOpen(attempts, attempts[r].userId, r)
  }

  predicate TablesInv(t: Tables) {
    RemoteKeyed(t) &&
    (forall r :: r in t.attempts ==> RowAttached(t, r)) &&
    (forall u :: u in t.customers ==> IsCustomerOf(t, u, t.customers[u])) &&
    OneOpenPerUser(t.attempts)
  }

  predicate CallerOk(t: Tables, c: Caller) {
    match c
    case FindingCustomer(_, _) => true
    case CreatingCustomer(_, _) => true
    case RereadingCustomer(_, _) => true
    case Opening(_, row, _) => row in t.attempts
    case Saving(row, session, _) => session.Session? && IsSessionOf(t, row, session.id, session.url)
    case Canceling(row) => row in t.attempts
    case Done(row, sessionId, url) => IsSessionOf(t, row, sessionId, url)
    case _ => IsCustomerOf(t, c.user, c.cust)
  }

  predicate Inv(w: World) {
    TablesInv(w.t) && forall k :: k in w.callers ==> CallerOk(w.t, w.callers[k])
  }

  /** What no step takes back: remote objects, customers, attempts, attached sessions. */
  predicate Grows(t: Tables, v: Tables) {
    (forall key :: key in t.remote ==> key in v.remote && v.remote[key] == t.remote[key]) &&
    (forall u :: u in t.customers ==> u in v.customers && v.customers[u] == t.customers[u]) &&
    (forall r :: r in t.attempts ==> r in v.attempts && Keeps(t.attempts[r], v.attempts[r]))
  }

  predicate Keeps(a: Attempt, b: Attempt) {
    b.userId == a.userId && (a.sessionId.Some? ==> b.sessionId == a.sessionId && b.url == a.url)
  }

  lemma RemoteStep(t: Tables, key: string, made: Remote)
    requires TablesInv(t) && KeyedRight(t.attempts, key, made)
    ensures var v := t.(remote := Made(t.remote, key, made)); TablesInv(v) && Grows(t, v)
  {
  }

  /** Status changes that open nothing keep the tables in order. */
  lemma StatusStep(t: Tables, attempts: map<string, Attempt>)
    requires TablesInv(t) && attempts.Keys == t.attempts.Keys
    requires forall r :: r in attempts ==>
      attempts[r] == t.attempts[r] ||
      (!attempts[r].status.OPEN? && attempts[r] == t.attempts[r].(status := attempts[r].status))
    ensures var v := t.(attempts := attempts); TablesInv(v) && Grows(t, v)
  {
    var v := t.(attempts := attempts);
    forall r | r in attempts ensures RowAttached(v, r) { assert RowAttached(t, r); }
    forall key | key in v.remote ensures KeyedRight(attempts, key, v.remote[key]) {
      assert KeyedRight(t.attempts, key, t.remote[key]);
    }
  }

  /** Writing one row that keeps what it had, under the unique index. */
  lemma RowStep(t: Tables, row: string, a: Attempt)
    requires TablesInv(t) && !HasOtherOpen(t.attempts, a.userId, row)
    requires row in t.attempts ==> Keeps(t.attempts[row], a)
    requires RowAttached(t.(attempts := t.attempts[row := a]), row)
    ensures var v := t.(attempts := t.attempts[row := a]); TablesInv(v) && Grows(t, v)
  {
    var v := t.(attempts := t.attempts[row := a]);
    forall r | r in v.attempts ensures RowAttached(v, r) {
      if r != row { assert RowAttached(t, r); }
    }
    forall key | key in v.remote ensures KeyedRight(v.attempts, key, v.remote[key]) {
      assert KeyedRight(t.attempts, key, t.remote[key]);
    }
    forall r | r in v.attempts && v.attempts[r].status.OPEN?
      ensures !HasOtherOpen(v.attempts, v.attempts[r].userId, r)
    {
      if r != row { assert !HasOtherOpen(t.attempts, t.attempts[r].userId, r); }
    }
  }

  lemma SaveStep(t: Tables, c: Caller)
    requires TablesInv(t) && c.Saving? && CallerOk(t, c)
    requires c.row in t.attempts
    ensures !HasOtherOpen(t.attempts, t.attempts[c.row].userId, c.row) ==>
              var v := t.(attempts := t.attempts[c.row := Attached(t.attempts[c.row], c.session, c.now)]);
              TablesInv(v) && Grows(t, v)
  {
    if !HasOtherOpen(t.attempts, t.attempts[c.row].userId, c.row) {
      assert RowAttached(t, c.row);
      RowStep(t, c.row, Attached(t.attempts[c.row], c.session, c.now));
    }
  }

  lemma OpenStep(t: Tables, row: string, made: Remote)
    requires TablesInv(t) && row in t.attempts && made.Session?
    ensures var v := t.(remote := Made(t.remote, CheckoutKey(row), made)); TablesInv(v) && Grows(t, v)
  {
    assert CheckoutKey(row)[|CHECKOUT_PREFIX|..] == row;
    RemoteStep(t, CheckoutKey(row), made);
  }

  lemma CancelStep(t: Tables, row: string)
    requires TablesInv(t) && row in t.attempts
    ensures var v := t.(attempts := t.attempts[row := t.attempts[row].(status := CANCELED)]);
            TablesInv(v) && Grows(t, v)
  {
    StatusStep(t, t.attempts[row := t.attempts[row].(status := CANCELED)]);
  }

  lemma CustomerStep(t: Tables, user: string, cust: string)
    requires TablesInv(t) && IsCustomerOf(t, user, cust) && user !in t.customers
    ensures var v := t.(customers := t.customers[user := cust]); TablesInv(v) && Grows(t, v)
  {
    var v := t.(customers := t.customers[user := cust]);
    forall r | r in v.attempts ensures RowAttached(v, r) { assert RowAttached(t, r); }
  }

  lemma TablesStep(t: Tables, c: Caller, step: Step)
    requires TablesInv(t) && CallerOk(t, c) && Enabled(t, c, step)
    ensures TablesInv(TablesNext(t, c, step)) && Grows(t, TablesNext(t, c, step))
  {
    match step {
      case CreateCustomer(_, freshId) => RemoteStep(t, CustomerKey(c.user), Customer(freshId, c.user));
      case SaveCustomer(_) => if c.user !in t.customers { CustomerStep(t, c.user, c.cust); }
      case ExpireStale(_) => StatusStep(t, Expired(t.attempts, c.user, c.now));
      case ClaimRow(_, freshRow) =>
        if !HasOtherOpen(t.attempts, c.user, freshRow) { RowStep(t, freshRow, NewAttempt(c.user, c.now)); }
      case OpenSession(_, made) => OpenStep(t, c.row, made);
      case SaveSession(_) => SaveStep(t, c);
      case CancelRow(_) => if c.row in t.attempts { CancelStep(t, c.row); }
      case _ =>
    }
  }

  lemma CallerStaysOk(t: Tables, v: Tables, c: Caller)
    requires CallerOk(t, c) && Grows(t, v)
    ensures CallerOk(v, c)
  {
  }

  lemma CallerStep(t: Tables, c: Caller, step: Step)
    requires TablesInv(t) && CallerOk(t, c) && Enabled(t, c, step)
    ensures var d := CallerNext(t, c, step); d.Some? ==> CallerOk(TablesNext(t, c, step), d.value)
  {
    match step {
      case CreateCustomer(_, freshId) =>
        if CustomerKey(c.user) in t.remote { KeyHoldsCustomer(t, c.user); }
      case FindOpen(_, found) => if found.Some? { assert RowAttached(t, found.value); }
      case OpenSession(_, made) =>
        if CheckoutKey(c.row) in t.remote { KeyHoldsSession(t, c.row); }
      case _ =>
    }
  }

  lemma KeyHoldsCustomer(t: Tables, user: string)
    requires RemoteKeyed(t) && CustomerKey(user) in t.remote
    ensures t.remote[CustomerKey(user)].Customer? && t.remote[CustomerKey(user)].userId == user
  {
    var key := CustomerKey(user);
    assert KeyedRight(t.attempts, key, t.remote[key]);
    if t.remote[key].Customer? { KeysAreInjective(user, t.remote[key].userId); }
    else { KeysAreInjective(user, key[|CHECKOUT_PREFIX|..]); }
  }

  lemma KeyHoldsSession(t: Tables, row: string)
    requires RemoteKeyed(t) && CheckoutKey(row) in t.remote
    ensures t.remote[CheckoutKey(row)].Session?
  {
    var key := CheckoutKey(row);
    assert KeyedRight(t.attempts, key, t.remote[key]);
    if t.remote[key].Customer? { KeysAreInjective(t.remote[key].userId, row); }
  }

  lemma StepKeepsInv(w: World, step: Step)
    requires Inv(w)
    ensures Inv(Next(w, step)) && Grows(w.t, Next(w, step).t)
  {
    var v := Next(w, step);
    if step.MarkSession? {
      if !step.status.OPEN? { StatusStep(w.t, Marked(w.t.attempts, step.sessionId, step.status)); }
    } else if !step.Start? && step.k in w.callers && Enabled(w.t, w.callers[step.k], step) {
      TablesStep(w.t, w.callers[step.k], step);
      CallerStep(w.t, w.callers[step.k], step);
    }
    forall k | k in v.callers ensures CallerOk(v.t, v.callers[k]) {
      if k in w.callers && v.callers[k] == w.callers[k] { CallerStaysOk(w.t, v.t, w.callers[k]); }
    }
  }

  lemma GrowsTwice(t: Tables, u: Tables, v: Tables)
    requires Grows(t, u) && Grows(u, v)
    ensures Grows(t, v)
  {
  }

  lemma {:induction false} RunsKeepInv(w: World, steps: seq<Step>)
    requires Inv(w)
    ensures Inv(Run(w, steps)) && Grows(w.t, Run(w, steps).t)
  {
    if steps != [] {
      RunsKeepInv(w, steps[..|steps| - 1]);
      StepKeepsInv(Run(w, steps[..|steps| - 1]), steps[|steps| - 1]);
      GrowsTwice(w.t, Run(w, steps[..|steps| - 1]).t, Run(w, steps).t);
    }
  }

  // ------------------------------------------------------------ main results

  /** A run from nothing: no remote object, no row, no caller. */
  const EMPTY := World(Tables(map[], map[], map[]), map[])

  function SessionKeys(t: Tables): set<string> {
    set key | key in t.remote && t.remote[key].Session?
  }

  lemma {:induction false} ImageIsNoLarger(keys: set<string>, rows: set<string>)
    requires forall key :: key in keys ==>
      |key| >= |CHECKOUT_PREFIX| && key == CheckoutKey(key[|CHECKOUT_PREFIX|..]) && key[|CHECKOUT_PREFIX|..] in rows
    ensures |keys| <= |rows|
  {
    if keys != {} {
      var key :| key in keys;
      var row := key[|CHECKOUT_PREFIX|..];
      ImageIsNoLarger(keys - {key}, rows - {row});
      assert |keys| == |keys - {key}| + 1 && |rows| == |rows - {row}| + 1;
    }
  }

  /** Remote sessions never outnumber attempt rows. */
  lemma SessionsNeverOutnumberAttempts(steps: seq<Step>)
    ensures |SessionKeys(Run(EMPTY, steps).t)| <= |Run(EMPTY, steps).t.attempts|
  {
    RunsKeepInv(EMPTY, steps);
    var t := Run(EMPTY, steps).t;
    forall key | key in SessionKeys(t) ensures KeyedRight(t.attempts, key, t.remote[key]) { }
    ImageIsNoLarger(SessionKeys(t), t.attempts.Keys);
  }

  /** Once attached, the session of an attempt is the one of its own key and never changes. */
  lemma AttachedSessionIsFinal(steps: seq<Step>, more: seq<Step>, row: string)
    requires var t := Run(EMPTY, steps).t; row in t.attempts && t.attempts[row].sessionId.Some?
    ensures var t, v := Run(EMPTY, steps).t, Run(Run(EMPTY, steps), more).t;
            var id := t.attempts[row].sessionId;
            row in v.attempts && v.attempts[row].sessionId == id &&
            CheckoutKey(row) in v.remote && Some(v.remote[CheckoutKey(row)].id) == id
  {
    RunsKeepInv(EMPTY, steps);
    RunsKeepInv(Run(EMPTY, steps), more);
    assert RowAttached(Run(EMPTY, steps).t, row);
  }

  /** All callers answered for one attempt were given the same session. */
  lemma CallersShareTheSession(steps: seq<Step>, j: nat, k: nat)
    requires var w := Run(EMPTY, steps);
             j in w.callers && k in w.callers && w.callers[j].Done? && w.callers[k].Done? &&
             w.callers[j].row == w.callers[k].row
    ensures Run(EMPTY, steps).callers[j] == Run(EMPTY, steps).callers[k]
  {
    RunsKeepInv(EMPTY, steps);
  }

  /** A user never has two remote customers, and the stored one is that one. */
  lemma OneRemoteCustomerPerUser(steps: seq<Step>, one: string, other: string)
    requires var t := Run(EMPTY, steps).t;
             one in t.remote && other in t.remote && t.remote[one].Customer? && t.remote[other].Customer? &&
             t.remote[one].userId == t.remote[other].userId
    ensures one == other
    ensures var t := Run(EMPTY, steps).t; var user := t.remote[one].userId;
            user in t.customers ==> t.customers[user] == t.remote[one].id
  {
    RunsKeepInv(EMPTY, steps);
    var t := Run(EMPTY, steps).t;
    assert KeyedRight(t.attempts, one, t.remote[one]) && KeyedRight(t.attempts, other, t.remote[other]);
  }

  /** The index: two open attempts of one user are one attempt. */
  lemma OpenAttemptIsUnique(steps: seq<Step>, row: string, other: string)
    requires var a := Run(EMPTY, steps).t.attempts;
             row in a && other in a && a[row].status.OPEN? && a[other].status.OPEN? && a[row].userId == a[other].userId
    ensures row == other
  {
    RunsKeepInv(EMPTY, steps);
    var a := Run(EMPTY, steps).t.attempts;
    assert !HasOtherOpen(a, a[row].userId, row);
  }

  lemma {:induction false} RunCons(w: World, step: Step, rest: seq<Step>)
    ensures Run(w, [step] + rest) == Run(Next(w, step), rest)
  {
    var all := [step] + rest;
    if rest == [] {
      assert all[..0] == [];
    } else {
      RunCons(w, step, rest[..|rest| - 1]);
      assert all[..|all| - 1] == [step] + rest[..|rest| - 1];
    }
  }

  lemma RetryReachesTheProvider(w: World, k: nat, user: string, row: string, now: int)
    requires Inv(w) && k !in w.callers && user in w.t.customers
    requires IsOpenFor(w.t.attempts, row, user, now) && w.t.attempts[row].sessionId.None?
    ensures var v := Next(Next(Next(Next(w, Start(k, user, now)), FindCustomer(k)), ExpireStale(k)),
                          FindOpen(k, Some(row)));
            v.t == w.t.(attempts := Expired(w.t.attempts, user, now)) && k in v.callers &&
            v.callers[k] == Opening(user, row, now)
  {
    var w1 := Next(w, Start(k, user, now));
    assert w1.t == w.t && w1.callers[k] == FindingCustomer(user, now);
    var w2 := Next(w1, FindCustomer(k));
    assert w2.t == w.t && w2.callers[k] == Expiring(user, w.t.customers[user], now);
    var w3 := Next(w2, ExpireStale(k));
    assert w3.t.attempts[row] == w.t.attempts[row];
  }

  lemma RetrySaves(v: World, k: nat, user: string, row: string, now: int, made: Remote)
    requires RemoteKeyed(v.t) && OneOpenPerUser(v.t.attempts) && made.Session?
    requires k in v.callers && v.callers[k] == Opening(user, row, now) && IsOpenFor(v.t.attempts, row, user, now)
    requires CheckoutKey(row) in v.t.remote
    ensures var last := Next(Next(v, OpenSession(k, made)), SaveSession(k));
            var s := v.t.remote[CheckoutKey(row)];
            s.Session? && last.t.remote == v.t.remote && k in last.callers && last.callers[k] == Done(row, s.id, s.url)
  {
    KeyHoldsSession(v.t, row);
    var w5 := Next(v, OpenSession(k, made));
    assert w5.t == v.t && w5.callers[k] == Saving(row, v.t.remote[CheckoutKey(row)], now);
  }

  /**
   * A caller crashed after the provider had created the session and before the row was written:
   * the next lone caller gets that very session, and the provider creates nothing.
   */
  lemma RetryRecoversTheSession(w: World, k: nat, user: string, row: string, now: int, made: Remote)
    requires Inv(w) && k !in w.callers && user in w.t.customers
    requires IsOpenFor(w.t.attempts, row, user, now) && w.t.attempts[row].sessionId.None?
    requires CheckoutKey(row) in w.t.remote && made.Session?
    ensures var v := Run(w, [Start(k, user, now), FindCustomer(k), ExpireStale(k), FindOpen(k, Some(row)),
                             OpenSession(k, made), SaveSession(k)]);
            var s := w.t.remote[CheckoutKey(row)];
            v.t.remote == w.t.remote && k in v.callers && s.Session? && v.callers[k] == Done(row, s.id, s.url)
  {
    var a, b, c := Start(k, user, now), FindCustomer(k), ExpireStale(k);
    var d, e, f := FindOpen(k, Some(row)), OpenSession(k, made), SaveSession(k);
    RetryReachesTheProvider(w, k, user, row, now);
    StatusStep(w.t, Expired(w.t.attempts, user, now));
    RetrySaves(Next(Next(Next(Next(w, a), b), c), d), k, user, row, now, made);
    RunSix(w, a, b, c, d, e, f);
  }

  lemma RunSix(w: World, a: Step, b: Step, c: Step, d: Step, e: Step, f: Step)
    ensures Run(w, [a, b, c, d, e, f]) == Next(Next(Next(Next(Next(Next(w, a), b), c), d), e), f)
  {
    assert [a, b, c, d, e, f] == [a] + [b, c, d, e, f] && [b, c, d, e, f] == [b] + [c, d, e, f];
    assert [c, d, e, f] == [c] + [d, e, f] && [d, e, f] == [d] + [e, f] && [e, f] == [e] + [f] && [f] == [f] + [];
    RunCons(w, a, [b, c, d, e, f]);
    var w1 := Next(w, a);
    RunCons(w1, b, [c, d, e, f]);
    var w2 := Next(w1, b);
    RunCons(w2, c, [d, e, f]);
    var w3 := Next(w2, c);
    RunCons(w3, d, [e, f]);
    var w4 := Next(w3, d);
    RunCons(w4, e, [f]);
    RunCons(Next(w4, e), f, []);
  }

  /**
   * An attached session is offered again until the provider ends it, given in seconds, or for 23 hours
   * when the provider does not say; not a millisecond longer.
   */
  lemma SavedSessionIsOpenUntil(w: World, k: nat, later: int)
    requires k in w.callers && Enabled(w.t, w.callers[k], SaveSession(k))
    requires var v := Next(w, SaveSession(k)); k in v.callers && v.callers[k].Done?
    ensures var c, a := w.callers[k], Next(w, SaveSession(k)).t.attempts;
            var user, end := w.t.attempts[c.row].userId, c.session.expiresAtUnix;
            a.Keys == w.t.attempts.Keys && (forall r :: r in a && r != c.row ==> a[r] == w.t.attempts[r]) &&
            a[c.row].sessionId == Some(c.session.id) && a[c.row].url == Some(c.session.url) &&
            (IsOpenFor(a, c.row, user, later)
             <==> if end.Some? then later < end.value * 1000 else later < c.now + 23 * 3600 * 1000)
  {
  }

  lemma RunFour(w: World, a: Step, b: Step, c: Step, d: Step)
    ensures Run(w, [a, b, c, d]) == Next(Next(Next(Next(w, a), b), c), d)
  {
    assert [a, b, c, d] == [a] + [b, c, d] && [b, c, d] == [b] + [c, d] && [c, d] == [c] + [d] && [d] == [d] + [];
    RunCons(w, a, [b, c, d]);
    var w1 := Next(w, a);
    RunCons(w1, b, [c, d]);
    var w2 := Next(w1, b);
    RunCons(w2, c, [d]);
    RunCons(Next(w2, c), d, []);
  }

  lemma ExpiringHitsTheStaleAttempt(t: Tables, row: string, now: int)
    requires OneOpenPerUser(t.attempts) && row in t.attempts && t.attempts[row].status.OPEN?
    ensures Expired(t.attempts, t.attempts[row].userId, now)
            == if now < t.attempts[row].expiresAt then t.attempts
               else t.attempts[row := t.attempts[row].(status := EXPIRED)]
  {
    assert !HasOtherOpen(t.attempts, t.attempts[row].userId, row);
  }

  /** A caller alone, up to the open attempt it finds, when its user has exactly the open attempt `row`. */
  lemma LoneCallFinds(v: World, j: nat, row: string, later: int, found: Option<string>)
    requires OneOpenPerUser(v.t.attempts) && row in v.t.attempts && v.t.attempts[row].status.OPEN?
    requires j !in v.callers && v.t.attempts[row].userId in v.t.customers
    requires found == if later < v.t.attempts[row].expiresAt then Some(row) else None
    ensures var user := v.t.attempts[row].userId;
            var last := Next(Next(Next(Next(v, Start(j, user, later)), FindCustomer(j)), ExpireStale(j)),
                             FindOpen(j, found));
            last.t.remote == v.t.remote && last.t.customers == v.t.customers && j in last.callers &&
            last.t.attempts == (if found.Some? then v.t.attempts
                                else v.t.attempts[row := v.t.attempts[row].(status := EXPIRED)]) &&
            last.callers[j] == (if found.Some? then WithRow(v.t, row, user, later)
                                else Claiming(user, v.t.customers[user], later))
  {
    var user := v.t.attempts[row].userId;
    var w1 := Next(v, Start(j, user, later));
    assert w1.t == v.t && w1.callers[j] == FindingCustomer(user, later);
    var w2 := Next(w1, FindCustomer(j));
    assert w2.t == v.t && w2.callers[j] == Expiring(user, v.t.customers[user], later);
    var w3 := Next(w2, ExpireStale(j));
    ExpiringHitsTheStaleAttempt(v.t, row, later);
    assert w3.callers[j] == FindingOpen(user, v.t.customers[user], later);
    assert !HasOtherOpen(v.t.attempts, user, row);
  }

  lemma LoneCallRuns(v: World, j: nat, row: string, later: int, found: Option<string>)
    requires OneOpenPerUser(v.t.attempts) && row in v.t.attempts && v.t.attempts[row].status.OPEN?
    requires j !in v.callers && v.t.attempts[row].userId in v.t.customers
    requires found == if later < v.t.attempts[row].expiresAt then Some(row) else None
    ensures var user := v.t.attempts[row].userId;
            var last := Run(v, [Start(j, user, later), FindCustomer(j), ExpireStale(j), FindOpen(j, found)]);
            last.t.remote == v.t.remote && last.t.customers == v.t.customers && j in last.callers &&
            last.t.attempts == (if found.Some? then v.t.attempts
                                else v.t.attempts[row := v.t.attempts[row].(status := EXPIRED)]) &&
            last.callers[j] == (if found.Some? then WithRow(v.t, row, user, later)
                                else Claiming(user, v.t.customers[user], later))
  {
    var user := v.t.attempts[row].userId;
    LoneCallFinds(v, j, row, later, found);
    RunFour(v, Start(j, user, later), FindCustomer(j), ExpireStale(j), FindOpen(j, found));
  }

  /** The moment a saved session ends, as the caller that saved it stored it. */
  lemma SavedRow(w: World, k: nat)
    requires Inv(w) && k in w.callers && Enabled(w.t, w.callers[k], SaveSession(k))
    requires var v := Next(w, SaveSession(k)); k in v.callers && v.callers[k].Done?
    ensures var c, v := w.callers[k], Next(w, SaveSession(k));
            Inv(v) && c.row in v.t.attempts && v.t.attempts[c.row].status.OPEN? &&
            v.t.attempts[c.row].userId == w.t.attempts[c.row].userId && v.t.customers == w.t.customers &&
            v.callers[k] == Done(c.row, c.session.id, c.session.url)
  {
    StepKeepsInv(w, SaveSession(k));
  }

  /** Two calls, before that moment: the second gets the row and the session of the first and changes nothing. */
  lemma SecondCallReuses(w: World, k: nat, j: nat, later: int)
    requires Inv(w) && k in w.callers && Enabled(w.t, w.callers[k], SaveSession(k))
    requires var v := Next(w, SaveSession(k)); k in v.callers && v.callers[k].Done? && j !in v.callers
    requires w.t.attempts[w.callers[k].row].userId in w.t.customers
    requires w.callers[k].session.id != "" && w.callers[k].session.url != ""
    requires var end := w.callers[k].session.expiresAtUnix;
             if end.Some? then later < end.value * 1000 else later < w.callers[k].now + 23 * 3600 * 1000
    ensures var row, v := w.callers[k].row, Next(w, SaveSession(k));
            var last := Run(v, [Start(j, w.t.attempts[row].userId, later), FindCustomer(j), ExpireStale(j),
                                FindOpen(j, Some(row))]);
            last.t == v.t && j in last.callers && last.callers[j] == v.callers[k]
  {
    var row, v := w.callers[k].row, Next(w, SaveSession(k));
    var user := w.t.attempts[row].userId;
    SavedRow(w, k);
    SavedSessionIsOpenUntil(w, k, later);
    LoneCallRuns(v, j, row, later, Some(row));
  }

  /** When the one open attempt of the user has just expired, claiming makes a new one. */
  lemma ClaimingStartsAnew(u: World, before: map<string, Attempt>, j: nat, row: string, freshRow: string)
    requires j in u.callers && u.callers[j].Claiming? && row in before && freshRow !in before
    requires OneOpenPerUser(before) && before[row].status.OPEN? && before[row].userId == u.callers[j].user
    requires u.t.attempts == before[row := before[row].(status := EXPIRED)]
    ensures var user, now, last := u.callers[j].user, u.callers[j].now, Next(u, ClaimRow(j, freshRow));
            last.t.remote == u.t.remote && j in last.callers && last.callers[j] == Opening(user, freshRow, now) &&
            last.t.attempts == u.t.attempts[freshRow := Attempt(user, None, None, OPEN, now + 23 * 3600 * 1000)]
  {
    assert !HasOtherOpen(before, before[row].userId, row);
    assert !HasOtherOpen(u.t.attempts, u.callers[j].user, freshRow);
  }

  /** A lone call that finds the open attempt of its user over: it gives it up and starts one good for 23 hours. */
  lemma LoneCallStartsAnew(v: World, j: nat, row: string, later: int, freshRow: string)
    requires OneOpenPerUser(v.t.attempts) && row in v.t.attempts && v.t.attempts[row].status.OPEN?
    requires j !in v.callers && v.t.attempts[row].userId in v.t.customers && freshRow !in v.t.attempts
    requires later >= v.t.attempts[row].expiresAt
    ensures var user := v.t.attempts[row].userId;
            var u := Run(v, [Start(j, user, later), FindCustomer(j), ExpireStale(j), FindOpen(j, None)]);
            var last := Next(u, ClaimRow(j, freshRow));
            last.t.remote == v.t.remote && j in last.callers && last.callers[j] == Opening(user, freshRow, later) &&
            last.t.attempts == v.t.attempts[row := v.t.attempts[row].(status := EXPIRED)]
                                           [freshRow := Attempt(user, None, None, OPEN, later + 23 * 3600 * 1000)]
  {
    var user := v.t.attempts[row].userId;
    LoneCallRuns(v, j, row, later, None);
    ClaimingStartsAnew(Run(v, [Start(j, user, later), FindCustomer(j), ExpireStale(j), FindOpen(j, None)]),
                       v.t.attempts, j, row, freshRow);
  }

  /** After that moment the second call does so. */
  lemma SecondCallStartsAnew(w: World, k: nat, j: nat, later: int, freshRow: string)
    requires Inv(w) && k in w.callers && Enabled(w.t, w.callers[k], SaveSession(k))
    requires var v := Next(w, SaveSession(k)); k in v.callers && v.callers[k].Done? && j !in v.callers
    requires w.t.attempts[w.callers[k].row].userId in w.t.customers && freshRow !in w.t.attempts
    requires var end := w.callers[k].session.expiresAtUnix;
             if end.Some? then later >= end.value * 1000 else later >= w.callers[k].now + 23 * 3600 * 1000
    ensures var row, v := w.callers[k].row, Next(w, SaveSession(k));
            var user := w.t.attempts[row].userId;
            var u := Run(v, [Start(j, user, later), FindCustomer(j), ExpireStale(j), FindOpen(j, None)]);
            var last := Next(u, ClaimRow(j, freshRow));
            row in v.t.attempts && last.t.remote == v.t.remote &&
            j in last.callers && last.callers[j] == Opening(user, freshRow, later) &&
            last.t.attempts == v.t.attempts[row := v.t.attempts[row].(status := EXPIRED)]
                                           [freshRow := Attempt(user, None, None, OPEN, later + 23 * 3600 * 1000)]
  {
    SavedRow(w, k);
    SavedSessionIsOpenUntil(w, k, later);
    var v := Next(w, SaveSession(k));
    assert Inv(v);
    LoneCallStartsAnew(v, j, w.callers[k].row, later, freshRow);
  }

  /** A definitive refusal does not block the user: nothing of theirs stays open, and nothing else changes. */
  lemma RefusalFreesTheUser(w: World, k: nat, now: int)
    requires Inv(w) && k in w.callers && w.callers[k].Opening?
    requires var a := w.t.attempts[w.callers[k].row]; a.status.OPEN? && a.sessionId.None?
    ensures var row, v := w.callers[k].row, Next(Next(w, RefuseSession(k)), CancelRow(k));
            var user := w.t.attempts[row].userId;
            k !in v.callers && v.t.remote == w.t.remote && v.t.attempts[row].status == CANCELED &&
            (forall r :: r in v.t.attempts ==> !IsOpenFor(v.t.attempts, r, user, now)) &&
            forall r :: r in w.t.attempts && r != row ==> r in v.t.attempts && v.t.attempts[r] == w.t.attempts[r]
  {
    var row := w.callers[k].row;
    assert !HasOtherOpen(w.t.attempts, w.t.attempts[row].userId, row);
    assert Next(w, RefuseSession(k)).callers[k] == Canceling(row);
  }

  /** A completed or expired session is not offered again to anybody; other attempts stay as they are. */
  lemma MarkedSessionIsNotOffered(w: World, sessionId: string, status: CheckoutStatus, user: string, now: int)
    requires !status.OPEN?
    ensures var a := Next(w, MarkSession(sessionId, status)).t.attempts;
            a.Keys == w.t.attempts.Keys &&
            forall r :: r in a ==>
              if w.t.attempts[r].sessionId == Some(sessionId) then a[r].status == status && !IsOpenFor(a, r, user, now)
              else a[r] == w.t.attempts[r]
  {
  }

  // ----------------------------------------------------------------- service

  /** The two calls of the service run without another caller in between. */
  class BillingService {
    var remote: map<string, Remote>
    var customers: map<string, string>
    var attempts: map<string, Attempt>

    ghost function Db(): Tables
      reads this
    {
      Tables(remote, customers, attempts)
    }

    method GetOrCreateStripeCustomer(user: string, freshId: string) returns (cust: string)
      requires TablesInv(Db()) && FreshId(remote, freshId)
      modifies this`remote, this`customers
      ensures TablesInv(Db()) && Grows(old(Db()), Db())
      ensures customers == old(customers)[user := cust] && IsCustomerOf(Db(), user, cust)
      ensures remote == old(remote) ||
        (user !in old(customers) && remote == old(remote)[CustomerKey(user) := Customer(freshId, user)])
    {
      if user in customers {
        assert customers == customers[user := customers[user]];
        return customers[user];
      }
      ghost var before := Db();
      var key := CustomerKey(user);
      RemoteStep(before, key, Customer(freshId, user));
      if key !in remote { remote := remote[key := Customer(freshId, user)]; }
      KeyHoldsCustomer(Db(), user);
      cust := remote[key].id;
      customers := customers[user := cust];
    }

    method ExpireStaleOpenCheckouts(user: string, now: int)
      requires TablesInv(Db())
      modifies this`attempts
      ensures TablesInv(Db()) && Grows(old(Db()), Db())
      ensures attempts == Expired(old(attempts), user, now)
      ensures attempts.Keys == old(attempts).Keys
      ensures forall r :: r in attempts ==>
        var was := old(attempts)[r];
        attempts[r] == if was.userId == user && was.status == OPEN && was.expiresAt <= now
                       then was.(status := EXPIRED) else was
    {
      StatusStep(Db(), Expired(attempts, user, now));
      attempts := Expired(attempts, user, now);
    }

    /** The open attempt of the user, or a new one; stale ones have been expired before. */
    method FindOrClaimRow(user: string, now: int, freshRow: string) returns (row: string)
      requires TablesInv(Db()) && freshRow !in attempts
      requires forall r :: r in attempts && attempts[r].userId == user && attempts[r].status.OPEN? ==>
        attempts[r].expiresAt > now
      modifies this`attempts
      ensures TablesInv(Db()) && Grows(old(Db()), Db())
      ensures IsOpenFor(attempts, row, user, now)
      ensures attempts == old(attempts) || (row == freshRow && attempts == old(attempts)[row := NewAttempt(user, now)])
      ensures row == freshRow ==> forall r :: r in old(attempts) ==> !IsOpenFor(old(attempts), r, user, now)
      ensures row == freshRow ==> attempts[row] == Attempt(user, None, None, OPEN, now + 23 * 3600 * 1000)
    {
      if r :| r in attempts && IsOpenFor(attempts, r, user, now) {
        return r;
      }
      RowStep(Db(), freshRow, NewAttempt(user, now));
      attempts := attempts[freshRow := NewAttempt(user, now)];
      return freshRow;
    }

    /** `made` is what the provider would create, None when it refuses the call for good. */
    method AttachStripeCheckoutToAttempt(row: string, now: int, made: Option<Remote>) returns (answer: Option<Remote>)
      requires TablesInv(Db()) && row in attempts && attempts[row].status.OPEN?
      requires made.Some? ==> made.value.Session? && FreshId(remote, made.value.id)
      modifies this`remote, this`attempts
      ensures TablesInv(Db()) && Grows(old(Db()), Db())
      ensures made.Some? ==> remote == Made(old(remote), CheckoutKey(row), made.value)
      ensures made.Some? ==> answer == Some(remote[CheckoutKey(row)]) && answer.value.Session?
      ensures made.Some? ==> attempts == old(attempts)[row := Attached(old(attempts)[row], answer.value, now)]
      ensures made.Some? ==>
                var end := answer.value.expiresAtUnix;
                attempts[row].status == OPEN && attempts[row].userId == old(attempts)[row].userId &&
                attempts[row].sessionId == Some(answer.value.id) && attempts[row].url == Some(answer.value.url) &&
                attempts[row].expiresAt == if end.Some? then end.value * 1000 else now + 23 * 3600 * 1000
      ensures made.None? ==> answer.None? && remote == old(remote)
      ensures made.None? && old(attempts)[row].sessionId.Some? ==> attempts == old(attempts)
      ensures made.None? && old(attempts)[row].sessionId.None? ==>
        attempts == old(attempts)[row := old(attempts)[row].(status := CANCELED)]
    {
      if made.None? {
        if attempts[row].sessionId.None? {
          StatusStep(Db(), attempts[row := attempts[row].(status := CANCELED)]);
          attempts := attempts[row := attempts[row].(status := CANCELED)];
        }
        return None;
      }
      var key := CheckoutKey(row);
      assert key[|CHECKOUT_PREFIX|..] == row;
      RemoteStep(Db(), key, made.value);
      if key !in remote { remote := remote[key := made.value]; }
      KeyHoldsSession(Db(), row);
      assert RowAttached(Db(), row) && !HasOtherOpen(attempts, attempts[row].userId, row);
      RowStep(Db(), row, Attached(attempts[row], remote[key], now));
      attempts := attempts[row := Attached(attempts[row], remote[key], now)];
      return Some(remote[key]);
    }

    method GetOrCreateOpenCheckoutSession(user: string, now: int, freshRow: string, made: Option<Remote>)
      returns (row: string, answer: Option<Remote>)
      requires TablesInv(Db()) && freshRow !in attempts
      requires made.Some? ==> made.value.Session? && FreshId(remote, made.value.id)
      modifies this`remote, this`attempts
      ensures TablesInv(Db())
      ensures row in attempts && attempts[row].userId == user
      ensures row == freshRow || IsOpenFor(old(attempts), row, user, now)
      ensures answer.Some? ==> attempts[row].status.OPEN? && attempts[row].sessionId == Some(answer.value.id)
      ensures answer.Some? ==> answer == Lookup(remote, CheckoutKey(row))
      ensures answer.None? ==> made.None? && remote == old(remote)
      ensures forall r :: IsOpenFor(old(attempts), r, user, now) ==>
        row == r && (Complete(old(attempts)[r]) ==>
          answer.Some? && answer.value.Session? &&
          old(attempts)[r].sessionId == Some(answer.value.id) && old(attempts)[r].url == Some(answer.value.url) &&
          remote == old(remote) && attempts == old(attempts))
      ensures answer.Some? && !(row in old(attempts) && Complete(old(attempts)[row])) ==>
                answer.value.Session? && attempts[row].url == Some(answer.value.url) &&
                var end := answer.value.expiresAtUnix;
                attempts[row].expiresAt == if end.Some? then end.value * 1000 else now + 23 * 3600 * 1000
      ensures forall r :: r in attempts && r != row ==>
        r in old(attempts) && attempts[r] == Expired(old(attempts), user, now)[r]
    {
      ghost var before := attempts;
      forall r | IsOpenFor(before, r, user, now) ensures Expired(before, user, now) == before {
        ExpiringHitsTheStaleAttempt(Db(), r, now);
      }
      ExpireStaleOpenCheckouts(user, now);
      row := FindOrClaimRow(user, now, freshRow);
      if Complete(attempts[row]) {
        assert RowAttached(Db(), row);
        return row, Some(remote[CheckoutKey(row)]);
      }
      answer := AttachStripeCheckoutToAttempt(row, now, made);
    }
  }
}
