/**
 * Community reports and the flags they raise. A report is checked, inserted and evaluated in
 * separate steps that interleave with those of other reports.
 */
module Moderation {
  import opened Prelude

  const REVIEW_REQUIRED: nat := 10
  const HIDE_CONTENT: nat := 15
  const SUSPEND_USER: nat := 25

  // -------------------------------------------------------------------- data

  /** What can be flagged. */
  datatype Subject = Request(id: string) | Offer(id: string) | User(id: string)

  datatype Flags =
    | ContentFlags(review: bool, hidden: bool)
    | UserFlags(verified: bool, blocked: bool, admin: bool, suspended: bool)

  /** What a report points at. */
  datatype Targets = Targets(
    messageId: Option<string>, offerId: Option<string>, requestId: Option<string>, chatId: Option<string>,
    reportedUserId: Option<string>)

  datatype Target =
    | ToMessage(id: string) | ToOffer(id: string) | ToRequest(id: string) | ToChat(id: string) | ToUser(id: string)

  /** A stored report; `counted` is a weight of one. */
  datatype Report = Report(reporterId: string, targets: Targets, counted: bool, ip: Option<string>)

  predicate PointsAt(t: Targets, target: Target) {
    match target
    case ToMessage(id) => t.messageId == Some(id)
    case ToOffer(id) => t.offerId == Some(id)
    case ToRequest(id) => t.requestId == Some(id)
    case ToChat(id) => t.chatId == Some(id)
    case ToUser(id) => t.reportedUserId == Some(id)
  }

  /** The target a user may report only once. */
  function PrimaryTarget(t: Targets): Option<Target> {
    if t.messageId.Some? then Some(ToMessage(t.messageId.value))
    else if t.offerId.Some? then Some(ToOffer(t.offerId.value))
    else if t.requestId.Some? then Some(ToRequest(t.requestId.value))
    else if t.chatId.Some? then Some(ToChat(t.chatId.value))
    else if t.reportedUserId.Some? then Some(ToUser(t.reportedUserId.value))
    else None
  }

  /** The target on which one address counts only once. */
  function ContentTarget(t: Targets): Option<Target> {
    if t.offerId.Some? then Some(ToOffer(t.offerId.value))
    else if t.requestId.Some? then Some(ToRequest(t.requestId.value))
    else if t.messageId.Some? then Some(ToMessage(t.messageId.value))
    else if t.chatId.Some? then Some(ToChat(t.chatId.value))
    else if t.reportedUserId.Some? then Some(ToUser(t.reportedUserId.value))
    else None
  }

  predicate Against(r: Report, s: Subject) {
    match s
    case Request(id) => r.targets.requestId == Some(id)
    case Offer(id) => r.targets.offerId == Some(id)
    case User(id) => r.targets.reportedUserId == Some(id)
  }

  /** The distinct reporters counted against a subject. */
  function Reporters(reports: seq<Report>, s: Subject): set<string> {
    set r | r in reports && r.counted && Against(r, s) :: r.reporterId
  }

  function Count(reports: seq<Report>, s: Subject): nat {
    |Reporters(reports, s)|
  }

  // --------------------------------------------------------------- the check

  predicate IsDuplicate(reports: seq<Report>, reporterId: string, t: Targets) {
    PrimaryTarget(t).Some? &&
    exists r :: r in reports && r.reporterId == reporterId && PointsAt(r.targets, PrimaryTarget(t).value)
  }

  predicate SameAddress(reports: seq<Report>, ip: Option<string>, t: Targets) {
    ip.Some? && ContentTarget(t).Some? &&
    exists r :: r in reports && r.counted && r.ip == ip && PointsAt(r.targets, ContentTarget(t).value)
  }

  predicate Eligible(flags: map<Subject, Flags>, reporterId: string) {
    User(reporterId) in flags &&
    match flags[User(reporterId)]
    case UserFlags(verified, blocked, _, suspended) => verified && !blocked && !suspended
    case ContentFlags(_, _) => false
  }

  /** The user reported outright, or behind the offer, or behind the request; dropped when unknown. */
  function ReportedUser(owners: map<Subject, string>, flags: map<Subject, Flags>, t: Targets): Option<string> {
    var ofOffer := if t.offerId.Some? then Lookup(owners, Offer(t.offerId.value)) else None;
    var ofRequest := if t.requestId.Some? then Lookup(owners, Request(t.requestId.value)) else None;
    var user := if t.reportedUserId.Some? then t.reportedUserId else if ofOffer.Some? then ofOffer else ofRequest;
    if user.Some? && User(user.value) in flags then user else None
  }

  datatype Refusal = NothingReported | AlreadyReported

  datatype Checked = Refused(why: Refusal) | Draft(report: Report)

  /** Everything before the insert. */
  function Check(reports: seq<Report>, owners: map<Subject, string>, flags: map<Subject, Flags>,
                 reporterId: string, t: Targets, ip: Option<string>): Checked
  {
    if PrimaryTarget(t).None? then Refused(NothingReported)
    else if IsDuplicate(reports, reporterId, t) then Refused(AlreadyReported)
    else
      var counted := Eligible(flags, reporterId) && !SameAddress(reports, ip, t);
      Draft(Report(reporterId, t.(reportedUserId := ReportedUser(owners, flags, t)), counted, ip))
  }

  /** The same message, else the same offer, else the same request, chat or user. */
  predicate SameThing(a: Targets, b: Targets) {
    if b.messageId.Some? then a.messageId == b.messageId
    else if b.offerId.Some? then a.offerId == b.offerId
    else if b.requestId.Some? then a.requestId == b.requestId
    else if b.chatId.Some? then a.chatId == b.chatId
    else a.reportedUserId == b.reportedUserId
  }

  /** The same offer or request first, as the one behind which puppet accounts gather. */
  predicate SameContent(a: Targets, b: Targets) {
    if b.offerId.Some? then a.offerId == b.offerId
    else if b.requestId.Some? then a.requestId == b.requestId
    else SameThing(a, b)
  }

  /**
   * A report is refused when it points at nothing or repeats one of the same user. It counts when the
   * reporter is verified, neither blocked nor suspended, and no counted report of the content came
   * from the same known address.
   */
  lemma CheckDecides(reports: seq<Report>, owners: map<Subject, string>, flags: map<Subject, Flags>,
                     reporterId: string, t: Targets, ip: Option<string>)
    ensures var checked := Check(reports, owners, flags, reporterId, t, ip);
            var nothing := t == Targets(None, None, None, None, None);
            (checked == Refused(NothingReported) <==> nothing) &&
            (checked == Refused(AlreadyReported) <==>
             !nothing && exists e :: e in reports && e.reporterId == reporterId && SameThing(e.targets, t)) &&
            (checked.Draft? ==>
              var r, reporter := checked.report, User(reporterId);
              r.reporterId == reporterId && r.ip == ip &&
              r.targets == t.(reportedUserId := r.targets.reportedUserId) &&
              (r.counted <==>
               reporter in flags && flags[reporter].UserFlags? && flags[reporter].verified &&
               !flags[reporter].blocked && !flags[reporter].suspended &&
               (ip.Some? ==> forall e :: e in reports && e.counted && e.ip == ip ==> !SameContent(e.targets, t))))
  {
  }

  /** Who is reported: the user named, else the owner of the offer, else of the request, when there is such a user. */
  lemma ReportedUserIsTheOwner(owners: map<Subject, string>, flags: map<Subject, Flags>, t: Targets, user: string)
    ensures ReportedUser(owners, flags, t) == Some(user) ==> User(user) in flags
    ensures User(user) in flags && t.reportedUserId == Some(user) ==> ReportedUser(owners, flags, t) == Some(user)
    ensures User(user) in flags && t.reportedUserId.None? && t.offerId.Some? ==>
              Lookup(owners, Offer(t.offerId.value)) == Some(user) ==> ReportedUser(owners, flags, t) == Some(user)
    ensures User(user) in flags && t.reportedUserId.None? && t.offerId.None? && t.requestId.Some? ==>
              Lookup(owners, Request(t.requestId.value)) == Some(user) ==> ReportedUser(owners, flags, t) == Some(user)
    ensures t.reportedUserId.None? && t.offerId.None? && t.requestId.None? ==> ReportedUser(owners, flags, t).None?
  {
  }

  // ---------------------------------------------------------- the evaluation

  /** The subjects a stored report evaluates, in order. */
  function ToEvaluate(r: Report): seq<Subject> {
    if !r.counted then []
    else
      (if r.targets.requestId.Some? then [Request(r.targets.requestId.value)] else [])
      + (if r.targets.offerId.Some? then [Offer(r.targets.offerId.value)] else [])
      + (if r.targets.reportedUserId.Some? then [User(r.targets.reportedUserId.value)] else [])
  }

  predicate Exempt(f: Flags) {
    f.UserFlags? && (f.admin || f.blocked)
  }

  /** The update decided from a count and flags read earlier, applied to the flags as they are now. */
  function Raise(n: nat, seen: Flags, now: Flags): Flags {
    match (seen, now)
    case (ContentFlags(review, hidden), ContentFlags(_, _)) =>
      if n >= HIDE_CONTENT && !hidden then ContentFlags(true, true)
      else if n >= REVIEW_REQUIRED && !review then now.(review := true)
      else now
    case (UserFlags(_, _, _, suspended), UserFlags(_, _, _, _)) =>
      if n >= SUSPEND_USER && !suspended then now.(suspended := true) else now
    case _ => now
  }

  /** The flags a count calls for, and no others. */
  predicate Settled(n: nat, f: Flags) {
    match f
    case ContentFlags(review, hidden) => (n >= REVIEW_REQUIRED ==> review) && (n >= HIDE_CONTENT ==> hidden)
    case UserFlags(_, _, _, suspended) => n >= SUSPEND_USER && !Exempt(f) ==> suspended
  }

  predicate Justified(n: nat, f: Flags) {
    match f
    case ContentFlags(review, hidden) => (review ==> n >= REVIEW_REQUIRED) && (hidden ==> n >= HIDE_CONTENT && review)
    case UserFlags(_, _, _, suspended) => suspended ==> n >= SUSPEND_USER
  }

  /** `later` is what `f` may have become: flags are raised, never lowered. */
  predicate RaisedTo(f: Flags, later: Flags) {
    match (f, later)
    case (ContentFlags(review, hidden), ContentFlags(review', hidden')) => (review ==> review') && (hidden ==> hidden')
    case (UserFlags(verified, blocked, admin, suspended), UserFlags(verified', blocked', admin', suspended')) =>
      (verified ==> verified') && (blocked ==> blocked') && admin == admin' && (suspended ==> suspended')
    case _ => false
  }

  // ------------------------------------------------------------ interleaving

  /** An evaluation under way: the head of `todo` has been counted or looked at, or not yet. */
  datatype Evaluation = Evaluation(todo: seq<Subject>, counted: Option<nat>, seen: Option<Flags>)

  /** `lost` is for the record: subjects whose evaluation a crash cut short, until another one makes up for it. */
  datatype World = World(
    reports: seq<Report>, flags: map<Subject, Flags>, owners: map<Subject, string>,
    drafts: map<nat, Report>, evaluations: map<nat, Evaluation>, lost: set<Subject>)

  datatype Step =
    | CheckReport(call: nat, reporterId: string, targets: Targets, ip: Option<string>)
    | InsertReport(call: nat)
    | Advance(call: nat)
    | Crash(call: nat)
    | VerifyEmail(userId: string)
    | BlockUser(userId: string)

  /**
   * One step of the evaluation at the head of `e.todo`, and the flags after it: content is
   * counted, then read; a user is read, then counted; then the outcome is written.
   */
  function AdvanceHead(reports: seq<Report>, flags: map<Subject, Flags>, e: Evaluation)
    : (Evaluation, map<Subject, Flags>)
    requires e.todo != []
  {
    var s := e.todo[0];
    var finished := Evaluation(e.todo[1..], None, None);
    if e.counted.None? && (!s.User? || e.seen.Some?) then (e.(counted := Some(Count(reports, s))), flags)
    else if e.seen.None? then
      if s !in flags || Exempt(flags[s]) then (finished, flags) else (e.(seen := Some(flags[s])), flags)
    else if e.counted.Some? && s in flags then
      (finished, flags[s := Raise(e.counted.value, e.seen.value, flags[s])])
    else (finished, flags)
  }

  /** A write decided on the current count makes up for what was lost. */
  function StillLost(reports: seq<Report>, flags: map<Subject, Flags>, lost: set<Subject>, e: Evaluation): set<Subject>
    requires e.todo != []
  {
    var s := e.todo[0];
    if e.seen.Some? && e.counted == Some(Count(reports, s)) && s in flags then lost - {s} else lost
  }

  function Next(w: World, step: Step): World {
    match step
    case CheckReport(call, reporterId, t, ip) =>
      if call in w.drafts || call in w.evaluations then w
      else
        (match Check(w.reports, w.owners, w.flags, reporterId, t, ip)
         case Refused(_) => w
         case Draft(r) => w.(drafts := w.drafts[call := r]))
    case InsertReport(call) =>
      if call !in w.drafts || call in w.evaluations then w
      else
        var r := w.drafts[call];
        w.(reports := w.reports + [r], drafts := w.drafts - {call},
           evaluations := w.evaluations[call := Evaluation(ToEvaluate(r), None, None)])
    case Advance(call) =>
      if call !in w.evaluations || w.evaluations[call].todo == [] then w
      else
        var (e, flags) := AdvanceHead(w.reports, w.flags, w.evaluations[call]);
        w.(evaluations := w.evaluations[call := e], flags := flags,
           lost := StillLost(w.reports, w.flags, w.lost, w.evaluations[call]))
    case Crash(call) =>
      w.(drafts := w.drafts - {call}, evaluations := w.evaluations - {call},
         lost := w.lost + if call in w.evaluations then set s | s in w.evaluations[call].todo else {})
    case VerifyEmail(id) =>
      if User(id) !in w.flags || !w.flags[User(id)].UserFlags? then w
      else w.(flags := w.flags[User(id) := w.flags[User(id)].(verified := true)])
    case BlockUser(id) =>
      if User(id) !in w.flags || !w.flags[User(id)].UserFlags? then w
      else w.(flags := w.flags[User(id) := w.flags[User(id)].(blocked := true)])
  }

  function Run(w: World, steps: seq<Step>): World {
    if steps == [] then w else Next(Run(w, steps[..|steps| - 1]), steps[|steps| - 1])
  }

  /** Call `c` will still evaluate `s`, and not from an outdated count. */
  predicate WillEvaluate(w: World, c: nat, s: Subject) {
    c in w.evaluations &&
    var e := w.evaluations[c];
    s in e.todo && (e.todo[0] == s && e.counted.Some? ==> e.counted.value == Count(w.reports, s))
  }

  ghost predicate SubjectInv(w: World, s: Subject)
    requires s in w.flags
  {
    var n := Count(w.reports, s);
    Justified(n, w.flags[s]) &&
    (Settled(n, w.flags[s]) || s in w.lost || exists c :: WillEvaluate(w, c, s))
  }

  /** What an evaluation has read is a past of what is there. */
  predicate EvaluationInv(w: World, e: Evaluation) {
    (e.counted.Some? || e.seen.Some? ==> e.todo != []) &&
    (e.counted.Some? ==> e.counted.value <= Count(w.reports, e.todo[0])) &&
    (e.seen.Some? ==> e.todo[0] in w.flags && RaisedTo(e.seen.value, w.flags[e.todo[0]])) &&
    (e.seen.Some? && e.counted.None? ==> e.todo[0].User?)
  }

  ghost predicate Inv(w: World) {
    (forall s :: s in w.flags ==> SubjectInv(w, s)) &&
    (forall c :: c in w.evaluations ==> EvaluationInv(w, w.evaluations[c]))
  }

  /** Nothing reported yet, nothing flagged. */
  predicate Fresh(w: World) {
    w.reports == [] && w.drafts == map[] && w.evaluations == map[] && w.lost == {} &&
    forall s :: s in w.flags ==>
      match w.flags[s]
      case ContentFlags(review, hidden) => !review && !hidden
      case UserFlags(_, _, _, suspended) => !suspended
  }

  // ---------------------------------------------------------------- counting

  lemma CountOfOther(reports: seq<Report>, r: Report, s: Subject)
    requires !(r.counted && Against(r, s))
    ensures Count(reports + [r], s) == Count(reports, s)
  {
    assert Reporters(reports + [r], s) == Reporters(reports, s);
  }

  lemma CountOfCounted(reports: seq<Report>, r: Report, s: Subject)
    requires r.counted && Against(r, s)
    ensures Reporters(reports + [r], s) == Reporters(reports, s) + {r.reporterId}
  {
    assert r in reports + [r];
  }

  lemma CountOfMore(reports: seq<Report>, r: Report, s: Subject)
    ensures Count(reports, s) <= Count(reports + [r], s)
    ensures !(r.counted && Against(r, s)) ==> Count(reports + [r], s) == Count(reports, s)
  {
    if r.counted && Against(r, s) {
      CountOfCounted(reports, r, s);
      var before := Reporters(reports, s);
      if r.reporterId in before { assert before + {r.reporterId} == before; }
    } else {
      CountOfOther(reports, r, s);
    }
  }

  lemma CountedIsEvaluated(r: Report, s: Subject)
    requires r.counted && Against(r, s)
    ensures s in ToEvaluate(r)
  {
  }

  lemma RaiseIsSound(n: nat, seen: Flags, now: Flags, count: nat)
    requires RaisedTo(seen, now) && Justified(count, now) && n <= count
    ensures RaisedTo(now, Raise(n, seen, now)) && Justified(count, Raise(n, seen, now))
    ensures Settled(count, now) ==> Settled(count, Raise(n, seen, now))
    ensures n == count ==> Settled(count, Raise(n, seen, now))
  {
  }

  // --------------------------------------------------------------- invariant

  lemma FreshIsInv(w: World)
    requires Fresh(w)
    ensures Inv(w)
  {
    forall s | s in w.flags ensures SubjectInv(w, s) {
      assert Reporters(w.reports, s) == {};
    }
  }

  lemma SameViewKeepsInv(w: World, w': World)
    requires Inv(w)
    requires w'.reports == w.reports && w'.flags == w.flags && w'.evaluations == w.evaluations && w'.lost == w.lost
    ensures Inv(w')
  {
    forall s | s in w'.flags ensures SubjectInv(w', s) {
      assert SubjectInv(w, s);
      if c :| WillEvaluate(w, c, s) { assert WillEvaluate(w', c, s); }
    }
    forall c | c in w'.evaluations ensures EvaluationInv(w', w'.evaluations[c]) {
      assert EvaluationInv(w, w.evaluations[c]);
    }
  }

  lemma InsertKeepsInv(w: World, call: nat)
    requires Inv(w) && call in w.drafts && call !in w.evaluations
    ensures Inv(Next(w, InsertReport(call)))
  {
    var r, w' := w.drafts[call], Next(w, InsertReport(call));
    forall s | s in w'.flags ensures SubjectInv(w', s) {
      assert SubjectInv(w, s);
      CountOfMore(w.reports, r, s);
      if r.counted && Against(r, s) {
        CountedIsEvaluated(r, s);
        assert WillEvaluate(w', call, s);
      } else if c :| WillEvaluate(w, c, s) {
        assert WillEvaluate(w', c, s);
      }
    }
    forall c | c in w'.evaluations ensures EvaluationInv(w', w'.evaluations[c]) {
      if c != call {
        assert EvaluationInv(w, w.evaluations[c]);
        if w.evaluations[c].todo != [] { CountOfMore(w.reports, r, w.evaluations[c].todo[0]); }
      }
    }
  }

  lemma CrashKeepsInv(w: World, call: nat)
    requires Inv(w)
    ensures Inv(Next(w, Crash(call)))
  {
    var w' := Next(w, Crash(call));
    forall s | s in w'.flags ensures SubjectInv(w', s) {
      assert SubjectInv(w, s);
      if c :| WillEvaluate(w, c, s) {
        if c != call { assert WillEvaluate(w', c, s); }
      }
    }
    forall c | c in w'.evaluations ensures EvaluationInv(w', w'.evaluations[c]) {
      assert EvaluationInv(w, w.evaluations[c]);
    }
  }

  /** Flags that only go up, with every count as it was, break no evaluation. */
  lemma RaisingKeepsEvaluation(w: World, w': World, e: Evaluation, s: Subject)
    requires EvaluationInv(w, e) && w'.reports == w.reports
    requires s in w.flags && s in w'.flags && w'.flags == w.flags[s := w'.flags[s]] && RaisedTo(w.flags[s], w'.flags[s])
    ensures EvaluationInv(w', e)
  {
  }

  lemma AccountKeepsInv(w: World, w': World, id: string)
    requires Inv(w) && User(id) in w.flags && w.flags[User(id)].UserFlags?
    requires w' == w.(flags := w'.flags) && User(id) in w'.flags && w'.flags == w.flags[User(id) := w'.flags[User(id)]]
    requires RaisedTo(w.flags[User(id)], w'.flags[User(id)]) &&
      w'.flags[User(id)].suspended == w.flags[User(id)].suspended
    ensures Inv(w')
  {
    forall s | s in w'.flags ensures SubjectInv(w', s) {
      assert SubjectInv(w, s);
      if c :| WillEvaluate(w, c, s) { assert WillEvaluate(w', c, s); }
    }
    forall c | c in w'.evaluations ensures EvaluationInv(w', w'.evaluations[c]) {
      RaisingKeepsEvaluation(w, w', w.evaluations[c], User(id));
    }
  }

  /** Reading a count or flags: the evaluation stays due. */
  lemma ReadingKeepsInv(w: World, call: nat, e: Evaluation)
    requires Inv(w) && call in w.evaluations && e.todo == w.evaluations[call].todo != []
    requires EvaluationInv(w, e) &&
      (e.counted == w.evaluations[call].counted || e.counted == Some(Count(w.reports, e.todo[0])))
    ensures Inv(w.(evaluations := w.evaluations[call := e]))
  {
    var w' := w.(evaluations := w.evaluations[call := e]);
    forall s | s in w'.flags ensures SubjectInv(w', s) {
      assert SubjectInv(w, s);
      if c :| WillEvaluate(w, c, s) { assert WillEvaluate(w', c, s); }
    }
    forall c | c in w'.evaluations ensures EvaluationInv(w', w'.evaluations[c]) {
      if c != call { assert EvaluationInv(w, w.evaluations[c]); }
    }
  }

  function With(w: World, call: nat, e: Evaluation, flags: map<Subject, Flags>, lost: set<Subject>): World {
    w.(evaluations := w.evaluations[call := e], flags := flags, lost := lost)
  }

  /** What writing the outcome for `s` makes of its flags. */
  predicate Written(w: World, call: nat, s: Subject, f: Flags)
    requires s in w.flags
  {
    var n := Count(w.reports, s);
    RaisedTo(w.flags[s], f) && Justified(n, f) &&
    (Settled(n, w.flags[s]) || WillEvaluate(w, call, s) ==> Settled(n, f))
  }

  /** Going on to the next subject: the one at the head must be settled, unless someone else will see to it. */
  lemma FinishingKeepsInv(w: World, w': World, call: nat)
    requires Inv(w) && call in w.evaluations && w.evaluations[call].todo != []
    requires w' == With(w, call, Evaluation(w.evaluations[call].todo[1..], None, None), w'.flags, w'.lost)
    requires w'.flags.Keys == w.flags.Keys
    requires var s := w.evaluations[call].todo[0];
             (forall t :: t in w.flags && t != s ==> w'.flags[t] == w.flags[t]) &&
             (s in w.flags ==> Written(w, call, s, w'.flags[s])) &&
             (w'.lost == w.lost ||
              (w'.lost == w.lost - {s} && s in w.flags && Settled(Count(w.reports, s), w'.flags[s])))
    ensures Inv(w')
  {
    var e := w.evaluations[call];
    forall s | s in w'.flags ensures SubjectInv(w', s) {
      assert SubjectInv(w, s);
      if c :| WillEvaluate(w, c, s) {
        if c != call || s != e.todo[0] { assert WillEvaluate(w', c, s); }
      }
    }
    forall c | c in w'.evaluations ensures EvaluationInv(w', w'.evaluations[c]) {
      if c != call { assert EvaluationInv(w, w.evaluations[c]); RaisedSeen(w, w', w.evaluations[c]); }
    }
  }

  lemma RaisedSeen(w: World, w': World, e: Evaluation)
    requires EvaluationInv(w, e) && w'.reports == w.reports && w'.flags.Keys == w.flags.Keys
    requires forall t :: t in w.flags ==> w'.flags[t] == w.flags[t] || RaisedTo(w.flags[t], w'.flags[t])
    ensures EvaluationInv(w', e)
  {
  }

  lemma AdvanceKeepsInv(w: World, call: nat)
    requires Inv(w) && call in w.evaluations && w.evaluations[call].todo != []
    ensures Inv(Next(w, Advance(call)))
  {
    var e, w' := w.evaluations[call], Next(w, Advance(call));
    var s := e.todo[0];
    assert EvaluationInv(w, e);
    if e.counted.None? && (!s.User? || e.seen.Some?) {
      ReadingKeepsInv(w, call, e.(counted := Some(Count(w.reports, s))));
    } else if e.seen.None? && s in w.flags && !Exempt(w.flags[s]) {
      ReadingKeepsInv(w, call, e.(seen := Some(w.flags[s])));
    } else {
      if s in w.flags {
        assert SubjectInv(w, s);
        if e.seen.Some? { RaiseIsSound(e.counted.value, e.seen.value, w.flags[s], Count(w.reports, s)); }
      }
      FinishingKeepsInv(w, w', call);
    }
  }

  lemma StepKeepsInv(w: World, step: Step)
    requires Inv(w)
    ensures Inv(Next(w, step))
  {
    match step
    case CheckReport(_, _, _, _) => SameViewKeepsInv(w, Next(w, step));
    case InsertReport(call) => if call in w.drafts && call !in w.evaluations { InsertKeepsInv(w, call); }
    case Advance(call) => if call in w.evaluations && w.evaluations[call].todo != [] { AdvanceKeepsInv(w, call); }
    case Crash(call) => CrashKeepsInv(w, call);
    case VerifyEmail(id) =>
      if User(id) in w.flags && w.flags[User(id)].UserFlags? { AccountKeepsInv(w, Next(w, step), id); }
    case BlockUser(id) =>
      if User(id) in w.flags && w.flags[User(id)].UserFlags? { AccountKeepsInv(w, Next(w, step), id); }
  }

  lemma {:induction false} RunsKeepInv(w: World, steps: seq<Step>)
    requires Inv(w)
    ensures Inv(Run(w, steps))
  {
    if steps != [] {
      RunsKeepInv(w, steps[..|steps| - 1]);
      StepKeepsInv(Run(w, steps[..|steps| - 1]), steps[|steps| - 1]);
    }
  }

  // ------------------------------------------------------------ main results

  /** No evaluation that includes `s` is under way, and none lost to a crash is still to be made up for. */
  predicate Quiet(w: World, s: Subject) {
    s !in w.lost && forall c :: c in w.evaluations ==> s !in w.evaluations[c].todo
  }

  /** At no moment is anything flagged with fewer distinct counted reporters than its threshold. */
  lemma NothingIsFlaggedEarly(w: World, steps: seq<Step>, s: Subject)
    requires Fresh(w) && s in Run(w, steps).flags
    ensures var now := Run(w, steps);
            Justified(Count(now.reports, s), now.flags[s])
  {
    FreshIsInv(w);
    RunsKeepInv(w, steps);
    assert SubjectInv(Run(w, steps), s);
  }

  /**
   * Once evaluations are done, content is up for review from ten distinct counted reporters on,
   * and hidden from fifteen.
   */
  lemma ContentIsFlaggedIffReported(w: World, steps: seq<Step>, s: Subject)
    requires Fresh(w) && s in Run(w, steps).flags && Run(w, steps).flags[s].ContentFlags? && Quiet(Run(w, steps), s)
    ensures var now := Run(w, steps);
            (now.flags[s].review <==> Count(now.reports, s) >= 10) &&
            (now.flags[s].hidden <==> Count(now.reports, s) >= 15)
  {
    FreshIsInv(w);
    RunsKeepInv(w, steps);
    assert SubjectInv(Run(w, steps), s);
  }

  /** And a user who is neither blocked nor an administrator is suspended from twenty-five on. */
  lemma UserIsSuspendedIffReported(w: World, steps: seq<Step>, id: string)
    requires Fresh(w) && User(id) in Run(w, steps).flags && Run(w, steps).flags[User(id)].UserFlags? &&
      Quiet(Run(w, steps), User(id))
    requires !Exempt(Run(w, steps).flags[User(id)])
    ensures var now := Run(w, steps);
            now.flags[User(id)].suspended <==> Count(now.reports, User(id)) >= 25
  {
    FreshIsInv(w);
    RunsKeepInv(w, steps);
    assert SubjectInv(Run(w, steps), User(id));
  }

  // ------------------------------------------- one address, one counted report

  /** No counted report has the address of an earlier counted one on its own content target. */
  predicate UniqueAddresses(reports: seq<Report>) {
    forall i, j :: 0 <= i < j < |reports| ==> !Clash(reports[i], reports[j])
  }

  predicate Clash(earlier: Report, r: Report) {
    earlier.counted && r.counted && r.ip.Some? && earlier.ip == r.ip &&
    ContentTarget(r.targets).Some? && PointsAt(earlier.targets, ContentTarget(r.targets).value)
  }

  /** Nobody has reported the same thing twice. */
  predicate UniqueReports(reports: seq<Report>) {
    forall i, j :: 0 <= i < j < |reports| ==> !Repeats(reports[i], reports[j])
  }

  predicate Repeats(earlier: Report, r: Report) {
    earlier.reporterId == r.reporterId &&
    PrimaryTarget(r.targets).Some? && PointsAt(earlier.targets, PrimaryTarget(r.targets).value)
  }

  lemma UniqueAddressesOfSnoc(reports: seq<Report>, r: Report)
    ensures UniqueAddresses(reports + [r]) <==>
            UniqueAddresses(reports) && forall e :: e in reports ==> !Clash(e, r)
  {
    var n, more := |reports|, reports + [r];
    assert forall i :: 0 <= i < n ==> more[i] == reports[i];
    assert more[n] == r;
    if UniqueAddresses(more) {
      forall e | e in reports ensures !Clash(e, r) {
        var i :| 0 <= i < n && reports[i] == e;
        assert !Clash(more[i], more[n]);
      }
      forall i, j | 0 <= i < j < n ensures !Clash(reports[i], reports[j]) { assert !Clash(more[i], more[j]); }
    }
  }

  lemma UniqueReportsOfSnoc(reports: seq<Report>, r: Report)
    ensures UniqueReports(reports + [r]) <==>
            UniqueReports(reports) && forall e :: e in reports ==> !Repeats(e, r)
  {
    var n, more := |reports|, reports + [r];
    assert forall i :: 0 <= i < n ==> more[i] == reports[i];
    assert more[n] == r;
    if UniqueReports(more) {
      forall e | e in reports ensures !Repeats(e, r) {
        var i :| 0 <= i < n && reports[i] == e;
        assert !Repeats(more[i], more[n]);
      }
      forall i, j | 0 <= i < j < n ensures !Repeats(reports[i], reports[j]) { assert !Repeats(more[i], more[j]); }
    }
  }

  /** What is stored has the targets that were checked, or none. */
  lemma StoredTargets(owners: map<Subject, string>, flags: map<Subject, Flags>, t: Targets)
    ensures var stored := t.(reportedUserId := ReportedUser(owners, flags, t));
            (ContentTarget(stored).Some? ==> ContentTarget(stored) == ContentTarget(t)) &&
            (PrimaryTarget(stored).Some? ==> PrimaryTarget(stored) == PrimaryTarget(t))
  {
  }

  /** The reports stored since call `c` checked its own, in order. */
  function InsertedSince(w: World, steps: seq<Step>, c: nat): seq<Report> {
    if steps == [] then []
    else
      var before, step := steps[..|steps| - 1], steps[|steps| - 1];
      var v := Run(w, before);
      if step.CheckReport? && step.call == c && c !in v.drafts then []
      else if step.InsertReport? && step.call != c && step.call in v.drafts && step.call !in v.evaluations
      then InsertedSince(w, before, c) + [v.drafts[step.call]]
      else InsertedSince(w, before, c)
  }

  /** The check looked at every report stored so far. */
  lemma CheckLooksAtAll(w: World, step: Step, c: nat)
    requires step.CheckReport? && c !in w.drafts && c in Next(w, step).drafts
    ensures forall e :: e in w.reports ==>
      !Clash(e, Next(w, step).drafts[c]) && !Repeats(e, Next(w, step).drafts[c])
  {
    StoredTargets(w.owners, w.flags, step.targets);
  }

  lemma DraftStep(v: World, step: Step, c: nat)
    requires c in Next(v, step).drafts
    ensures if c in v.drafts
            then
              Next(v, step).drafts[c] == v.drafts[c] && !(step.InsertReport? && step.call == c && c !in v.evaluations)
            else step.CheckReport? && step.call == c && Next(v, step).reports == v.reports
    ensures Next(v, step).reports ==
            if step.InsertReport? && step.call in v.drafts && step.call !in v.evaluations
            then v.reports + [v.drafts[step.call]] else v.reports
  {
  }

  /** What a waiting report clashes with, or repeats, was stored since its check. */
  lemma {:induction false} OnlyLaterReportsMatter(w: World, steps: seq<Step>, c: nat, e: Report)
    requires Fresh(w) && c in Run(w, steps).drafts
    ensures e in InsertedSince(w, steps, c) ==> e in Run(w, steps).reports
    ensures var now := Run(w, steps);
            e in now.reports && (Clash(e, now.drafts[c]) || Repeats(e, now.drafts[c])) ==>
              e in InsertedSince(w, steps, c)
  {
    var before, step := steps[..|steps| - 1], steps[|steps| - 1];
    var v := Run(w, before);
    DraftStep(v, step, c);
    if c in v.drafts {
      OnlyLaterReportsMatter(w, before, c, e);
    } else {
      CheckLooksAtAll(v, step, c);
    }
  }

  /** The check of a waiting report would fail by now exactly when a report it clashes with was stored since. */
  lemma CheckFailsIffOvertaken(w: World, steps: seq<Step>, c: nat)
    requires Fresh(w) && c in Run(w, steps).drafts
    ensures var now := Run(w, steps);
            var r := now.drafts[c];
            (r.counted && SameAddress(now.reports, r.ip, r.targets) <==>
             exists e :: e in InsertedSince(w, steps, c) && Clash(e, r)) &&
            (IsDuplicate(now.reports, r.reporterId, r.targets) <==>
             exists e :: e in InsertedSince(w, steps, c) && Repeats(e, r))
  {
    var now := Run(w, steps);
    var r := now.drafts[c];
    forall e ensures e in InsertedSince(w, steps, c) ==> e in now.reports { OnlyLaterReportsMatter(w, steps, c, e); }
    if r.counted && SameAddress(now.reports, r.ip, r.targets) {
      var e :| e in now.reports && Clash(e, r);
      OnlyLaterReportsMatter(w, steps, c, e);
    }
    if IsDuplicate(now.reports, r.reporterId, r.targets) {
      var e :| e in now.reports && Repeats(e, r);
      OnlyLaterReportsMatter(w, steps, c, e);
    }
  }

  /** The report that a step stores. */
  function Stores(v: World, step: Step): Option<Report> {
    if step.InsertReport? && step.call in v.drafts && step.call !in v.evaluations then Some(v.drafts[step.call])
    else None
  }

  /** No report is stored after one that it clashes with was stored since its own check. */
  predicate NoClashOvertakes(w: World, steps: seq<Step>) {
    steps == [] ||
    var before, step := steps[..|steps| - 1], steps[|steps| - 1];
    var stored := Stores(Run(w, before), step);
    NoClashOvertakes(w, before) &&
    (stored.Some? ==> forall e :: e in InsertedSince(w, before, step.call) ==> !Clash(e, stored.value))
  }

  /** No report is stored after one that it repeats was stored since its own check. */
  predicate NoRepeatOvertakes(w: World, steps: seq<Step>) {
    steps == [] ||
    var before, step := steps[..|steps| - 1], steps[|steps| - 1];
    var stored := Stores(Run(w, before), step);
    NoRepeatOvertakes(w, before) &&
    (stored.Some? ==> forall e :: e in InsertedSince(w, before, step.call) ==> !Repeats(e, stored.value))
  }

  lemma ReportsAfter(v: World, step: Step)
    ensures Next(v, step).reports == v.reports + if Stores(v, step).Some? then [Stores(v, step).value] else []
  {
  }

  /** One address counts once on each content, over a whole run, exactly when no insert is overtaken by a clash. */
  lemma {:induction false} AddressesCountOnceIffNoneOvertaken(w: World, steps: seq<Step>)
    requires Fresh(w)
    ensures UniqueAddresses(Run(w, steps).reports) <==> NoClashOvertakes(w, steps)
  {
    if steps != [] {
      var before, step := steps[..|steps| - 1], steps[|steps| - 1];
      var v := Run(w, before);
      AddressesCountOnceIffNoneOvertaken(w, before);
      ReportsAfter(v, step);
      if Stores(v, step).Some? {
        UniqueAddressesOfSnoc(v.reports, v.drafts[step.call]);
        forall e ensures e in InsertedSince(w, before, step.call) ==> e in v.reports
          ensures e in v.reports && Clash(e, v.drafts[step.call]) ==> e in InsertedSince(w, before, step.call)
        {
          OnlyLaterReportsMatter(w, before, step.call, e);
        }
      }
    }
  }

  /** Nobody reports the same thing twice, over a whole run, exactly when no insert is overtaken by its repeat. */
  lemma {:induction false} ReportsAreUniqueIffNoneOvertaken(w: World, steps: seq<Step>)
    requires Fresh(w)
    ensures UniqueReports(Run(w, steps).reports) <==> NoRepeatOvertakes(w, steps)
  {
    if steps != [] {
      var before, step := steps[..|steps| - 1], steps[|steps| - 1];
      var v := Run(w, before);
      ReportsAreUniqueIffNoneOvertaken(w, before);
      ReportsAfter(v, step);
      if Stores(v, step).Some? {
        UniqueReportsOfSnoc(v.reports, v.drafts[step.call]);
        forall e ensures e in InsertedSince(w, before, step.call) ==> e in v.reports
          ensures e in v.reports && Repeats(e, v.drafts[step.call]) ==> e in InsertedSince(w, before, step.call)
        {
          OnlyLaterReportsMatter(w, before, step.call, e);
        }
      }
    }
  }

  /** Unless overtaken by a clash, no two counted reports of an offer come from one known address. */
  lemma OfferReportsComeFromDistinctAddresses(w: World, steps: seq<Step>, offerId: string, i: nat, j: nat)
    requires Fresh(w) && NoClashOvertakes(w, steps) && i < j < |Run(w, steps).reports|
    requires var a, b := Run(w, steps).reports[i], Run(w, steps).reports[j];
             a.counted && b.counted && Against(a, Offer(offerId)) && Against(b, Offer(offerId))
    ensures var a, b := Run(w, steps).reports[i], Run(w, steps).reports[j];
            a.ip.None? || a.ip != b.ip
  {
    AddressesCountOnceIffNoneOvertaken(w, steps);
    assert !Clash(Run(w, steps).reports[i], Run(w, steps).reports[j]);
  }

  /** Unless overtaken by a repeat, nobody reports an offer twice. */
  lemma OfferReportsComeFromDistinctUsers(w: World, steps: seq<Step>, offerId: string, i: nat, j: nat)
    requires Fresh(w) && NoRepeatOvertakes(w, steps) && i < j < |Run(w, steps).reports|
    requires var a, b := Run(w, steps).reports[i], Run(w, steps).reports[j];
             Against(a, Offer(offerId)) && Against(b, Offer(offerId)) && b.targets.messageId.None?
    ensures Run(w, steps).reports[i].reporterId != Run(w, steps).reports[j].reporterId
  {
    ReportsAreUniqueIffNoneOvertaken(w, steps);
    assert !Repeats(Run(w, steps).reports[i], Run(w, steps).reports[j]);
  }

  lemma RunSnoc(w: World, steps: seq<Step>, step: Step)
    ensures Run(w, steps + [step]) == Next(Run(w, steps), step)
  {
    assert (steps + [step])[..|steps|] == steps;
  }

  lemma CheckStep(w: World, call: nat, r: Report)
    requires call !in w.drafts && call !in w.evaluations
    requires Check(w.reports, w.owners, w.flags, r.reporterId, r.targets, r.ip) == Draft(r)
    ensures Next(w, CheckReport(call, r.reporterId, r.targets, r.ip)) == w.(drafts := w.drafts[call := r])
  {
  }

  lemma InsertStep(w: World, call: nat)
    requires call in w.drafts && call !in w.evaluations
    ensures var v := Next(w, InsertReport(call));
            v.reports == w.reports + [w.drafts[call]] && v.drafts == w.drafts - {call} &&
            v.evaluations.Keys == w.evaluations.Keys + {call}
  {
  }

  /** Two reports checked before either is stored. */
  lemma CheckBothThenInsertBoth(w: World, a: Report, b: Report) returns (steps: seq<Step>)
    requires w.reports == [] && w.drafts == map[] && w.evaluations == map[]
    requires Check([], w.owners, w.flags, a.reporterId, a.targets, a.ip) == Draft(a)
    requires Check([], w.owners, w.flags, b.reporterId, b.targets, b.ip) == Draft(b)
    ensures Run(w, steps).reports == [a, b]
  {
    var first, second := CheckReport(0, a.reporterId, a.targets, a.ip), CheckReport(1, b.reporterId, b.targets, b.ip);
    var checks := [] + [first] + [second];
    var w1 := w.(drafts := map[0 := a]);
    CheckStep(w, 0, a);
    CheckStep(w1, 1, b);
    RunSnoc(w, [], checks[0]);
    RunSnoc(w, [] + [checks[0]], checks[1]);
    var w2 := Run(w, checks);
    assert w2 == w1.(drafts := w1.drafts[1 := b]);
    InsertStep(w2, 0);
    InsertStep(Next(w2, InsertReport(0)), 1);
    RunSnoc(w, checks, InsertReport(0));
    RunSnoc(w, checks + [InsertReport(0)], InsertReport(1));
    steps := checks + [InsertReport(0)] + [InsertReport(1)];
  }

  /** Two users behind one address: both checks pass before either report is stored, and both count. */
  lemma RacingReportsShareAnAddress()
    ensures exists w: World, steps: seq<Step> ::
      Fresh(w) && |Run(w, steps).reports| == 2 && Clash(Run(w, steps).reports[0], Run(w, steps).reports[1])
  {
    var user := UserFlags(true, false, false, false);
    var w := World([], map[User("ana") := user, User("bea") := user], map[], map[], map[], {});
    var t, ip := Targets(None, Some("o"), None, None, None), Some("198.51.100.7");
    var a, b := Report("ana", t, true, ip), Report("bea", t, true, ip);
    var steps := CheckBothThenInsertBoth(w, a, b);
    assert Fresh(w) && Clash(Run(w, steps).reports[0], Run(w, steps).reports[1]);
  }

  // ----------------------------------------------------- one call on its own

  /** Evaluating a list of subjects with nothing in between. */
  function Evaluated(reports: seq<Report>, flags: map<Subject, Flags>, todo: seq<Subject>): map<Subject, Flags> {
    if todo == [] then flags else Evaluated(reports, EvaluateOne(reports, flags, todo[0]), todo[1..])
  }

  function EvaluateOne(reports: seq<Report>, flags: map<Subject, Flags>, s: Subject): map<Subject, Flags> {
    if s !in flags || Exempt(flags[s]) then flags
    else flags[s := Raise(Count(reports, s), flags[s], flags[s])]
  }

  function Advanced(w: World, call: nat, n: nat): World
    decreases n
  {
    if n == 0 then w else Advanced(Next(w, Advance(call)), call, n - 1)
  }

  lemma {:induction false} AdvancedTwice(w: World, call: nat, m: nat, n: nat)
    ensures Advanced(w, call, m + n) == Advanced(Advanced(w, call, m), call, n)
    decreases m
  {
    if m > 0 { AdvancedTwice(Next(w, Advance(call)), call, m - 1, n); }
  }

  /** Count, look, write; or look, count, write. */
  lemma HeadInThree(reports: seq<Report>, flags: map<Subject, Flags>, todo: seq<Subject>)
    returns (e1: Evaluation, e2: Evaluation)
    requires todo != [] && todo[0] in flags && !Exempt(flags[todo[0]])
    ensures AdvanceHead(reports, flags, Evaluation(todo, None, None)) == (e1, flags) && e1.todo == todo
    ensures AdvanceHead(reports, flags, e1) == (e2, flags) && e2.todo == todo
    ensures AdvanceHead(reports, flags, e2) == (Evaluation(todo[1..], None, None), EvaluateOne(reports, flags, todo[0]))
    ensures e1.seen.None? || e1.counted.None?
    ensures e2.seen.Some? && e2.counted == Some(Count(reports, todo[0]))
  {
    var s := todo[0];
    var n, f := Some(Count(reports, s)), Some(flags[s]);
    e1 := if s.User? then Evaluation(todo, None, f) else Evaluation(todo, n, None);
    e2 := Evaluation(todo, n, f);
  }

  /** Nothing to do for an unknown or exempt subject. */
  lemma HeadIsPassedOver(reports: seq<Report>, flags: map<Subject, Flags>, todo: seq<Subject>)
    requires todo != [] && (todo[0] !in flags || Exempt(flags[todo[0]]))
    ensures var e, counted := Evaluation(todo, None, None), Evaluation(todo, Some(Count(reports, todo[0])), None);
            AdvanceHead(reports, flags, if todo[0].User? then e else counted) ==
            (Evaluation(todo[1..], None, None), flags) &&
            (!todo[0].User? ==> AdvanceHead(reports, flags, e) == (counted, flags))
  {
  }

  /** One step of a call, from a world that differs in the call's own progress. */
  lemma AdvanceFrom(w: World, call: nat, e: Evaluation, next: Evaluation, flags: map<Subject, Flags>)
    requires e.todo != [] && AdvanceHead(w.reports, w.flags, e) == (next, flags)
    ensures Next(With(w, call, e, w.flags, w.lost), Advance(call)) ==
            With(w, call, next, flags, StillLost(w.reports, w.flags, w.lost, e))
  {
    assert w.evaluations[call := e][call := next] == w.evaluations[call := next];
  }

  lemma AdvancedOnce(w: World, call: nat, n: nat)
    requires n > 0
    ensures Advanced(w, call, n) == Advanced(Next(w, Advance(call)), call, n - 1)
  {
  }

  /** An evaluation on its own makes up for what was lost. */
  function MadeUp(flags: map<Subject, Flags>, lost: set<Subject>, s: Subject): set<Subject> {
    if s in flags && !Exempt(flags[s]) then lost - {s} else lost
  }

  /** The steps of one evaluation, taken in a row, are that evaluation. */
  lemma AdvanceOne(w: World, call: nat) returns (n: nat)
    requires call in w.evaluations && w.evaluations[call].todo != []
    requires w.evaluations[call].counted.None? && w.evaluations[call].seen.None?
    ensures var todo := w.evaluations[call].todo;
            Advanced(w, call, n) == With(w, call, Evaluation(todo[1..], None, None),
                                         EvaluateOne(w.reports, w.flags, todo[0]), MadeUp(w.flags, w.lost, todo[0]))
  {
    var e := w.evaluations[call];
    var s, done := e.todo[0], Evaluation(e.todo[1..], None, None);
    assert With(w, call, e, w.flags, w.lost) == w;
    if s in w.flags && !Exempt(w.flags[s]) {
      n := 3;
      var e1, e2 := HeadInThree(w.reports, w.flags, e.todo);
      AdvanceFrom(w, call, e, e1, w.flags);
      AdvanceFrom(w, call, e1, e2, w.flags);
      AdvanceFrom(w, call, e2, done, EvaluateOne(w.reports, w.flags, s));
      AdvancedOnce(w, call, 3);
      AdvancedOnce(With(w, call, e1, w.flags, w.lost), call, 2);
      AdvancedOnce(With(w, call, e2, w.flags, w.lost), call, 1);
    } else {
      HeadIsPassedOver(w.reports, w.flags, e.todo);
      if s.User? {
        n := 1;
        AdvanceFrom(w, call, e, done, w.flags);
      } else {
        n := 2;
        var counted := Evaluation(e.todo, Some(Count(w.reports, s)), None);
        AdvanceFrom(w, call, e, counted, w.flags);
        AdvanceFrom(w, call, counted, done, w.flags);
        AdvancedOnce(w, call, 2);
        AdvancedOnce(With(w, call, counted, w.flags, w.lost), call, 1);
      }
    }
  }

  lemma ExemptionStays(reports: seq<Report>, flags: map<Subject, Flags>, head: Subject, s: Subject)
    requires s in flags
    ensures s in EvaluateOne(reports, flags, head)
    ensures Exempt(EvaluateOne(reports, flags, head)[s]) <==> Exempt(flags[s])
  {
  }

  /** A call whose evaluation runs without interruption. */
  lemma {:induction false} UninterruptedEvaluation(w: World, call: nat, s: Subject) returns (n: nat)
    requires call in w.evaluations
    requires w.evaluations[call].counted.None? && w.evaluations[call].seen.None?
    ensures Advanced(w, call, n).reports == w.reports
    ensures Advanced(w, call, n).flags == Evaluated(w.reports, w.flags, w.evaluations[call].todo)
    ensures s in Advanced(w, call, n).lost <==>
            s in w.lost && !(s in w.evaluations[call].todo && s in w.flags && !Exempt(w.flags[s]))
    decreases |w.evaluations[call].todo|
  {
    if w.evaluations[call].todo == [] { return 0; }
    var one := AdvanceOne(w, call);
    var w' := Advanced(w, call, one);
    var head := w.evaluations[call].todo[0];
    if s in w.flags { ExemptionStays(w.reports, w.flags, head, s); }
    var rest := UninterruptedEvaluation(w', call, s);
    n := one + rest;
    AdvancedTwice(w, call, one, rest);
  }

  /** Every subject is flagged as its count demands, no more and no less. */
  ghost predicate AllSettled(reports: seq<Report>, flags: map<Subject, Flags>) {
    forall s :: s in flags ==> Justified(Count(reports, s), flags[s]) && Settled(Count(reports, s), flags[s])
  }

  lemma {:induction false} EvaluatedSettlesOne(
    reports: seq<Report>, flags: map<Subject, Flags>, todo: seq<Subject>, s: Subject)
    requires s in flags && Justified(Count(reports, s), flags[s])
    requires s in todo || Settled(Count(reports, s), flags[s])
    ensures var f := Evaluated(reports, flags, todo);
            s in f && Justified(Count(reports, s), f[s]) && Settled(Count(reports, s), f[s])
  {
    if todo != [] {
      var head, n := todo[0], Count(reports, s);
      if head == s { RaiseIsSound(n, flags[s], flags[s], n); }
      EvaluatedSettlesOne(reports, EvaluateOne(reports, flags, head), todo[1..], s);
    }
  }

  lemma {:induction false} EvaluatedAddsNobody(reports: seq<Report>, flags: map<Subject, Flags>, todo: seq<Subject>)
    ensures Evaluated(reports, flags, todo).Keys == flags.Keys
  {
    if todo != [] { EvaluatedAddsNobody(reports, EvaluateOne(reports, flags, todo[0]), todo[1..]); }
  }

  lemma EvaluatedSettles(reports: seq<Report>, flags: map<Subject, Flags>, todo: seq<Subject>)
    requires forall s :: s in flags ==> Justified(Count(reports, s), flags[s])
    requires forall s :: s in flags && s !in todo ==> Settled(Count(reports, s), flags[s])
    ensures AllSettled(reports, Evaluated(reports, flags, todo))
  {
    EvaluatedAddsNobody(reports, flags, todo);
    forall s | s in flags
      ensures var f := Evaluated(reports, flags, todo);
              s in f && Justified(Count(reports, s), f[s]) && Settled(Count(reports, s), f[s])
    {
      EvaluatedSettlesOne(reports, flags, todo, s);
    }
  }

  /** A report on its own leaves everything flagged as the new counts demand. */
  lemma ReportKeepsAllSettled(reports: seq<Report>, flags: map<Subject, Flags>, r: Report)
    requires AllSettled(reports, flags)
    ensures AllSettled(reports + [r], Evaluated(reports + [r], flags, ToEvaluate(r)))
  {
    forall s | s in flags
      ensures Justified(Count(reports + [r], s), flags[s])
      ensures s !in ToEvaluate(r) ==> Settled(Count(reports + [r], s), flags[s])
    {
      CountOfMore(reports, r, s);
      if r.counted && Against(r, s) { CountedIsEvaluated(r, s); }
    }
    EvaluatedSettles(reports + [r], flags, ToEvaluate(r));
  }

  // ------------------------------------------------- lost and made up for

  /**
   * Whatever was lost before: the next counted report against a subject, evaluated without
   * interruption, leaves its flags as the whole count demands, and nothing of it lost.
   */
  lemma NextReportMakesUp(w: World, call: nat, s: Subject) returns (n: nat)
    requires Inv(w) && call in w.drafts && call !in w.evaluations
    requires w.drafts[call].counted && Against(w.drafts[call], s)
    requires s in w.flags && !Exempt(w.flags[s])
    ensures var v := Advanced(Next(w, InsertReport(call)), call, n);
            s in v.flags && s !in v.lost && Count(v.reports, s) >= Count(w.reports, s) &&
            Justified(Count(v.reports, s), v.flags[s]) && Settled(Count(v.reports, s), v.flags[s])
  {
    var r, u := w.drafts[call], Next(w, InsertReport(call));
    InsertKeepsInv(w, call);
    assert SubjectInv(u, s);
    CountedIsEvaluated(r, s);
    CountOfMore(w.reports, r, s);
    n := UninterruptedEvaluation(u, call, s);
    EvaluatedSettlesOne(u.reports, u.flags, ToEvaluate(r), s);
  }

  predicate Distinct(names: seq<string>) {
    forall i, j :: 0 <= i < j < |names| ==> names[i] != names[j]
  }

  ghost predicate Leads(w: World, v: World) {
    exists steps :: Run(w, steps) == v
  }

  lemma LeadsOn(w: World, v: World, step: Step)
    requires Leads(w, v)
    ensures Leads(w, Next(v, step))
  {
    var steps :| Run(w, steps) == v;
    RunSnoc(w, steps, step);
  }

  /** Nothing under way, nothing raised, and so many reports of the offer, all of them by `names`. */
  predicate Unraised(w: World, v: World, names: seq<string>, offerId: string) {
    v.flags == w.flags && v.owners == w.owners && v.drafts == map[] && v.evaluations == map[] &&
    Count(v.reports, Offer(offerId)) == |names| && forall e :: e in v.reports ==> e.reporterId in names
  }

  /** A report whose caller crashes right after the insert. */
  lemma ReportThenCrash(w: World, u: World, names: seq<string>, name: string, offerId: string) returns (v: World)
    requires Leads(w, u) && Unraised(w, u, names, offerId) && Eligible(w.flags, name) && name !in names
    ensures Leads(w, v) && Unraised(w, v, names + [name], offerId)
  {
    var t := Targets(None, Some(offerId), None, None, None);
    var r := Report(name, t.(reportedUserId := ReportedUser(u.owners, u.flags, t)), true, None);
    var check := CheckReport(0, name, t, None);
    assert Check(u.reports, u.owners, u.flags, name, t, None) == Draft(r);
    var u1 := u.(drafts := map[0 := r]);
    assert Next(u, check) == u1;
    LeadsOn(w, u, check);
    LeadsOn(w, u1, InsertReport(0));
    var u2 := Next(u1, InsertReport(0));
    LeadsOn(w, u2, Crash(0));
    v := Next(u2, Crash(0));
    assert v.reports == u.reports + [r] && u2.evaluations == map[0 := u2.evaluations[0]];
    assert map[0 := r] - {0} == map[] && v.evaluations == map[];
    CountOfCounted(u.reports, r, Offer(offerId));
    assert name !in Reporters(u.reports, Offer(offerId));
  }

  lemma {:induction false} ReportsThenCrashes(w: World, names: seq<string>, offerId: string) returns (v: World)
    requires Fresh(w) && Distinct(names) && forall i :: 0 <= i < |names| ==> Eligible(w.flags, names[i])
    ensures Leads(w, v) && Unraised(w, v, names, offerId)
  {
    if names == [] {
      assert Run(w, []) == w && Reporters([], Offer(offerId)) == {};
      return w;
    }
    var n := |names| - 1;
    var u := ReportsThenCrashes(w, names[..n], offerId);
    v := ReportThenCrash(w, u, names[..n], names[n], offerId);
    assert names[..n] + [names[n]] == names;
  }

  /** Crashes can lose a flag: any ten eligible users whose calls crash after the insert leave an offer unflagged. */
  lemma TenReportsAndNoFlag(w: World, names: seq<string>, offerId: string)
    requires Fresh(w) && Distinct(names) && |names| == 10
    requires Offer(offerId) in w.flags && w.flags[Offer(offerId)].ContentFlags?
    requires forall i :: 0 <= i < |names| ==> Eligible(w.flags, names[i])
    ensures exists steps ::
      Count(Run(w, steps).reports, Offer(offerId)) == REVIEW_REQUIRED && Run(w, steps).flags == w.flags
    ensures !w.flags[Offer(offerId)].review
  {
    var v := ReportsThenCrashes(w, names, offerId);
    var steps :| Run(w, steps) == v;
  }

  datatype Action = AutoHide | AutoReview | AutoSuspend

  /** The service over its tables, one call at a time. */
  class ReportsService {
    var reports: seq<Report>
    var flags: map<Subject, Flags>
    const owners: map<Subject, string>

    constructor (owners: map<Subject, string>, flags: map<Subject, Flags>)
      ensures this.owners == owners && this.flags == flags && reports == []
    {
      this.owners, this.flags, this.reports := owners, flags, [];
    }

    method Create(reporterId: string, t: Targets, ip: Option<string>)
      returns (refusal: Option<Refusal>, actions: seq<Action>)
      modifies this
      ensures match Check(old(reports), owners, old(flags), reporterId, t, ip)
              case Refused(why) => refusal == Some(why) && reports == old(reports) && flags == old(flags)
              case Draft(r) =>
                refusal == None && reports == old(reports) + [r] &&
                flags == Evaluated(reports, old(flags), ToEvaluate(r))
      ensures actions == [] ==> flags == old(flags)
      ensures old(AllSettled(reports, flags)) ==> AllSettled(reports, flags)
    {
      actions := [];
      if PrimaryTarget(t).None? { return Some(NothingReported), []; }
      if IsDuplicate(reports, reporterId, t) { return Some(AlreadyReported), []; }
      var counted := Eligible(flags, reporterId);
      var reportedUserId := ReportedUser(owners, flags, t);
      if counted && SameAddress(reports, ip, t) { counted := false; }
      var r := Report(reporterId, t.(reportedUserId := reportedUserId), counted, ip);
      reports := reports + [r];
      if AllSettled(old(reports), flags) { ReportKeepsAllSettled(old(reports), flags, r); }
      if counted {
        var todo := ToEvaluate(r);
        ghost var before := flags;
        for i := 0 to |todo|
          invariant reports == old(reports) + [r]
          invariant Evaluated(reports, before, todo) == Evaluated(reports, flags, todo[i..])
          invariant actions == [] ==> flags == old(flags)
        {
          var action := Evaluate(todo[i]);
          assert todo[i..][1..] == todo[i + 1..];
          if action.Some? { actions := actions + [action.value]; }
        }
        assert todo[|todo|..] == [];
      }
      return None, actions;
    }

    method Evaluate(s: Subject) returns (action: Option<Action>)
      modifies `flags
      ensures flags == EvaluateOne(reports, old(flags), s)
      ensures action.None? <==> flags == old(flags)
      ensures action == Some(AutoSuspend) <==>
                s in old(flags) && old(flags)[s].UserFlags? && !old(flags)[s].admin && !old(flags)[s].blocked &&
                !old(flags)[s].suspended && Count(reports, s) >= 25
      ensures action == Some(AutoHide) <==>
                s in old(flags) && old(flags)[s].ContentFlags? && !old(flags)[s].hidden && Count(reports, s) >= 15
      ensures action == Some(AutoReview) <==>
                s in old(flags) && old(flags)[s].ContentFlags? && !old(flags)[s].review && Count(reports, s) >= 10 &&
                (Count(reports, s) < 15 || old(flags)[s].hidden)
      ensures action.Some? ==>
                flags == old(flags)[s := match action.value
                                         case AutoHide => ContentFlags(true, true)
                                         case AutoReview => ContentFlags(true, old(flags)[s].hidden)
                                         case AutoSuspend => old(flags)[s].(suspended := true)]
    {
      if s !in flags { return None; }
      match flags[s]
      case ContentFlags(review, hidden) =>
        var count := Count(reports, s);
        if count >= HIDE_CONTENT && !hidden {
          flags := flags[s := ContentFlags(true, true)];
          return Some(AutoHide);
        }
        if count >= REVIEW_REQUIRED && !review {
          flags := flags[s := flags[s].(review := true)];
          return Some(AutoReview);
        }
        return None;
      case UserFlags(_, blocked, admin, suspended) =>
        if admin || blocked { return None; }
        var count := Count(reports, s);
        if count >= SUSPEND_USER && !suspended {
          flags := flags[s := flags[s].(suspended := true)];
          return Some(AutoSuspend);
        }
        return None;
    }
  }
}
