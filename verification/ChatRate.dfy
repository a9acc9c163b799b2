/**
 * The sliding-window limiter of chat sends: the gateway keeps a pruned list of time stamps
 * per user and must decide as if it kept every accepted send.
 */
module ChatRate {
  import opened Prelude

  const TTL: int := 60000

  /** The stamps less than `TTL` old at `now`. */
  function Recent(stamps: seq<int>, now: int): (r: seq<int>)
    ensures |r| <= |stamps|
    ensures forall t :: t in r <==> t in stamps && now - t < TTL
  {
    if stamps == [] then []
    else
      var n := |stamps| - 1;
      Recent(stamps[..n], now) + (if now - stamps[n] < TTL then [stamps[n]] else [])
  }

  /** Deciding from the full history: the accepted sends among `attempts`. */
  function Accepted(attempts: seq<int>, limit: nat): seq<int> {
    if attempts == [] then []
    else
      var past, now := Accepted(attempts[..|attempts| - 1], limit), attempts[|attempts| - 1];
      if |Recent(past, now)| < limit then past + [now] else past
  }

  /** How many stamps fall in the half-open window [from, from + TTL). */
  function InWindow(stamps: seq<int>, from: int): nat {
    if stamps == [] then 0
    else
      var n := |stamps| - 1;
      InWindow(stamps[..n], from) + (if from <= stamps[n] < from + TTL then 1 else 0)
  }

  lemma {:induction false} WindowIsRecent(stamps: seq<int>, from: int, now: int)
    requires now < from + TTL
    ensures InWindow(stamps, from) <= |Recent(stamps, now)|
  {
    if stamps != [] { WindowIsRecent(stamps[..|stamps| - 1], from, now); }
  }

  /** A limiter that decided on the full history would keep every window of length TTL within the limit. */
  lemma {:induction false} WindowNeverExceedsLimit(attempts: seq<int>, limit: nat, from: int)
    ensures InWindow(Accepted(attempts, limit), from) <= limit
  {
    if attempts != [] {
      var past, now := Accepted(attempts[..|attempts| - 1], limit), attempts[|attempts| - 1];
      WindowNeverExceedsLimit(attempts[..|attempts| - 1], limit, from);
      if |Recent(past, now)| < limit {
        assert (past + [now])[..|past|] == past;
        if from <= now < from + TTL { WindowIsRecent(past, from, now); }
      }
    }
  }

  predicate NonDecreasing(times: seq<int>) {
    forall i, j :: 0 <= i <= j < |times| ==> times[i] <= times[j]
  }

  lemma {:induction false} RecentIsAtMostLimit(attempts: seq<int>, limit: nat, now: int)
    requires NonDecreasing(attempts + [now])
    ensures |Recent(Accepted(attempts, limit), now)| <= limit
  {
    if attempts != [] {
      var before, last := attempts[..|attempts| - 1], attempts[|attempts| - 1];
      var past := Accepted(before, limit);
      assert forall i, j :: 0 <= i <= j < |before + [now]| ==> (before + [now])[i] <= (before + [now])[j] by {
        forall i, j | 0 <= i <= j < |before + [now]| ensures (before + [now])[i] <= (before + [now])[j] {
          assert (before + [now])[i] == (attempts + [now])[if i == |before| then i + 1 else i];
          assert (before + [now])[j] == (attempts + [now])[if j == |before| then j + 1 else j];
        }
      }
      RecentIsAtMostLimit(before, limit, now);
      if |Recent(past, last)| < limit {
        assert (past + [last])[..|past|] == past;
        assert (attempts + [now])[|attempts| - 1] == last && (attempts + [now])[|attempts|] == now;
        RecentShrinks(past, last, now);
      }
    }
  }

  lemma {:induction false} RecentShrinks(stamps: seq<int>, now: int, later: int)
    requires now <= later
    ensures |Recent(stamps, later)| <= |Recent(stamps, now)|
  {
    if stamps != [] { RecentShrinks(stamps[..|stamps| - 1], now, later); }
  }

  /** Under a clock that does not go back, a send is refused exactly when `limit` were accepted in the preceding TTL. */
  lemma RefusedIffLimitReached(attempts: seq<int>, limit: nat, now: int)
    requires NonDecreasing(attempts + [now])
    ensures Accepted(attempts + [now], limit) == Accepted(attempts, limit)
            <==> |Recent(Accepted(attempts, limit), now)| == limit
  {
    assert (attempts + [now])[..|attempts|] == attempts;
    RecentIsAtMostLimit(attempts, limit, now);
  }

  /** The window is a minute: a send is held against the next ones for 60000 milliseconds and no longer. */
  lemma SendCountsForAMinute(sent: int, now: int)
    ensures |Recent([sent], now)| == if now - sent < 60000 then 1 else 0
  {
    assert [sent][..0] == [];
  }

  lemma RecentOfSnoc(stamps: seq<int>, last: int, now: int)
    ensures Recent(stamps + [last], now) == Recent(stamps, now) + if now - last < TTL then [last] else []
  {
    assert (stamps + [last])[..|stamps|] == stamps;
  }

  lemma {:induction false} RecentOfRecent(stamps: seq<int>, now: int, later: int)
    requires now <= later
    ensures Recent(Recent(stamps, now), later) == Recent(stamps, later)
  {
    if stamps != [] {
      var n, x := |stamps| - 1, stamps[|stamps| - 1];
      var kept := Recent(stamps[..n], now);
      RecentOfRecent(stamps[..n], now, later);
      RecentOfSnoc(kept, x, later);
      assert Recent(stamps, now) == if now - x < TTL then kept + [x] else kept;
      assert Recent(stamps, later) == if later - x < TTL then Recent(kept, later) + [x] else Recent(kept, later);
    }
  }

  /** The pruned list is a suffix of the accepted sends: nothing is dropped out of order. */
  lemma {:induction false} RecentIsSuffix(stamps: seq<int>, now: int)
    requires NonDecreasing(stamps)
    ensures Recent(stamps, now) == stamps[|stamps| - |Recent(stamps, now)|..]
  {
    if stamps != [] {
      var n, x := |stamps| - 1, stamps[|stamps| - 1];
      var r := Recent(stamps[..n], now);
      if now - x >= TTL {
        NoneRecent(stamps, now);
      } else {
        RecentIsSuffix(stamps[..n], now);
        assert Recent(stamps, now) == r + [x];
        assert stamps[n - |r|..] == stamps[..n][n - |r|..] + [x];
      }
    }
  }

  lemma {:induction false} NoneRecent(stamps: seq<int>, now: int)
    requires forall i :: 0 <= i < |stamps| ==> now - stamps[i] >= TTL
    ensures Recent(stamps, now) == []
  {
    if stamps != [] { NoneRecent(stamps[..|stamps| - 1], now); }
  }

  /** From `clock` on, the kept list says what the history says. */
  ghost predicate Mirrors(kept: seq<int>, history: seq<int>, clock: int) {
    forall later :: later >= clock ==> Recent(kept, later) == Recent(history, later)
  }

  lemma MirrorsStep(kept: seq<int>, history: seq<int>, clock: int, now: int)
    requires Mirrors(kept, history, clock) && clock <= now
    ensures Recent(kept, now) == Recent(history, now)
    ensures Mirrors(kept, history, now)
    ensures Mirrors(Recent(kept, now) + [now], history + [now], now)
  {
    forall later | later >= now ensures Recent(Recent(kept, now) + [now], later) == Recent(history + [now], later) {
      RecentOfRecent(history, now, later);
      RecentOfSnoc(Recent(history, now), now, later);
      RecentOfSnoc(history, now, later);
    }
  }

  // ------------------------------------------------- the list that is pruned

  function Older(stamps: seq<int>, now: int): seq<int> {
    if stamps == [] then []
    else
      var n := |stamps| - 1;
      Older(stamps[..n], now) + (if now - stamps[n] < TTL then [] else [stamps[n]])
  }

  /** What is left of a list of attempts: the list kept, and for the record what was accepted and what was pruned. */
  datatype Gate = Gate(kept: seq<int>, sent: seq<int>, gone: seq<int>)

  /** Deciding as the gateway does, from the list it has pruned at every accepted send. */
  function Gated(attempts: seq<int>, limit: nat): Gate {
    if attempts == [] then Gate([], [], [])
    else
      var g, now := Gated(attempts[..|attempts| - 1], limit), attempts[|attempts| - 1];
      var recent := Recent(g.kept, now);
      if |recent| < limit then Gate(recent + [now], g.sent + [now], g.gone + Older(g.kept, now)) else g
  }

  lemma {:induction false} RecentOfTwo(a: seq<int>, b: seq<int>, now: int)
    ensures Recent(a + b, now) == Recent(a, now) + Recent(b, now)
  {
    if b == [] {
      assert a + b == a;
    } else {
      var n := |b| - 1;
      RecentOfTwo(a, b[..n], now);
      assert (a + b)[..|a| + n] == a + b[..n];
    }
  }

  lemma {:induction false} PruningSplits(stamps: seq<int>, now: int, at: int)
    ensures |Recent(stamps, at)| == |Recent(Recent(stamps, now), at)| + |Recent(Older(stamps, now), at)|
  {
    if stamps != [] {
      var n, x := |stamps| - 1, stamps[|stamps| - 1];
      PruningSplits(stamps[..n], now, at);
      var young, old' := Recent(stamps[..n], now), Older(stamps[..n], now);
      RecentOfSnoc(young, x, at);
      RecentOfSnoc(old', x, at);
      assert Recent(stamps, now) == if now - x < TTL then young + [x] else young;
      assert Older(stamps, now) == if now - x < TTL then old' else old' + [x];
      assert |Recent(stamps, at)| == |Recent(stamps[..n], at)| + if at - x < TTL then 1 else 0;
    }
  }

  /** Every accepted send is either still kept or pruned. */
  lemma {:induction false} KeptOrGone(attempts: seq<int>, limit: nat, at: int)
    ensures var g := Gated(attempts, limit);
            |Recent(g.sent, at)| == |Recent(g.kept, at)| + |Recent(g.gone, at)|
  {
    if attempts != [] {
      var g, now := Gated(attempts[..|attempts| - 1], limit), attempts[|attempts| - 1];
      KeptOrGone(attempts[..|attempts| - 1], limit, at);
      if |Recent(g.kept, now)| < limit {
        PruningSplits(g.kept, now, at);
        RecentOfSnoc(Recent(g.kept, now), now, at);
        RecentOfSnoc(g.sent, now, at);
        RecentOfTwo(g.gone, Older(g.kept, now), at);
      }
    }
  }

  /** The clock stands where a pruned send would count again. */
  predicate ReachesBack(gone: seq<int>, now: int) {
    exists t :: t in gone && now - t < TTL
  }

  /** The kept list says how many sends are recent if and only if the clock does not reach back to a pruned one. */
  lemma PruningShowsIffClockReachesBack(attempts: seq<int>, limit: nat, now: int)
    ensures var g := Gated(attempts, limit);
            |Recent(g.kept, now)| == |Recent(g.sent, now)| <==> !ReachesBack(g.gone, now)
  {
    var g := Gated(attempts, limit);
    KeptOrGone(attempts, limit, now);
    if Recent(g.gone, now) != [] { assert Recent(g.gone, now)[0] in Recent(g.gone, now); }
  }

  predicate NeverReachesBack(attempts: seq<int>, limit: nat) {
    attempts == [] ||
    (NeverReachesBack(attempts[..|attempts| - 1], limit) &&
     !ReachesBack(Gated(attempts[..|attempts| - 1], limit).gone, attempts[|attempts| - 1]))
  }

  /** Unless the clock reaches back to a pruned send, no window of length TTL holds more than `limit` accepted ones. */
  lemma {:induction false} GatedWindowNeverExceedsLimit(attempts: seq<int>, limit: nat, from: int)
    requires NeverReachesBack(attempts, limit)
    ensures InWindow(Gated(attempts, limit).sent, from) <= limit
  {
    if attempts != [] {
      var before, now := attempts[..|attempts| - 1], attempts[|attempts| - 1];
      var g := Gated(before, limit);
      GatedWindowNeverExceedsLimit(before, limit, from);
      PruningShowsIffClockReachesBack(before, limit, now);
      assert (g.sent + [now])[..|g.sent|] == g.sent;
      if from <= now < from + TTL { WindowIsRecent(g.sent, from, now); }
    }
  }

  lemma {:induction false} OlderIsOld(stamps: seq<int>, now: int, t: int)
    requires t in Older(stamps, now)
    ensures now - t >= TTL
  {
    var n := |stamps| - 1;
    if t in Older(stamps[..n], now) { OlderIsOld(stamps[..n], now, t); }
  }

  lemma {:induction false} GoneIsOld(attempts: seq<int>, limit: nat, now: int, t: int)
    requires NonDecreasing(attempts + [now]) && t in Gated(attempts, limit).gone
    ensures now - t >= TTL
  {
    var n := |attempts| - 1;
    var before, last := attempts[..n], attempts[n];
    var g := Gated(before, limit);
    assert (attempts + [now])[n] == last && (attempts + [now])[n + 1] == now;
    if t in g.gone {
      DropLast(attempts, now);
      GoneIsOld(before, limit, last, t);
    } else {
      OlderIsOld(g.kept, last, t);
    }
  }

  lemma DropLast(attempts: seq<int>, now: int)
    requires NonDecreasing(attempts + [now]) && attempts != []
    ensures NonDecreasing(attempts[..|attempts| - 1] + [attempts[|attempts| - 1]]) && NonDecreasing(attempts)
  {
    assert attempts[..|attempts| - 1] + [attempts[|attempts| - 1]] == attempts;
    assert forall i :: 0 <= i < |attempts| ==> attempts[i] == (attempts + [now])[i];
  }

  /** A clock that does not go back never does. */
  lemma {:induction false} ForwardClockNeverReachesBack(attempts: seq<int>, limit: nat)
    requires NonDecreasing(attempts)
    ensures NeverReachesBack(attempts, limit)
  {
    if attempts != [] {
      var n := |attempts| - 1;
      var before, now := attempts[..n], attempts[n];
      assert before + [now] == attempts;
      ForwardClockNeverReachesBack(before, limit);
      forall t | t in Gated(before, limit).gone ensures now - t >= TTL { GoneIsOld(before, limit, now, t); }
    }
  }

  lemma GatedSnoc(attempts: seq<int>, limit: nat, now: int)
    ensures var g := Gated(attempts, limit);
            var recent := Recent(g.kept, now);
            Gated(attempts + [now], limit) ==
            if |recent| < limit then Gate(recent + [now], g.sent + [now], g.gone + Older(g.kept, now)) else g
  {
    assert (attempts + [now])[..|attempts|] == attempts;
  }

  lemma InWindowOfSnoc(stamps: seq<int>, last: int, from: int)
    ensures InWindow(stamps + [last], from) == InWindow(stamps, from) + if from <= last < from + TTL then 1 else 0
  {
    assert (stamps + [last])[..|stamps|] == stamps;
  }

  /** The list kept after another send that is accepted. */
  lemma AcceptedNext(attempts: seq<int>, limit: nat, kept: seq<int>, sent: seq<int>, recent: seq<int>, now: int)
    requires Gated(attempts, limit).kept == kept && Gated(attempts, limit).sent == sent
    requires Recent(kept, now) == recent && |recent| < limit
    ensures Gated(attempts + [now], limit).kept == recent + [now] && Gated(attempts + [now], limit).sent == sent + [now]
  {
    GatedSnoc(attempts, limit, now);
  }

  lemma RecentOfOne(a: int, now: int)
    ensures Recent([a], now) == if now - a < TTL then [a] else []
  {
    assert [a][..0] == [];
  }

  lemma RecentOfBoth(a: int, b: int, now: int)
    requires now - a >= TTL && now - b >= TTL
    ensures Recent([a, b], now) == []
  {
    assert [a, b][..1] == [a];
    RecentOfOne(a, now);
  }

  lemma TwoAccepted(a: int, b: int)
    requires b - a < TTL
    ensures var two := [] + [a] + [b]; Gated(two, 2).kept == [a, b] && Gated(two, 2).sent == two
  {
    AcceptedNext([], 2, [], [], [], a);
    RecentOfOne(a, b);
    AcceptedNext([] + [a], 2, [a], [] + [a], [a], b);
  }

  /** After two sends, one that prunes both, and one dated back to where they still count. */
  lemma DatedBack(two: seq<int>, a: int, b: int, c: int, d: int)
    requires Gated(two, 2).kept == [a, b] && Gated(two, 2).sent == two
    requires c - a >= TTL && c - b >= TTL && d - c < TTL
    ensures Gated(two + [c] + [d], 2).sent == two + [c] + [d]
  {
    RecentOfBoth(a, b, c);
    AcceptedNext(two, 2, [a, b], two, [], c);
    assert [] + [c] == [c];
    RecentOfOne(c, d);
    AcceptedNext(two + [c], 2, [c], two + [c], [c], d);
  }

  lemma FourInWindow(a: int, b: int, c: int, d: int, from: int)
    requires from <= a < from + TTL && from <= b < from + TTL && c >= from + TTL && from <= d < from + TTL
    ensures InWindow([] + [a] + [b] + [c] + [d], from) == 3
  {
    InWindowOfSnoc([], a, from);
    InWindowOfSnoc([] + [a], b, from);
    InWindowOfSnoc([] + [a] + [b], c, from);
    InWindowOfSnoc([] + [a] + [b] + [c], d, from);
  }

  /**
   * A clock that goes back lets a window overflow: a third send accepted in [a, a + TTL) under a
   * limit of two, where a limiter that kept the full history would have stayed within it.
   */
  lemma BackwardClockOverflows(attempts: seq<int>, a: int, b: int, c: int, d: int)
    requires a <= b < a + TTL && b + TTL <= c && a <= d < a + TTL
    requires attempts == [] + [a] + [b] + [c] + [d]
    ensures InWindow(Gated(attempts, 2).sent, a) == 3 && InWindow(Accepted(attempts, 2), a) <= 2
  {
    WindowNeverExceedsLimit(attempts, 2, a);
    TwoAccepted(a, b);
    DatedBack([] + [a] + [b], a, b, c, d);
    FourInWindow(a, b, c, d, a);
  }

  // ----------------------------------------------------------------- gateway

  function Stamps(table: map<string, seq<int>>, user: string): seq<int> {
    if user in table then table[user] else []
  }

  ghost predicate Faithful(kept: map<string, seq<int>>, attempts: map<string, seq<int>>, limit: nat, clock: int,
                           user: string)
  {
    |Stamps(kept, user)| <= limit && Mirrors(Stamps(kept, user), Accepted(Stamps(attempts, user), limit), clock)
  }

  lemma AcceptedOfSnoc(past: seq<int>, limit: nat, now: int)
    ensures var history := Accepted(past, limit);
            Accepted(past + [now], limit) == if |Recent(history, now)| < limit then history + [now] else history
  {
    assert (past + [now])[..|past|] == past;
  }

  lemma FaithfulStep(kept: map<string, seq<int>>, attempts: map<string, seq<int>>, limit: nat, clock: int, user: string,
                     now: int)
    requires Faithful(kept, attempts, limit, clock, user) && clock <= now
    ensures var recent, history := Recent(Stamps(kept, user), now), Accepted(Stamps(attempts, user), limit);
            var after := if |recent| < limit then kept[user := recent + [now]] else kept;
            recent == Recent(history, now) &&
            Faithful(after, attempts[user := Stamps(attempts, user) + [now]], limit, now, user)
  {
    MirrorsStep(Stamps(kept, user), Accepted(Stamps(attempts, user), limit), clock, now);
    AcceptedOfSnoc(Stamps(attempts, user), limit, now);
  }

  /** What the history of one user's attempts makes of the kept stamps and of the accepted sends. */
  predicate Recorded(kept: seq<int>, sends: seq<int>, attempts: seq<int>, limit: nat, clock: int) {
    kept == Gated(attempts, limit).kept && sends == Gated(attempts, limit).sent && NonDecreasing(attempts + [clock])
  }

  lemma RecordedStep(kept: seq<int>, sends: seq<int>, attempts: seq<int>, limit: nat, clock: int, now: int)
    requires Recorded(kept, sends, attempts, limit, clock) && clock <= now
    ensures Recorded(kept, sends, attempts, limit, now)
    ensures var recent := Recent(kept, now);
            if |recent| < limit then Recorded(recent + [now], sends + [now], attempts + [now], limit, now)
            else Recorded(kept, sends, attempts + [now], limit, now)
  {
    GatedSnoc(attempts, limit, now);
    var n, old', new' := |attempts|, attempts + [clock], attempts + [now] + [now];
    forall i, j | 0 <= i <= j < |new'| ensures new'[i] <= new'[j] {
      assert i < n ==> old'[i] <= old'[n] && (j < n ==> old'[i] <= old'[j]);
    }
    forall i, j | 0 <= i <= j < n + 1 ensures (attempts + [now])[i] <= (attempts + [now])[j] {
      assert new'[i] <= new'[j];
    }
  }

  /** The sends accepted under such a clock keep every window within the limit. */
  lemma RecordedWindow(kept: seq<int>, sends: seq<int>, attempts: seq<int>, limit: nat, clock: int, from: int)
    requires Recorded(kept, sends, attempts, limit, clock)
    ensures InWindow(sends, from) <= limit
  {
    assert NonDecreasing(attempts) by {
      forall i, j | 0 <= i <= j < |attempts| ensures attempts[i] <= attempts[j] {
        assert (attempts + [clock])[i] <= (attempts + [clock])[j];
      }
    }
    ForwardClockNeverReachesBack(attempts, limit);
    GatedWindowNeverExceedsLimit(attempts, limit, from);
  }

  /** What is kept of a user answers for the whole history, and every accepted send is recorded. */
  ghost predicate InOrder(kept: map<string, seq<int>>, sends: map<string, seq<int>>, attempts: map<string, seq<int>>,
                          limit: nat, clock: int, user: string)
  {
    Faithful(kept, attempts, limit, clock, user) &&
    Recorded(Stamps(kept, user), Stamps(sends, user), Stamps(attempts, user), limit, clock)
  }

  lemma InOrderStep(kept: map<string, seq<int>>, sends: map<string, seq<int>>, attempts: map<string, seq<int>>,
                    limit: nat, clock: int, user: string, now: int)
    requires InOrder(kept, sends, attempts, limit, clock, user) && clock <= now
    ensures var recent := Recent(Stamps(kept, user), now);
            var asked := attempts[user := Stamps(attempts, user) + [now]];
            recent == Recent(Accepted(Stamps(attempts, user), limit), now) &&
            if |recent| < limit
            then InOrder(kept[user := recent + [now]], sends[user := Stamps(sends, user) + [now]], asked, limit, now,
                         user)
            else InOrder(kept, sends, asked, limit, now, user)
  {
    FaithfulStep(kept, attempts, limit, clock, user, now);
    RecordedStep(Stamps(kept, user), Stamps(sends, user), Stamps(attempts, user), limit, clock, now);
  }

  lemma InOrderLater(kept: map<string, seq<int>>, sends: map<string, seq<int>>, attempts: map<string, seq<int>>,
                     limit: nat, clock: int, user: string, now: int)
    requires InOrder(kept, sends, attempts, limit, clock, user) && clock <= now
    ensures InOrder(kept, sends, attempts, limit, now, user)
  {
    RecordedStep(Stamps(kept, user), Stamps(sends, user), Stamps(attempts, user), limit, clock, now);
  }

  lemma InOrderElsewhere(kept: map<string, seq<int>>, sends: map<string, seq<int>>, attempts: map<string, seq<int>>,
                         kept': map<string, seq<int>>, sends': map<string, seq<int>>, attempts': map<string, seq<int>>,
                         limit: nat, clock: int, user: string)
    requires InOrder(kept, sends, attempts, limit, clock, user)
    requires Stamps(kept', user) == Stamps(kept, user) && Stamps(sends', user) == Stamps(sends, user)
    requires Stamps(attempts', user) == Stamps(attempts, user)
    ensures InOrder(kept', sends', attempts', limit, clock, user)
  {
  }

  ghost predicate AllInOrder(kept: map<string, seq<int>>, sends: map<string, seq<int>>, attempts: map<string, seq<int>>,
                             limit: nat, clock: int)
  {
    forall u :: InOrder(kept, sends, attempts, limit, clock, u)
  }

  lemma OthersInOrder(kept: map<string, seq<int>>, sends: map<string, seq<int>>, attempts: map<string, seq<int>>,
                      limit: nat, clock: int, user: string, now: int,
                      k: seq<int>, s: seq<int>, a: seq<int>, taken: bool)
    requires AllInOrder(kept, sends, attempts, limit, clock) && clock <= now
    requires var kept', sends' := if taken then kept[user := k] else kept, if taken then sends[user := s] else sends;
             InOrder(kept', sends', attempts[user := a], limit, now, user)
    ensures var kept', sends' := if taken then kept[user := k] else kept, if taken then sends[user := s] else sends;
            AllInOrder(kept', sends', attempts[user := a], limit, now)
  {
    var kept', sends' := if taken then kept[user := k] else kept, if taken then sends[user := s] else sends;
    var asked := attempts[user := a];
    forall u ensures InOrder(kept', sends', asked, limit, now, u) {
      if u != user {
        assert InOrder(kept, sends, attempts, limit, clock, u);
        InOrderLater(kept, sends, attempts, limit, clock, u, now);
        InOrderElsewhere(kept, sends, attempts, kept', sends', asked, limit, now, u);
      }
    }
  }

  lemma AllInOrderStep(kept: map<string, seq<int>>, sends: map<string, seq<int>>, attempts: map<string, seq<int>>,
                       limit: nat, clock: int, user: string, now: int)
    requires AllInOrder(kept, sends, attempts, limit, clock) && clock <= now
    ensures var recent := Recent(Stamps(kept, user), now);
            var asked := attempts[user := Stamps(attempts, user) + [now]];
            recent == Recent(Accepted(Stamps(attempts, user), limit), now) &&
            if |recent| < limit
            then AllInOrder(kept[user := recent + [now]], sends[user := Stamps(sends, user) + [now]], asked, limit, now)
            else AllInOrder(kept, sends, asked, limit, now)
  {
    assert InOrder(kept, sends, attempts, limit, clock, user);
    InOrderStep(kept, sends, attempts, limit, clock, user, now);
    var recent, s, a := Recent(Stamps(kept, user), now), Stamps(sends, user), Stamps(attempts, user);
    var taken := |recent| < limit;
    OthersInOrder(kept, sends, attempts, limit, clock, user, now, recent + [now], s + [now], a + [now], taken);
  }

  /** The promise of the limiter, at every moment. */
  lemma WindowsWithinLimit(kept: map<string, seq<int>>, sends: map<string, seq<int>>, attempts: map<string, seq<int>>,
                           limit: nat, clock: int)
    requires AllInOrder(kept, sends, attempts, limit, clock)
    ensures forall u, from :: InWindow(Stamps(sends, u), from) <= limit
  {
    forall u, from ensures InWindow(Stamps(sends, u), from) <= limit {
      assert InOrder(kept, sends, attempts, limit, clock, u);
      RecordedWindow(Stamps(kept, u), Stamps(sends, u), Stamps(attempts, u), limit, clock, from);
    }
  }

  /** `attempts` is everything ever asked of the limiter; the code keeps only `sendTimestamps`. */
  class ChatGateway {
    const limit: nat
    var sendTimestamps: map<string, seq<int>>
    ghost var attempts: map<string, seq<int>>
    ghost var sends: map<string, seq<int>>
    ghost var clock: int

    ghost predicate Valid()
      reads this
    {
      AllInOrder(sendTimestamps, sends, attempts, limit, clock)
    }

    constructor (limit: nat)
      ensures Valid() && attempts == map[] && sends == map[] && this.limit == limit
    {
      this.limit := limit;
      sendTimestamps := map[];
      attempts, sends := map[], map[];
      clock := 0;
    }

    /**
     * Decides on the pruned list as if on the full history, keeps at most `limit` stamps, and
     * no window of length TTL ever holds more than `limit` of the sends it has accepted.
     */
    method AssertMessageRate(user: string, now: int) returns (accepted: bool)
      requires Valid() && clock <= now
      modifies this
      ensures Valid() && clock == now
      ensures attempts == old(attempts)[user := Stamps(old(attempts), user) + [now]]
      ensures accepted <==> |Recent(Accepted(Stamps(old(attempts), user), limit), now)| < limit
      ensures sends == if accepted then old(sends)[user := Stamps(old(sends), user) + [now]] else old(sends)
      ensures forall u, from :: InWindow(Stamps(sends, u), from) <= limit
      ensures forall u :: u != user ==> Stamps(sendTimestamps, u) == Stamps(old(sendTimestamps), u)
    {
      AllInOrderStep(sendTimestamps, sends, attempts, limit, clock, user, now);
      var recent := Recent(Stamps(sendTimestamps, user), now);
      accepted := |recent| < limit;
      if accepted {
        recent := recent + [now];
        sendTimestamps := sendTimestamps[user := recent];
        sends := sends[user := Stamps(sends, user) + [now]];
      }
      attempts := attempts[user := Stamps(attempts, user) + [now]];
      clock := now;
      WindowsWithinLimit(sendTimestamps, sends, attempts, limit, clock);
    }
  }
}
