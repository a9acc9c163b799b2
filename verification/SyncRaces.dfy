/**
 * The sync of one subscription in two steps: a replica reads the stored row, decides, and
 * writes later, while other replicas do the same. Which schedules keep the greatest event.
 */
module SyncRaces {
  import opened Prelude
  import opened Subscriptions

  /** A sync that has read the row and not yet written. */
  datatype Pending = Pending(incoming: Row, read: Option<Row>)

  /** `done` is for the record: the snapshots whose sync ran to its end, written or skipped. */
  datatype World = World(stored: Option<Row>, pending: map<nat, Pending>, done: seq<Row>)

  datatype Step =
    | Read(k: nat, incoming: Row)
    | Write(k: nat)
    | Abandon(k: nat)

  predicate Skips(p: Pending)
    requires Stamped(p.incoming)
  {
    p.read.Some? &&
    ShouldSkip(p.read.value, p.incoming.status, p.incoming.lastEventAt.value, p.incoming.lastEventId.value)
  }

  function Next(w: World, step: Step): World {
    match step
    case Read(k, incoming) =>
      if k in w.pending || !Stamped(incoming) then w
      else w.(pending := w.pending[k := Pending(incoming, w.stored)])
    case Write(k) =>
      if k !in w.pending || !Stamped(w.pending[k].incoming) then w
      else
        var p := w.pending[k];
        World(UpsertAfterRead(w.stored, p.read, p.incoming), w.pending - {k}, w.done + [p.incoming])
    case Abandon(k) => w.(pending := w.pending - {k})
  }

  function Run(w: World, steps: seq<Step>): World {
    if steps == [] then w else Next(Run(w, steps[..|steps| - 1]), steps[|steps| - 1])
  }

  const EMPTY := World(None, map[], [])

  /** The stored row is a snapshot of greatest key among those whose sync has run. */
  ghost predicate GreatestIsStored(w: World) {
    if w.done == [] then w.stored.None? else w.stored.Some? && Greatest(w.stored.value, w.done)
  }

  /** The step is a write that really writes. */
  predicate Stores(w: World, step: Step) {
    step.Write? && step.k in w.pending && Stamped(w.pending[step.k].incoming) && !Skips(w.pending[step.k])
  }

  /** The snapshots written since the sync `k` read the row, in order. */
  function StoredSince(steps: seq<Step>, k: nat): seq<Row> {
    if steps == [] then []
    else
      var before, step := steps[..|steps| - 1], steps[|steps| - 1];
      var v := Run(EMPTY, before);
      if step.Read? && step.k == k && k !in v.pending then []
      else if Stores(v, step) && step.k != k then StoredSince(before, k) + [v.pending[step.k].incoming]
      else StoredSince(before, k)
  }

  /** Since the read an event of higher key was written. */
  predicate Overtaken(incoming: Row, since: seq<Row>) {
    exists x :: x in since && !KeyLe(RowKey(x), RowKey(incoming))
  }

  /** No write lands on a higher one that came after its read. */
  predicate NoneOvertaken(steps: seq<Step>) {
    steps == [] ||
    var before, step := steps[..|steps| - 1], steps[|steps| - 1];
    var v := Run(EMPTY, before);
    NoneOvertaken(before) &&
    (Stores(v, step) ==> !Overtaken(v.pending[step.k].incoming, StoredSince(before, step.k)))
  }

  // ------------------------------------------------------------------- proof

  /** What a sync in flight knows: its read was stored once, and what came since is what was written since. */
  predicate Tracked(w: World, p: Pending, since: seq<Row>) {
    Stamped(p.incoming) &&
    (p.read.Some? ==> p.read.value in w.done) &&
    (forall x :: x in since ==> x in w.done) &&
    (w.stored == p.read || (w.stored.Some? && w.stored.value in since))
  }

  lemma {:induction false} StoredIsDone(steps: seq<Step>)
    ensures var w := Run(EMPTY, steps); w.stored.Some? ==> w.stored.value in w.done
  {
    if steps != [] { StoredIsDone(steps[..|steps| - 1]); }
  }

  lemma {:induction false} PendingIsTracked(steps: seq<Step>, k: nat)
    requires k in Run(EMPTY, steps).pending
    ensures Tracked(Run(EMPTY, steps), Run(EMPTY, steps).pending[k], StoredSince(steps, k))
  {
    var before, step := steps[..|steps| - 1], steps[|steps| - 1];
    StoredIsDone(before);
    if k in Run(EMPTY, before).pending { PendingIsTracked(before, k); }
  }

  lemma KeyLeReflexive(a: Key)
    ensures KeyLe(a, a)
  {
    KeyLeIsTotalOrder(a, a, a);
  }

  /** A sync that skips finds its key reached by what it read, and so by what is stored now. */
  lemma SkippedIsReached(w: World, p: Pending, since: seq<Row>)
    requires GreatestIsStored(w) && Tracked(w, p, since) && Skips(p)
    ensures w.stored.Some? && KeyLe(RowKey(p.incoming), RowKey(w.stored.value))
  {
    SkipIsKeyOrder(p.read.value, p.incoming);
    KeyLeIsTotalOrder(RowKey(p.incoming), RowKey(p.read.value), RowKey(w.stored.value));
  }

  /** A sync that writes lowers the key exactly when it was overtaken. */
  lemma WriteLowersIffOvertaken(w: World, p: Pending, since: seq<Row>)
    requires GreatestIsStored(w) && Tracked(w, p, since) && !Skips(p)
    ensures w.stored.Some? && !KeyLe(RowKey(w.stored.value), RowKey(p.incoming)) <==> Overtaken(p.incoming, since)
  {
    var key := RowKey(p.incoming);
    if w.stored == p.read && p.read.Some? {
      SkipIsKeyOrder(p.read.value, p.incoming);
      KeyLeIsTotalOrder(RowKey(p.read.value), key, key);
      assert KeyLe(RowKey(w.stored.value), key);
    }
    forall x | x in since && !KeyLe(RowKey(x), key)
      ensures w.stored.Some? && !KeyLe(RowKey(w.stored.value), key)
    {
      KeyLeIsTotalOrder(RowKey(x), RowKey(w.stored.value), key);
    }
  }

  lemma GreatestAfterWrite(w: World, p: Pending)
    requires GreatestIsStored(w) && Stamped(p.incoming)
    ensures var v := World(Some(p.incoming), map[], w.done + [p.incoming]);
            GreatestIsStored(v) <==> !(w.stored.Some? && !KeyLe(RowKey(w.stored.value), RowKey(p.incoming)))
  {
    var key, done := RowKey(p.incoming), w.done + [p.incoming];
    KeyLeReflexive(key);
    if w.stored.Some? && KeyLe(RowKey(w.stored.value), key) {
      forall x | x in done ensures KeyLe(RowKey(x), key) {
        if x in w.done { KeyLeIsTotalOrder(RowKey(x), RowKey(w.stored.value), key); }
      }
    }
    if w.stored.Some? { assert w.stored.value in done; }
  }

  lemma StepKeepsGreatestIff(steps: seq<Step>, step: Step)
    requires GreatestIsStored(Run(EMPTY, steps))
    ensures var v := Run(EMPTY, steps);
            GreatestIsStored(Next(v, step)) <==>
            (Stores(v, step) ==> !Overtaken(v.pending[step.k].incoming, StoredSince(steps, step.k)))
  {
    var v := Run(EMPTY, steps);
    if step.Write? && step.k in v.pending {
      PendingIsTracked(steps, step.k);
      var p, since := v.pending[step.k], StoredSince(steps, step.k);
      if Skips(p) {
        SkippedIsReached(v, p, since);
        assert v.done + [p.incoming] != [] && v.stored.value in v.done + [p.incoming];
      } else {
        WriteLowersIffOvertaken(v, p, since);
        GreatestAfterWrite(v, p);
      }
    }
  }

  ghost predicate AlwaysGreatest(steps: seq<Step>) {
    GreatestIsStored(Run(EMPTY, steps)) && (steps == [] || AlwaysGreatest(steps[..|steps| - 1]))
  }

  /**
   * The stored row is the greatest snapshot synced at every moment of a run exactly when no
   * write of it lands on a higher one that was written since its read.
   */
  lemma {:induction false} AlwaysGreatestIffNoneOvertaken(steps: seq<Step>)
    ensures AlwaysGreatest(steps) <==> NoneOvertaken(steps)
  {
    if steps != [] {
      var before, step := steps[..|steps| - 1], steps[|steps| - 1];
      AlwaysGreatestIffNoneOvertaken(before);
      if AlwaysGreatest(before) { StepKeepsGreatestIff(before, step); }
    }
  }

  lemma BothReadThenWrite(newer: Row, older: Row)
    requires Stamped(newer) && Stamped(older)
    ensures var w := Next(Next(Next(Next(EMPTY, Read(0, newer)), Read(1, older)), Write(0)), Write(1));
            w.stored == Some(older) && w.done == [newer, older]
  {
    var w1 := World(None, map[0 := Pending(newer, None)], []);
    var w2 := World(None, map[0 := Pending(newer, None), 1 := Pending(older, None)], []);
    assert Next(EMPTY, Read(0, newer)) == w1;
    assert Next(w1, Read(1, older)) == w2;
    var w3 := World(Some(newer), map[1 := Pending(older, None)], [newer]);
    assert w2.pending - {0} == w3.pending;
    assert Next(w2, Write(0)) == w3;
  }

  /** It does happen: two replicas read before either writes, and the older event is written last. */
  lemma OlderWriteLands(newer: Row, older: Row)
    requires Stamped(newer) && Stamped(older) && !KeyLe(RowKey(newer), RowKey(older))
    ensures var steps := [] + [Read(0, newer)] + [Read(1, older)] + [Write(0)] + [Write(1)];
            Run(EMPTY, steps).stored == Some(older) && !NoneOvertaken(steps)
  {
    var a, b, c, d := Read(0, newer), Read(1, older), Write(0), Write(1);
    RunSnoc([], a);
    RunSnoc([] + [a], b);
    RunSnoc([] + [a] + [b], c);
    RunSnoc([] + [a] + [b] + [c], d);
    BothReadThenWrite(newer, older);
    var steps := [] + [a] + [b] + [c] + [d];
    assert newer in Run(EMPTY, steps).done;
    assert !AlwaysGreatest(steps);
    AlwaysGreatestIffNoneOvertaken(steps);
  }

  lemma RunSnoc(steps: seq<Step>, last: Step)
    ensures Run(EMPTY, steps + [last]) == Next(Run(EMPTY, steps), last)
  {
    assert (steps + [last])[..|steps|] == steps;
  }
}
