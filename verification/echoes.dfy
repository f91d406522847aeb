/** The echoes of the mirror's own writes: a change on one side is an event, whose handling
 * may change the other side, which is an event again. Nobody else writes, and every handling
 * is a whole call.
 */
module Echoes {
  import opened Events
  import opened Git
  import opened Graph
  import opened Legs
  import opened Protocol
  import opened Refs
  import Section
  import Serial

  /** A pending event about one ref: a delete or a push, on side A or on side B. */
  datatype Note = Note(deleted: bool, onA: bool)

  /** Handling a push is a turn naming the ref; handling a delete removes the ref from the
      other side if it is there. */
  function Handled(g: ObjectGraph, w: World, note: Note, r: Ref, keep: set<Oid>): World {
    if !note.deleted then Take(g, w, Turn(note.onA, Some({r}), keep))
    else if note.onA then w.(b := w.b - {r})
    else w.(a := w.a - {r})
  }

  /** Which is what a completed call for that event does. */
  lemma HandledIsDeed(z: Setting, task: Task, w: World, d: Serial.WorldDeed, r: Ref)
    requires Real(z.g, w) && Serial.ItsDeed(z, task, w, d)
    requires (task.MirrorTask? && task.meta.ref == Some(r)) || (task.DeleteTask? && task.ref == r)
    ensures Serial.DoDeed(z.g, w, d) ==
      Handled(z.g, w, Note(task.DeleteTask?, task.leg.toTarget), r, if d.deed.Turned? then d.deed.keep else {})
  {
    if task.MirrorTask? {
      var keep, from, to := d.deed.keep, SourceRefs(w, d.toB), SourceRefs(w, !d.toB);
      var some := Section.CoveredIn(z, task.leg, task.meta.ref, from);
      assert d.deed.only == Some(some);
      Section.SameTurn(z.g, CacheFor(z.g, w, Turn(d.toB, Some(some), keep)), from, to, Some(some), Some({r}), keep);
      SameTake(z.g, w, d.toB, some, {r}, keep);
      Serial.TurnedIsTurn(z.g, w, d.toB, Some(some), keep);
    }
  }

  lemma SameTake(g: ObjectGraph, w: World, toB: bool, some: set<Ref>, more: set<Ref>, keep: set<Oid>)
    requires var known := CacheFor(g, w, Turn(toB, Some(some), keep));
      var from, to := SourceRefs(w, toB), SourceRefs(w, !toB);
      TurnRefs(g, known, from, to, Turn(true, Some(some), keep)) ==
        TurnRefs(g, known, from, to, Turn(true, Some(more), keep))
    ensures Take(g, w, Turn(toB, Some(some), keep)) == Take(g, w, Turn(toB, Some(more), keep))
  {
    hide Known, TurnTip;
    var known, from, to := CacheFor(g, w, Turn(toB, Some(some), keep)), SourceRefs(w, toB), SourceRefs(w, !toB);
    assert forall refs ::
      TurnRefs(g, known, from, to, Turn(toB, Some(refs), keep)) ==
        TurnRefs(g, known, from, to, Turn(true, Some(refs), keep));
  }

  /** The other side's own event, when the handling changed it. */
  function Echo(w: World, w': World, note: Note, r: Ref): seq<Note> {
    if Tip(SourceRefs(w', !note.onA), r) == Tip(SourceRefs(w, !note.onA), r) then []
    else [Note(note.deleted, !note.onA)]
  }

  /** What is not up to the mirror at step n: which pending event is handled, and what gc
      keeps meanwhile. */
  datatype Chance = Chance(next: nat -> nat, keep: nat -> set<Oid>)

  function Pick(queue: seq<Note>, n: nat): (i: nat)
    requires queue != []
    ensures i < |queue|
  {
    if n < |queue| then n else 0
  }

  function Without(queue: seq<Note>, i: nat): (r: seq<Note>)
    requires i < |queue|
    ensures |r| == |queue| - 1 && forall n :: n in queue <==> n in r || n == queue[i]
  {
    assert queue == queue[..i] + [queue[i]] + queue[i + 1..];
    queue[..i] + queue[i + 1..]
  }

  datatype Drained = Drained(w: World, writes: nat, steps: nat)

  predicate All(queue: seq<Note>, deleted: bool) {
    forall n :: n in queue ==> n.deleted == deleted
  }

  // ---- pushes ---------------------------------------------------------------------------------

  function Disagreement(w: World, r: Ref): nat {
    if Tip(w.a, r) == Tip(w.b, r) then 0 else 1
  }

  /** A handled push either changes nothing or makes the sides agree. */
  lemma PushSettles(g: ObjectGraph, w: World, note: Note, r: Ref, keep: set<Oid>)
    requires !note.deleted
    ensures var w' := Handled(g, w, note, r, keep);
      |Echo(w, w', note, r)| == Disagreement(w, r) - Disagreement(w', r)
  {
    TakenTips(g, w, Turn(note.onA, Some({r}), keep), r);
    hide Take, CacheFor, IsAncestor;
  }

  /** Handles the pending events in whatever order until none is left. The measure is the queue
      plus twice the disagreement, which every step lowers; at most one write is made. */
  function DrainPushes(g: ObjectGraph, w: World, queue: seq<Note>, r: Ref, chance: Chance, n: nat): (d: Drained)
    requires All(queue, false)
    decreases |queue| + 2 * Disagreement(w, r)
    ensures d.writes == Disagreement(w, r) - Disagreement(d.w, r) && d.steps == |queue| + d.writes
  {
    hide Handled;
    if queue == [] then Drained(w, 0, 0)
    else
      var i := Pick(queue, chance.next(n));
      var w' := Handled(g, w, queue[i], r, chance.keep(n));
      var echo := Echo(w, w', queue[i], r);
      PushSettles(g, w, queue[i], r, chance.keep(n));
      var d := DrainPushes(g, w', Without(queue, i) + echo, r, chance, n + 1);
      Drained(d.w, |echo| + d.writes, 1 + d.steps)
  }

  // ---- deletes --------------------------------------------------------------------------------

  function Presence(w: World, r: Ref): nat {
    (if Tip(w.a, r) != NO_OBJECT then 1 else 0) + (if Tip(w.b, r) != NO_OBJECT then 1 else 0)
  }

  lemma DeleteSettles(g: ObjectGraph, w: World, note: Note, r: Ref, keep: set<Oid>)
    requires note.deleted
    ensures var w' := Handled(g, w, note, r, keep);
      && |Echo(w, w', note, r)| == Presence(w, r) - Presence(w', r)
      && Tip(SourceRefs(w', !note.onA), r) == NO_OBJECT && SourceRefs(w', note.onA) == SourceRefs(w, note.onA)
  {
  }

  /** The same for deletes: the measure is the queue plus twice the number of sides that
      still have the ref, and at most two writes are made. Every event takes the ref off
      the other side, and a single write takes it off both. */
  function DrainDeletes(g: ObjectGraph, w: World, queue: seq<Note>, r: Ref, chance: Chance, n: nat): (d: Drained)
    requires All(queue, true)
    decreases |queue| + 2 * Presence(w, r)
    ensures d.writes <= Presence(w, r) && d.steps == |queue| + d.writes
    ensures d.writes == Presence(w, r) - Presence(d.w, r)
    ensures forall n :: n in queue ==> Tip(SourceRefs(d.w, !n.onA), r) == NO_OBJECT
    ensures d.writes > 0 ==> Presence(d.w, r) == 0
    ensures forall side :: Tip(SourceRefs(w, side), r) == NO_OBJECT ==> Tip(SourceRefs(d.w, side), r) == NO_OBJECT
  {
    if queue == [] then Drained(w, 0, 0)
    else
      var i := Pick(queue, chance.next(n));
      var w' := Handled(g, w, queue[i], r, chance.keep(n));
      var echo := Echo(w, w', queue[i], r);
      DeleteSettles(g, w, queue[i], r, chance.keep(n));
      var d := DrainDeletes(g, w', Without(queue, i) + echo, r, chance, n + 1);
      assert forall m :: m in Without(queue, i) || m in echo ==> m in Without(queue, i) + echo;
      Drained(d.w, |echo| + d.writes, 1 + d.steps)
  }

  // ---- mixed events ------------------------------------------------------------------------------

  /** One step on a queue of either kind. */
  function Step(g: ObjectGraph, w: World, queue: seq<Note>, r: Ref, keep: set<Oid>): (World, seq<Note>)
    requires queue != []
  {
    var w' := Handled(g, w, queue[0], r, keep);
    (w', queue[1..] + Echo(w, w', queue[0], r))
  }

  /** What n such steps lead to. */
  function After(g: ObjectGraph, w: World, queue: seq<Note>, r: Ref, keep: nat -> set<Oid>,
                 n: nat): (World, seq<Note>) {
    if n == 0 then (w, queue)
    else
      var (w', queue') := After(g, w, queue, r, keep, n - 1);
      if queue' == [] then (w', queue') else Step(g, w', queue', r, keep(n - 1))
  }

  /** With the ref at one tip on both sides, a pending delete and a pending push from one side
      chase each other: two steps later both sides are as they were and the same two events are
      pending from the other side. */
  lemma MixedEventsCycle(g: ObjectGraph, w: World, r: Ref, keep: set<Oid>, keep1: set<Oid>, onA: bool)
    requires !r.Other? && Tip(w.a, r) == Tip(w.b, r) != NO_OBJECT
    ensures var (w1, q1) := Step(g, w, [Note(true, onA), Note(false, onA)], r, keep);
      && q1 != []
      && var (w2, q2) := Step(g, w1, q1, r, keep1);
        q2 == [Note(true, !onA), Note(false, !onA)] && Tip(w2.a, r) == Tip(w2.b, r) == Tip(w.a, r)
  {
    var q := [Note(true, onA), Note(false, onA)];
    var (w1, q1) := Step(g, w, q, r, keep);
    assert q1 == [Note(false, onA), Note(true, !onA)];
    TakenTips(g, w1, Turn(onA, Some({r}), keep1), r);
    hide Take, CacheFor, IsAncestor;
    assert q1[1..] == [Note(true, !onA)];
  }

  /** So the queue never empties: whatever gc keeps, after every number of steps events are
      pending, and after every even number both sides are back where they began. */
  lemma {:induction false} MixedEventsNeverStop(g: ObjectGraph, w: World, r: Ref, keep: nat -> set<Oid>, onA: bool,
                                                n: nat)
    requires !r.Other? && Tip(w.a, r) == Tip(w.b, r) != NO_OBJECT
    ensures var (w', queue) := After(g, w, [Note(true, onA), Note(false, onA)], r, keep, n);
      && queue != []
      && (n % 2 == 0 ==>
            && Tip(w'.a, r) == Tip(w'.b, r) == Tip(w.a, r)
            && exists side :: queue == [Note(true, side), Note(false, side)])
  {
    var q := [Note(true, onA), Note(false, onA)];
    hide Step;
    if n == 1 {
      MixedEventsCycle(g, w, r, keep(0), keep(1), onA);
    } else if n > 1 {
      MixedEventsNeverStop(g, w, r, keep, onA, n - 2);
      MixedEventsNeverStop(g, w, r, keep, onA, n - 1);
      if n % 2 == 0 {
        var (w1, q1) := After(g, w, q, r, keep, n - 2);
        var side :| q1 == [Note(true, side), Note(false, side)];
        MixedEventsCycle(g, w1, r, keep(n - 2), keep(n - 1), side);
      } else {
        var (w1, q1) := After(g, w, q, r, keep, n - 1);
        var side :| q1 == [Note(true, side), Note(false, side)];
        MixedEventsCycle(g, w1, r, keep(n - 1), keep(n), side);
      }
    }
  }

  /** Of two events pending for a ref the sides agree on, handled in order, exactly a delete
      followed by a push from the same side never stop; any other two are through in at most
      four steps. */
  lemma TwoEventsNeverStopExactly(g: ObjectGraph, w: World, r: Ref, keep: nat -> set<Oid>, one: Note, two: Note)
    requires !r.Other? && Tip(w.a, r) == Tip(w.b, r) != NO_OBJECT
    ensures (forall n: nat :: After(g, w, [one, two], r, keep, n).1 != []) <==>
      one.deleted && !two.deleted && one.onA == two.onA
    ensures After(g, w, [one, two], r, keep, 4).1 == [] || (one.deleted && !two.deleted && one.onA == two.onA)
  {
    if one.deleted && !two.deleted && one.onA == two.onA {
      forall n: nat ensures After(g, w, [one, two], r, keep, n).1 != [] {
        MixedEventsNeverStop(g, w, r, keep, one.onA, n);
      }
    } else {
      OtherwiseStops(g, w, r, keep, one, two);
    }
  }

  lemma OtherwiseStops(g: ObjectGraph, w: World, r: Ref, keep: nat -> set<Oid>, one: Note, two: Note)
    requires !r.Other? && Tip(w.a, r) == Tip(w.b, r) != NO_OBJECT
    requires !(one.deleted && !two.deleted && one.onA == two.onA)
    ensures After(g, w, [one, two], r, keep, 4).1 == []
  {
    hide Step, Handled, Echo;
    var q := [one, two];
    assert q == [one] + [two];
    var w1, q1 := OneMore(g, w, q, r, keep, 0, one, [two]);
    var w2, q2 := OneMore(g, w, q, r, keep, 1, two, q1[1..]);
    if q2 != [] {
      var w3, q3 := OneMore(g, w, q, r, keep, 2, q2[0], q2[1..]);
      if q3 != [] { var w4, q4 := OneMore(g, w, q, r, keep, 3, q3[0], q3[1..]); }
    }
  }

  /** One more step: what it leaves of the ref, and which events are pending then. */
  lemma OneMore(g: ObjectGraph, w: World, queue: seq<Note>, r: Ref, keep: nat -> set<Oid>, n: nat, first: Note,
                rest: seq<Note>)
    returns (w': World, queue': seq<Note>)
    requires After(g, w, queue, r, keep, n).1 == [first] + rest
    ensures After(g, w, queue, r, keep, n + 1) == (w', queue')
    ensures var before := After(g, w, queue, r, keep, n).0;
      var src, dst := Tip(SourceRefs(before, first.onA), r), Tip(SourceRefs(before, !first.onA), r);
      && Tip(SourceRefs(w', first.onA), r) == src
      && (first.deleted ==> Tip(SourceRefs(w', !first.onA), r) == NO_OBJECT)
      && (!first.deleted && (src == dst || src == NO_OBJECT) ==> Tip(SourceRefs(w', !first.onA), r) == dst)
      && queue' == rest + (if Tip(SourceRefs(w', !first.onA), r) == dst then [] else [Note(first.deleted, !first.onA)])
  {
    var (w1, q1) := After(g, w, queue, r, keep, n);
    HandledTips(g, w1, first, r, keep(n));
    w', queue' := Step(g, w1, q1, r, keep(n)).0, Step(g, w1, q1, r, keep(n)).1;
    assert q1[0] == first && q1[1..] == rest;
    hide Handled;
  }

  /** What handling one event does to the ref. */
  lemma HandledTips(g: ObjectGraph, w: World, note: Note, r: Ref, keep: set<Oid>)
    ensures var w' := Handled(g, w, note, r, keep);
      var src, dst := Tip(SourceRefs(w, note.onA), r), Tip(SourceRefs(w, !note.onA), r);
      && Tip(SourceRefs(w', note.onA), r) == src
      && (note.deleted ==> Tip(SourceRefs(w', !note.onA), r) == NO_OBJECT)
      && (!note.deleted && (src == dst || src == NO_OBJECT) ==> Tip(SourceRefs(w', !note.onA), r) == dst)
  {
    TakenTips(g, w, Turn(note.onA, Some({r}), keep), r);
    hide Take, CacheFor, IsAncestor;
  }
}
