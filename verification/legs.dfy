/** Turns of the mirror between the two sides of a repo: where they settle, and what a rewrite
 * does.
 */
module Legs {
  import opened Config
  import opened Events
  import opened Git
  import opened Graph
  import opened Plan
  import opened Refs

  /** The refs of both sides, and the objects the cache of each side holds. */
  datatype World = World(a: RefMap, b: RefMap, knownA: set<Oid>, knownB: set<Oid>)

  /** One turn: its direction, the refs it is confined to if it is (one a sync names, or those
      a cut-short push got to), and what gc happens to keep. */
  datatype Turn = Turn(toB: bool, only: Option<set<Ref>>, keep: set<Oid>) {
    predicate Covers(r: Ref) {
      !r.Other? && (only.None? || r in only.value)
    }
  }

  /** The objects a cache holds once it fetched these refs: what they reach, and of the rest
      what gc kept. */
  function Known(g: ObjectGraph, objs: set<Oid>, refs: RefMap, keep: set<Oid>): set<Oid> {
    Closure(g, refs.Values) + Closure(g, keep * (objs + Closure(g, refs.Values)))
  }

  /** Whether a turn replaces an existing, different tip. */
  predicate Replaces(g: ObjectGraph, known: set<Oid>, src: Oid, dst: Oid) {
    dst in known && !IsAncestor(g, src, dst)
  }

  /** Where one ref of the destination ends after a turn. */
  function TurnTip(g: ObjectGraph, known: set<Oid>, src: Oid, dst: Oid): Oid {
    if src == NO_OBJECT || src == dst then dst
    else if dst == NO_OBJECT || Replaces(g, known, src, dst) then src
    else dst
  }

  function TurnRefs(g: ObjectGraph, known: set<Oid>, from: RefMap, to: RefMap, turn: Turn): RefMap {
    map r | r in from.Keys + to.Keys && (r in to || turn.Covers(r)) ::
      if turn.Covers(r) then TurnTip(g, known, Tip(from, r), Tip(to, r)) else to[r]
  }

  function Take(g: ObjectGraph, w: World, turn: Turn): World {
    if turn.toB then
      var known := Known(g, w.knownA, w.a, turn.keep);
      w.(b := TurnRefs(g, known, w.a, w.b, turn), knownA := known)
    else
      var known := Known(g, w.knownB, w.b, turn.keep);
      w.(a := TurnRefs(g, known, w.b, w.a, turn), knownB := known)
  }

  /** Every tip is a real object. */
  predicate RealTips(g: ObjectGraph, refs: RefMap) {
    forall r :: r in refs ==> refs[r] in g.parents
  }

  predicate Real(g: ObjectGraph, w: World) { RealTips(g, w.a) && RealTips(g, w.b) }

  lemma TipAfter(g: ObjectGraph, known: set<Oid>, from: RefMap, to: RefMap, turn: Turn, r: Ref)
    ensures Tip(TurnRefs(g, known, from, to, turn), r) ==
      if turn.Covers(r) then TurnTip(g, known, Tip(from, r), Tip(to, r)) else Tip(to, r)
  {
    hide TurnTip;
    assert r !in from && r !in to ==> TurnTip(g, known, NO_OBJECT, NO_OBJECT) == NO_OBJECT by {
      NothingStays(g, known);
    }
  }

  lemma NothingStays(g: ObjectGraph, known: set<Oid>)
    ensures TurnTip(g, known, NO_OBJECT, NO_OBJECT) == NO_OBJECT
  {
  }

  lemma TurnIsReal(g: ObjectGraph, known: set<Oid>, from: RefMap, to: RefMap, turn: Turn)
    requires RealTips(g, from) && RealTips(g, to)
    ensures RealTips(g, TurnRefs(g, known, from, to, turn))
  {
    hide Replaces;
  }

  lemma StaysReal(g: ObjectGraph, w: World, turn: Turn)
    requires Real(g, w)
    ensures Real(g, Take(g, w, turn))
  {
    TurnIsReal(g, Known(g, w.knownA, w.a, turn.keep), w.a, w.b, turn);
    TurnIsReal(g, Known(g, w.knownB, w.b, turn.keep), w.b, w.a, turn);
    hide Known, TurnRefs;
  }

  // ---- the plan and the push do exactly this ------------------------------------------------

  /** The specs of a plan sent one after the other to a remote nobody else touches. */
  function Land(cache: RefMap, to: RefMap, specs: seq<PushSpec>): RefMap
    requires forall sp :: sp in specs ==> sp.ref in cache
  {
    if specs == [] then to
    else
      var sp := specs[|specs| - 1];
      LeasedWrite(Land(cache, to, specs[..|specs| - 1]), sp.ref, cache[sp.ref], sp.lease)
  }

  lemma LandSnoc(cache: RefMap, to: RefMap, specs: seq<PushSpec>, sp: PushSpec)
    requires (forall q :: q in specs ==> q.ref in cache) && sp.ref in cache
    ensures Land(cache, to, specs + [sp]) == LeasedWrite(Land(cache, to, specs), sp.ref, cache[sp.ref], sp.lease)
  {
    assert (specs + [sp])[..|specs|] == specs;
  }

  /** One judgement, sent to a remote that has not moved, is one turn of that ref. */
  lemma JudgedTip(g: ObjectGraph, cache: Store, to: RefMap, ref: Ref, lease: Oid, un: Unanswered)
    requires RealTips(g, cache.refs) && RealTips(g, to) && un.ancestry == {}
    ensures var v := Judge(g, cache, to, ref, false, lease, un);
      && (v.Send? ==> ref in cache.refs && LeaseHolds(to, ref, cache.refs[ref], v.lease)
                      && TurnTip(g, cache.objs, Tip(cache.refs, ref), Tip(to, ref)) == cache.refs[ref])
      && (!v.Send? && ref !in un.objects ==> TurnTip(g, cache.objs, Tip(cache.refs, ref), Tip(to, ref)) == Tip(to, ref))
  {
    assert NO_OBJECT !in g.parents;
    hide IsAncestor;
  }

  lemma {:induction false} LandIsTurn(g: ObjectGraph, cache: Store, to: RefMap, want: seq<Ref>, lease: Oid)
    requires RealTips(g, cache.refs) && RealTips(g, to) && Distinct(want)
    ensures var specs := PlanFor(g, cache, to, want, false, lease, ALL_ANSWERED).specs;
      && (forall sp :: sp in specs ==> sp.ref in cache.refs)
      && forall r :: Tip(Land(cache.refs, to, specs), r) ==
           if r in want then TurnTip(g, cache.objs, Tip(cache.refs, r), Tip(to, r)) else Tip(to, r)
  {
    if want != [] {
      var n := |want| - 1;
      var before := PlanFor(g, cache, to, want[..n], false, lease, ALL_ANSWERED).specs;
      var v := Judge(g, cache, to, want[n], false, lease, ALL_ANSWERED);
      assert want == want[..n] + [want[n]];
      DistinctSnoc(want[..n], want[n]);
      LandIsTurn(g, cache, to, want[..n], lease);
      JudgedTip(g, cache, to, want[n], lease, ALL_ANSWERED);
      hide Judge, TurnTip, Distinct;
      if v.Send? {
        LandSnoc(cache.refs, to, before, PushSpec(want[n], v.lease));
        hide Land;
        assert Tip(Land(cache.refs, to, before), want[n]) == Tip(to, want[n]);
      }
    }
  }

  lemma {:induction false} LandElsewhere(cache: RefMap, to: RefMap, specs: seq<PushSpec>, r: Ref)
    requires (forall sp :: sp in specs ==> sp.ref in cache) && r !in SpecRefs(specs)
    ensures Tip(Land(cache, to, specs), r) == Tip(to, r)
  {
    if specs != [] {
      var n := |specs| - 1;
      assert SpecRefs(specs)[n] == specs[n].ref && SpecRefs(specs)[..n] == SpecRefs(specs[..n]);
      LandElsewhere(cache, to, specs[..n], r);
    }
  }

  // ---- where two turns settle -----------------------------------------------------------------

  /** The branches and tags of both sides are the same. */
  ghost predicate Agree(w: World) {
    forall r :: (r in w.a || r in w.b) && !r.Other? ==> Tip(w.a, r) == Tip(w.b, r)
  }

  lemma AgreeTips(w: World)
    ensures Agree(w) <==> forall r: Ref :: !r.Other? ==> Tip(w.a, r) == Tip(w.b, r)
  {
  }

  function SourceRefs(w: World, toB: bool): RefMap { if toB then w.a else w.b }

  /** The cache a turn in this direction works from. */
  function CacheFor(g: ObjectGraph, w: World, turn: Turn): set<Oid> {
    if turn.toB then Known(g, w.knownA, w.a, turn.keep) else Known(g, w.knownB, w.b, turn.keep)
  }

  lemma TakenTips(g: ObjectGraph, w: World, turn: Turn, r: Ref)
    ensures var w', known := Take(g, w, turn), CacheFor(g, w, turn);
      && Tip(SourceRefs(w', turn.toB), r) == Tip(SourceRefs(w, turn.toB), r)
      && Tip(SourceRefs(w', !turn.toB), r) ==
           if turn.Covers(r) then TurnTip(g, known, Tip(SourceRefs(w, turn.toB), r), Tip(SourceRefs(w, !turn.toB), r))
           else Tip(SourceRefs(w, !turn.toB), r)
  {
    TipAfter(g, CacheFor(g, w, turn), SourceRefs(w, turn.toB), SourceRefs(w, !turn.toB), turn, r);
    hide TurnTip, Known;
  }

  /** Two full turns of one ref, there and back. */
  lemma ThereAndBack(g: ObjectGraph, w: World, one: Turn, two: Turn, r: Ref)
    requires one.only.None? && two.only.None? && two.toB == !one.toB && !r.Other?
    ensures var w1 := Take(g, w, one);
      var w2 := Take(g, w1, two);
      var src, dst := Tip(SourceRefs(w, one.toB), r), Tip(SourceRefs(w, two.toB), r);
      Tip(w2.a, r) == Tip(w2.b, r) <==>
      src == NO_OBJECT || dst == NO_OBJECT || src == dst
      || Replaces(g, CacheFor(g, w, one), src, dst) || Replaces(g, CacheFor(g, w1, two), dst, src)
  {
    TakenTips(g, w, one, r);
    TakenTips(g, Take(g, w, one), two, r);
    hide Take, CacheFor, Replaces;
  }

  /** A full turn one way and then the other make the sides agree exactly when every ref
      both sides have was equal, or one of the two turns could replace the other's tip. */
  lemma ConvergeExactly(g: ObjectGraph, w: World, one: Turn, two: Turn)
    requires Real(g, w) && one.only.None? && two.only.None? && two.toB == !one.toB
    ensures var w1 := Take(g, w, one);
      Agree(Take(g, w1, two)) <==>
      forall r :: r in w.a && r in w.b && !r.Other? ==>
        var src, dst := Tip(SourceRefs(w, one.toB), r), Tip(SourceRefs(w, two.toB), r);
        src == dst || Replaces(g, CacheFor(g, w, one), src, dst) || Replaces(g, CacheFor(g, w1, two), dst, src)
  {
    hide Take, CacheFor, Replaces;
    forall r: Ref | !r.Other? { ThereAndBack(g, w, one, two, r); }
    AgreeTips(Take(g, Take(g, w, one), two));
    assert NO_OBJECT !in g.parents;
  }

  // ---- convergence ------------------------------------------------------------------------------

  lemma ReachedIsKnown(g: ObjectGraph, objs: set<Oid>, refs: RefMap, keep: set<Oid>, r: Ref, o: Oid)
    requires r in refs && o in Ancestors(g, refs[r])
    ensures o in Known(g, objs, refs, keep)
  {
    assert refs[r] in refs.Values;
    ClosureContains(g, refs.Values, refs[r], o);
  }

  /** Two commits of one line of history, the way an ordinary branch differs between sides. */
  predicate Comparable(g: ObjectGraph, a: Oid, b: Oid) {
    a == b || (a !in g.tags && b !in g.tags && (IsAncestor(g, a, b) || IsAncestor(g, b, a)))
  }

  /** The descendant of two comparable tips; the tip there is when there is only one. */
  function Join(g: ObjectGraph, a: Oid, b: Oid): Oid {
    if a == NO_OBJECT then b else if b == NO_OBJECT || IsAncestor(g, b, a) then a else b
  }

  predicate ComparableSides(g: ObjectGraph, w: World) {
    forall r :: r in w.a && r in w.b && !r.Other? ==> Comparable(g, w.a[r], w.b[r])
  }

  lemma JoinIsLeastDescendant(g: ObjectGraph, a: Oid, b: Oid)
    requires a in g.parents && b in g.parents && Comparable(g, a, b)
    ensures Join(g, a, b) == Join(g, b, a)
    ensures Ancestors(g, a) + Ancestors(g, b) == Ancestors(g, Join(g, a, b))
  {
    if a != b {
      if IsAncestor(g, a, b) && IsAncestor(g, b, a) { IsAncestorAntisymmetric(g, a, b); }
      var lo, hi := if IsAncestor(g, a, b) then a else b, Join(g, a, b);
      assert lo in Ancestors(g, hi);
      forall x | x in Ancestors(g, lo) ensures x in Ancestors(g, hi) { AncestorsTransitive(g, x, lo, hi); }
    }
  }

  /** One direction carries the newer of two comparable commits, and only that one does. */
  lemma NewerWins(g: ObjectGraph, known: set<Oid>, src: Oid, dst: Oid)
    requires src in g.parents && dst in g.parents && src != dst && Comparable(g, src, dst)
    requires Ancestors(g, src) <= known
    ensures Replaces(g, known, src, dst) <==> Join(g, src, dst) == src
  {
    if IsAncestor(g, src, dst) && IsAncestor(g, dst, src) { IsAncestorAntisymmetric(g, src, dst); }
    hide Ancestors;
  }

  lemma SourceIsKnown(g: ObjectGraph, w: World, turn: Turn, r: Ref)
    requires r in SourceRefs(w, turn.toB)
    ensures Ancestors(g, SourceRefs(w, turn.toB)[r]) <= CacheFor(g, w, turn)
  {
    var refs, objs := SourceRefs(w, turn.toB), if turn.toB then w.knownA else w.knownB;
    forall o | o in Ancestors(g, refs[r]) ensures o in CacheFor(g, w, turn) {
      ReachedIsKnown(g, objs, refs, turn.keep, r, o);
    }
    hide Known, Ancestors;
  }

  /** A turn moves every ref it covers to the join if the source has it, and leaves it
      otherwise. */
  lemma TurnTowardsJoin(g: ObjectGraph, w: World, turn: Turn, r: Ref)
    requires Real(g, w) && ComparableSides(g, w) && !r.Other?
    ensures var src, dst := Tip(SourceRefs(w, turn.toB), r), Tip(SourceRefs(w, !turn.toB), r);
      Tip(SourceRefs(Take(g, w, turn), !turn.toB), r) ==
      (if turn.Covers(r) && src != NO_OBJECT && Join(g, src, dst) == src then src else dst)
  {
    var from, to := SourceRefs(w, turn.toB), SourceRefs(w, !turn.toB);
    TakenTips(g, w, turn, r);
    if r in from && r in to && from[r] != to[r] {
      SourceIsKnown(g, w, turn, r);
      if !turn.toB { assert Comparable(g, w.a[r], w.b[r]); }
      NewerWins(g, CacheFor(g, w, turn), from[r], to[r]);
    }
    assert NO_OBJECT !in g.parents;
    hide Take, CacheFor, Ancestors, IsAncestor, Replaces;
  }

  lemma StaysComparable(g: ObjectGraph, w: World, turn: Turn)
    requires Real(g, w) && ComparableSides(g, w)
    ensures ComparableSides(g, Take(g, w, turn))
  {
    var w' := Take(g, w, turn);
    assert NO_OBJECT !in g.parents;
    StaysReal(g, w, turn);
    forall q: Ref | !q.Other? ensures q in w'.a && q in w'.b ==> Comparable(g, w'.a[q], w'.b[q]) {
      TurnTowardsJoin(g, w, turn, q);
      TakenTips(g, w, turn, q);
      assert q in w.a && q in w.b ==> Comparable(g, w.a[q], w.b[q]);
      hide Take, CacheFor, TurnTip, IsAncestor, Join;
    }
  }

  /** When every ref both sides have is at comparable commits and nobody else writes, one
      full turn each way, in either order, leaves both sides at the pointwise join. */
  lemma Convergence(g: ObjectGraph, w: World, one: Turn, two: Turn, r: Ref)
    requires Real(g, w) && ComparableSides(g, w) && !r.Other?
    requires one.only.None? && two.only.None? && two.toB == !one.toB
    ensures var w2 := Take(g, Take(g, w, one), two);
      Tip(w2.a, r) == Tip(w2.b, r) == Join(g, Tip(w.a, r), Tip(w.b, r))
  {
    var w1 := Take(g, w, one);
    StaysReal(g, w, one);
    StaysComparable(g, w, one);
    TurnTowardsJoin(g, w, one, r);
    TakenTips(g, w, one, r);
    TurnTowardsJoin(g, w1, two, r);
    TakenTips(g, w1, two, r);
    if r in w.a && r in w.b { JoinIsLeastDescendant(g, w.a[r], w.b[r]); }
    hide Take, CacheFor, TurnTip, IsAncestor, ComparableSides;
  }

  /** On the way no commit leaves any ref of either side. */
  lemma NoCommitLeaves(g: ObjectGraph, w: World, one: Turn, two: Turn, r: Ref)
    requires Real(g, w) && ComparableSides(g, w) && !r.Other?
    requires one.only.None? && two.only.None? && two.toB == !one.toB
    ensures var w2 := Take(g, Take(g, w, one), two);
      Ancestors(g, Tip(w.a, r)) + Ancestors(g, Tip(w.b, r)) == Ancestors(g, Tip(w2.a, r)) == Ancestors(g, Tip(w2.b, r))
  {
    Convergence(g, w, one, two, r);
    assert Ancestors(g, NO_OBJECT) == {};
    if r in w.a && r in w.b { JoinIsLeastDescendant(g, w.a[r], w.b[r]); }
    hide Take, Ancestors, IsAncestor;
  }

  function TakeAll(g: ObjectGraph, w: World, turns: seq<Turn>): World
    decreases turns
  {
    if turns == [] then w else TakeAll(g, Take(g, w, turns[0]), turns[1..])
  }

  /** A ref both sides agree on never moves again, whatever turns follow. */
  lemma {:induction false} AgreedForever(g: ObjectGraph, w: World, turns: seq<Turn>, r: Ref)
    requires Tip(w.a, r) == Tip(w.b, r)
    decreases turns
    ensures var w' := TakeAll(g, w, turns);
      Tip(w'.a, r) == Tip(w.a, r) && Tip(w'.b, r) == Tip(w.b, r)
  {
    if turns != [] {
      TakenTips(g, w, turns[0], r);
      hide Take, CacheFor;
      AgreedForever(g, Take(g, w, turns[0]), turns[1..], r);
    }
  }

  /** Where the claim stops: two annotations of one commit are ancestors of each other, so
      both directions withhold the tag for ever. */
  lemma {:induction false} ReannotatedTagNeverAgrees(g: ObjectGraph, w: World, turns: seq<Turn>, r: Ref)
    requires r in w.a && r in w.b && w.a[r] in g.parents && w.b[r] in g.parents && Peel(g, w.a[r]) == Peel(g, w.b[r])
    decreases turns
    ensures var w' := TakeAll(g, w, turns);
      Tip(w'.a, r) == w.a[r] && Tip(w'.b, r) == w.b[r]
  {
    if turns != [] {
      var w' := Take(g, w, turns[0]);
      assert IsAncestor(g, w.a[r], w.b[r]) && IsAncestor(g, w.b[r], w.a[r]);
      assert NO_OBJECT !in g.parents;
      TakenTips(g, w, turns[0], r);
      hide Take, CacheFor, IsAncestor, Peel;
      assert Tip(w'.a, r) == w.a[r] && Tip(w'.b, r) == w.b[r];
      hide TurnTip;
      ReannotatedTagNeverAgrees(g, w', turns[1..], r);
    }
  }

  // ---- a divergent rewrite ---------------------------------------------------------------------------

  /** Side A rewrote the ref; side B and its cache have never seen the new tip, or already
      took it. */
  predicate RewritePending(g: ObjectGraph, w: World, r: Ref, newTip: Oid, oldTip: Oid) {
    && Tip(w.a, r) == newTip
    && (Tip(w.b, r) == newTip || (Tip(w.b, r) == oldTip && newTip !in w.knownB && newTip !in Closure(g, w.b.Values)))
  }

  /** The turn lands the rewrite: it covers the ref and A's cache still has the old tip. */
  predicate LandsRewrite(g: ObjectGraph, w: World, turn: Turn, r: Ref, oldTip: Oid) {
    turn.toB && turn.Covers(r) && oldTip in CacheFor(g, w, turn)
  }

  /** The turn carries the new commit to B under another name only. */
  ghost predicate CarriesElsewhere(g: ObjectGraph, w: World, turn: Turn, r: Ref, newTip: Oid) {
    turn.toB && exists o: Ref :: o != r && turn.Covers(o) && newTip in Ancestors(g, Tip(w.a, o))
  }

  ghost predicate Harmless(g: ObjectGraph, w: World, turns: seq<Turn>, r: Ref, newTip: Oid, oldTip: Oid)
    decreases turns
  {
    turns != [] ==>
      && (LandsRewrite(g, w, turns[0], r, oldTip) || !CarriesElsewhere(g, w, turns[0], r, newTip))
      && Harmless(g, Take(g, w, turns[0]), turns[1..], r, newTip, oldTip)
  }

  ghost predicate EverLands(g: ObjectGraph, w: World, turns: seq<Turn>, r: Ref, oldTip: Oid)
    decreases turns
  {
    turns != [] &&
    (LandsRewrite(g, w, turns[0], r, oldTip) || EverLands(g, Take(g, w, turns[0]), turns[1..], r, oldTip))
  }

  lemma UnknownStaysUnknown(g: ObjectGraph, objs: set<Oid>, refs: RefMap, keep: set<Oid>, o: Oid)
    requires Closed(g, objs) && o !in objs && o !in Closure(g, refs.Values)
    ensures o !in Known(g, objs, refs, keep)
  {
    ClosureIsClosed(g, refs.Values);
    ClosedUnion(g, objs, Closure(g, refs.Values));
    ClosureIsLeast(g, objs + Closure(g, refs.Values), keep * (objs + Closure(g, refs.Values)));
  }

  lemma KnownIsClosed(g: ObjectGraph, objs: set<Oid>, refs: RefMap, keep: set<Oid>)
    ensures Closed(g, Known(g, objs, refs, keep))
  {
    ClosureIsClosed(g, refs.Values);
    ClosureIsClosed(g, keep * (objs + Closure(g, refs.Values)));
    ClosedUnion(g, Closure(g, refs.Values), Closure(g, keep * (objs + Closure(g, refs.Values))));
  }

  /** A commit reached by the destination after a turn was reached before or came along. */
  lemma ReachedAfter(g: ObjectGraph, known: set<Oid>, from: RefMap, to: RefMap, turn: Turn, o: Oid)
    requires o in Closure(g, TurnRefs(g, known, from, to, turn).Values)
    ensures o in Closure(g, to.Values) ||
      exists r :: r in from && turn.Covers(r) && o in Ancestors(g, from[r]) &&
        Tip(TurnRefs(g, known, from, to, turn), r) == from[r]
  {
    var after := TurnRefs(g, known, from, to, turn);
    var t :| t in after.Values && o in Ancestors(g, t);
    var r :| r in after && after[r] == t;
    TipAfter(g, known, from, to, turn, r);
    if r in to && to[r] == t {
      assert to[r] in to.Values;
    } else {
      assert t == NO_OBJECT || (r in from && from[r] == t);
      assert NO_OBJECT !in g.parents;
    }
  }

  /** What a rewrite's theorem asks of the start: real, divergent tips and closed caches. */
  predicate Rewrite(g: ObjectGraph, w: World, r: Ref, newTip: Oid, oldTip: Oid) {
    && !r.Other? && newTip in g.parents && oldTip in g.parents && !IsAncestor(g, newTip, oldTip)
    && Closed(g, w.knownA) && Closed(g, w.knownB) && Real(g, w)
  }

  lemma RewriteStays(g: ObjectGraph, w: World, turn: Turn, r: Ref, newTip: Oid, oldTip: Oid)
    requires Rewrite(g, w, r, newTip, oldTip)
    ensures Rewrite(g, Take(g, w, turn), r, newTip, oldTip)
  {
    StaysReal(g, w, turn);
    KnownIsClosed(g, w.knownA, w.a, turn.keep);
    KnownIsClosed(g, w.knownB, w.b, turn.keep);
    hide Known, TurnRefs, Closed, IsAncestor, RealTips;
  }

  /** A turn that lands the rewrite, or at least does not carry its commit to B under
      another name, leaves it pending or done. */
  lemma RewriteStep(g: ObjectGraph, w: World, turn: Turn, r: Ref, newTip: Oid, oldTip: Oid)
    requires Rewrite(g, w, r, newTip, oldTip) && RewritePending(g, w, r, newTip, oldTip)
    requires LandsRewrite(g, w, turn, r, oldTip) || !CarriesElsewhere(g, w, turn, r, newTip)
    ensures RewritePending(g, Take(g, w, turn), r, newTip, oldTip)
    ensures LandsRewrite(g, w, turn, r, oldTip) || Tip(w.b, r) == newTip ==> Tip(Take(g, w, turn).b, r) == newTip
  {
    var w' := Take(g, w, turn);
    assert NO_OBJECT !in g.parents;
    TakenTips(g, w, turn, r);
    if Tip(w.b, r) == newTip {
      hide Known, TurnRefs, IsAncestor, Closed;
    } else if !turn.toB {
      UnknownStaysUnknown(g, w.knownB, w.b, turn.keep, newTip);
      hide Known, TurnRefs, IsAncestor, Closed, Closure;
    } else if LandsRewrite(g, w, turn, r, oldTip) {
      hide Known, TurnRefs, IsAncestor, Closed, Closure;
    } else if newTip in Closure(g, w'.b.Values) {
      ReachedAfter(g, CacheFor(g, w, turn), w.a, w.b, turn, newTip);
      hide Known, TurnRefs, IsAncestor, Closed, Closure, Ancestors;
      var o :| o in w.a && turn.Covers(o) && newTip in Ancestors(g, w.a[o]) && Tip(w'.b, o) == w.a[o];
      assert o != r ==> CarriesElsewhere(g, w, turn, r, newTip);
    } else {
      hide Known, TurnRefs, IsAncestor, Closed, Closure, Ancestors;
    }
  }

  /** A divergent rewrite on one side is never undone and its old tip never comes back,
      in every order and with repeats; the first turn that meets the old tip in A's cache
      lands it on the other side for good. */
  lemma {:induction false} RewriteIsNeverUndone(g: ObjectGraph, w: World, turns: seq<Turn>, r: Ref, newTip: Oid,
                                                oldTip: Oid)
    requires Rewrite(g, w, r, newTip, oldTip) && RewritePending(g, w, r, newTip, oldTip)
    requires Harmless(g, w, turns, r, newTip, oldTip)
    decreases turns
    ensures var w' := TakeAll(g, w, turns);
      && Tip(w'.a, r) == newTip && (Tip(w'.b, r) == newTip || Tip(w'.b, r) == oldTip)
      && (EverLands(g, w, turns, r, oldTip) || Tip(w.b, r) == newTip ==> Tip(w'.b, r) == newTip)
  {
    if turns != [] {
      hide Rewrite, Take, LandsRewrite, CarriesElsewhere, Closure;
      RewriteStep(g, w, turns[0], r, newTip, oldTip);
      RewriteStays(g, w, turns[0], r, newTip, oldTip);
      RewriteIsNeverUndone(g, Take(g, w, turns[0]), turns[1..], r, newTip, oldTip);
    }
  }

  /** The turn back undoes a pending rewrite exactly when B's cache holds the new commit by
      the time it plans. */
  lemma UndoneExactly(g: ObjectGraph, w: World, turn: Turn, r: Ref, newTip: Oid, oldTip: Oid)
    requires Tip(w.a, r) == newTip && Tip(w.b, r) == oldTip && newTip in g.parents && oldTip in g.parents
    requires newTip != oldTip && !IsAncestor(g, oldTip, newTip) && !turn.toB && turn.Covers(r)
    ensures Tip(Take(g, w, turn).a, r) == oldTip <==> newTip in CacheFor(g, w, turn)
  {
    TakenTips(g, w, turn, r);
    assert NO_OBJECT !in g.parents;
    hide Take, CacheFor, IsAncestor;
  }

  /** So an event for another ref at the new commit, handled first, gets the rewrite undone. */
  lemma CarriedRewriteIsUndone(g: ObjectGraph, w: World, r: Ref, o: Ref, newTip: Oid, oldTip: Oid, keep: set<Oid>,
                               keep1: set<Oid>)
    requires Tip(w.a, r) == newTip && Tip(w.a, o) == newTip && Tip(w.b, r) == oldTip && Tip(w.b, o) == NO_OBJECT
    requires newTip in g.parents && oldTip in g.parents && newTip != oldTip && !IsAncestor(g, oldTip, newTip)
    requires r != o && !r.Other? && !o.Other?
    ensures var w' := Take(g, Take(g, w, Turn(true, Some({o}), keep)), Turn(false, Some({r}), keep1));
      Tip(w'.a, r) == oldTip && Tip(w'.b, r) == oldTip
  {
    var first, second := Turn(true, Some({o}), keep), Turn(false, Some({r}), keep1);
    var w1 := Take(g, w, first);
    TakenTips(g, w, first, r);
    TakenTips(g, w, first, o);
    assert NO_OBJECT !in g.parents;
    assert newTip in Ancestors(g, newTip);
    hide IsAncestor, Ancestors, Known, TurnRefs;
    ReachedIsKnown(g, w1.knownB, w1.b, keep1, o, newTip);
    UndoneExactly(g, w1, second, r, newTip, oldTip);
    TakenTips(g, w1, second, r);
  }

  // ---- a stalemate ---------------------------------------------------------------------------------

  /** No ref of this side reaches the other side's tip, and no other ref its own. */
  predicate Apart(g: ObjectGraph, refs: RefMap, r: Ref, own: Oid, other: Oid) {
    forall o :: o in refs ==> other !in Ancestors(g, refs[o]) && (o != r ==> own !in Ancestors(g, refs[o]))
  }

  /** The sides hold different tips of the ref, and neither cache holds the other's. */
  predicate Stalemate(g: ObjectGraph, w: World, r: Ref, x: Oid, y: Oid) {
    && !r.Other? && x != y && Tip(w.a, r) == x && Tip(w.b, r) == y && x in g.parents && y in g.parents
    && Closed(g, w.knownA) && Closed(g, w.knownB) && y !in w.knownA && x !in w.knownB
    && Apart(g, w.a, r, x, y) && Apart(g, w.b, r, y, x)
  }

  lemma ApartIsUnreached(g: ObjectGraph, refs: RefMap, r: Ref, own: Oid, other: Oid)
    requires Apart(g, refs, r, own, other)
    ensures other !in Closure(g, refs.Values)
  {
    hide Ancestors;
  }

  /** Without the other tip in its cache a side does not replace it. */
  lemma TipStaysOrComes(g: ObjectGraph, known: set<Oid>, from: RefMap, to: RefMap, turn: Turn, r: Ref, o: Ref)
    requires Tip(from, r) != Tip(to, r) && Tip(to, r) != NO_OBJECT && Tip(to, r) !in known
    ensures var tip := Tip(TurnRefs(g, known, from, to, turn), o);
      tip == Tip(to, o) || (o != r && tip == Tip(from, o))
  {
    TipAfter(g, known, from, to, turn, o);
    hide IsAncestor, TurnRefs;
  }

  lemma ApartAfter(g: ObjectGraph, from: RefMap, to: RefMap, after: RefMap, r: Ref, own: Oid, other: Oid)
    requires Apart(g, from, r, own, other) && Apart(g, to, r, other, own)
    requires forall o :: Tip(after, o) == Tip(to, o) || (o != r && Tip(after, o) == Tip(from, o))
    ensures Apart(g, after, r, other, own)
  {
    NothingReachesNothing(g);
    hide Ancestors;
    forall o | o in after ensures own !in Ancestors(g, after[o]) && (o != r ==> other !in Ancestors(g, after[o])) {
      assert Tip(after, o) == after[o];
    }
  }

  /** Nor does it learn of it. */
  lemma TurnKeepsApart(g: ObjectGraph, objs: set<Oid>, from: RefMap, to: RefMap, turn: Turn, r: Ref, own: Oid,
                       other: Oid)
    requires Tip(from, r) == own && Tip(to, r) == other && own != other && own in g.parents && other in g.parents
    requires Closed(g, objs) && other !in objs && Apart(g, from, r, own, other) && Apart(g, to, r, other, own)
    ensures var known := Known(g, objs, from, turn.keep);
      && Closed(g, known) && other !in known
      && Tip(TurnRefs(g, known, from, to, turn), r) == other
      && Apart(g, TurnRefs(g, known, from, to, turn), r, other, own)
  {
    var known := Known(g, objs, from, turn.keep);
    var after := TurnRefs(g, known, from, to, turn);
    ApartIsUnreached(g, from, r, own, other);
    UnknownStaysUnknown(g, objs, from, turn.keep, other);
    KnownIsClosed(g, objs, from, turn.keep);
    assert NO_OBJECT !in g.parents;
    hide Known, TurnRefs, Closed, Closure, Apart, Tip;
    forall o ensures Tip(after, o) == Tip(to, o) || (o != r && Tip(after, o) == Tip(from, o)) {
      TipStaysOrComes(g, known, from, to, turn, r, o);
    }
    ApartAfter(g, from, to, after, r, own, other);
  }

  lemma NothingReachesNothing(g: ObjectGraph)
    ensures Ancestors(g, NO_OBJECT) == {}
  {
    assert NO_OBJECT !in g.parents;
  }

  lemma StalemateStays(g: ObjectGraph, w: World, turn: Turn, r: Ref, x: Oid, y: Oid)
    requires Stalemate(g, w, r, x, y)
    ensures Stalemate(g, Take(g, w, turn), r, x, y)
  {
    if turn.toB {
      TurnKeepsApart(g, w.knownA, w.a, w.b, turn, r, x, y);
    } else {
      TurnKeepsApart(g, w.knownB, w.b, w.a, turn, r, y, x);
    }
    hide Apart, Known, TurnRefs, Closed;
  }
}
