/** One call of a repo, from the moment it holds the lock to its return: whatever its git does,
 * it leaves the two ends of its leg as one deed would.
 */
module Section {
  import opened Config
  import opened Events
  import opened Gates
  import opened Git
  import opened Graph
  import opened Invariant
  import opened Loss
  import opened Plan
  import opened Porcelain
  import opened Protocol
  import opened Refs
  import opened Routing
  import Legs

  /** Git does what it is asked, answers what it is asked, and nobody refuses anything. */
  predicate Cooperative(c: Choice) {
    c.works && c.clones && !c.dies && c.policy.None? && c.unanswered == ALL_ANSWERED
  }

  /** What a leg sees of its repo: its cache and the refs at both ends. */
  datatype Spot = Spot(cache: Option<Store>, from: RefMap, to: RefMap)

  /** The ends of a leg, with the objects its cache holds. */
  datatype Ends = Ends(from: RefMap, to: RefMap, known: set<Oid>)

  function SpotOf(v: Sight): Spot { Spot(v.cache, v.from.refs, v.to.refs) }

  function ObjectsOf(cache: Option<Store>): set<Oid> { if cache.Some? then cache.value.objs else {} }

  function EndsOf(p: Spot): Ends { Ends(p.from, p.to, ObjectsOf(p.cache)) }

  // ---- deeds --------------------------------------------------------------------------------

  /** What a whole call does: nothing, losing its cache, one turn, or removing a ref. */
  datatype Deed = Idle | Forgot | Turned(only: Option<set<Ref>>, keep: set<Oid>) | Removed(ref: Ref)

  function DoEnds(g: ObjectGraph, e: Ends, d: Deed): Ends {
    match d
    case Idle => e
    case Forgot => e.(known := {})
    case Turned(only, keep) =>
      var known := Legs.Known(g, e.known, e.from, keep);
      Ends(e.from, Legs.TurnRefs(g, known, e.from, e.to, Legs.Turn(true, only, keep)), known)
    case Removed(ref) => e.(to := e.to - {ref})
  }

  predicate Covered(z: Setting, leg: Leg, ref: Option<Ref>, r: Ref) {
    !r.Other? && if ref.Some? then r == ref.value else !leg.Blocks(r.ShortName(), z.glob)
  }

  /** The refs of its source a mirror is to bring over. */
  function CoveredIn(z: Setting, leg: Leg, ref: Option<Ref>, from: RefMap): set<Ref> {
    set r | r in from && Covered(z, leg, ref, r)
  }

  /** What a call does when its git cooperates all the way: the whole turn, or the removal. */
  predicate WholeDeed(z: Setting, task: Task, before: Ends, d: Deed) {
    match task
    case MirrorTask(leg, meta) => d.Turned? && d.only == Some(CoveredIn(z, leg, meta.ref, before.from))
    case DeleteTask(_, ref, _) => d == Removed(ref)
    case _ => false
  }

  // ---- where a call stands -------------------------------------------------------------------

  ghost predicate WantExactly(z: Setting, leg: Leg, ref: Option<Ref>, cache: Store, want: seq<Ref>) {
    Distinct(want) && forall r :: r in want <==> r in cache.refs && Covered(z, leg, ref, r)
  }

  /** The refs git moved so far. */
  function Landed(outcomes: seq<RefOutcome>): set<Ref> {
    set o | o in outcomes && o.Moved() :: o.ref
  }

  /** The cache mirrors the source, and the ends are a turn of these refs away from the start. */
  ghost predicate Partway(g: ObjectGraph, before: Ends, p: Spot, refs: set<Ref>) {
    && p.cache.Some? && p.cache.value.refs == p.from
    && exists keep :: EndsOf(p) == DoEnds(g, before, Turned(Some(refs), keep))
  }

  /** The plan is the guard's judgement of exactly the covered refs, against the destination as
      the call found it, with the ancestry questions answered. */
  ghost predicate PlanMade(z: Setting, leg: Leg, meta: EventMeta, before: Ends, cache: Store, plan: PushPlan) {
    && plan.unanswered.ancestry == {}
    && exists want :: WantExactly(z, leg, meta.ref, cache, want)
         && plan == PlanFor(z.g, cache, before.to, want, false, meta.forceLease, plan.unanswered)
  }

  /** Where a call stands between its first step and its return, measured against the ends it
      started from. `coop` says its git has cooperated so far. */
  ghost predicate InSection(z: Setting, task: Task, before: Ends, pc: PC, p: Spot, coop: bool) {
    && p.from == before.from
    && match pc
       case Locked => EndsOf(p) == before
       case DeleteChecked(_) => EndsOf(p) == before && task.DeleteTask?
       case Fetched => task.MirrorTask? && Partway(z.g, before, p, {})
       case Resolved(want) =>
         task.MirrorTask? && Partway(z.g, before, p, {}) && WantExactly(z, task.leg, task.meta.ref, p.cache.value, want)
       case Pushing(plan, outcomes) => task.MirrorTask? && Sending(z, task, before, p, plan, outcomes, coop)
       case Pushed(plan, outcomes) =>
         task.MirrorTask? && Sending(z, task, before, p, plan, outcomes, coop) && |outcomes| == |plan.specs|
       case _ => false
  }

  ghost predicate Sending(z: Setting, task: Task, before: Ends, p: Spot, plan: PushPlan, outcomes: seq<RefOutcome>,
                          coop: bool)
    requires task.MirrorTask?
  {
    && Partway(z.g, before, p, Landed(outcomes)) && PlanMade(z, task.leg, task.meta, before, p.cache.value, plan)
    && |outcomes| <= |plan.specs| && (forall k :: 0 <= k < |outcomes| ==> outcomes[k].ref == plan.specs[k].ref)
    && (coop ==> plan.unanswered == ALL_ANSWERED && forall o :: o in outcomes ==> o.Moved())
  }

  // ---- turns of some refs -----------------------------------------------------------------------

  lemma NoRefsNoTurn(g: ObjectGraph, known: set<Oid>, from: RefMap, to: RefMap, keep: set<Oid>)
    ensures Legs.TurnRefs(g, known, from, to, Legs.Turn(true, Some({}), keep)) == to
  {
  }

  lemma TipsDetermine(g: ObjectGraph, a: RefMap, b: RefMap)
    requires Legs.RealTips(g, a) && Legs.RealTips(g, b) && forall r :: Tip(a, r) == Tip(b, r)
    ensures a == b
  {
    assert NO_OBJECT !in g.parents;
    assert forall r :: r in a <==> Tip(a, r) != NO_OBJECT;
    assert forall r :: r in b <==> Tip(b, r) != NO_OBJECT;
    assert forall r :: r in a ==> a[r] == Tip(a, r);
    assert forall r :: r in b ==> b[r] == Tip(b, r);
  }

  /** One more ref that the guard sends is one more ref of the turn. */
  lemma TurnGrows(g: ObjectGraph, known: set<Oid>, from: RefMap, to: RefMap, refs: set<Ref>, ref: Ref, keep: set<Oid>)
    requires Legs.RealTips(g, from) && Legs.RealTips(g, to) && ref in from && !ref.Other?
    requires Legs.TurnTip(g, known, from[ref], Tip(to, ref)) == from[ref]
    ensures Legs.TurnRefs(g, known, from, to, Legs.Turn(true, Some(refs + {ref}), keep)) ==
      Legs.TurnRefs(g, known, from, to, Legs.Turn(true, Some(refs), keep))[ref := from[ref]]
  {
    var some, more := Legs.Turn(true, Some(refs), keep), Legs.Turn(true, Some(refs + {ref}), keep);
    var a, b := Legs.TurnRefs(g, known, from, to, more), Legs.TurnRefs(g, known, from, to, some)[ref := from[ref]];
    Legs.TurnIsReal(g, known, from, to, some);
    Legs.TurnIsReal(g, known, from, to, more);
    forall r ensures Tip(a, r) == Tip(b, r) {
      Legs.TipAfter(g, known, from, to, some, r);
      Legs.TipAfter(g, known, from, to, more, r);
      hide Legs.TurnTip, Legs.TurnRefs;
    }
    hide Legs.TurnRefs, Legs.TurnTip;
    TipsDetermine(g, a, b);
  }

  /** Refs a turn would leave alone anyway may be counted in or out. */
  lemma SameTurn(g: ObjectGraph, known: set<Oid>, from: RefMap, to: RefMap, a: Option<set<Ref>>, b: Option<set<Ref>>,
                 keep: set<Oid>)
    requires Legs.RealTips(g, from) && Legs.RealTips(g, to)
    requires forall r :: Legs.Turn(true, a, keep).Covers(r) != Legs.Turn(true, b, keep).Covers(r) ==>
      Legs.TurnTip(g, known, Tip(from, r), Tip(to, r)) == Tip(to, r)
    ensures Legs.TurnRefs(g, known, from, to, Legs.Turn(true, a, keep)) ==
      Legs.TurnRefs(g, known, from, to, Legs.Turn(true, b, keep))
  {
    var ta, tb := Legs.Turn(true, a, keep), Legs.Turn(true, b, keep);
    var ra, rb := Legs.TurnRefs(g, known, from, to, ta), Legs.TurnRefs(g, known, from, to, tb);
    Legs.TurnIsReal(g, known, from, to, ta);
    Legs.TurnIsReal(g, known, from, to, tb);
    forall r ensures Tip(ra, r) == Tip(rb, r) {
      Legs.TipAfter(g, known, from, to, ta, r);
      Legs.TipAfter(g, known, from, to, tb, r);
      hide Legs.TurnTip, Legs.TurnRefs;
    }
    hide Legs.TurnRefs, Legs.TurnTip;
    TipsDetermine(g, ra, rb);
  }

  // ---- one step ---------------------------------------------------------------------------------

  /** The sight a call has after its own step. */
  function SightAfter(z: Setting, v: Sight, act: Act): Sight {
    v.(cache := act.cache, to := if act.write.None? then v.to else Written(z.g, v.to, act.write.value))
  }

  /** A step either keeps the call in its section or returns, and then `d` is what the whole
      call did; with a git that cooperated all along, the whole turn or removal. */
  ghost predicate Carries(z: Setting, task: Task, before: Ends, v: Sight, act: Act, coop: bool, d: Deed) {
    var p := SpotOf(SightAfter(z, v, act));
    if act.pc.Done?
    then
      && EndsOf(p) == DoEnds(z.g, before, d) && (coop ==> WholeDeed(z, task, before, d))
      && (d.Removed? ==> task.DeleteTask? && d.ref == task.ref)
    else d == Idle && InSection(z, task, before, act.pc, p, coop)
  }

  predicate RealEnds(g: ObjectGraph, e: Ends) { Legs.RealTips(g, e.from) && Legs.RealTips(g, e.to) }

  lemma FetchedPartway(g: ObjectGraph, v: Sight, keep: set<Oid>)
    requires v.cache.Some?
    ensures Partway(g, EndsOf(SpotOf(v)), SpotOf(v.(cache := Some(Collect(g, Fetch(g, v.cache.value, v.from), keep)))),
                    {})
  {
    var before, p := EndsOf(SpotOf(v)), SpotOf(v.(cache := Some(Collect(g, Fetch(g, v.cache.value, v.from), keep))));
    NoRefsNoTurn(g, Legs.Known(g, before.known, before.from, keep), before.from, before.to, keep);
    assert p.cache.value.objs == Legs.Known(g, before.known, before.from, keep);
    hide Legs.TurnRefs, Legs.Known;
    assert EndsOf(p) == DoEnds(g, before, Turned(Some({}), keep));
  }

  lemma ClonedPartway(g: ObjectGraph, v: Sight)
    ensures Partway(g, EndsOf(SpotOf(v)), SpotOf(v.(cache := Some(Clone(g, v.from)))), {})
  {
    var before, p := EndsOf(SpotOf(v)), SpotOf(v.(cache := Some(Clone(g, v.from))));
    NoRefsNoTurn(g, Legs.Known(g, before.known, before.from, {}), before.from, before.to, {});
    assert {} * (before.known + Closure(g, v.from.refs.Values)) == {} && Closure(g, {}) == {};
    assert p.cache.value.objs == Legs.Known(g, before.known, before.from, {});
    hide Legs.TurnRefs, Legs.Known;
    assert EndsOf(p) == DoEnds(g, before, Turned(Some({}), {}));
  }

  lemma FetchSection(z: Setting, task: Task, v: Sight, c: Choice, coop: bool) returns (d: Deed)
    requires task.MirrorTask? && ProvidersKnown(z, task.leg) && (coop ==> Cooperative(c))
    ensures Carries(z, task, EndsOf(SpotOf(v)), v, FetchStep(z, DraftOf(task), task.leg, v, c), coop, d)
  {
    if v.cache.Some? { FetchedPartway(z.g, v, c.keep); }
    ClonedPartway(z.g, v);
    hide DraftOf, Partway, Collect, Fetch, Clone, WholeDeed;
    d := if (v.cache.Some? && c.works) || c.clones || !c.loses then Idle else Forgot;
  }

  /** The witness of how far the ends have come. */
  lemma KeepOf(g: ObjectGraph, before: Ends, p: Spot, refs: set<Ref>) returns (keep: set<Oid>)
    requires Partway(g, before, p, refs)
    ensures EndsOf(p) == DoEnds(g, before, Turned(Some(refs), keep))
  {
    keep :| EndsOf(p) == DoEnds(g, before, Turned(Some(refs), keep));
  }

  lemma ResolveSection(z: Setting, task: Task, before: Ends, v: Sight, c: Choice, coop: bool) returns (d: Deed)
    requires task.MirrorTask? && InSection(z, task, before, Fetched, SpotOf(v), coop) && (coop ==> Cooperative(c))
    requires Lists(c.listing, v.cache.value.refs)
    ensures Carries(z, task, before, v, ResolveStep(z, DraftOf(task), task.leg, task.meta, v, c), coop, d)
  {
    WantedExactly(z, task.leg, task.meta.ref, v.cache.value, c.listing);
    var keep := KeepOf(z.g, before, SpotOf(v), {});
    hide DraftOf, ResolveRefs, DoEnds, Covered;
    var act := ResolveStep(z, DraftOf(task), task.leg, task.meta, v, c);
    d := if act.pc.Done? then Turned(Some({}), keep) else Idle;
    assert coop && act.pc.Done? ==> CoveredIn(z, task.leg, task.meta.ref, before.from) == {};
  }

  lemma WantedExactly(z: Setting, leg: Leg, ref: Option<Ref>, cache: Store, listing: seq<Ref>)
    requires Lists(listing, cache.refs)
    ensures WantExactly(z, leg, ref, cache, ResolveRefs(listing, leg, z.glob, ref))
  {
    ResolvedRefs(listing, leg, z.glob, ref);
    hide Unblocked;
  }

  lemma SentIffJudged(z: Setting, leg: Leg, meta: EventMeta, before: Ends, cache: Store, plan: PushPlan, r: Ref)
    requires PlanMade(z, leg, meta, before, cache, plan) && cache.refs == before.from
    requires r in CoveredIn(z, leg, meta.ref, before.from)
    ensures Judge(z.g, cache, before.to, r, false, meta.forceLease, plan.unanswered).Send? ==>
      exists sp :: sp in plan.specs && sp.ref == r
  {
    var want :| WantExactly(z, leg, meta.ref, cache, want)
      && plan == PlanFor(z.g, cache, before.to, want, false, meta.forceLease, plan.unanswered);
    SpecsAreCovered(z, leg, meta, before, cache, plan, want);
    PlanMeaning(z.g, cache, before.to, want, false, meta.forceLease, plan.unanswered);
    hide PlanFor, Judge, CoveredIn, Distinct, WantExactly;
    var v := Judge(z.g, cache, before.to, r, false, meta.forceLease, plan.unanswered);
    if v.Send? { assert PushSpec(r, v.lease) in plan.specs; }
  }

  /** A covered ref the fully answered plan does not send is one a turn leaves alone. */
  lemma UnsentStays(z: Setting, leg: Leg, meta: EventMeta, before: Ends, cache: Store, plan: PushPlan, r: Ref)
    requires RealEnds(z.g, before) && PlanMade(z, leg, meta, before, cache, plan) && plan.unanswered == ALL_ANSWERED
    requires cache.refs == before.from && r in CoveredIn(z, leg, meta.ref, before.from)
    requires forall sp :: sp in plan.specs ==> sp.ref != r
    ensures Legs.TurnTip(z.g, cache.objs, Tip(before.from, r), Tip(before.to, r)) == Tip(before.to, r)
  {
    SentIffJudged(z, leg, meta, before, cache, plan, r);
    Legs.JudgedTip(z.g, cache, before.to, r, meta.forceLease, ALL_ANSWERED);
    hide PlanMade, Judge, Legs.TurnTip, Legs.RealTips, CoveredIn;
  }

  /** Once every spec of a fully answered plan has landed, the turn is the whole one. */
  lemma AllLandedIsWhole(z: Setting, leg: Leg, meta: EventMeta, before: Ends, cache: Store, plan: PushPlan,
                         keep: set<Oid>)
    requires RealEnds(z.g, before) && PlanMade(z, leg, meta, before, cache, plan) && plan.unanswered == ALL_ANSWERED
    requires cache.refs == before.from && cache.objs == Legs.Known(z.g, before.known, before.from, keep)
    ensures var refs := set sp | sp in plan.specs :: sp.ref;
      DoEnds(z.g, before, Turned(Some(refs), keep)) ==
        DoEnds(z.g, before, Turned(Some(CoveredIn(z, leg, meta.ref, before.from)), keep))
  {
    hide PlanMade, PlanFor, Legs.TurnTip, Legs.TurnRefs, CoveredIn, WantExactly, Legs.Known;
    var refs, whole := set sp | sp in plan.specs :: sp.ref, CoveredIn(z, leg, meta.ref, before.from);
    OnlyCoveredAreSent(z, leg, meta, before, cache, plan);
    forall r | r in whole && r !in refs
      ensures Legs.TurnTip(z.g, cache.objs, Tip(before.from, r), Tip(before.to, r)) == Tip(before.to, r)
    {
      UnsentStays(z, leg, meta, before, cache, plan, r);
    }
    hide Legs.RealTips;
    SameTurn(z.g, cache.objs, before.from, before.to, Some(refs), Some(whole), keep);
  }

  lemma OnlyCoveredAreSent(z: Setting, leg: Leg, meta: EventMeta, before: Ends, cache: Store, plan: PushPlan)
    requires PlanMade(z, leg, meta, before, cache, plan) && cache.refs == before.from
    ensures forall sp :: sp in plan.specs ==> sp.ref in CoveredIn(z, leg, meta.ref, before.from)
  {
    var want :| WantExactly(z, leg, meta.ref, cache, want)
      && plan == PlanFor(z.g, cache, before.to, want, false, meta.forceLease, plan.unanswered);
    SpecsAreCovered(z, leg, meta, before, cache, plan, want);
    hide PlanFor, CoveredIn, WantExactly;
  }

  lemma SpecsAreCovered(z: Setting, leg: Leg, meta: EventMeta, before: Ends, cache: Store, plan: PushPlan,
                        want: seq<Ref>)
    requires WantExactly(z, leg, meta.ref, cache, want) && cache.refs == before.from
    requires plan == PlanFor(z.g, cache, before.to, want, false, meta.forceLease, plan.unanswered)
    ensures forall sp :: sp in plan.specs ==> sp.ref in CoveredIn(z, leg, meta.ref, before.from) && sp.ref in want
    ensures forall r :: r in want <==> r in CoveredIn(z, leg, meta.ref, before.from)
  {
    PlanMeaning(z.g, cache, before.to, want, false, meta.forceLease, plan.unanswered);
    hide PlanFor, Judge, Distinct;
  }

  lemma PlanIsMade(z: Setting, leg: Leg, meta: EventMeta, before: Ends, cache: Store, want: seq<Ref>, un: Unanswered)
    requires WantExactly(z, leg, meta.ref, cache, want) && un.ancestry == {}
    ensures var plan := PlanFor(z.g, cache, before.to, want, false, meta.forceLease, un);
      plan.unanswered == un && PlanMade(z, leg, meta, before, cache, plan)
  {
    PlanMeaning(z.g, cache, before.to, want, false, meta.forceLease, un);
    hide PlanFor, WantExactly;
  }

  lemma NothingLanded()
    ensures Landed([]) == {}
  {
  }

  lemma PlanSection(z: Setting, task: Task, before: Ends, want: seq<Ref>, v: Sight, c: Choice, coop: bool)
    returns (d: Deed)
    requires task.MirrorTask? && !task.meta.force && RealEnds(z.g, before) && c.unanswered.ancestry == {}
    requires InSection(z, task, before, Resolved(want), SpotOf(v), coop) && (coop ==> Cooperative(c))
    ensures Carries(z, task, before, v, PlanStep(z, DraftOf(task), task.meta, want, v, c), coop, d)
  {
    hide DraftOf, PlanFor, PlanMade, WantExactly, DoEnds, CoveredIn, RealEnds, Landed;
    var cache := v.cache.value;
    var keep := KeepOf(z.g, before, SpotOf(v), {});
    var plan := PlanFor(z.g, cache, before.to, want, false, task.meta.forceLease, c.unanswered);
    EndsUnmoved(z.g, before, SpotOf(v), keep);
    PlanIsMade(z, task.leg, task.meta, before, cache, want, c.unanswered);
    if coop && plan.specs == [] {
      AllLandedIsWhole(z, task.leg, task.meta, before, cache, plan, keep);
      assert (set sp | sp in plan.specs :: sp.ref) == {};
    }
    NothingLanded();
    hide Partway;
    var act := PlanStep(z, DraftOf(task), task.meta, want, v, c);
    d := if !act.pc.Done? then Idle
         else if coop then Turned(Some(CoveredIn(z, task.leg, task.meta.ref, before.from)), keep)
         else Turned(Some({}), keep);
  }

  /** Before anything landed the destination is as it was, and the cache is what was fetched. */
  lemma EndsUnmoved(g: ObjectGraph, before: Ends, p: Spot, keep: set<Oid>)
    requires EndsOf(p) == DoEnds(g, before, Turned(Some({}), keep)) && p.cache.Some?
    ensures p.to == before.to && p.cache.value.objs == Legs.Known(g, before.known, before.from, keep)
  {
    NoRefsNoTurn(g, Legs.Known(g, before.known, before.from, keep), before.from, before.to, keep);
    hide Legs.TurnRefs, Legs.Known;
  }

  // ---- the push -----------------------------------------------------------------------------------

  lemma LandedGrows(outcomes: seq<RefOutcome>, o: RefOutcome)
    ensures Landed(outcomes + [o]) == Landed(outcomes) + (if o.Moved() then {o.ref} else {})
  {
    assert forall q :: q in outcomes + [o] <==> q in outcomes || q == o;
  }

  /** What the guard says of the next spec: it is a covered ref, and its turn is the source's tip. */
  lemma NextIsTurned(z: Setting, leg: Leg, meta: EventMeta, before: Ends, cache: Store, plan: PushPlan, k: nat)
    requires RealEnds(z.g, before) && PlanMade(z, leg, meta, before, cache, plan) && k < |plan.specs|
    requires cache.refs == before.from
    ensures var sp := plan.specs[k];
      && sp.ref in before.from && !sp.ref.Other?
      && LeaseHolds(before.to, sp.ref, before.from[sp.ref], sp.lease)
      && Legs.TurnTip(z.g, cache.objs, before.from[sp.ref], Tip(before.to, sp.ref)) == before.from[sp.ref]
  {
    var sp := plan.specs[k];
    assert sp in plan.specs;
    var want :| WantExactly(z, leg, meta.ref, cache, want)
      && plan == PlanFor(z.g, cache, before.to, want, false, meta.forceLease, plan.unanswered);
    PlanMeaning(z.g, cache, before.to, want, false, meta.forceLease, plan.unanswered);
    Legs.JudgedTip(z.g, cache, before.to, sp.ref, meta.forceLease, plan.unanswered);
    hide PlanFor, Judge, Legs.TurnTip, LeaseHolds, Distinct, Legs.RealTips;
  }

  /** One landed write is one more ref of the turn. */
  lemma LandingIsTurn(z: Setting, task: Task, before: Ends, v: Sight, plan: PushPlan, outcomes: seq<RefOutcome>,
                      coop: bool)
    returns (keep: set<Oid>)
    requires task.MirrorTask? && RealEnds(z.g, before) && |outcomes| < |plan.specs|
    requires v.from.refs == before.from && Sending(z, task, before, SpotOf(v), plan, outcomes, coop)
    ensures EndsOf(SpotOf(v)) == DoEnds(z.g, before, Turned(Some(Landed(outcomes)), keep))
    ensures var ref := plan.specs[|outcomes|].ref;
      && ref in before.from && v.cache.value.refs == before.from
      && Ends(before.from, v.to.refs[ref := before.from[ref]], v.cache.value.objs) ==
           DoEnds(z.g, before, Turned(Some(Landed(outcomes) + {ref}), keep))
  {
    var ref, cache := plan.specs[|outcomes|].ref, v.cache.value;
    keep := KeepOf(z.g, before, SpotOf(v), Landed(outcomes));
    NextIsTurned(z, task.leg, task.meta, before, cache, plan, |outcomes|);
    assert cache.objs == Legs.Known(z.g, before.known, before.from, keep);
    hide PlanMade, Legs.TurnTip, Legs.TurnRefs, LeaseHolds, Landed, Legs.Known, Legs.RealTips;
    TurnGrows(z.g, cache.objs, before.from, before.to, Landed(outcomes), ref, keep);
  }

  /** A cooperative git moves the next ref: nothing has touched it since the plan. */
  lemma NextMoves(z: Setting, task: Task, before: Ends, v: Sight, plan: PushPlan, outcomes: seq<RefOutcome>, c: Choice)
    requires task.MirrorTask? && RealEnds(z.g, before) && |outcomes| < |plan.specs| && Distinct(SpecRefs(plan.specs))
    requires c.policy.None?
    requires v.from.refs == before.from && Sending(z, task, before, SpotOf(v), plan, outcomes, true)
    ensures plan.specs[|outcomes|].ref in v.cache.value.refs
    ensures NextOutcome(z, plan, outcomes, v, c).Moved()
  {
    var k, sp, cache := |outcomes|, plan.specs[|outcomes|], v.cache.value;
    var keep := KeepOf(z.g, before, SpotOf(v), Landed(outcomes));
    NextIsTurned(z, task.leg, task.meta, before, cache, plan, k);
    NotYetLanded(plan.specs, outcomes);
    Legs.TipAfter(z.g, Legs.Known(z.g, before.known, before.from, keep), before.from, before.to,
                  Legs.Turn(true, Some(Landed(outcomes)), keep), sp.ref);
    hide PlanMade, Legs.TurnTip, Legs.TurnRefs, Landed, Legs.Known, Legs.RealTips, Distinct, IsAncestor;
    assert Tip(v.to.refs, sp.ref) == Tip(before.to, sp.ref);
    hide Tip;
  }

  lemma NotYetLanded(specs: seq<PushSpec>, outcomes: seq<RefOutcome>)
    requires Distinct(SpecRefs(specs)) && |outcomes| < |specs|
    requires forall k :: 0 <= k < |outcomes| ==> outcomes[k].ref == specs[k].ref
    ensures specs[|outcomes|].ref !in Landed(outcomes)
  {
    var n := |outcomes|;
    forall k | 0 <= k < n ensures outcomes[k].ref != specs[n].ref {
      assert SpecRefs(specs)[k] != SpecRefs(specs)[n];
    }
  }

  /** What a push step does, told apart by whether the ref landed and whether the call returns. */
  lemma PushActs(z: Setting, ev: Event, plan: PushPlan, outcomes: seq<RefOutcome>, v: Sight, c: Choice)
    requires v.cache.Some? && |outcomes| < |plan.specs| && plan.specs[|outcomes|].ref in v.cache.value.refs
    requires v.cache.value.refs[plan.specs[|outcomes|].ref] != NO_OBJECT
    ensures var o, act := NextOutcome(z, plan, outcomes, v, c), PushStep(z, ev, plan, outcomes, v, c);
      var lands := o.Moved() && (!c.dies || c.lands);
      && o.ref == plan.specs[|outcomes|].ref && act.cache == v.cache
      && SightAfter(z, v, act).to.refs == (if lands then v.to.refs[o.ref := v.cache.value.refs[o.ref]] else v.to.refs)
      && (act.pc.Done? || act.pc == Pushing(plan, outcomes + [o]) || act.pc == Pushed(plan, outcomes + [o]))
      && (act.pc.Pushing? ==> |outcomes| + 1 < |plan.specs|) && (act.pc.Pushed? ==> |outcomes| + 1 == |plan.specs|)
      && (!act.pc.Done? ==> !c.dies)
      && (Cooperative(c) && (forall q :: q in outcomes + [o] ==> q.Moved()) ==> !act.pc.Done?)
  {
    hide PushStatus, ReadBatch, Parsed, PrintReport, AllStaleLease;
    var o := NextOutcome(z, plan, outcomes, v, c);
    assert forall q :: q in CurrentBatch(outcomes + [o]) ==> q in outcomes + [o];
    hide CurrentBatch;
  }

  lemma SendingGrows(z: Setting, task: Task, before: Ends, p: Spot, p': Spot, plan: PushPlan, outcomes: seq<RefOutcome>,
                     o: RefOutcome, coop: bool)
    requires task.MirrorTask? && Sending(z, task, before, p, plan, outcomes, coop) && |outcomes| < |plan.specs|
    requires o.ref == plan.specs[|outcomes|].ref && (coop ==> o.Moved())
    requires p'.cache == p.cache && p'.from == p.from && Partway(z.g, before, p', Landed(outcomes + [o]))
    ensures Sending(z, task, before, p', plan, outcomes + [o], coop)
  {
    hide PlanMade, Landed;
  }

  lemma PushCarries(z: Setting, task: Task, before: Ends, plan: PushPlan, outcomes: seq<RefOutcome>, o: RefOutcome,
                    v: Sight, act: Act, refs: set<Ref>, keep: set<Oid>, coop: bool)
    returns (d: Deed)
    requires task.MirrorTask? && |outcomes| < |plan.specs| && Sending(z, task, before, SpotOf(v), plan, outcomes, coop)
    requires v.from.refs == before.from && act.cache == v.cache && o.ref == plan.specs[|outcomes|].ref
    requires coop ==> o.Moved()
    requires EndsOf(SpotOf(SightAfter(z, v, act))) == DoEnds(z.g, before, Turned(Some(refs), keep))
    requires act.pc.Done? || refs == Landed(outcomes + [o])
    requires act.pc.Done? || act.pc == Pushing(plan, outcomes + [o]) || act.pc == Pushed(plan, outcomes + [o])
    requires (act.pc.Done? ==> !coop) && (act.pc.Pushed? ==> |outcomes| + 1 == |plan.specs|)
    ensures Carries(z, task, before, v, act, coop, d)
  {
    hide Landed, PlanMade, DoEnds, Written, WholeDeed;
    d := if act.pc.Done? then Turned(Some(refs), keep) else Idle;
    if !act.pc.Done? {
      SendingGrows(z, task, before, SpotOf(v), SpotOf(SightAfter(z, v, act)), plan, outcomes, o, coop);
    }
  }

  lemma PushSection(z: Setting, task: Task, before: Ends, plan: PushPlan, outcomes: seq<RefOutcome>, v: Sight,
                    c: Choice, coop: bool)
    returns (d: Deed)
    requires task.MirrorTask? && RealEnds(z.g, before) && Distinct(SpecRefs(plan.specs)) && |outcomes| < |plan.specs|
    requires InSection(z, task, before, Pushing(plan, outcomes), SpotOf(v), coop) && (coop ==> Cooperative(c))
    requires plan.specs[|outcomes|].ref in v.cache.value.refs
    requires v.cache.value.refs[plan.specs[|outcomes|].ref] != NO_OBJECT
    ensures Carries(z, task, before, v, PushStep(z, DraftOf(task), plan, outcomes, v, c), coop, d)
  {
    hide DraftOf, PushStep, NextOutcome, Landed, PlanMade, Distinct, RealEnds, Written, SightAfter, Carries;
    var keep := LandingIsTurn(z, task, before, v, plan, outcomes, coop);
    var o, act := NextOutcome(z, plan, outcomes, v, c), PushStep(z, DraftOf(task), plan, outcomes, v, c);
    if coop { NextMoves(z, task, before, v, plan, outcomes, c); }
    PushActs(z, DraftOf(task), plan, outcomes, v, c);
    LandedGrows(outcomes, o);
    var lands := o.Moved() && (!c.dies || c.lands);
    var refs := Landed(outcomes) + (if lands then {o.ref} else {});
    SightAfterKeepsSource(z, v, act);
    hide DoEnds, Sending;
    assert refs == if lands then Landed(outcomes) + {o.ref} else Landed(outcomes);
    assert coop ==> forall q :: q in outcomes + [o] ==> q.Moved() by {
      if coop { CoopMoved(z, task, before, SpotOf(v), plan, outcomes, o); }
    }
    d := PushCarries(z, task, before, plan, outcomes, o, v, act, refs, keep, coop);
  }

  lemma SightAfterKeepsSource(z: Setting, v: Sight, act: Act)
    ensures SightAfter(z, v, act).from == v.from && SightAfter(z, v, act).cache == act.cache
  {
  }

  lemma CoopMoved(z: Setting, task: Task, before: Ends, p: Spot, plan: PushPlan, outcomes: seq<RefOutcome>,
                  o: RefOutcome)
    requires task.MirrorTask? && Sending(z, task, before, p, plan, outcomes, true) && o.Moved()
    ensures forall q :: q in outcomes + [o] ==> q.Moved()
  {
    hide PlanMade, Landed;
  }

  lemma ReportSection(z: Setting, task: Task, before: Ends, plan: PushPlan, outcomes: seq<RefOutcome>, v: Sight,
                      c: Choice, coop: bool)
    returns (d: Deed)
    requires task.MirrorTask? && RealEnds(z.g, before)
    requires InSection(z, task, before, Pushed(plan, outcomes), SpotOf(v), coop)
    ensures Carries(z, task, before, v, ReportStep(z, DraftOf(task), plan, outcomes, v, c), coop, d)
  {
    var cache := v.cache.value;
    var keep := KeepOf(z.g, before, SpotOf(v), Landed(outcomes));
    assert cache.objs == Legs.Known(z.g, before.known, before.from, keep);
    if coop {
      LandedAll(plan.specs, outcomes);
      AllLandedIsWhole(z, task.leg, task.meta, before, cache, plan, keep);
    }
    hide DraftOf, ReadAll, ClassifyAll, Interrupts, Landed, PlanMade, DoEnds, CoveredIn, RealEnds;
    var refs := if coop then CoveredIn(z, task.leg, task.meta.ref, before.from) else Landed(outcomes);
    d := Turned(Some(refs), keep);
  }

  lemma LandedAll(specs: seq<PushSpec>, outcomes: seq<RefOutcome>)
    requires |outcomes| == |specs| && (forall k :: 0 <= k < |outcomes| ==> outcomes[k].ref == specs[k].ref)
    requires forall o :: o in outcomes ==> o.Moved()
    ensures Landed(outcomes) == set sp | sp in specs :: sp.ref
  {
    forall sp | sp in specs ensures sp.ref in Landed(outcomes) {
      var k :| 0 <= k < |specs| && specs[k] == sp;
      assert outcomes[k] in outcomes && outcomes[k].ref == sp.ref;
    }
    forall o | o in outcomes ensures exists sp :: sp in specs && sp.ref == o.ref {
      var k :| 0 <= k < |outcomes| && outcomes[k] == o;
      assert specs[k] in specs;
    }
  }

  // ---- a delete, and all together ---------------------------------------------------------------------

  lemma RemovingNothing(g: ObjectGraph, refs: RefMap, ref: Ref)
    requires Legs.RealTips(g, refs)
    ensures ref !in refs ==> refs - {ref} == refs
    ensures Tip(refs, ref) == NO_OBJECT ==> ref !in refs
  {
    assert NO_OBJECT !in g.parents;
  }

  lemma DeleteSection(z: Setting, task: Task, before: Ends, pc: PC, v: Sight, c: Choice, coop: bool) returns (d: Deed)
    requires task.DeleteTask? && (pc.Locked? || pc.DeleteChecked?) && ProvidersKnown(z, task.leg)
    requires RealEnds(z.g, before)
    requires InSection(z, task, before, pc, SpotOf(v), coop) && (coop ==> Cooperative(c))
    ensures Carries(z, task, before, v, DeleteStep(z, task, pc, v, c), coop, d)
  {
    RemovingNothing(z.g, before.to, task.ref);
    hide DraftOf, Legs.RealTips, Tip;
    var act := DeleteStep(z, task, pc, v, c);
    d := if !act.pc.Done? || (act.write.None? && task.ref in before.to) then Idle else Removed(task.ref);
  }

  /** A call the events and the reconcile make: no force, no restore. */
  predicate Routine(task: Task) {
    task.DeleteTask? || (task.MirrorTask? && !task.meta.force)
  }

  /** One step of a routine call that holds its lock, whatever its git answers short of
      leaving an ancestry question open: the call goes on, or returns having done one deed. */
  lemma SectionStep(z: Setting, t: Thread, before: Ends, v: Sight, mine: seq<Write>, c: Choice, coop: bool)
    returns (d: Deed)
    requires Routine(t.task) && HoldsLock(t.pc) && ProvidersKnown(z, t.task.leg) && RealEnds(z.g, before)
    requires ValidSight(z, v)
    requires PlaceOK(z, t.task, v.cache, t.pc, mine) && Ready(t, v.cache) && Honest(z, t, v, c)
    requires InSection(z, t.task, before, t.pc, SpotOf(v), coop) && (coop ==> Cooperative(c))
    requires t.task.MirrorTask? ==> c.unanswered.ancestry == {}
    ensures Carries(z, t.task, before, v, StepOf(z, t, v, c), coop, d)
  {
    hide FetchStep, ResolveStep, PlanStep, PushStep, ReportStep, DeleteStep, RealEnds, Carries, Lists, Cooperative;
    hide Told, Settled;
    if t.task.DeleteTask? {
      d := DeleteSection(z, t.task, before, t.pc, v, c, coop);
    } else {
      match t.pc
      case Locked => d := FetchSection(z, t.task, v, c, coop);
      case Fetched => d := ResolveSection(z, t.task, before, v, c, coop);
      case Resolved(want) => d := PlanSection(z, t.task, before, want, v, c, coop);
      case Pushing(plan, outcomes) =>
        assert plan.specs[|outcomes|] in plan.specs;
        NamesAreFull(z.g, v.cache.value, plan.specs[|outcomes|].ref);
        d := PushSection(z, t.task, before, plan, outcomes, v, c, coop);
      case Pushed(plan, outcomes) => d := ReportSection(z, t.task, before, plan, outcomes, v, c, coop);
    }
  }
}
