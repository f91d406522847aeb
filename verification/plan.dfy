/** Deciding, per ref, whether a push moves the destination forward or winds it back. */
module Plan {
  import opened Config
  import opened Events
  import opened Git
  import opened Graph
  import opened Refs
  import opened Routing

  /** One ref to push, with the destination tip it was checked against; an empty lease
      means the ref must not exist. */
  datatype PushSpec = PushSpec(ref: Ref, lease: Oid)

  /** The refs for which git failed to answer one of the guard's two local questions: is the
      object here, and is it an ancestor. The code reads both failures as a no. */
  datatype Unanswered = Unanswered(objects: set<Ref>, ancestry: set<Ref>)

  const ALL_ANSWERED := Unanswered({}, {})

  /** `unanswered` is remembered for the proofs only; the program keeps specs and held. */
  datatype PushPlan = PushPlan(specs: seq<PushSpec>, held: seq<HeldRef>, unanswered: Unanswered)

  // ---- which refs ------------------------------------------------------------------

  /** `for-each-ref refs/heads/ refs/tags/` of a cache, in whatever order it prints. */
  ghost predicate Lists(listing: seq<Ref>, refs: RefMap) {
    Distinct(listing) && forall r :: r in listing <==> r in refs && !r.Other?
  }

  function Unblocked(listing: seq<Ref>, leg: Leg, glob: Glob): seq<Ref> {
    if listing == [] then []
    else
      var n := |listing| - 1;
      Unblocked(listing[..n], leg, glob) + (if leg.Blocks(listing[n].ShortName(), glob) then [] else [listing[n]])
  }

  method BuildFullRefspecs(listing: seq<Ref>, leg: Leg, glob: Glob) returns (specs: seq<Ref>)
    ensures specs == Unblocked(listing, leg, glob)
  {
    specs := [];
    for i := 0 to |listing|
      invariant specs == Unblocked(listing[..i], leg, glob)
    {
      assert listing[..i + 1][..i] == listing[..i];
      if leg.Blocks(listing[i].ShortName(), glob) { continue; }
      specs := specs + [listing[i]];
    }
    assert listing[..|listing|] == listing;
  }

  /** The refs a sync may push: the one its event names, or every ref no override sends
      the other way. */
  function ResolveRefs(listing: seq<Ref>, leg: Leg, glob: Glob, ref: Option<Ref>): seq<Ref> {
    match ref
    case Some(r) => if r in listing then [r] else []
    case None => Unblocked(listing, leg, glob)
  }

  lemma {:induction false} UnblockedMeaning(listing: seq<Ref>, leg: Leg, glob: Glob)
    requires Distinct(listing)
    ensures forall r :: r in Unblocked(listing, leg, glob) <==> r in listing && !leg.Blocks(r.ShortName(), glob)
    ensures Distinct(Unblocked(listing, leg, glob))
  {
    if listing != [] {
      var n := |listing| - 1;
      UnblockedMeaning(listing[..n], leg, glob);
      assert listing == listing[..n] + [listing[n]];
      DistinctSnoc(listing[..n], listing[n]);
      DistinctSnoc(Unblocked(listing[..n], leg, glob), listing[n]);
      hide Distinct;
    }
  }

  lemma ResolvedRefs(listing: seq<Ref>, leg: Leg, glob: Glob, ref: Option<Ref>)
    requires Distinct(listing)
    ensures var want := ResolveRefs(listing, leg, glob, ref);
      && Distinct(want)
      && (forall r :: r in want ==> r in listing)
      && (ref.Some? ==> forall r :: r in want ==> r == ref.value)
      && (ref.None? ==> forall r :: r in want <==> r in listing && !leg.Blocks(r.ShortName(), glob))
  {
    if ref.None? { UnblockedMeaning(listing, leg, glob); }
  }

  // ---- the guard -------------------------------------------------------------------

  datatype Verdict = Send(lease: Oid) | Hold(reason: HoldReason, dest: Oid) | Drop

  /** The guard's judgement of one ref: `cache` is the pushing side's mirror, `dest` the
      destination's refs as just read. */
  function Judge(g: ObjectGraph, cache: Store, dest: RefMap, ref: Ref, force: bool, forceLease: Oid,
                 un: Unanswered): Verdict {
    if ref !in cache.refs then Drop
    else if force then Send(forceLease)
    else if ref !in dest then Send(NO_OBJECT)
    else if dest[ref] == cache.refs[ref] then Drop
    else if ref in un.objects || !HasObject(cache, dest[ref]) then Hold(HoldDestinationUnknown, dest[ref])
    else if ref !in un.ancestry && IsAncestor(g, cache.refs[ref], dest[ref]) then Hold(HoldDestinationAhead, dest[ref])
    else Send(dest[ref])
  }

  function AddVerdict(plan: PushPlan, ref: Ref, v: Verdict): PushPlan {
    match v
    case Send(lease) => plan.(specs := plan.specs + [PushSpec(ref, lease)])
    case Hold(reason, dest) => plan.(held := plan.held + [HeldRef(ref, reason, dest)])
    case Drop => plan
  }

  function PlanFor(g: ObjectGraph, cache: Store, dest: RefMap, want: seq<Ref>, force: bool, forceLease: Oid,
                   un: Unanswered): PushPlan {
    if want == [] then PushPlan([], [], un)
    else
      var n := |want| - 1;
      AddVerdict(PlanFor(g, cache, dest, want[..n], force, forceLease, un), want[n],
                 Judge(g, cache, dest, want[n], force, forceLease, un))
  }

  /** The destination holds another tip of the ref than the cache. */
  predicate Differs(cache: Store, dest: RefMap, ref: Ref) {
    ref in cache.refs && ref in dest && dest[ref] != cache.refs[ref]
  }

  /** The guard as the design tells it: a new ref goes out under an empty lease, an equal one
      not at all; a differing one is withheld when its tip was never fetched or is ahead, and
      goes out under that tip otherwise. */
  lemma GuardTells(g: ObjectGraph, cache: Store, dest: RefMap, want: seq<Ref>, forceLease: Oid, un: Unanswered,
                   ref: Ref)
    ensures var plan := PlanFor(g, cache, dest, want, false, forceLease, un);
      && (forall lease :: PushSpec(ref, lease) in plan.specs <==>
            && ref in want && ref in cache.refs
            && (if ref !in dest then lease == NO_OBJECT
                else
                  && Differs(cache, dest, ref) && lease == dest[ref] && lease in cache.objs && ref !in un.objects
                  && (IsAncestor(g, cache.refs[ref], lease) ==> ref in un.ancestry)))
      && (forall tip :: HeldRef(ref, HoldDestinationUnknown, tip) in plan.held <==>
            ref in want && Differs(cache, dest, ref) && tip == dest[ref] && (tip !in cache.objs || ref in un.objects))
      && (forall tip :: HeldRef(ref, HoldDestinationAhead, tip) in plan.held <==>
            && ref in want && Differs(cache, dest, ref) && tip == dest[ref] && tip in cache.objs && ref !in un.objects
            && IsAncestor(g, cache.refs[ref], tip) && ref !in un.ancestry)
  {
    PlanMeaning(g, cache, dest, want, false, forceLease, un);
    hide PlanFor, IsAncestor;
  }

  /** Past the guard everything wanted goes out under the caller's lease, and nothing is withheld. */
  lemma ForceTells(g: ObjectGraph, cache: Store, dest: RefMap, want: seq<Ref>, forceLease: Oid, un: Unanswered)
    ensures var plan := PlanFor(g, cache, dest, want, true, forceLease, un);
      && (forall sp :: sp in plan.specs <==> sp.ref in want && sp.ref in cache.refs && sp.lease == forceLease)
      && plan.held == []
  {
    PlanMeaning(g, cache, dest, want, true, forceLease, un);
    hide PlanFor;
    SomeMember(PlanFor(g, cache, dest, want, true, forceLease, un).held);
  }

  lemma SomeMember<T>(s: seq<T>)
    ensures s != [] ==> exists x :: x in s
  {
    if s != [] { assert s[0] in s; }
  }

  method PlanPush(g: ObjectGraph, cache: Store, dest: RefMap, want: seq<Ref>, force: bool, forceLease: Oid,
                  un: Unanswered)
    returns (plan: PushPlan)
    ensures plan == PlanFor(g, cache, dest, want, force, forceLease, un)
  {
    plan := PushPlan([], [], un);
    if want == [] { return; }
    for i := 0 to |want|
      invariant plan == PlanFor(g, cache, dest, want[..i], force, forceLease, un)
    {
      assert want[..i + 1][..i] == want[..i];
      var ref := want[i];
      if ref !in cache.refs { continue; }
      var src := cache.refs[ref];
      if force {
        plan := plan.(specs := plan.specs + [PushSpec(ref, forceLease)]);
        continue;
      }
      if ref !in dest {
        plan := plan.(specs := plan.specs + [PushSpec(ref, NO_OBJECT)]);
      } else if dest[ref] == src {
      } else if ref in un.objects || !HasObject(cache, dest[ref]) {
        plan := plan.(held := plan.held + [HeldRef(ref, HoldDestinationUnknown, dest[ref])]);
      } else if ref !in un.ancestry && IsAncestor(g, src, dest[ref]) {
        plan := plan.(held := plan.held + [HeldRef(ref, HoldDestinationAhead, dest[ref])]);
      } else {
        plan := plan.(specs := plan.specs + [PushSpec(ref, dest[ref])]);
      }
    }
    assert want[..|want|] == want;
  }

  // ---- what a plan means --------------------------------------------------------------

  /** A guarded push may replace `lease` by `newTip` only if the pushing side holds the
      replaced tip and, as far as the ancestry question was answered, the destination is
      not already ahead. */
  predicate Guarded(g: ObjectGraph, cacheObjs: set<Oid>, newTip: Oid, lease: Oid, answered: bool) {
    lease == NO_OBJECT || (lease in cacheObjs && (answered ==> !IsAncestor(g, newTip, lease)))
  }

  /** Every wanted ref ends up sent, held or dropped exactly as the guard judges it. */
  lemma {:induction false} PlanMeaning(g: ObjectGraph, cache: Store, dest: RefMap, want: seq<Ref>, force: bool,
                                       forceLease: Oid, un: Unanswered)
    ensures var plan := PlanFor(g, cache, dest, want, force, forceLease, un);
      && plan.unanswered == un
      && (forall s :: s in plan.specs <==>
          s.ref in want && Judge(g, cache, dest, s.ref, force, forceLease, un) == Send(s.lease))
      && (forall h :: h in plan.held <==>
          h.ref in want && Judge(g, cache, dest, h.ref, force, forceLease, un) == Hold(h.reason, h.dest))
  {
    if want != [] {
      var n := |want| - 1;
      PlanMeaning(g, cache, dest, want[..n], force, forceLease, un);
      assert want == want[..n] + [want[n]];
      hide Judge;
    }
  }

  function SpecRefs(specs: seq<PushSpec>): (r: seq<Ref>)
    ensures |r| == |specs|
  {
    seq(|specs|, i requires 0 <= i < |specs| => specs[i].ref)
  }

  /** One spec per ref: a plan for distinct refs never pushes a ref twice. */
  lemma {:induction false} PlanIsDistinct(g: ObjectGraph, cache: Store, dest: RefMap, want: seq<Ref>, force: bool,
                                          forceLease: Oid, un: Unanswered)
    requires Distinct(want)
    ensures Distinct(SpecRefs(PlanFor(g, cache, dest, want, force, forceLease, un).specs))
    ensures forall r :: r in SpecRefs(PlanFor(g, cache, dest, want, force, forceLease, un).specs) ==> r in want
  {
    if want != [] {
      var n := |want| - 1;
      PlanIsDistinct(g, cache, dest, want[..n], force, forceLease, un);
      var before := PlanFor(g, cache, dest, want[..n], force, forceLease, un).specs;
      var v := Judge(g, cache, dest, want[n], force, forceLease, un);
      assert want == want[..n] + [want[n]];
      DistinctSnoc(want[..n], want[n]);
      DistinctSnoc(SpecRefs(before), want[n]);
      hide Judge, Distinct;
      if v.Send? {
        assert SpecRefs(before + [PushSpec(want[n], v.lease)]) == SpecRefs(before) + [want[n]];
      }
    }
  }

  /** What the guard guarantees of a planned write, before anything is written. */
  lemma PlannedWritesAreGuarded(g: ObjectGraph, cache: Store, dest: RefMap, want: seq<Ref>, force: bool,
                                forceLease: Oid, un: Unanswered)
    ensures var plan := PlanFor(g, cache, dest, want, force, forceLease, un);
      plan.unanswered == un &&
      forall s :: s in plan.specs ==>
        && s.ref in want && s.ref in cache.refs
        && (force ==> s.lease == forceLease)
        && (!force ==> Guarded(g, cache.objs, cache.refs[s.ref], s.lease, s.ref !in un.ancestry))
  {
    PlanMeaning(g, cache, dest, want, force, forceLease, un);
  }
}
