/** What each step of a call answers, read off what the call sees: which reason it records,
 * whether it fails, and what it goes on with.
 */
module Verdicts {
  import opened Answers
  import opened Config
  import opened Events
  import opened Failure
  import opened Git
  import opened Graph
  import opened Invariant
  import opened Loss
  import opened Plan
  import opened Porcelain
  import opened Protocol
  import opened Refs
  import opened Section

  predicate Fails(pc: PC, why: Reason) {
    pc.Done? && pc.err && pc.ev.result == ResultFail && pc.ev.reason == why
  }

  predicate Skips(pc: PC, why: Reason) {
    pc.Done? && !pc.err && pc.ev.result == ResultSkip && pc.ev.reason == why
  }

  predicate Succeeds(pc: PC, why: Reason) {
    pc.Done? && !pc.err && pc.ev.result == ResultOK && pc.ev.reason == why
  }

  // ---- a delete -----------------------------------------------------------------------------------

  /** A delete looks its ref up and passes over one that is gone; what it then removes is there
      or the delete fails. */
  predicate DeleteVerdict(t: Thread, v: Sight, c: Choice, pc: PC)
    requires t.task.DeleteTask?
  {
    var tip := Tip(v.to.refs, t.task.ref);
    match t.pc
    case Waiting => pc.Locked?
    case Locked =>
      if !c.works then Fails(pc, ReasonCheckRef)
      else if tip == NO_OBJECT then Skips(pc, ReasonAlreadyAbsent)
      else pc == DeleteChecked(tip)
    case DeleteChecked(checked) =>
      if c.works && tip != NO_OBJECT then Succeeds(pc, ReasonNone) && pc.ev.deletedTip == checked
      else Fails(pc, ReasonDeleteRef)
    case _ => true
  }

  // ---- a restore ------------------------------------------------------------------------------------

  /** A restore gives up on a busy repo; it refuses a ref that is back at another tip, passes over
      one at the requested commit, and creates only what is missing. */
  predicate RestoreVerdict(t: Thread, v: Sight, c: Choice, pc: PC)
    requires t.task.RestoreTask?
  {
    var tip := Tip(v.to.refs, t.task.ref);
    match t.pc
    case Waiting => if v.busy then Fails(pc, ReasonRepoBusy) else pc.Locked?
    case Locked =>
      if !c.works then Fails(pc, ReasonCheckRef)
      else if tip == NO_OBJECT then pc.HoleSeen?
      else if tip == t.task.sha then Skips(pc, ReasonAlreadyUpToDate)
      else Fails(pc, ReasonRefExists)
    case HoleSeen =>
      var cached := v.cache.Some? && t.task.sha in v.cache.value.objs;
      if !c.works then Fails(pc, ReasonClone)
      else if cached || (c.clones && t.task.sha in v.from.objs) then pc.ObjectReady?
      else Fails(pc, ReasonObjectGone)
    case ObjectReady =>
      var accepted := tip == NO_OBJECT && c.policy.None? && LegalRef(t.task.ref);
      if c.works && (accepted || tip == t.task.sha) then Succeeds(pc, ReasonNone) && pc.ev.restoredTip == t.task.sha
      else Fails(pc, ReasonCreateRef)
    case _ => true
  }

  // ---- a mirror ---------------------------------------------------------------------------------------

  /** A ref of the cache this mirror is to push: the one its event names, or each that no override
      keeps from travelling this way. */
  predicate Wanted(z: Setting, task: Task, refs: RefMap, r: Ref)
    requires task.MirrorTask?
  {
    && r in refs && !r.Other?
    && if task.meta.ref.Some? then r == task.meta.ref.value
       else !KeptFrom(task.leg.repo, r.ShortName(), z.glob, task.leg.FromProvider(), task.leg.ToProvider())
  }

  /** What the guard is to send: refs the destination lacks, and those whose tip there was fetched
      once and is not known to be ahead. */
  predicate ToSend(z: Setting, want: seq<Ref>, v: Sight, un: Unanswered, sp: PushSpec)
    requires v.cache.Some?
  {
    && sp.ref in want && sp.ref in v.cache.value.refs
    && (if sp.ref !in v.to.refs then sp.lease == NO_OBJECT
        else
          && v.to.refs[sp.ref] != v.cache.value.refs[sp.ref] && sp.lease == v.to.refs[sp.ref]
          && sp.lease in v.cache.value.objs && sp.ref !in un.objects
          && (IsAncestor(z.g, v.cache.value.refs[sp.ref], sp.lease) ==> sp.ref in un.ancestry))
  }

  /** What it is to withhold: differing tips it never fetched, and those known to be ahead. */
  predicate ToHold(z: Setting, want: seq<Ref>, v: Sight, un: Unanswered, h: HeldRef)
    requires v.cache.Some?
  {
    && h.ref in want && h.ref in v.cache.value.refs && h.ref in v.to.refs
    && h.dest == v.to.refs[h.ref] != v.cache.value.refs[h.ref]
    && var fetched := h.dest in v.cache.value.objs && h.ref !in un.objects;
      match h.reason
      case HoldDestinationUnknown => !fetched
      case HoldDestinationAhead =>
        && fetched && h.ref !in un.ancestry
        && IsAncestor(z.g, v.cache.value.refs[h.ref], h.dest)
  }

  ghost predicate PlanVerdict(z: Setting, t: Thread, v: Sight, c: Choice, pc: PC)
    requires t.task.MirrorTask? && t.pc.Resolved? && v.cache.Some?
  {
    var meta, want := t.task.meta, t.pc.want;
    if !c.works then Fails(pc, ReasonPush) && pc.ev.held == []
    else if pc.Pushing? then
      && pc.outcomes == [] && pc.plan.specs != [] && pc.plan.unanswered == c.unanswered
      && (meta.force ==>
            && (forall sp :: sp in pc.plan.specs <==>
                  sp.ref in want && sp.ref in v.cache.value.refs && sp.lease == meta.forceLease)
            && pc.plan.held == [])
      && (!meta.force ==>
            && (forall sp :: sp in pc.plan.specs <==> ToSend(z, want, v, c.unanswered, sp))
            && (forall h :: h in pc.plan.held <==> ToHold(z, want, v, c.unanswered, h)))
    else
      && pc.Done? && Skips(pc, if pc.ev.held != [] then ReasonDestinationAhead else ReasonAlreadyUpToDate)
      && (meta.force ==> pc.ev.held == [] && forall r :: r in want ==> r !in v.cache.value.refs)
      && (!meta.force ==>
            && (forall sp :: !ToSend(z, want, v, c.unanswered, sp))
            && (forall h :: h in pc.ev.held <==> ToHold(z, want, v, c.unanswered, h)))
  }

  /** The label of a success: nothing overwritten, or some overwrite that lost commits or could
      not be judged, or only overwrites that lost nothing. */
  predicate Label(forced: seq<ForcedRef>, why: Reason) {
    if forced == [] then why == ReasonNone
    else if exists f :: f in forced && !f.preserved && (f.lostTotal > 0 || f.elsewhere == 0)
    then why == ReasonForcedUpdate
    else why == ReasonRewritten
  }

  lemma LabelExactly(forced: seq<ForcedRef>)
    ensures Label(forced, ForcedReason(forced))
  {
  }

  /** In the middle of a push: it breaks, or the next outcome joins the others. */
  predicate PushVerdict(plan: PushPlan, outcomes: seq<RefOutcome>, breaks: bool, pc: PC) {
    if breaks then Fails(pc, ReasonPush) && pc.ev.held == plan.held
    else pc == if |outcomes| < |plan.specs| then Pushing(plan, outcomes) else Pushed(plan, outcomes)
  }

  /** At its end: a success when something moved, else why nothing did; what the plan withheld is
      on the record either way. */
  predicate ReportVerdict(plan: PushPlan, outcomes: seq<RefOutcome>, pc: PC) {
    && pc.Done? && pc.ev.held == plan.held
    && (if exists o :: o in outcomes && o.Moved() then Succeeds(pc, pc.ev.reason) && Label(pc.ev.forced, pc.ev.reason)
        else if exists o :: o in outcomes && o.Rejected() then Skips(pc, ReasonLeaseRejected)
        else Skips(pc, ReasonAlreadyUpToDate))
  }

  ghost predicate MirrorVerdict(z: Setting, t: Thread, v: Sight, c: Choice, pc: PC)
    requires t.task.MirrorTask? && MirrorReady(t.pc, v.cache)
  {
    var leg, meta := t.task.leg, t.task.meta;
    && (pc.Done? && !t.pc.Resolved? && !t.pc.Pushing? && !t.pc.Pushed? && !t.pc.Done? ==> pc.ev.held == [])
    && match t.pc
    case Waiting =>
      if meta.ref.Some? && KeptFrom(leg.repo, meta.ref.value.ShortName(), z.glob, leg.FromProvider(), leg.ToProvider())
      then Skips(pc, ReasonRefOverride) else pc.Locked?
    case Locked => if (v.cache.Some? && c.works) || c.clones then pc.Fetched? else Fails(pc, ReasonClone)
    case Fetched =>
      if !c.works then Fails(pc, ReasonPush)
      else if forall r :: !Wanted(z, t.task, v.cache.value.refs, r) then Skips(pc, ReasonNoRefsToPush)
      else pc.Resolved? && forall r :: r in pc.want <==> Wanted(z, t.task, v.cache.value.refs, r)
    case Resolved(_) => PlanVerdict(z, t, v, c, pc)
    case Pushing(plan, outcomes) => PushVerdict(plan, WithNext(z, t, v, c), PushBreaks(z, t, v, c), pc)
    case Pushed(plan, outcomes) => ReportVerdict(plan, outcomes, pc)
    case _ => true
  }

  // ---- the steps answer so --------------------------------------------------------------------------------

  /** Under its lock, a call of an entry one of whose providers nobody configured fails for that. */
  lemma UnknownProviderFails(z: Setting, t: Thread, v: Sight, c: Choice)
    requires t.pc.Locked? && Ready(t, v.cache)
    requires t.task.leg.repo.source !in z.cfg.providers || t.task.leg.repo.target !in z.cfg.providers
    ensures Fails(StepOf(z, t, v, c).pc, ReasonProvider)
  {
    hide DraftOf, Fetch, Clone, Collect;
  }

  lemma DeleteAnswers(z: Setting, t: Thread, v: Sight, c: Choice)
    requires t.task.DeleteTask? && ProvidersKnown(z, t.task.leg) && ValidStore(z.g, v.to)
    ensures DeleteVerdict(t, v, c, StepOf(z, t, v, c).pc)
  {
    TipIsPresence(z.g, v.to, t.task.ref);
    DraftIsClean(t.task);
    hide DraftOf, ValidStore;
  }

  lemma DraftIsClean(task: Task)
    ensures DraftOf(task).reason == ReasonNone && DraftOf(task).result == ResultOK
  {
  }

  lemma RestoreAnswers(z: Setting, t: Thread, v: Sight, c: Choice)
    requires t.task.RestoreTask? && ProvidersKnown(z, t.task.leg) && t.task.sha != NO_OBJECT
    ensures RestoreVerdict(t, v, c, StepOf(z, t, v, c).pc)
  {
    hide DraftOf;
  }

  lemma CoveredIsWanted(z: Setting, task: Task, refs: RefMap, r: Ref)
    requires task.MirrorTask?
    ensures Wanted(z, task, refs, r) <==> r in refs && Covered(z, task.leg, task.meta.ref, r)
  {
    BlocksExactly(task.leg, r.ShortName(), z.glob);
    hide KeptFrom;
  }

  lemma ResolveAnswers(z: Setting, t: Thread, v: Sight, c: Choice)
    requires t.task.MirrorTask? && t.pc.Fetched? && v.cache.Some? && Lists(c.listing, v.cache.value.refs)
    ensures MirrorVerdict(z, t, v, c, ResolveStep(z, DraftOf(t.task), t.task.leg, t.task.meta, v, c).pc)
  {
    DraftIsBlank(t.task);
    hide DraftOf, ResolveRefs, Covered, Wanted;
    WantedExactly(z, t.task.leg, t.task.meta.ref, v.cache.value, c.listing);
    forall r { CoveredIsWanted(z, t.task, v.cache.value.refs, r); }
    SomeMember(ResolveRefs(c.listing, t.task.leg, z.glob, t.task.meta.ref));
    hide Distinct;
  }

  lemma PlanAnswers(z: Setting, t: Thread, v: Sight, c: Choice)
    requires t.task.MirrorTask? && t.pc.Resolved? && v.cache.Some?
    ensures PlanVerdict(z, t, v, c, PlanStep(z, DraftOf(t.task), t.task.meta, t.pc.want, v, c).pc)
  {
    var meta, want := t.task.meta, t.pc.want;
    var plan := PlanFor(z.g, v.cache.value, v.to.refs, want, meta.force, meta.forceLease, c.unanswered);
    PlanMeaning(z.g, v.cache.value, v.to.refs, want, meta.force, meta.forceLease, c.unanswered);
    SomeMember(plan.specs);
    DraftIsBlank(t.task);
    hide DraftOf, PlanFor, Judge, ToSend, ToHold;
    if meta.force {
      ForceTells(z.g, v.cache.value, v.to.refs, want, meta.forceLease, c.unanswered);
      if plan.specs == [] { NothingForced(want, v.cache.value, plan, meta.forceLease); }
    } else {
      forall sp ensures sp in plan.specs <==> ToSend(z, want, v, c.unanswered, sp) {
        SentIsToSend(z, want, v, c, meta.forceLease, sp);
      }
      forall h ensures h in plan.held <==> ToHold(z, want, v, c.unanswered, h) {
        HeldIsToHold(z, want, v, c, meta.forceLease, h);
      }
    }
  }

  lemma NothingForced(want: seq<Ref>, cache: Store, plan: PushPlan, lease: Oid)
    requires forall sp :: sp in plan.specs <==> sp.ref in want && sp.ref in cache.refs && sp.lease == lease
    ensures plan.specs == [] ==> forall r :: r in want ==> r !in cache.refs
  {
    forall r | r in want && r in cache.refs ensures plan.specs != [] {
      assert PushSpec(r, lease).ref == r;
      assert PushSpec(r, lease) in plan.specs;
    }
  }

  lemma SentIsToSend(z: Setting, want: seq<Ref>, v: Sight, c: Choice, lease: Oid, sp: PushSpec)
    requires v.cache.Some?
    ensures sp in PlanFor(z.g, v.cache.value, v.to.refs, want, false, lease, c.unanswered).specs <==>
      ToSend(z, want, v, c.unanswered, sp)
  {
    GuardTells(z.g, v.cache.value, v.to.refs, want, lease, c.unanswered, sp.ref);
    assert sp == PushSpec(sp.ref, sp.lease);
    hide PlanFor, IsAncestor;
  }

  lemma HeldIsToHold(z: Setting, want: seq<Ref>, v: Sight, c: Choice, lease: Oid, h: HeldRef)
    requires v.cache.Some?
    ensures h in PlanFor(z.g, v.cache.value, v.to.refs, want, false, lease, c.unanswered).held <==>
      ToHold(z, want, v, c.unanswered, h)
  {
    GuardTells(z.g, v.cache.value, v.to.refs, want, lease, c.unanswered, h.ref);
    assert h == HeldRef(h.ref, h.reason, h.dest);
    hide PlanFor, IsAncestor;
  }

  lemma StartAnswers(z: Setting, t: Thread, v: Sight, c: Choice)
    requires t.task.MirrorTask? && (t.pc.Waiting? || t.pc.Locked?) && ProvidersKnown(z, t.task.leg)
    ensures MirrorVerdict(z, t, v, c, StepOf(z, t, v, c).pc)
  {
    if t.task.meta.ref.Some? { BlocksExactly(t.task.leg, t.task.meta.ref.value.ShortName(), z.glob); }
    DraftIsBlank(t.task);
    hide DraftOf, KeptFrom, Fetch, Clone, Collect;
  }

  lemma PushShape(z: Setting, task: Task, plan: PushPlan, outcomes: seq<RefOutcome>, v: Sight, c: Choice)
    requires v.cache.Some? && |outcomes| < |plan.specs| && plan.specs[|outcomes|].ref in v.cache.value.refs
    ensures var pc := PushStep(z, DraftOf(task), plan, outcomes, v, c).pc;
      PushVerdict(plan, outcomes + [NextOutcome(z, plan, outcomes, v, c)], pc.Done?, pc)
  {
    hide DraftOf, NextOutcome, LetThrough, CurrentBatch;
  }

  lemma PushAnswers(z: Setting, t: Thread, v: Sight, mine: seq<Write>, c: Choice)
    requires t.task.MirrorTask? && t.pc.Pushing? && MirrorReady(t.pc, v.cache) && ValidSight(z, v)
    requires MirrorOK(z, t.task, v.cache, t.pc, mine) && (c.policy.Some? ==> OneLine(c.policy.value))
    ensures PushVerdict(t.pc.plan, WithNext(z, t, v, c), PushBreaks(z, t, v, c), StepOf(z, t, v, c).pc)
  {
    PushPCExactly(z, t, v, mine, c);
    PushShape(z, t.task, t.pc.plan, t.pc.outcomes, v, c);
    hide MirrorOK, ValidSight, NextOutcome, PushStep, PushBreaks, PushVerdict;
  }

  lemma ReportShape(z: Setting, task: Task, plan: PushPlan, outcomes: seq<RefOutcome>, v: Sight, c: Choice)
    requires ReadAll(z, outcomes).changed <==> exists o :: o in outcomes && o.Moved()
    requires ReadAll(z, outcomes).rejected == [] <==> forall o :: o in outcomes ==> !o.Rejected()
    ensures ReportVerdict(plan, outcomes, ReportStep(z, DraftOf(task), plan, outcomes, v, c).pc)
  {
    LabelExactly(ClassifyAll(ReadAll(z, outcomes).forced, c.check));
    hide ClassifyAll, DraftOf, Label, ForcedReason, ReadAll, Interrupts;
  }

  lemma ReportAnswers(z: Setting, t: Thread, v: Sight, mine: seq<Write>, c: Choice)
    requires t.task.MirrorTask? && t.pc.Pushed? && Sane(z) && v.cache.Some?
    requires Told(z, v.cache.value, t.pc.plan, t.pc.outcomes, mine)
    ensures ReportVerdict(t.pc.plan, t.pc.outcomes, ReportStep(z, DraftOf(t.task), t.pc.plan, t.pc.outcomes, v, c).pc)
  {
    var outcomes := t.pc.outcomes;
    ToldIsLegal(z, v.cache.value, t.pc.plan, outcomes, mine);
    hide Told, AllLegal, Summary, ReadAll, ReportStep, ReportVerdict, DraftOf;
    ReadAllIsSummary(z, outcomes);
    SummaryMeaning(outcomes);
    ReportShape(z, t.task, t.pc.plan, outcomes, v, c);
  }

  /** Every step of a mirror answers so. */
  lemma MirrorAnswers(z: Setting, t: Thread, v: Sight, mine: seq<Write>, c: Choice)
    requires t.task.MirrorTask? && ProvidersKnown(z, t.task.leg) && ValidSight(z, v) && Honest(z, t, v, c)
    requires MirrorReady(t.pc, v.cache) && (HoldsLock(t.pc) ==> MirrorOK(z, t.task, v.cache, t.pc, mine))
    ensures MirrorVerdict(z, t, v, c, StepOf(z, t, v, c).pc)
  {
    hide DraftOf, PlanVerdict, PushVerdict, ReportVerdict, PushBreaks, WithNext, FetchStep, PlanStep, PushStep;
    hide ReportStep, Lists, Told, Settled, Planned, ValidStore, KeptFrom, Overridden;
    match t.pc
    case Fetched => ResolveAnswers(z, t, v, c);
    case Resolved(_) => PlanAnswers(z, t, v, c);
    case Pushing(_, _) => PushAnswers(z, t, v, mine, c);
    case Pushed(_, _) => ReportAnswers(z, t, v, mine, c);
    case _ => if t.pc.Waiting? || t.pc.Locked? { StartAnswers(z, t, v, c); }
  }
}
