/** What every call keeps true of itself, step by step, whatever the others do. */
module Invariant {
  import opened Batch
  import opened Config
  import opened Events
  import opened Gates
  import opened Git
  import opened Graph
  import opened Loss
  import opened Plan
  import opened Porcelain
  import opened Protocol
  import opened Refs
  import opened Routing

  /** A call on its own: where it stands, the cache its lock protects, the changes it made
      and the events it recorded. */
  datatype View = View(t: Thread, cache: Option<Store>, mine: seq<Write>, recorded: seq<Event>)

  // ---- changes, as made and as reported ------------------------------------------------

  datatype Change = Change(ref: Ref, oldTip: Oid, newTip: Oid)

  function ChangesOf(ws: seq<Write>): (r: seq<Change>)
    ensures |r| == |ws|
  {
    seq(|ws|, i requires 0 <= i < |ws| => Change(ws[i].ref, ws[i].oldTip, ws[i].newTip))
  }

  function ReportedChange(o: RefOutcome): seq<Change> {
    match o.status
    case Created(n) => [Change(o.ref, NO_OBJECT, n)]
    case FastForward(p, n) => [Change(o.ref, p, n)]
    case Forced(p, n) => [Change(o.ref, p, n)]
    case _ => []
  }

  function Moves(os: seq<RefOutcome>): seq<Change> {
    if os == [] then [] else Moves(os[..|os| - 1]) + ReportedChange(os[|os| - 1])
  }

  lemma {:induction false} MovesMeaning(os: seq<RefOutcome>)
    ensures forall m :: m in Moves(os) <==> exists o :: o in os && ReportedChange(o) == [m]
  {
    if os != [] {
      var n := |os| - 1;
      MovesMeaning(os[..n]);
      assert os == os[..n] + [os[n]];
      assert forall m :: m in ReportedChange(os[n]) <==> ReportedChange(os[n]) == [m];
      hide ReportedChange;
    }
  }

  lemma {:induction false} MovesCount(os: seq<RefOutcome>)
    ensures |Moves(os)| <= |os|
    ensures Moves(os) != [] <==> Summary(os).changed
  {
    if os != [] {
      MovesCount(os[..|os| - 1]);
      assert os[|os| - 1].Moved() <==> ReportedChange(os[|os| - 1]) != [];
    }
  }

  // ---- reports, as printed and as read ----------------------------------------------------

  predicate AllLegal(os: seq<RefOutcome>) { forall o :: o in os ==> Legal(o) }

  /** Reading a call's printed report gives what it did, and the program's verdict on the call
      is whether every rejection is, or quotes, a failed lease. */
  lemma ReadBatchIsSummary(z: Setting, batch: seq<RefOutcome>)
    requires Sane(z) && AllLegal(batch)
    ensures ReadBatch(z, batch) == Summary(batch)
    ensures LetThrough(z, batch) <==> Benign(batch)
  {
    ReportRoundTrip(z.url, batch);
    SummaryMeaning(batch);
    hide Summary, Parsed, PrintReport, Legal;
  }

  /** And so for all calls of a push together. */
  lemma {:induction false} ReadAllIsSummary(z: Setting, outcomes: seq<RefOutcome>)
    requires Sane(z) && AllLegal(outcomes)
    ensures ReadAll(z, outcomes) == Summary(outcomes)
  {
    if outcomes != [] {
      var before, last := outcomes[..BatchStart(|outcomes|)], CurrentBatch(outcomes);
      assert before + last == outcomes;
      assert AllLegal(before) && AllLegal(last);
      hide Legal, BatchStart, ReadBatch;
      ReadAllIsSummary(z, before);
      ReadBatchIsSummary(z, last);
      SummaryOfConcat(before, last);
      hide Summary;
    }
  }

  // ---- one call ---------------------------------------------------------------------------

  /** What routing and the gates establish about a call before it starts. */
  predicate Shaped(z: Setting, task: Task) {
    && Authorised(z.cfg.repos, task.leg)
    && match task
       case MirrorTask(_, meta) =>
         GatedMeta(meta) && (meta.force ==> meta.source == SourceRetryAPI || meta.source == SourceConsole)
       case DeleteTask(leg, ref, source) => !leg.Blocks(ref.ShortName(), z.glob) && TriggersDelete(source)
       case RestoreTask(leg, ref, sha, _) => !leg.Blocks(ref.ShortName(), z.glob) && sha != NO_OBJECT
  }

  predicate Wants(z: Setting, leg: Leg, meta: EventMeta, cache: Store, ref: Ref) {
    && ref in cache.refs && !leg.Blocks(ref.ShortName(), z.glob)
    && (meta.ref.Some? ==> ref == meta.ref.value)
  }

  /** A planned write is of a ref the call may push, and leased the way its kind demands. */
  predicate Sendable(z: Setting, leg: Leg, meta: EventMeta, cache: Store, un: Unanswered, sp: PushSpec) {
    && Wants(z, leg, meta, cache, sp.ref)
    && (meta.force ==> sp.lease == meta.forceLease)
    && (!meta.force ==> Guarded(z.g, cache.objs, cache.refs[sp.ref], sp.lease, sp.ref !in un.ancestry))
  }

  predicate Planned(z: Setting, leg: Leg, meta: EventMeta, cache: Store, plan: PushPlan) {
    && Distinct(SpecRefs(plan.specs))
    && forall sp :: sp in plan.specs ==> Sendable(z, leg, meta, cache, plan.unanswered, sp)
  }

  /** An update is labelled a fast-forward exactly when the cache shows it to be one. */
  predicate Labelled(g: ObjectGraph, cache: Store, o: RefOutcome) {
    && (o.status.FastForward? ==> Forward(g, cache.objs, o.ref, o.status.oldTip, o.status.newTip))
    && (o.status.Forced? ==>
          && o.status.oldTip != NO_OBJECT
          && !Forward(g, cache.objs, o.ref, o.status.oldTip, o.status.newTip))
  }

  predicate Forward(g: ObjectGraph, known: set<Oid>, ref: Ref, oldTip: Oid, newTip: Oid) {
    !ref.Tag? && oldTip in known && IsAncestor(g, oldTip, newTip)
  }

  /** Every batch these outcomes fill was let through. */
  predicate Settled(outcomes: seq<RefOutcome>) {
    outcomes != [] ==> Benign(CurrentBatch(outcomes)) && Settled(outcomes[..BatchStart(|outcomes|)])
  }

  /** The outcomes whose batch has had its verdict. */
  function Finished(outcomes: seq<RefOutcome>): seq<RefOutcome> {
    outcomes[..|outcomes| - |outcomes| % PUSH_BATCH_SIZE]
  }

  /** The outcomes so far answer the specs in order, each once, are exactly the changes made,
      and can be printed. */
  predicate Told(z: Setting, cache: Store, plan: PushPlan, outcomes: seq<RefOutcome>, mine: seq<Write>) {
    && |outcomes| <= |plan.specs|
    && (forall k :: 0 <= k < |outcomes| ==> outcomes[k].ref == plan.specs[k].ref)
    && ChangesOf(mine) == Moves(outcomes)
    && (forall w :: w in mine ==> w.known == cache.objs)
    && (forall o :: o in outcomes ==> Labelled(z.g, cache, o) && Legal(o))
  }

  /** A change that replaced a tip by anything but a branch moving forward along history
      the cache held. */
  predicate Overwrites(g: ObjectGraph, w: Write) {
    w.oldTip != NO_OBJECT && !Forward(g, w.known, w.ref, w.oldTip, w.newTip)
  }

  predicate SameChange(f: ForcedRef, w: Write) {
    f.ref == w.ref && f.oldTip == w.oldTip && f.newTip == w.newTip
  }

  /** A successful mirror moved something, its event names exactly the overwrites and how
      bad they were, and someone is interrupted exactly when one of them lost something. */
  predicate MirrorTruth(z: Setting, ev: Event, alerted: bool, mine: seq<Write>) {
    && mine != []
    && ev.reason == ForcedReason(ev.forced) && (alerted <==> exists f :: f in ev.forced && Interrupts(f))
    && (forall f :: f in ev.forced ==> exists w :: w in mine && Overwrites(z.g, w) && SameChange(f, w))
    && (forall w :: w in mine && Overwrites(z.g, w) ==> exists f :: f in ev.forced && SameChange(f, w))
  }

  /** The event describes its call; an error is a failure; a skip changed nothing; and each
      kind of call fills in its own part. */
  predicate Truthful(task: Task, ev: Event, err: bool, mine: seq<Write>) {
    && ev == DraftOf(task).(held := ev.held, forced := ev.forced, deletedTip := ev.deletedTip,
                            restoredTip := ev.restoredTip, result := ev.result, reason := ev.reason)
    && (err <==> ev.result.ResultFail?)
    && (ev.result.ResultSkip? ==> mine == [])
    && (task.MirrorTask? || (ev.forced == [] && ev.held == []))
    && (task.DeleteTask? || ev.deletedTip == NO_OBJECT)
    && (ev.result.ResultOK? ==> ev.reason == ForcedReason(ev.forced))
  }

  predicate MirrorOK(z: Setting, task: Task, cache: Option<Store>, pc: PC, mine: seq<Write>)
    requires task.MirrorTask?
  {
    var leg, meta := task.leg, task.meta;
    && (HoldsLock(pc) ==> !Overridden(z, leg, meta.ref))
    && (meta.force ==> |mine| <= 1)
    && match pc
       case Waiting => mine == []
       case Locked => mine == []
       case Fetched => mine == [] && cache.Some?
       case Resolved(want) =>
         mine == [] && cache.Some? && Distinct(want) && forall r :: r in want ==> Wants(z, leg, meta, cache.value, r)
       case Pushing(plan, outcomes) =>
         && cache.Some? && Planned(z, leg, meta, cache.value, plan) && Told(z, cache.value, plan, outcomes, mine)
         && |outcomes| < |plan.specs| && Settled(Finished(outcomes))
       case Pushed(plan, outcomes) =>
         && cache.Some? && Planned(z, leg, meta, cache.value, plan) && Told(z, cache.value, plan, outcomes, mine)
         && |outcomes| == |plan.specs| && Settled(outcomes)
       case Done(ev, err, alerted) =>
         && Truthful(task, ev, err, mine)
         && (if ev.result.ResultOK? then MirrorTruth(z, ev, alerted, mine) else !alerted && ev.forced == [])
       case _ => false
  }

  predicate DeleteOK(task: Task, pc: PC, mine: seq<Write>)
    requires task.DeleteTask?
  {
    match pc
    case Waiting => mine == []
    case Locked => mine == []
    case DeleteChecked(tip) => mine == [] && tip != NO_OBJECT
    case Done(ev, err, alerted) =>
      && Truthful(task, ev, err, mine)
      && (ev.result.ResultOK? ==>
            |mine| == 1 && mine[0].ref == task.ref && mine[0].newTip == NO_OBJECT && mine[0].oldTip != NO_OBJECT)
    case _ => false
  }

  predicate RestoreOK(task: Task, cache: Option<Store>, pc: PC, mine: seq<Write>)
    requires task.RestoreTask?
  {
    match pc
    case Waiting => mine == []
    case Locked => mine == []
    case HoleSeen => mine == []
    case ObjectReady => mine == [] && cache.Some? && task.sha in cache.value.objs
    case Done(ev, err, _) =>
      && Truthful(task, ev, err, mine) && |mine| <= 1
      && (ev.result.ResultOK? ==> ev.restoredTip == task.sha)
    case _ => false
  }

  predicate PlaceOK(z: Setting, task: Task, cache: Option<Store>, pc: PC, mine: seq<Write>) {
    match task
    case MirrorTask(_, _) => MirrorOK(z, task, cache, pc, mine)
    case DeleteTask(_, _, _) => DeleteOK(task, pc, mine)
    case RestoreTask(_, _, _, _) => RestoreOK(task, cache, pc, mine)
  }

  /** A call records its one event when it returns, and nothing before. */
  predicate ViewOK(z: Setting, v: View) {
    && Shaped(z, v.t.task)
    && PlaceOK(z, v.t.task, v.cache, v.t.pc, v.mine)
    && v.recorded == (if v.t.pc.Done? then [v.t.pc.ev] else [])
  }

  // ---- one change -----------------------------------------------------------------------------

  /** Why a change was allowed, with what the writing call could know. */
  predicate WriteOK(z: Setting, w: Write) {
    && Shaped(z, w.task) && w.at == ToPlace(w.task.leg) && !w.task.leg.Blocks(w.ref.ShortName(), z.glob)
    && Closed(z.g, w.known)
    && match w.task
       case MirrorTask(_, meta) =>
         && w.newTip in w.known && w.newTip != w.oldTip
         && (meta.ref.Some? ==> w.ref == meta.ref.value)
         && (if meta.force then w.oldTip == meta.forceLease else Guarded(z.g, w.known, w.newTip, w.oldTip, w.answered))
       case DeleteTask(_, ref, _) => w.ref == ref && w.newTip == NO_OBJECT && w.oldTip != NO_OBJECT
       case RestoreTask(_, ref, sha, _) => w.ref == ref && w.oldTip == NO_OBJECT && w.newTip == sha
  }

  // ---- one step of one call ----------------------------------------------------------------------

  predicate ValidSight(z: Setting, v: Sight) {
    && Sane(z) && ValidStore(z.g, v.from) && ValidStore(z.g, v.to)
    && (v.cache.Some? ==> ValidStore(z.g, v.cache.value))
  }

  /** The cache a step leaves is a store, made only of what it was made of and what the
      pushing side holds now; and a push carries objects the cache holds. */
  predicate CleanAct(z: Setting, v: Sight, act: Act) {
    && (act.cache.Some? ==>
          && ValidStore(z.g, act.cache.value)
          && act.cache.value.objs <= v.from.objs + (if v.cache.Some? then v.cache.value.objs else {}))
    && (act.write.Some? && act.write.value.newTip != NO_OBJECT ==>
          v.cache.Some? && act.write.value.newTip in v.cache.value.objs && LegalRef(act.write.value.ref))
  }

  /** What a step of a call must guarantee. */
  predicate StepOK(z: Setting, tid: Tid, t: Thread, v: Sight, mine: seq<Write>, act: Act) {
    && CleanAct(z, v, act)
    && (!HoldsLock(t.pc) ==> act.cache == v.cache)
    && (!HoldsLock(t.pc) && HoldsLock(act.pc) ==> !v.busy)
    && PlaceOK(z, t.task, act.cache, act.pc, mine + WritesOf(tid, t.task, v, act))
    && forall w :: w in WritesOf(tid, t.task, v, act) ==> WriteOK(z, w)
  }

  /** Most steps change no ref. */
  lemma QuietStep(z: Setting, tid: Tid, t: Thread, v: Sight, mine: seq<Write>, act: Act)
    requires act.write.None? && CleanAct(z, v, act)
    requires HoldsLock(t.pc) || (act.cache == v.cache && (HoldsLock(act.pc) ==> !v.busy))
    requires PlaceOK(z, t.task, act.cache, act.pc, mine)
    ensures StepOK(z, tid, t, v, mine, act)
  {
    hide CleanAct, PlaceOK;
    assert mine + [] == mine;
  }

  /** A step that touches neither cache nor remote is clean. */
  lemma LookingIsClean(z: Setting, v: Sight, act: Act)
    requires ValidSight(z, v) && act.cache == v.cache && act.write.None?
    ensures CleanAct(z, v, act)
  {
    hide ValidStore;
  }

  lemma DraftIsBlank(task: Task)
    ensures DraftOf(task).held == [] && DraftOf(task).forced == []
    ensures DraftOf(task).deletedTip == NO_OBJECT && DraftOf(task).restoredTip == NO_OBJECT
    ensures task.DeleteTask? || task.RestoreTask? ==> DraftOf(task).ref == Some(task.ref)
  {
  }

  /** Returning before anything was written is always fine. */
  lemma EarlyReturn(z: Setting, task: Task, cache: Option<Store>, held: seq<HeldRef>, reason: Reason)
    requires task.MirrorTask? || held == []
    ensures PlaceOK(z, task, cache, Done(DraftOf(task).(held := held).With(ResultFail, reason), true, false), [])
    ensures PlaceOK(z, task, cache, Done(DraftOf(task).(held := held).With(ResultSkip, reason), false, false), [])
    ensures DraftOf(task).held == []
  {
    DraftIsBlank(task);
    hide DraftOf, MirrorTruth;
  }

  lemma FetchedCaches(z: Setting, v: Sight, keep: set<Oid>)
    requires ValidSight(z, v)
    ensures var cloned := Clone(z.g, v.from);
      && ValidStore(z.g, cloned) && cloned.objs <= v.from.objs
    ensures v.cache.Some? ==>
      var fetched := Collect(z.g, Fetch(z.g, v.cache.value, v.from), keep);
      && ValidStore(z.g, fetched) && fetched.objs <= v.from.objs + v.cache.value.objs
  {
    FetchIsValid(z.g, if v.cache.Some? then v.cache.value else EMPTY_STORE, v.from);
    if v.cache.Some? { CollectIsValid(z.g, Fetch(z.g, v.cache.value, v.from), keep); }
    hide Fetch, Clone, Collect, ValidStore;
  }

  lemma FetchKeeps(z: Setting, tid: Tid, t: Thread, v: Sight, c: Choice)
    requires ValidSight(z, v) && t.task.MirrorTask? && t.pc.Locked? && MirrorOK(z, t.task, v.cache, t.pc, [])
    ensures StepOK(z, tid, t, v, [], FetchStep(z, DraftOf(t.task), t.task.leg, v, c))
  {
    FetchedCaches(z, v, c.keep);
    EarlyReturn(z, t.task, v.cache, [], ReasonProvider);
    EarlyReturn(z, t.task, if c.loses then None else v.cache, [], ReasonClone);
    hide DraftOf, StepOK, Fetch, Clone, Collect, ValidStore, Truthful, Overridden;
    QuietStep(z, tid, t, v, [], FetchStep(z, DraftOf(t.task), t.task.leg, v, c));
  }

  lemma ResolveKeeps(z: Setting, tid: Tid, t: Thread, v: Sight, c: Choice)
    requires ValidSight(z, v) && t.task.MirrorTask? && t.pc.Fetched? && MirrorOK(z, t.task, v.cache, t.pc, [])
    requires Lists(c.listing, v.cache.value.refs)
    ensures StepOK(z, tid, t, v, [], ResolveStep(z, DraftOf(t.task), t.task.leg, t.task.meta, v, c))
  {
    hide DraftOf, StepOK, ResolveRefs, Distinct, ValidStore, Truthful, MirrorTruth;
    ResolvedRefs(c.listing, t.task.leg, z.glob, t.task.meta.ref);
    EarlyReturn(z, t.task, v.cache, [], ReasonPush);
    EarlyReturn(z, t.task, v.cache, [], ReasonNoRefsToPush);
    QuietStep(z, tid, t, v, [], ResolveStep(z, DraftOf(t.task), t.task.leg, t.task.meta, v, c));
  }

  lemma PlanKeeps(z: Setting, tid: Tid, t: Thread, v: Sight, c: Choice)
    requires ValidSight(z, v) && t.task.MirrorTask? && t.pc.Resolved? && MirrorOK(z, t.task, v.cache, t.pc, [])
    ensures StepOK(z, tid, t, v, [], PlanStep(z, DraftOf(t.task), t.task.meta, t.pc.want, v, c))
  {
    hide DraftOf, StepOK;
    var meta, cache := t.task.meta, v.cache.value;
    PlannedWritesAreGuarded(z.g, cache, v.to.refs, t.pc.want, meta.force, meta.forceLease, c.unanswered);
    PlanIsDistinct(z.g, cache, v.to.refs, t.pc.want, meta.force, meta.forceLease, c.unanswered);
    DraftIsBlank(t.task);
    hide PlanFor, Distinct, ValidStore, Guarded;
    assert ChangesOf([]) == Moves([]);
    QuietStep(z, tid, t, v, [], PlanStep(z, DraftOf(t.task), t.task.meta, t.pc.want, v, c));
  }

  lemma OutcomeIsLegal(z: Setting, plan: PushPlan, outcomes: seq<RefOutcome>, v: Sight, c: Choice)
    requires v.cache.Some? && |outcomes| < |plan.specs| && plan.specs[|outcomes|].ref in v.cache.value.refs
    requires ValidSight(z, v) && (c.policy.Some? ==> OneLine(c.policy.value))
    ensures Legal(NextOutcome(z, plan, outcomes, v, c))
  {
    var sp, cache := plan.specs[|outcomes|], v.cache.value;
    NamesAreFull(z.g, cache, sp.ref);
    NamesAreFull(z.g, v.to, sp.ref);
    hide FullSha, LegalRef, ValidSight, OneLine, PushStatus, Tip, FullNames;
    StatusIsLegal(z.g, cache.objs, v.to.refs, sp.ref, cache.refs[sp.ref], sp.lease, c.policy);
  }

  /** A moved ref is reported with the tip it really had and the tip it really got. */
  lemma OutcomeTellsChange(z: Setting, plan: PushPlan, outcomes: seq<RefOutcome>, v: Sight, c: Choice)
    requires v.cache.Some? && |outcomes| < |plan.specs| && plan.specs[|outcomes|].ref in v.cache.value.refs
    ensures var o, spec := NextOutcome(z, plan, outcomes, v, c), plan.specs[|outcomes|];
      var oldTip, newTip := Tip(v.to.refs, spec.ref), v.cache.value.refs[spec.ref];
      && o.ref == spec.ref && Labelled(z.g, v.cache.value, o)
      && (o.Moved() ==>
          ReportedChange(o) == [Change(o.ref, oldTip, newTip)] && oldTip == spec.lease && oldTip != newTip)
      && (!o.Moved() ==> ReportedChange(o) == [])
  {
  }

  /** A named ref is planned at most once. */
  lemma OneNamedSpec(z: Setting, leg: Leg, meta: EventMeta, cache: Store, plan: PushPlan)
    requires Planned(z, leg, meta, cache, plan) && meta.ref.Some?
    ensures |plan.specs| <= 1
  {
    var refs := SpecRefs(plan.specs);
    forall i | 0 <= i < |plan.specs| ensures refs[i] == meta.ref.value {
      assert plan.specs[i] in plan.specs;
      assert Sendable(z, leg, meta, cache, plan.unanswered, plan.specs[i]);
    }
    DistinctPair(refs, meta.ref.value);
  }

  lemma DistinctPair<T>(s: seq<T>, x: T)
    requires Distinct(s)
    ensures |s| >= 2 ==> exists y :: y in s && y != x
  {
    if |s| >= 2 { assert s[0] in s && s[1] in s && s[0] != s[1]; }
  }

  /** The write a planned spec leads to is one the plan's kind allows. */
  lemma PlannedWriteOK(z: Setting, task: Task, cache: Store, un: Unanswered, sp: PushSpec, w: Write)
    requires Shaped(z, task) && task.MirrorTask? && ValidStore(z.g, cache)
    requires Sendable(z, task.leg, task.meta, cache, un, sp)
    requires w.task == task && w.at == ToPlace(task.leg) && w.known == cache.objs
    requires w.ref == sp.ref && w.oldTip == sp.lease && w.newTip == cache.refs[sp.ref] && w.oldTip != w.newTip
    requires w.answered <==> sp.ref !in un.ancestry
    ensures WriteOK(z, w) && w.newTip != NO_OBJECT
  {
    hide Authorised;
  }

  lemma ToldGrows(z: Setting, cache: Store, plan: PushPlan, outcomes: seq<RefOutcome>, mine: seq<Write>, o: RefOutcome,
                  ws: seq<Write>)
    requires Told(z, cache, plan, outcomes, mine) && |outcomes| < |plan.specs| && o.ref == plan.specs[|outcomes|].ref
    requires ChangesOf(ws) == ReportedChange(o) && Labelled(z.g, cache, o) && Legal(o)
    requires forall w :: w in ws ==> w.known == cache.objs
    ensures Told(z, cache, plan, outcomes + [o], mine + ws)
  {
    hide ReportedChange, Labelled, Legal;
    assert (outcomes + [o])[..|outcomes|] == outcomes;
    assert ChangesOf(mine + ws) == ChangesOf(mine) + ChangesOf(ws);
  }

  lemma BatchArithmetic(n: nat)
    ensures BatchStart(n + 1) == n - n % PUSH_BATCH_SIZE
    ensures (n + 1) % PUSH_BATCH_SIZE != 0 ==> (n + 1) - (n + 1) % PUSH_BATCH_SIZE == n - n % PUSH_BATCH_SIZE
  {
  }

  /** One more outcome either stays inside its batch or ends it. */
  lemma BatchGrows(outcomes: seq<RefOutcome>, o: RefOutcome)
    requires Settled(Finished(outcomes))
    ensures var more := outcomes + [o];
      && (|more| % PUSH_BATCH_SIZE != 0 ==> Finished(more) == Finished(outcomes))
      && (Benign(CurrentBatch(more)) ==> Settled(more))
      && (|more| % PUSH_BATCH_SIZE == 0 ==> Finished(more) == more)
  {
    hide Benign, CurrentBatch, BatchStart;
    var more := outcomes + [o];
    BatchArithmetic(|outcomes|);
    assert more[..BatchStart(|more|)] == Finished(outcomes);
  }

  /** A process that dies, or a batch that fails, ends the call whatever it had written. */
  lemma DeathOK(z: Setting, task: Task, cache: Option<Store>, held: seq<HeldRef>, mine: seq<Write>)
    requires task.MirrorTask? && (task.meta.force ==> |mine| <= 1)
    ensures MirrorOK(z, task, cache, Done(DraftOf(task).(held := held).With(ResultFail, ReasonPush), true, false), mine)
  {
    DraftIsBlank(task);
    hide DraftOf, MirrorTruth;
  }

  lemma BatchIsLegal(z: Setting, cache: Store, plan: PushPlan, outcomes: seq<RefOutcome>, mine: seq<Write>)
    requires Told(z, cache, plan, outcomes, mine) && outcomes != []
    ensures |outcomes| <= |plan.specs| && AllLegal(CurrentBatch(outcomes))
  {
    hide Legal;
  }

  /** A batch leaves the call where its kind may stand. */
  lemma AfterOutcomeOK(z: Setting, task: Task, cache: Store, held: seq<HeldRef>, plan: PushPlan,
                       outcomes: seq<RefOutcome>, o: RefOutcome, mine: seq<Write>)
    requires task.MirrorTask? && !Overridden(z, task.leg, task.meta.ref) && (task.meta.force ==> |mine| <= 1)
    requires Planned(z, task.leg, task.meta, cache, plan) && Told(z, cache, plan, outcomes + [o], mine)
    requires Settled(Finished(outcomes))
    requires Sane(z)
    ensures MirrorOK(z, task, Some(cache), AfterOutcome(z, DraftOf(task).(held := held), plan, outcomes + [o]), mine)
  {
    hide DraftOf, Planned, Benign, Overridden, MirrorTruth, Told, Settled, Finished, CurrentBatch, Truthful, Wants;
    hide AllLegal, LetThrough, ReadBatch;
    BatchIsLegal(z, cache, plan, outcomes + [o], mine);
    BatchGrows(outcomes, o);
    ReadBatchIsSummary(z, CurrentBatch(outcomes + [o]));
    DeathOK(z, task, Some(cache), held, mine);
  }

  lemma PushWrites(z: Setting, tid: Tid, t: Thread, v: Sight, mine: seq<Write>, c: Choice)
    requires ValidSight(z, v) && Shaped(z, t.task) && t.task.MirrorTask? && t.pc.Pushing?
    requires MirrorOK(z, t.task, v.cache, t.pc, mine)
    requires t.pc.plan.specs[|t.pc.outcomes|].ref in v.cache.value.refs && (c.policy.Some? ==> OneLine(c.policy.value))
    ensures var act := PushStep(z, DraftOf(t.task), t.pc.plan, t.pc.outcomes, v, c);
      var ws, o := WritesOf(tid, t.task, v, act), NextOutcome(z, t.pc.plan, t.pc.outcomes, v, c);
      && (forall w :: w in ws ==> WriteOK(z, w) && w.known == v.cache.value.objs)
      && CleanAct(z, v, act) && |ws| <= 1
      && (!c.dies ==> ChangesOf(ws) == ReportedChange(o)) && Labelled(z.g, v.cache.value, o)
      && o.ref == t.pc.plan.specs[|t.pc.outcomes|].ref && Legal(o)
  {
    var plan, outcomes, cache := t.pc.plan, t.pc.outcomes, v.cache.value;
    var act := PushStep(z, DraftOf(t.task), plan, outcomes, v, c);
    var ws, spec := WritesOf(tid, t.task, v, act), plan.specs[|outcomes|];
    assert spec in plan.specs && Sendable(z, t.task.leg, t.task.meta, cache, plan.unanswered, spec);
    OutcomeTellsChange(z, plan, outcomes, v, c);
    OutcomeIsLegal(z, plan, outcomes, v, c);
    hide Shaped, Planned, Sendable, NextOutcome, Labelled, Legal, Told, Moves, ReportedChange, AfterOutcome, Closed;
    if ws != [] { PlannedWriteOK(z, t.task, cache, plan.unanswered, spec, ws[0]); }
    hide WriteOK;
  }

  /** What is known of a call in the middle of its push; a forced one has written nothing yet. */
  lemma PushingMeans(z: Setting, t: Thread, v: Sight, mine: seq<Write>)
    requires Shaped(z, t.task) && t.task.MirrorTask? && t.pc.Pushing? && MirrorOK(z, t.task, v.cache, t.pc, mine)
    ensures v.cache.Some? && |t.pc.outcomes| < |t.pc.plan.specs| && !Overridden(z, t.task.leg, t.task.meta.ref)
    ensures Planned(z, t.task.leg, t.task.meta, v.cache.value, t.pc.plan)
    ensures Told(z, v.cache.value, t.pc.plan, t.pc.outcomes, mine) && Settled(Finished(t.pc.outcomes))
    ensures t.task.meta.force ==> mine == []
  {
    MovesCount(t.pc.outcomes);
    assert |mine| == |ChangesOf(mine)| <= |t.pc.outcomes|;
    if t.task.meta.force { OneNamedSpec(z, t.task.leg, t.task.meta, v.cache.value, t.pc.plan); }
    hide Planned, Settled, Finished, Overridden, Legal, Labelled;
  }

  lemma PushKeeps(z: Setting, tid: Tid, t: Thread, v: Sight, mine: seq<Write>, c: Choice)
    requires ValidSight(z, v) && Shaped(z, t.task) && t.task.MirrorTask? && t.pc.Pushing?
    requires MirrorOK(z, t.task, v.cache, t.pc, mine)
    requires t.pc.plan.specs[|t.pc.outcomes|].ref in v.cache.value.refs && (c.policy.Some? ==> OneLine(c.policy.value))
    ensures StepOK(z, tid, t, v, mine, PushStep(z, DraftOf(t.task), t.pc.plan, t.pc.outcomes, v, c))
  {
    var plan, outcomes, cache, task := t.pc.plan, t.pc.outcomes, v.cache.value, t.task;
    var act := PushStep(z, DraftOf(task), plan, outcomes, v, c);
    var o, ws := NextOutcome(z, plan, outcomes, v, c), WritesOf(tid, task, v, act);
    PushWrites(z, tid, t, v, mine, c);
    PushingMeans(z, t, v, mine);
    hide DraftOf, Shaped, Planned, NextOutcome, Labelled, Legal, ReportedChange, WritesOf, WriteOK, ChangesOf;
    hide CleanAct, Overridden, MirrorOK, AfterOutcome, Settled, Finished, Told;
    if c.dies {
      DeathOK(z, task, v.cache, plan.held, mine + ws);
    } else {
      ToldGrows(z, cache, plan, outcomes, mine, o, ws);
      AfterOutcomeOK(z, task, cache, plan.held, plan, outcomes, o, mine + ws);
    }
  }

  lemma ForcedWereWritten(z: Setting, cache: Store, plan: PushPlan, outcomes: seq<RefOutcome>, mine: seq<Write>)
    requires Told(z, cache, plan, outcomes, mine)
    ensures forall f :: f in Summary(outcomes).forced ==>
      exists w :: w in mine && Overwrites(z.g, w) && SameChange(f, w)
  {
    MovesMeaning(outcomes);
    SummaryMeaning(outcomes);
    hide Moves, Summary, Forward, Legal, SpecRefs;
    forall f | f in Summary(outcomes).forced ensures exists w :: w in mine && Overwrites(z.g, w) && SameChange(f, w) {
      var o :| o in outcomes && o.status.Forced? && f == Unclassified(o.ref, o.status.oldTip, o.status.newTip);
      var m := Change(o.ref, o.status.oldTip, o.status.newTip);
      assert ReportedChange(o) == [m] && m in ChangesOf(mine) && Labelled(z.g, cache, o);
      var i :| 0 <= i < |mine| && ChangesOf(mine)[i] == m;
      assert mine[i] in mine && SameChange(f, mine[i]);
    }
  }

  lemma WrittenWasForced(z: Setting, cache: Store, plan: PushPlan, outcomes: seq<RefOutcome>, mine: seq<Write>,
                         w: Write)
    requires Told(z, cache, plan, outcomes, mine) && w in mine && Overwrites(z.g, w)
    ensures Unclassified(w.ref, w.oldTip, w.newTip) in Summary(outcomes).forced
  {
    MovesMeaning(outcomes);
    SummaryMeaning(outcomes);
    hide Moves, Summary, Forward, Legal, SpecRefs;
    var i :| 0 <= i < |mine| && mine[i] == w;
    assert ChangesOf(mine)[i] == Change(w.ref, w.oldTip, w.newTip);
    var o :| o in outcomes && ReportedChange(o) == [Change(w.ref, w.oldTip, w.newTip)];
    assert Labelled(z.g, cache, o);
    assert o.status.Forced?;
  }

  /** The forced entries of a report are the overwrites among the changes made. */
  lemma ForcedAreOverwrites(z: Setting, cache: Store, plan: PushPlan, outcomes: seq<RefOutcome>, mine: seq<Write>)
    requires Told(z, cache, plan, outcomes, mine)
    ensures forall f :: f in Summary(outcomes).forced ==>
      exists w :: w in mine && Overwrites(z.g, w) && SameChange(f, w)
    ensures forall w :: w in mine && Overwrites(z.g, w) ==>
      Unclassified(w.ref, w.oldTip, w.newTip) in Summary(outcomes).forced
  {
    ForcedWereWritten(z, cache, plan, outcomes, mine);
    forall w | w in mine && Overwrites(z.g, w)
      ensures Unclassified(w.ref, w.oldTip, w.newTip) in Summary(outcomes).forced
    {
      WrittenWasForced(z, cache, plan, outcomes, mine, w);
    }
    hide Told, Summary, Overwrites;
  }

  /** Classifying changes what an entry says about the loss, never which change it names. */
  lemma ClassifiedNames(g: ObjectGraph, raw: seq<ForcedRef>, check: Check, mine: seq<Write>)
    requires forall f :: f in raw ==> exists w :: w in mine && Overwrites(g, w) && SameChange(f, w)
    ensures forall f :: f in ClassifyAll(raw, check) ==> exists w :: w in mine && Overwrites(g, w) && SameChange(f, w)
    ensures forall w :: w in mine && Unclassified(w.ref, w.oldTip, w.newTip) in raw ==>
      exists f :: f in ClassifyAll(raw, check) && SameChange(f, w)
  {
    hide Overwrites;
    var forced := ClassifyAll(raw, check);
    forall f | f in forced ensures exists w :: w in mine && Overwrites(g, w) && SameChange(f, w) {
      var i :| 0 <= i < |forced| && forced[i] == f;
      assert raw[i] in raw;
      var w :| w in mine && Overwrites(g, w) && SameChange(raw[i], w);
      assert SameChange(f, w);
    }
    forall w | w in mine && Unclassified(w.ref, w.oldTip, w.newTip) in raw
      ensures exists f :: f in forced && SameChange(f, w)
    {
      var i :| 0 <= i < |raw| && raw[i] == Unclassified(w.ref, w.oldTip, w.newTip);
      assert forced[i] in forced && SameChange(forced[i], w);
    }
  }

  lemma ReportTruth(z: Setting, cache: Store, plan: PushPlan, outcomes: seq<RefOutcome>, mine: seq<Write>,
                    ev: Event, alerted: bool, check: Check)
    requires Told(z, cache, plan, outcomes, mine) && Summary(outcomes).changed
    requires ev.forced == ClassifyAll(Summary(outcomes).forced, check) && ev.reason == ForcedReason(ev.forced)
    requires alerted <==> exists f :: f in ev.forced && Interrupts(f)
    ensures MirrorTruth(z, ev, alerted, mine)
  {
    ForcedAreOverwrites(z, cache, plan, outcomes, mine);
    MovesCount(outcomes);
    ClassifiedNames(z.g, Summary(outcomes).forced, check, mine);
    assert |ChangesOf(mine)| == |mine|;
    hide Moves, Summary, Overwrites, ClassifyAll, SameChange, ForcedReason, Interrupts;
  }

  lemma NothingMoved(z: Setting, cache: Store, plan: PushPlan, outcomes: seq<RefOutcome>, mine: seq<Write>)
    requires Told(z, cache, plan, outcomes, mine) && !Summary(outcomes).changed
    ensures mine == []
  {
    MovesCount(outcomes);
    assert |ChangesOf(mine)| == |mine|;
    hide Moves, Summary;
  }

  lemma ToldIsLegal(z: Setting, cache: Store, plan: PushPlan, outcomes: seq<RefOutcome>, mine: seq<Write>)
    requires Told(z, cache, plan, outcomes, mine)
    ensures AllLegal(outcomes)
  {
    hide Legal;
  }

  lemma SuccessPlace(z: Setting, task: Task, cache: Option<Store>, held: seq<HeldRef>, forced: seq<ForcedRef>,
                     alerted: bool, mine: seq<Write>)
    requires task.MirrorTask? && (task.meta.force ==> |mine| <= 1)
    requires var ev := DraftOf(task).(held := held, forced := forced).With(ResultOK, ForcedReason(forced));
      MirrorTruth(z, ev, alerted, mine)
    ensures var ev := DraftOf(task).(held := held, forced := forced).With(ResultOK, ForcedReason(forced));
      PlaceOK(z, task, cache, Done(ev, false, alerted), mine)
  {
    DraftIsBlank(task);
    hide DraftOf, MirrorTruth, ForcedReason;
  }

  lemma ReportPlace(z: Setting, task: Task, cache: Store, plan: PushPlan, outcomes: seq<RefOutcome>, v: Sight,
                    mine: seq<Write>, c: Choice)
    requires task.MirrorTask? && Sane(z) && Told(z, cache, plan, outcomes, mine) && (task.meta.force ==> |mine| <= 1)
    ensures PlaceOK(z, task, v.cache, ReportStep(z, DraftOf(task), plan, outcomes, v, c).pc, mine)
  {
    ToldIsLegal(z, cache, plan, outcomes, mine);
    hide Legal, Summary, Told, AllLegal, DraftOf, ReadAll, ClassifyAll, MirrorTruth, ForcedReason, Interrupts, PlaceOK;
    ReadAllIsSummary(z, outcomes);
    var act := ReportStep(z, DraftOf(task), plan, outcomes, v, c);
    if Summary(outcomes).changed {
      ReportTruth(z, cache, plan, outcomes, mine, act.pc.ev, act.pc.alerted, c.check);
      SuccessPlace(z, task, v.cache, plan.held, act.pc.ev.forced, act.pc.alerted, mine);
    } else {
      NothingMoved(z, cache, plan, outcomes, mine);
      EarlyReturn(z, task, v.cache, plan.held, act.pc.ev.reason);
    }
  }

  lemma ReportKeeps(z: Setting, tid: Tid, t: Thread, v: Sight, mine: seq<Write>, c: Choice)
    requires ValidSight(z, v) && t.task.MirrorTask? && t.pc.Pushed? && MirrorOK(z, t.task, v.cache, t.pc, mine)
    ensures StepOK(z, tid, t, v, mine, ReportStep(z, DraftOf(t.task), t.pc.plan, t.pc.outcomes, v, c))
  {
    hide DraftOf, StepOK, Told, Planned, Settled, CleanAct, ReadAll, ClassifyAll, Overridden;
    var act := ReportStep(z, DraftOf(t.task), t.pc.plan, t.pc.outcomes, v, c);
    ReportPlace(z, t.task, v.cache.value, t.pc.plan, t.pc.outcomes, v, mine, c);
    LookingIsClean(z, v, act);
    QuietStep(z, tid, t, v, mine, act);
  }

  // ---- the steps of a delete and of a restore, and the first step of each call ----------------

  lemma DeleteCheckKeeps(z: Setting, tid: Tid, t: Thread, v: Sight, c: Choice)
    requires ValidSight(z, v) && t.task.DeleteTask? && t.pc.Locked?
    ensures StepOK(z, tid, t, v, [], DeleteStep(z, t.task, t.pc, v, c))
  {
    hide DraftOf, StepOK, Truthful, ValidSight, CleanAct, Tip, ProvidersKnown, MirrorOK, RestoreOK;
    EarlyReturn(z, t.task, v.cache, [], ReasonProvider);
    EarlyReturn(z, t.task, v.cache, [], ReasonCheckRef);
    EarlyReturn(z, t.task, v.cache, [], ReasonAlreadyAbsent);
    LookingIsClean(z, v, DeleteStep(z, t.task, t.pc, v, c));
    QuietStep(z, tid, t, v, [], DeleteStep(z, t.task, t.pc, v, c));
  }

  /** The change a delete makes, if it makes one. */
  lemma DeleteWrites(z: Setting, tid: Tid, task: Task, tip: Oid, v: Sight, c: Choice)
    requires ValidSight(z, v) && Shaped(z, task) && task.DeleteTask?
    ensures var act := DeleteWriteStep(DraftOf(task), task.ref, tip, v, c);
      var ws := WritesOf(tid, task, v, act);
      && (forall w :: w in ws ==> WriteOK(z, w))
      && (if act.write.None? then ws == [] else
          |ws| == 1 && ws[0].ref == task.ref && ws[0].newTip == NO_OBJECT && ws[0].oldTip != NO_OBJECT)
  {
    TipIsPresence(z.g, v.to, task.ref);
    assert v.cache.Some? ==> Closed(z.g, v.cache.value.objs);
    assert Closed(z.g, {});
    hide DraftOf, ValidStore, Tip, Authorised, Closed;
  }

  lemma DeleteReturns(task: Task, tip: Oid, v: Sight, c: Choice, ws: seq<Write>)
    requires task.DeleteTask?
    requires var act := DeleteWriteStep(DraftOf(task), task.ref, tip, v, c);
      if act.write.None? then ws == []
      else |ws| == 1 && ws[0].ref == task.ref && ws[0].newTip == NO_OBJECT && ws[0].oldTip != NO_OBJECT
    ensures DeleteOK(task, DeleteWriteStep(DraftOf(task), task.ref, tip, v, c).pc, ws)
  {
    DraftIsBlank(task);
    hide DraftOf;
  }

  lemma DeleteWriteKeeps(z: Setting, tid: Tid, t: Thread, v: Sight, c: Choice)
    requires ValidSight(z, v) && Shaped(z, t.task) && t.task.DeleteTask? && t.pc.DeleteChecked?
    ensures StepOK(z, tid, t, v, [], DeleteStep(z, t.task, t.pc, v, c))
  {
    var act := DeleteWriteStep(DraftOf(t.task), t.task.ref, t.pc.tip, v, c);
    var ws := WritesOf(tid, t.task, v, act);
    DeleteWrites(z, tid, t.task, t.pc.tip, v, c);
    hide DraftOf, ValidStore, Shaped, WriteOK, WritesOf, DeleteOK;
    DeleteReturns(t.task, t.pc.tip, v, c, ws);
    assert [] + ws == ws;
    assert CleanAct(z, v, act) && act.cache == v.cache;
    hide CleanAct, DeleteWriteStep;
  }

  lemma RestoreCheckKeeps(z: Setting, tid: Tid, t: Thread, v: Sight, c: Choice)
    requires ValidSight(z, v) && t.task.RestoreTask? && t.pc.Locked?
    ensures StepOK(z, tid, t, v, [], RestoreStep(z, t.task, t.pc, v, c))
  {
    hide DraftOf, StepOK, Truthful, ValidSight, CleanAct, Tip, ProvidersKnown, MirrorOK, DeleteOK;
    EarlyReturn(z, t.task, v.cache, [], ReasonProvider);
    EarlyReturn(z, t.task, v.cache, [], ReasonCheckRef);
    EarlyReturn(z, t.task, v.cache, [], ReasonAlreadyUpToDate);
    EarlyReturn(z, t.task, v.cache, [], ReasonRefExists);
    LookingIsClean(z, v, RestoreStep(z, t.task, t.pc, v, c));
    QuietStep(z, tid, t, v, [], RestoreStep(z, t.task, t.pc, v, c));
  }

  lemma FetchedObject(g: ObjectGraph, cache: Store, remote: Store, sha: Oid)
    requires ValidStore(g, cache) && ValidStore(g, remote) && sha in remote.objs
    ensures ValidStore(g, Store(cache.refs, cache.objs + Ancestors(g, sha)))
    ensures sha in Ancestors(g, sha) && Ancestors(g, sha) <= remote.objs
  {
    AncestorsClosed(g, sha);
    ClosedUnion(g, cache.objs, Ancestors(g, sha));
  }

  lemma RestoreObjectKeeps(z: Setting, tid: Tid, t: Thread, v: Sight, c: Choice)
    requires ValidSight(z, v) && t.task.RestoreTask? && t.pc.HoleSeen?
    ensures StepOK(z, tid, t, v, [], RestoreStep(z, t.task, t.pc, v, c))
  {
    var cache := if v.cache.Some? then v.cache.value else EMPTY_STORE;
    assert ValidStore(z.g, cache);
    hide DraftOf, StepOK, ValidStore, Ancestors, PlaceOK, CleanAct;
    var act := RestoreStep(z, t.task, t.pc, v, c);
    if t.task.sha in v.from.objs { FetchedObject(z.g, cache, v.from, t.task.sha); }
    ObjectStepPlace(z, t.task, v, c);
    ObjectStepClean(z, t.task, cache, v, c);
    QuietStep(z, tid, t, v, [], act);
  }

  lemma ObjectStepPlace(z: Setting, task: Task, v: Sight, c: Choice)
    requires task.RestoreTask? && (task.sha in v.from.objs ==> task.sha in Ancestors(z.g, task.sha))
    ensures var act := RestoreObjectStep(z, DraftOf(task), task.sha, v, c);
      PlaceOK(z, task, act.cache, act.pc, []) && act.write.None?
  {
    EarlyReturn(z, task, v.cache, [], ReasonClone);
    EarlyReturn(z, task, Some(if v.cache.Some? then v.cache.value else EMPTY_STORE), [], ReasonObjectGone);
    hide DraftOf, Truthful, Ancestors;
  }

  lemma ObjectStepClean(z: Setting, task: Task, cache: Store, v: Sight, c: Choice)
    requires ValidSight(z, v) && task.RestoreTask? && cache == (if v.cache.Some? then v.cache.value else EMPTY_STORE)
    requires ValidStore(z.g, cache)
    requires task.sha in v.from.objs ==>
      ValidStore(z.g, Store(cache.refs, cache.objs + Ancestors(z.g, task.sha))) &&
        Ancestors(z.g, task.sha) <= v.from.objs
    ensures CleanAct(z, v, RestoreObjectStep(z, DraftOf(task), task.sha, v, c))
  {
    hide DraftOf, ValidStore, Ancestors;
  }

  lemma RestoreWriteKeeps(z: Setting, tid: Tid, t: Thread, v: Sight, c: Choice)
    requires ValidSight(z, v) && Shaped(z, t.task) && t.task.RestoreTask? && RestoreOK(t.task, v.cache, t.pc, [])
    requires t.pc.ObjectReady?
    ensures StepOK(z, tid, t, v, [], RestoreStep(z, t.task, t.pc, v, c))
  {
    DraftIsBlank(t.task);
    hide DraftOf, Closed, Tip, Authorised;
  }

  lemma StartKeeps(z: Setting, tid: Tid, t: Thread, v: Sight, c: Choice)
    requires ValidSight(z, v) && PlaceOK(z, t.task, None, t.pc, []) && t.pc.Waiting? && !Blocked(z, t, v.busy)
    ensures StepOK(z, tid, t, v, [], StepOf(z, t, v, c))
  {
    EarlyReturn(z, t.task, v.cache, [], ReasonRefOverride);
    EarlyReturn(z, t.task, v.cache, [], ReasonRepoBusy);
    hide DraftOf, StepOK, Truthful, ValidStore, Overridden;
    QuietStep(z, tid, t, v, [], StepOf(z, t, v, c));
  }

  /** Whatever a call sees and whatever git answers, one step of it keeps everything the
      call promises and makes only changes it is allowed to make. */
  lemma StepKeeps(z: Setting, tid: Tid, t: Thread, v: Sight, mine: seq<Write>, c: Choice)
    requires ValidSight(z, v) && Shaped(z, t.task) && !t.pc.Done? && Honest(z, t, v, c) && !Blocked(z, t, v.busy)
    requires PlaceOK(z, t.task, if HoldsLock(t.pc) then v.cache else None, t.pc, mine) && Ready(t, v.cache)
    ensures StepOK(z, tid, t, v, mine, StepOf(z, t, v, c))
  {
    if t.pc.Waiting? {
      StartKeeps(z, tid, t, v, c);
    } else {
      hide StepOK, ValidSight, Shaped, FetchStep, ResolveStep, PlanStep, PushStep, ReportStep, Lists, AnswersFor;
      match t.task
      case MirrorTask(_, _) => {
        match t.pc
        case Locked => FetchKeeps(z, tid, t, v, c);
        case Fetched => ResolveKeeps(z, tid, t, v, c);
        case Resolved(_) => PlanKeeps(z, tid, t, v, c);
        case Pushing(_, _) => PushKeeps(z, tid, t, v, mine, c);
        case Pushed(_, _) => ReportKeeps(z, tid, t, v, mine, c);
      }
      case DeleteTask(_, _, _) => {
        match t.pc
        case Locked => DeleteCheckKeeps(z, tid, t, v, c);
        case DeleteChecked(_) => DeleteWriteKeeps(z, tid, t, v, c);
      }
      case RestoreTask(_, _, _, _) =>
        match t.pc
        case Locked => RestoreCheckKeeps(z, tid, t, v, c);
        case HoleSeen => RestoreObjectKeeps(z, tid, t, v, c);
        case ObjectReady => RestoreWriteKeeps(z, tid, t, v, c);
    }
  }
}
