/** What the history says was so: why a call was skipped or refused, what a push withheld, what an
 * overwrite lost, and that a call does no more than it was asked.
 */
module Records {
  import opened Answers
  import opened Config
  import opened Events
  import opened Failure
  import opened Git
  import opened Graph
  import opened Invariant
  import opened Loss
  import opened Plan
  import opened Porcelain
  import opened Protocol
  import opened Refs
  import opened Routing
  import opened Runs
  import opened Safety
  import opened Verdicts

  /** Every step a call takes in a run answers as its kind of call should. */
  lemma EveryStepAnswers(z: Setting, run: seq<State>, i: nat, tid: Tid, c: Choice)
    requires IsRun(z, run) && i < |run| && CanStep(z, run[i], tid, c)
    ensures var t, v := run[i].threads[tid], Look(run[i], run[i].threads[tid].task.leg);
      var pc := ThreadStep(z, run[i], tid, c).threads[tid].pc;
      match t.task
      case MirrorTask(_, _) => MirrorVerdict(z, t, v, c, pc)
      case DeleteTask(_, _, _) => DeleteVerdict(t, v, c, pc)
      case RestoreTask(_, _, _, _) => RestoreVerdict(t, v, c, pc)
  {
    var t, v := run[i].threads[tid], Look(run[i], run[i].threads[tid].task.leg);
    hide IsRun, StepOf, ThreadStep, MirrorVerdict, DeleteVerdict, RestoreVerdict, PlaceOK, ValidStore, Look;
    StepPC(z, run[i], tid, c);
    SightOK(z, run, i, tid);
    CallOK(z, run, i, tid);
    KnownEnds(z, run, i, tid);
    match t.task
    case MirrorTask(_, _) =>
      if HoldsLock(t.pc) {
        PlaceIsMirrorOK(z, t.task, v.cache, t.pc, Mine(run[i].writes, tid)) by { LooksAtCache(run[i], t.task.leg); }
      }
      MirrorAnswers(z, t, v, Mine(run[i].writes, tid), c);
    case DeleteTask(_, _, _) => DeleteAnswers(z, t, v, c);
    case RestoreTask(_, _, _, _) => RestoreAnswers(z, t, v, c);
  }

  lemma LooksAtCache(s: State, leg: Leg)
    requires Wired(s, leg)
    ensures Look(s, leg).cache == CacheAt(s, leg) && Look(s, leg).from == s.remotes[FromPlace(leg)]
    ensures Look(s, leg).to == s.remotes[ToPlace(leg)]
  {
  }

  lemma KnownEnds(z: Setting, run: seq<State>, i: nat, tid: Tid)
    requires IsRun(z, run) && i < |run| && tid in run[i].threads
    ensures ProvidersKnown(z, run[i].threads[tid].task.leg)
  {
    hide IsRun, PlaceOK;
    EveryStateOK(z, run, i);
    CallOK(z, run, i, tid);
    var leg := run[i].threads[tid].task.leg;
    assert ValidRepo(leg.repo, z.cfg.providers, z.legalPattern);
  }

  // ---- where a call came from ---------------------------------------------------------------------------

  /** The call took this step here. */
  ghost predicate StepsHere(z: Setting, run: seq<State>, k: nat, tid: Tid, c: Choice) {
    k + 1 < |run| && CanStep(z, run[k], tid, c) && run[k + 1] == ThreadStep(z, run[k], tid, c)
  }

  /** In the state before, a call was not there yet, stood where it stands, or took its step. */
  lemma CameFrom(z: Setting, run: seq<State>, i: nat, tid: Tid) returns (c: Choice)
    requires IsRun(z, run) && i + 1 < |run| && tid in run[i + 1].threads
    ensures tid !in run[i].threads ==> run[i + 1].threads[tid].pc.Waiting?
    ensures tid in run[i].threads ==> run[i].threads[tid].task == run[i + 1].threads[tid].task
    ensures tid in run[i].threads && run[i].threads[tid] != run[i + 1].threads[tid] ==> StepsHere(z, run, i, tid, c)
  {
    var s, s' := run[i], run[i + 1];
    c := *;
    RunStep(z, run, i + 1);
    hide IsRun, CanStep, ThreadStep, Admitted, ApplyMove, Arrive;
    var st :| Can(z, s, st) && s' == Do(z, s, st);
    if st.Steps? {
      OthersKeep(z, s, st.tid, st.choice);
      hide Do;
      if st.tid == tid {
        c := st.choice;
        StepPC(z, s, tid, c);
      }
    } else {
      OnlyStepsReturn(z, s, st);
      hide Do;
    }
  }

  /** The step that returned a call. */
  lemma {:induction false} LastStep(z: Setting, run: seq<State>, i: nat, tid: Tid) returns (k: nat, c: Choice)
    requires IsRun(z, run) && i < |run| && tid in run[i].threads && run[i].threads[tid].pc.Done?
    ensures k < i && StepsHere(z, run, k, tid, c) && !run[k].threads[tid].pc.Done?
    ensures run[k + 1].threads[tid] == run[i].threads[tid] && run[k].threads[tid].task == run[i].threads[tid].task
  {
    hide IsRun, CanStep, ThreadStep;
    RunStep(z, run, i);
    var at := CameFrom(z, run, i - 1, tid);
    if run[i - 1].threads[tid] == run[i].threads[tid] {
      k, c := LastStep(z, run, i - 1, tid);
    } else {
      ReturnedStay(z, run, i - 1, tid, at);
      k, c := i - 1, at;
    }
  }

  lemma ReturnedStay(z: Setting, run: seq<State>, k: nat, tid: Tid, c: Choice)
    requires StepsHere(z, run, k, tid, c)
    ensures tid in run[k].threads && !run[k].threads[tid].pc.Done?
  {
    hide ThreadStep, Ready, Honest, Blocked;
  }

  // ---- what a call says about itself ----------------------------------------------------------------------

  /** A returned call's event names its repo, its two ends, its trigger, its ref and who asked. */
  lemma EventsDescribeTheirCall(z: Setting, run: seq<State>, i: nat, tid: Tid)
    requires IsRun(z, run) && i < |run| && tid in run[i].threads && run[i].threads[tid].pc.Done?
    ensures var task, ev := run[i].threads[tid].task, run[i].threads[tid].pc.ev;
      && ev.repo == task.leg.repo.name
      && ev.from == task.leg.FromProvider() + "/" + task.leg.FromPath()
      && ev.to == task.leg.ToProvider() + "/" + task.leg.ToPath()
      && match task
         case MirrorTask(_, meta) =>
           ev.action == ActionMirror && ev.source == meta.source && ev.ref == meta.ref && ev.actor == meta.actor
         case DeleteTask(_, ref, source) =>
           ev.action == ActionDelete && ev.source == source && ev.ref == Some(ref) && ev.actor == ""
         case RestoreTask(_, ref, _, actor) =>
           ev.action == ActionRestore && ev.source == SourceConsole && ev.ref == Some(ref) && ev.actor == actor
  {
    hide IsRun, Shaped, Mine, Recorded, PlaceOK;
    CallOK(z, run, i, tid);
    ReturnMeans(z, run[i].threads[tid].task, None, run[i].threads[tid].pc, Mine(run[i].writes, tid));
    hide MirrorTruth;
  }

  /** The label of a successful mirror: none when nothing was overwritten, a forced update when
      some overwrite lost commits or could not be judged, a rewrite otherwise; and someone is
      alerted exactly when one of the former is of a branch. */
  lemma LabelsTellLosses(z: Setting, run: seq<State>, i: nat, tid: Tid)
    requires IsRun(z, run) && i < |run| && tid in run[i].threads && run[i].threads[tid].task.MirrorTask?
    requires run[i].threads[tid].pc.Done? && run[i].threads[tid].pc.ev.result.ResultOK?
    ensures var ev := run[i].threads[tid].pc.ev;
      var lossy := exists f :: f in ev.forced && !f.preserved && (f.lostTotal > 0 || f.elsewhere == 0);
      && (ev.reason == ReasonNone <==> ev.forced == [])
      && (ev.reason == ReasonForcedUpdate <==> lossy)
      && (ev.reason == ReasonRewritten <==> ev.forced != [] && !lossy)
      && (run[i].threads[tid].pc.alerted <==>
          exists f :: f in ev.forced && f.ref.Branch? && !f.preserved && (f.lostTotal > 0 || f.elsewhere == 0))
  {
    hide IsRun, Shaped, Mine, Recorded, PlaceOK, Truthful;
    CallOK(z, run, i, tid);
    ReturnMeans(z, run[i].threads[tid].task, None, run[i].threads[tid].pc, Mine(run[i].writes, tid));
    LabelExactly(run[i].threads[tid].pc.ev.forced);
    WhoInterrupts();
    hide ForcedReason, Interrupts, Overwrites, SameChange;
  }

  lemma WhoInterrupts()
    ensures forall f :: Interrupts(f) <==> f.ref.Branch? && !f.preserved && (f.lostTotal > 0 || f.elsewhere == 0)
  {
  }

  // ---- why a call did nothing --------------------------------------------------------------------------------

  /** What a delete or a restore says it saw, it saw, in a state before it returned. */
  lemma AnswersWereTrue(z: Setting, run: seq<State>, i: nat, tid: Tid) returns (k: nat)
    requires IsRun(z, run) && i < |run| && tid in run[i].threads && run[i].threads[tid].pc.Done?
    requires !run[i].threads[tid].task.MirrorTask?
    ensures k < i && ToPlace(run[i].threads[tid].task.leg) in run[k].remotes
    ensures var task, ev := run[i].threads[tid].task, run[i].threads[tid].pc.ev;
      var tip := Tip(run[k].remotes[ToPlace(task.leg)].refs, task.ref);
      && (task.DeleteTask? && ev.result.ResultSkip? ==> tip == NO_OBJECT && ev.reason == ReasonAlreadyAbsent)
      && (task.RestoreTask? && ev.result.ResultSkip? ==> tip == task.sha && ev.reason == ReasonAlreadyUpToDate)
      && (task.RestoreTask? && ev.reason == ReasonRefExists ==>
          ev.result.ResultFail? && tip != NO_OBJECT && tip != task.sha)
      && (task.RestoreTask? && ev.reason == ReasonRepoBusy ==>
          ev.result.ResultFail? && task.leg.repo.name in run[k].locks)
  {
    hide IsRun, ThreadStep, Tip, Ready, Honest, Blocked, CacheAt, Shaped, Mine, Recorded, MirrorOK;
    var c;
    k, c := LastStep(z, run, i, tid);
    EveryStepAnswers(z, run, k, tid, c);
    LooksAtCache(run[k], run[k].threads[tid].task.leg);
    CallOK(z, run, k, tid);
  }

  // ---- what a push withheld -----------------------------------------------------------------------------------

  /** A mirror that has its plan, or returned. */
  predicate PastPlan(t: Thread) { t.task.MirrorTask? && (t.pc.Pushing? || t.pc.Pushed? || t.pc.Done?) }

  function OnRecord(pc: PC): seq<HeldRef>
    requires pc.Pushing? || pc.Pushed? || pc.Done?
  {
    if pc.Done? then pc.ev.held else pc.plan.held
  }

  lemma MirrorPlaces(z: Setting, run: seq<State>, i: nat, tid: Tid)
    requires IsRun(z, run) && i < |run| && tid in run[i].threads && run[i].threads[tid].task.MirrorTask?
    ensures var pc := run[i].threads[tid].pc;
      PastPlan(run[i].threads[tid]) || pc.Waiting? || pc.Locked? || pc.Fetched? ||
        (pc.Resolved? && CacheAt(run[i], run[i].threads[tid].task.leg).Some?)
  {
    hide IsRun, Shaped, Mine, Recorded, Told, Settled, Planned, MirrorTruth, Truthful, CacheAt;
    CallOK(z, run, i, tid);
  }

  /** One step of a mirror: past its plan the record stays as it is, at the plan step it becomes
      what the guard withholds, and before there is none. */
  lemma HoldStep(z: Setting, run: seq<State>, i: nat, tid: Tid, c: Choice)
    requires IsRun(z, run) && StepsHere(z, run, i, tid, c) && run[i].threads[tid].task.MirrorTask?
    requires tid in run[i + 1].threads && run[i + 1].threads[tid].task == run[i].threads[tid].task
    ensures PastPlan(run[i].threads[tid]) ==>
      PastPlan(run[i + 1].threads[tid]) && OnRecord(run[i + 1].threads[tid].pc) == OnRecord(run[i].threads[tid].pc)
    ensures PastPlan(run[i + 1].threads[tid]) && !PastPlan(run[i].threads[tid]) &&
            OnRecord(run[i + 1].threads[tid].pc) != [] ==>
      var t, v := run[i].threads[tid], Look(run[i], run[i].threads[tid].task.leg);
      && t.pc.Resolved? && !t.task.meta.force && v.cache.Some?
      && forall h :: h in OnRecord(run[i + 1].threads[tid].pc) <==> ToHold(z, t.pc.want, v, c.unanswered, h)
  {
    hide IsRun, ThreadStep, PushBreaks, WithNext, ToHold, ToSend, Honest, Blocked, KeptFrom, Wanted, Label;
    MirrorPlaces(z, run, i, tid);
    ReturnedStay(z, run, i, tid, c);
    EveryStepAnswers(z, run, i, tid, c);
    LooksAtCache(run[i], run[i].threads[tid].task.leg);
    hide CacheAt;
  }

  /** The holds of a plan stay with its call to the end, however the push goes: each is on the
      event the call returns with, and that event has no other. */
  lemma {:induction false} HoldsStayOnRecord(z: Setting, run: seq<State>, k: nat, i: nat, tid: Tid)
    requires IsRun(z, run) && k <= i < |run| && tid in run[k].threads && PastPlan(run[k].threads[tid])
    decreases i
    ensures tid in run[i].threads && PastPlan(run[i].threads[tid])
    ensures OnRecord(run[i].threads[tid].pc) == OnRecord(run[k].threads[tid].pc)
  {
    hide IsRun, PastPlan, OnRecord, StepsHere, CanStep, ThreadStep, Look, Next;
    if k < i {
      HoldsStayOnRecord(z, run, k, i - 1, tid);
      StaysKnown(z, run, i - 1, tid);
      var c := CameFrom(z, run, i - 1, tid);
      if run[i - 1].threads[tid] != run[i].threads[tid] {
        assert run[i - 1].threads[tid].task.MirrorTask? by { PastPlanMirrors(run[i - 1].threads[tid]); }
        HoldStep(z, run, i - 1, tid, c);
      }
    }
  }

  lemma PastPlanMirrors(t: Thread)
    ensures PastPlan(t) ==> t.task.MirrorTask?
  {
  }

  lemma StaysKnown(z: Setting, run: seq<State>, i: nat, tid: Tid)
    requires IsRun(z, run) && i + 1 < |run| && tid in run[i].threads
    ensures tid in run[i + 1].threads
  {
    RunStep(z, run, i + 1);
    hide IsRun, CanStep, ThreadStep, Admitted, ApplyMove, Arrive;
    var st :| Can(z, run[i], st) && run[i + 1] == Do(z, run[i], st);
    if st.Steps? {
      OthersKeep(z, run[i], st.tid, st.choice);
      hide Do;
    } else {
      NobodyLeaves(z, run[i], st);
      hide Do;
    }
  }

  lemma NobodyLeaves(z: Setting, s: State, st: Step)
    requires Can(z, s, st) && !st.Steps?
    ensures s.threads.Keys <= Do(z, s, st).threads.Keys
  {
    hide CanStep, ThreadStep, Admitted, ApplyMove, RouteOf, TaskOf, RefusalEntries;
  }

  /** A hold on the record was the guard's at the plan step: an unforced call wanted the ref, the
      destination was at that tip, and the tip was unknown to the cache or known to be ahead. */
  lemma {:induction false} HoldsWereDue(z: Setting, run: seq<State>, i: nat, tid: Tid, h: HeldRef)
    returns (k: nat, c: Choice)
    requires IsRun(z, run) && i < |run| && tid in run[i].threads && PastPlan(run[i].threads[tid])
    requires h in OnRecord(run[i].threads[tid].pc)
    ensures k < i && StepsHere(z, run, k, tid, c) && run[k].threads[tid].task == run[i].threads[tid].task
    ensures run[k].threads[tid].pc.Resolved? && !run[k].threads[tid].task.meta.force
    ensures var t, v := run[k].threads[tid], Look(run[k], run[k].threads[tid].task.leg);
      v.cache.Some? && ToHold(z, t.pc.want, v, c.unanswered, h)
  {
    hide IsRun, Next, ToHold, Look, CanStep, ThreadStep;
    RunStep(z, run, i);
    var at := CameFrom(z, run, i - 1, tid);
    if run[i - 1].threads[tid] == run[i].threads[tid] {
      k, c := HoldsWereDue(z, run, i - 1, tid, h);
    } else {
      HoldStep(z, run, i - 1, tid, at);
      if PastPlan(run[i - 1].threads[tid]) {
        k, c := HoldsWereDue(z, run, i - 1, tid, h);
      } else {
        k, c := i - 1, at;
      }
    }
  }

  /** At a served, unforced plan step every wanted ref that both ends hold at different tips is
      either sent, under the destination's tip, or withheld at that tip, and never both: withheld as
      unknown when the tip was never fetched or git could not tell, as ahead when git said so. */
  lemma GuardInRuns(z: Setting, run: seq<State>, i: nat, tid: Tid, c: Choice, ref: Ref)
    requires IsRun(z, run) && i < |run| && CanStep(z, run[i], tid, c) && c.works
    requires var t := run[i].threads[tid];
      t.task.MirrorTask? && !t.task.meta.force && t.pc.Resolved? && ref in t.pc.want
    requires var v := Look(run[i], run[i].threads[tid].task.leg);
      ref in v.cache.value.refs && ref in v.to.refs && v.to.refs[ref] != v.cache.value.refs[ref]
    ensures var leg, pc := run[i].threads[tid].task.leg, ThreadStep(z, run[i], tid, c).threads[tid].pc;
      var tip, cache := run[i].remotes[ToPlace(leg)].refs[ref], run[i].caches[CacheOf(leg)];
      var unknown := tip !in cache.objs || ref in c.unanswered.objects;
      var ahead := !unknown && IsAncestor(z.g, cache.refs[ref], tip) && ref !in c.unanswered.ancestry;
      && (Withholds(pc, HeldRef(ref, HoldDestinationUnknown, tip)) <==> unknown)
      && (Withholds(pc, HeldRef(ref, HoldDestinationAhead, tip)) <==> ahead)
      && (Sends(pc, PushSpec(ref, tip)) <==> !unknown && !ahead)
      && (forall lease :: Sends(pc, PushSpec(ref, lease)) ==> lease == tip)
  {
    var t, v := run[i].threads[tid], Look(run[i], run[i].threads[tid].task.leg);
    EveryStepAnswers(z, run, i, tid, c);
    hide IsRun, ThreadStep, Honest, Blocked, IsAncestor, MirrorReady;
    var pc := ThreadStep(z, run[i], tid, c).threads[tid].pc;
    GuardOf(z, t, v, c, pc, ref);
    hide PlanVerdict, Withholds, Sends;
  }

  lemma GuardOf(z: Setting, t: Thread, v: Sight, c: Choice, pc: PC, ref: Ref)
    requires t.task.MirrorTask? && !t.task.meta.force && t.pc.Resolved? && ref in t.pc.want && v.cache.Some? && c.works
    requires ref in v.cache.value.refs && ref in v.to.refs && v.to.refs[ref] != v.cache.value.refs[ref]
    requires PlanVerdict(z, t, v, c, pc)
    ensures var tip, cache := v.to.refs[ref], v.cache.value;
      var unknown := tip !in cache.objs || ref in c.unanswered.objects;
      var ahead := !unknown && IsAncestor(z.g, cache.refs[ref], tip) && ref !in c.unanswered.ancestry;
      && (Withholds(pc, HeldRef(ref, HoldDestinationUnknown, tip)) <==> unknown)
      && (Withholds(pc, HeldRef(ref, HoldDestinationAhead, tip)) <==> ahead)
      && (Sends(pc, PushSpec(ref, tip)) <==> !unknown && !ahead)
      && (forall lease :: Sends(pc, PushSpec(ref, lease)) ==> lease == tip)
  {
    var un, tip := c.unanswered, v.to.refs[ref];
    hide IsAncestor;
    assert ToSend(z, t.pc.want, v, un, PushSpec(ref, tip))
      || ToHold(z, t.pc.want, v, un, HeldRef(ref, HoldDestinationUnknown, tip))
      || ToHold(z, t.pc.want, v, un, HeldRef(ref, HoldDestinationAhead, tip));
  }

  // ---- what an overwrite lost ------------------------------------------------------------------------------------

  /** The commit carried no content, or the same patch is among the commits only the new tip
      reaches. */
  ghost predicate PatchKept(g: ObjectGraph, content: Content, f: ForcedRef, c: Oid)
    requires c in g.parents
  {
    !IsMerge(g, c) && (c in content.patch ==>
      exists k :: k in Side(g, f.newTip, f.oldTip) && HasPatch(g, content, k) && content.patch[k] == content.patch[c])
  }

  /** The commits that left the branch and are nowhere, and those only another branch still has. */
  ghost function Missing(g: ObjectGraph, content: Content, cache: Store, f: ForcedRef): set<Oid> {
    set c | c in Side(g, f.oldTip, f.newTip) && !Survives(g, content, cache, f.newTip, f.oldTip, c)
  }

  ghost function OnlyElsewhere(g: ObjectGraph, content: Content, cache: Store, f: ForcedRef): set<Oid> {
    set c | c in Side(g, f.oldTip, f.newTip)
            && Survives(g, content, cache, f.newTip, f.oldTip, c) && !PatchKept(g, content, f, c)
  }

  /** The entry counts both, lists at most ten of the missing ones, and is preserved exactly when
      there are none of either; or nothing could be judged, and it claims nothing. */
  ghost predicate CountsLosses(g: ObjectGraph, content: Content, cache: Store, f: ForcedRef) {
    || (f.lost == [] && f.lostTotal == 0 && f.elsewhere == 0 && !f.preserved)
    || (&& f.lostTotal == |Missing(g, content, cache, f)|
        && f.elsewhere == |OnlyElsewhere(g, content, cache, f)|
        && (f.preserved <==> f.lostTotal == 0 && f.elsewhere == 0)
        && |f.lost| == (if f.lostTotal <= 10 then f.lostTotal else 10)
        && forall l :: l in f.lost ==> exists c :: c in Missing(g, content, cache, f) && l == content.describe(c))
  }

  lemma FatesExactly(g: ObjectGraph, content: Content, cache: Store, f: ForcedRef)
    ensures WhoseFate(g, content, cache, f.newTip, f.oldTip, Gone) == Missing(g, content, cache, f)
    ensures WhoseFate(g, content, cache, f.newTip, f.oldTip, Elsewhere) == OnlyElsewhere(g, content, cache, f)
  {
    forall c | c in Side(g, f.oldTip, f.newTip)
      ensures FateOf(g, content, cache, f.newTip, f.oldTip, c) == Matched <==> PatchKept(g, content, f, c)
      ensures FateOf(g, content, cache, f.newTip, f.oldTip, c) == Gone <==>
        !Survives(g, content, cache, f.newTip, f.oldTip, c)
    {
      GoneExactly(g, content, cache, f.newTip, f.oldTip, c);
      PatchIdsMeaning(g, content, f.newTip, f.oldTip, if c in content.patch then content.patch[c] else "");
      hide PatchIds, BranchReach, Survives, Side;
    }
    hide FateOf, PatchKept, Survives, Side;
  }

  lemma DescribedOnes(g: ObjectGraph, content: Content, cache: Store, f: ForcedRef, listing: seq<Oid>,
                      lost: seq<LostCommit>)
    requires ListsSide(g, listing, f.newTip, f.oldTip)
    requires lost <= Described(content, WithFate(g, content, cache, f.newTip, f.oldTip, listing, Gone))
    ensures forall l :: l in lost ==>
      exists c :: c in WhoseFate(g, content, cache, f.newTip, f.oldTip, Gone) && l == content.describe(c)
  {
    var gone := WithFate(g, content, cache, f.newTip, f.oldTip, listing, Gone);
    WithFateMeaning(g, content, cache, f.newTip, f.oldTip, listing, Gone);
    hide WithFate, FateOf, Distinct, Side;
    forall l | l in lost
      ensures exists c :: c in WhoseFate(g, content, cache, f.newTip, f.oldTip, Gone) && l == content.describe(c)
    {
      var k :| 0 <= k < |lost| && lost[k] == l;
      assert Described(content, gone)[k] == content.describe(gone[k]) && gone[k] in gone;
    }
  }

  /** Classifying a reported overwrite of a branch counts its losses. */
  lemma ClassifiedCounts(g: ObjectGraph, content: Content, cache: Store, check: Check, raw: seq<ForcedRef>, i: nat)
    requires AnswersFor(g, content, cache, check) && i < |raw| && raw[i].ref.Branch?
    requires raw[i] == Unclassified(raw[i].ref, raw[i].oldTip, raw[i].newTip)
    ensures CountsLosses(g, content, cache, ClassifyAll(raw, check)[i])
  {
    var was, f := raw[i], ClassifyAll(raw, check)[i];
    ClassifiedTells(raw, check, i);
    hide ClassifyAll;
    if check(was.newTip, was.oldTip).Some? {
      var listing :| ListsSide(g, listing, was.newTip, was.oldTip)
        && check(was.newTip, was.oldTip) == Report(g, content, cache, was.newTip, was.oldTip, listing, true);
      hide AnswersFor, ListsSide, Report, Missing, OnlyElsewhere, WhoseFate, WithFate, Described, Side;
      ReportIsPartition(g, content, cache, was.newTip, was.oldTip, listing);
      FatesExactly(g, content, cache, f);
      DescribedOnes(g, content, cache, f, listing, f.lost);
    }
  }

  /** So a branch a successful mirror overwrote is on its event with what it lost, as git and the
      cache of its last step tell. */
  lemma LossesAreCounted(z: Setting, run: seq<State>, i: nat, tid: Tid, f: ForcedRef) returns (k: nat)
    requires IsRun(z, run) && i < |run| && tid in run[i].threads && run[i].threads[tid].task.MirrorTask?
    requires run[i].threads[tid].pc.Done? && f in run[i].threads[tid].pc.ev.forced && f.ref.Branch?
    ensures k < i && CacheOf(run[i].threads[tid].task.leg) in run[k].caches
    ensures CountsLosses(z.g, z.content, run[k].caches[CacheOf(run[i].threads[tid].task.leg)], f)
  {
    hide IsRun, ThreadStep, PlaceOK, Shaped, Blocked, CountsLosses, AnswersFor, Mine, Recorded, StepOf;
    var c;
    k, c := LastStep(z, run, i, tid);
    StepPC(z, run[k], tid, c);
    CallOK(z, run, k, tid);
    var t, v := run[k].threads[tid], Look(run[k], run[k].threads[tid].task.leg);
    SaneRun(z, run);
    OnlyReportsName(z, t, v, Mine(run[k].writes, tid), c);
    var raw := ReadAll(z, t.pc.outcomes).forced;
    var j :| 0 <= j < |raw| && ClassifyAll(raw, c.check)[j] == f;
    ClassifiedTells(raw, c.check, j);
    ClassifiedCounts(z.g, z.content, v.cache.value, c.check, raw, j);
  }

  /** Overwrites come on record only with a report, as the check classified them. */
  lemma OnlyReportsName(z: Setting, t: Thread, v: Sight, mine: seq<Write>, c: Choice)
    requires t.task.MirrorTask? && Ready(t, v.cache) && Sane(z) && !t.pc.Done? && StepOf(z, t, v, c).pc.Done?
    requires PlaceOK(z, t.task, if HoldsLock(t.pc) then v.cache else None, t.pc, mine)
    requires StepOf(z, t, v, c).pc.ev.forced != []
    ensures t.pc.Pushed? && v.cache.Some?
    ensures StepOf(z, t, v, c).pc.ev.forced == ClassifyAll(ReadAll(z, t.pc.outcomes).forced, c.check)
    ensures forall raw :: raw in ReadAll(z, t.pc.outcomes).forced ==>
      raw == Unclassified(raw.ref, raw.oldTip, raw.newTip)
  {
    DraftIsBlank(t.task);
    hide DraftOf, PushStatus, LetThrough, CurrentBatch, ReadAll, ClassifyAll, Interrupts, ResolveRefs, PlanFor, Fetch;
    hide Clone, Collect, Settled, Planned, MirrorTruth, Truthful, Told, Overridden, Summary;
    if t.pc.Pushed? {
      ToldIsLegal(z, v.cache.value, t.pc.plan, t.pc.outcomes, mine);
      ReadAllIsSummary(z, t.pc.outcomes);
      SummaryMeaning(t.pc.outcomes);
    }
  }

  // ---- which question a write was answered --------------------------------------------------------------------------

  /** A write of a mirror is marked as answered exactly when, at the plan step, git told whether the
      destination was ahead on that ref; and it carries the objects the cache held. */
  lemma AnsweredIsMeant(z: Setting, run: seq<State>, i: nat, tid: Tid, c: Choice)
    requires IsRun(z, run) && StepsHere(z, run, i, tid, c)
    requires run[i].threads[tid].task.MirrorTask? && run[i].threads[tid].pc.Pushing?
    requires |run[i + 1].writes| > |run[i].writes|
    ensures var w, leg := run[i + 1].writes[|run[i].writes|], run[i].threads[tid].task.leg;
      && (w.answered <==> w.ref !in run[i].threads[tid].pc.plan.unanswered.ancestry)
      && CacheOf(leg) in run[i].caches && w.known == run[i].caches[CacheOf(leg)].objs
  {
    var t, v := run[i].threads[tid], Look(run[i], run[i].threads[tid].task.leg);
    StepEffect(z, run[i], tid, StepOf(z, t, v, c));
    hide IsRun, Apply, LocksAfter, EntriesOf, DraftOf, NextOutcome, LetThrough, CurrentBatch, Honest;
  }
}
