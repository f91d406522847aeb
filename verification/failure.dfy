/** What a failed mirror hides: it returns with an error exactly when git died or something was
 * refused, and an overwrite it had made by then is named nowhere.
 */
module Failure {
  import opened Batch
  import opened Events
  import opened Git
  import opened Graph
  import opened Invariant
  import opened Loss
  import opened Plan
  import opened Porcelain
  import opened Protocol
  import opened Runs
  import opened Safety
  import opened Text

  /** The history names an overwrite of a returned mirror exactly when the mirror succeeded. */
  lemma OverwriteReportedExactly(z: Setting, run: seq<State>, i: nat, tid: Tid, w: Write)
    requires IsRun(z, run) && i < |run| && tid in run[i].threads
    requires run[i].threads[tid].task.MirrorTask? && run[i].threads[tid].pc.Done?
    requires w in run[i].writes && w.tid == tid && Overwrites(z.g, w)
    ensures var ev := run[i].threads[tid].pc.ev;
      (exists f :: f in ev.forced && SameChange(f, w)) <==> ev.result.ResultOK?
  {
    hide IsRun, Shaped, Overwrites, Truthful, Planned, Told, Settled;
    CallOK(z, run, i, tid);
    MineMeaning(run[i].writes, tid);
    assert w in Mine(run[i].writes, tid);
    hide Mine, Interrupts, ForcedReason;
  }

  predicate BatchEnds(outcomes: seq<RefOutcome>, plan: PushPlan) {
    outcomes != [] && (|outcomes| % 500 == 0 || |outcomes| >= |plan.specs|)
  }

  /** Among the outcomes of the git call the last one belongs to, every call taking 500 refs, one is
      a refusal that is no failed lease and quotes none. */
  predicate BatchRefused(outcomes: seq<RefOutcome>) {
    exists k :: (|outcomes| - 1) / 500 * 500 <= k < |outcomes| && k >= 0 && Refusal(outcomes[k])
  }

  lemma BatchRefusedExactly(outcomes: seq<RefOutcome>)
    requires outcomes != []
    ensures BatchRefused(outcomes) <==> exists o :: o in CurrentBatch(outcomes) && Refusal(o)
  {
    var start := BatchStart(|outcomes|);
    assert start == (|outcomes| - 1) / 500 * 500;
    hide Refusal, BatchStart;
    forall k | start <= k < |outcomes| ensures outcomes[k] == CurrentBatch(outcomes)[k - start] {}
    forall o | o in CurrentBatch(outcomes) && Refusal(o) ensures BatchRefused(outcomes) {
      var j :| 0 <= j < |CurrentBatch(outcomes)| && CurrentBatch(outcomes)[j] == o;
      assert outcomes[start + j] == o;
    }
  }

  /** The outcomes once the push in progress has git's answer to the next spec. */
  function WithNext(z: Setting, t: Thread, v: Sight, c: Choice): (outcomes: seq<RefOutcome>)
    requires t.pc.Pushing? && MirrorReady(t.pc, v.cache)
    ensures outcomes != []
  {
    t.pc.outcomes + [NextOutcome(z, t.pc.plan, t.pc.outcomes, v, c)]
  }

  /** Git dies here, or the batch this ref ends holds a refusal that is no failed lease and
      quotes none. */
  predicate PushBreaks(z: Setting, t: Thread, v: Sight, c: Choice)
    requires t.pc.Pushing? && MirrorReady(t.pc, v.cache)
  {
    c.dies || (BatchEnds(WithNext(z, t, v, c), t.pc.plan) && BatchRefused(WithNext(z, t, v, c)))
  }

  lemma VerdictExactly(z: Setting, t: Thread, v: Sight, mine: seq<Write>, c: Choice)
    requires t.task.MirrorTask? && t.pc.Pushing? && MirrorReady(t.pc, v.cache) && ValidSight(z, v)
    requires MirrorOK(z, t.task, v.cache, t.pc, mine) && (c.policy.Some? ==> OneLine(c.policy.value))
    ensures LetThrough(z, CurrentBatch(WithNext(z, t, v, c))) <==> !BatchRefused(WithNext(z, t, v, c))
  {
    ToldIsLegal(z, v.cache.value, t.pc.plan, t.pc.outcomes, mine);
    OutcomeIsLegal(z, t.pc.plan, t.pc.outcomes, v, c);
    hide NextOutcome, MirrorOK, Legal, Refusal, Benign, LetThrough, ReadBatch;
    var batch := CurrentBatch(WithNext(z, t, v, c));
    assert AllLegal(batch);
    ReadBatchIsSummary(z, batch);
    NotBenignExactly(batch);
    BatchRefusedExactly(WithNext(z, t, v, c));
    hide BatchRefused, CurrentBatch;
  }

  /** A mirror in the middle of its push returns at this step exactly when the push breaks,
      and then with a failure that names no overwrite and alerts about none. */
  lemma PushReturnsExactly(z: Setting, run: seq<State>, i: nat, tid: Tid, c: Choice)
    requires IsRun(z, run) && i < |run| && CanStep(z, run[i], tid, c)
    requires run[i].threads[tid].task.MirrorTask? && run[i].threads[tid].pc.Pushing?
    ensures var pc := ThreadStep(z, run[i], tid, c).threads[tid].pc;
      && (pc.Done? <==> PushBreaks(z, run[i].threads[tid], Look(run[i], run[i].threads[tid].task.leg), c))
      && (pc.Done? ==> pc.err && pc.ev.result.ResultFail? && pc.ev.forced == [] && !pc.alerted)
  {
    hide IsRun, PushBreaks, PlaceOK, StepOf;
    var s := run[i];
    var t, v := s.threads[tid], Look(s, s.threads[tid].task.leg);
    CallOK(z, run, i, tid);
    SightOK(z, run, i, tid);
    StepPC(z, s, tid, c);
    PlaceIsMirrorOK(z, t.task, v.cache, t.pc, Mine(s.writes, tid));
    hide ThreadStep, Look, MirrorOK, ValidSight, Mine;
    PushPCExactly(z, t, v, Mine(s.writes, tid), c);
  }

  lemma AfterOutcomeReturns(z: Setting, ev: Event, plan: PushPlan, outcomes: seq<RefOutcome>)
    requires outcomes != [] && ev.forced == []
    ensures var pc := AfterOutcome(z, ev, plan, outcomes);
      && (pc.Done? <==> BatchEnds(outcomes, plan) && !LetThrough(z, CurrentBatch(outcomes)))
      && (pc.Done? ==> pc.err && pc.ev.result.ResultFail? && pc.ev.forced == [] && !pc.alerted)
  {
    hide LetThrough, CurrentBatch;
  }

  lemma PushPC(z: Setting, t: Thread, v: Sight, c: Choice)
    requires t.task.MirrorTask? && t.pc.Pushing? && MirrorReady(t.pc, v.cache)
    ensures var ev := DraftOf(t.task).(held := t.pc.plan.held);
      StepOf(z, t, v, c).pc == if c.dies then Done(ev.With(ResultFail, ReasonPush), true, false)
                               else AfterOutcome(z, ev, t.pc.plan, WithNext(z, t, v, c))
  {
    hide AfterOutcome, NextOutcome, DraftOf;
  }

  lemma PushPCExactly(z: Setting, t: Thread, v: Sight, mine: seq<Write>, c: Choice)
    requires t.task.MirrorTask? && t.pc.Pushing? && MirrorReady(t.pc, v.cache) && ValidSight(z, v)
    requires MirrorOK(z, t.task, v.cache, t.pc, mine) && (c.policy.Some? ==> OneLine(c.policy.value))
    ensures var pc := StepOf(z, t, v, c).pc;
      && (pc.Done? <==> PushBreaks(z, t, v, c))
      && (pc.Done? ==> pc.err && pc.ev.result.ResultFail? && pc.ev.forced == [] && !pc.alerted)
  {
    VerdictExactly(z, t, v, mine, c);
    DraftIsBlank(t.task);
    PushPC(z, t, v, c);
    AfterOutcomeReturns(z, DraftOf(t.task).(held := t.pc.plan.held), t.pc.plan, WithNext(z, t, v, c));
    hide StepOf, WithNext, AfterOutcome, BatchEnds, MirrorOK, ValidSight, NextOutcome, CurrentBatch, LetThrough;
    hide DraftOf, BatchRefused, OneLine;
  }

  lemma PlaceIsMirrorOK(z: Setting, task: Task, cache: Option<Store>, pc: PC, mine: seq<Write>)
    requires task.MirrorTask? && PlaceOK(z, task, cache, pc, mine)
    ensures MirrorOK(z, task, cache, pc, mine)
  {
    hide MirrorOK;
  }

  lemma SightOK(z: Setting, run: seq<State>, i: nat, tid: Tid)
    requires IsRun(z, run) && i < |run| && tid in run[i].threads && Wired(run[i], run[i].threads[tid].task.leg)
    ensures ValidSight(z, Look(run[i], run[i].threads[tid].task.leg))
  {
    hide IsRun, ValidStore, PlaceOK;
    EveryStateOK(z, run, i);
    assert ViewOK(z, ViewOf(run[i], tid));
  }

  /** So a mirror that wrote returns a failure exactly when git died or a batch held such a
      refusal; every other return of one that wrote is the report's, a success. */
  lemma WroteAndFailedExactly(z: Setting, run: seq<State>, i: nat, tid: Tid, c: Choice)
    requires IsRun(z, run) && i < |run| && CanStep(z, run[i], tid, c) && run[i].threads[tid].task.MirrorTask?
    requires ThreadStep(z, run[i], tid, c).threads[tid].pc.Done?
    requires exists w :: w in ThreadStep(z, run[i], tid, c).writes && w.tid == tid
    ensures var t, pc := run[i].threads[tid], ThreadStep(z, run[i], tid, c).threads[tid].pc;
      && (t.pc.Pushing? || t.pc.Pushed?)
      && (pc.ev.result.ResultFail? <==> t.pc.Pushing? && PushBreaks(z, t, Look(run[i], t.task.leg), c))
      && (pc.ev.result.ResultOK? <==> t.pc.Pushed?)
  {
    hide IsRun, PushBreaks;
    if run[i].threads[tid].pc.Pushing? {
      PushReturnsExactly(z, run, i, tid, c);
    } else {
      WroteBeforeReport(z, run, i, tid, c);
    }
  }

  /** One such step: the first ref of a batch overwrote a branch, a hook declines the second,
      and the call returns a failure whose event names no overwrite. */
  lemma DeclinedAfterOverwrite(z: Setting, t: Thread, v: Sight, c: Choice, oldTip: Oid, newTip: Oid)
    requires t.task.MirrorTask? && t.pc.Pushing? && MirrorReady(t.pc, v.cache) && Sane(z) && !c.dies
    requires |t.pc.plan.specs| == 2 && t.pc.outcomes == [RefOutcome(t.pc.plan.specs[0].ref, Forced(oldTip, newTip))]
    requires Legal(t.pc.outcomes[0]) && LegalRef(t.pc.plan.specs[1].ref) && c.policy == Some("declined")
    requires LeaseHolds(v.to.refs, t.pc.plan.specs[1].ref, v.cache.value.refs[t.pc.plan.specs[1].ref],
                        t.pc.plan.specs[1].lease)
    ensures var pc := StepOf(z, t, v, c).pc;
      pc.Done? && pc.err && pc.ev.result.ResultFail? && pc.ev.forced == [] && !pc.alerted
  {
    var o := RefOutcome(t.pc.plan.specs[1].ref, Refused("declined"));
    assert NextOutcome(z, t.pc.plan, t.pc.outcomes, v, c) == o;
    DraftIsBlank(t.task);
    hide NextOutcome, DraftOf, LeaseHolds;
    DeclineBreaks(z, t.pc.outcomes[0], o);
    assert t.pc.outcomes == [t.pc.outcomes[0]] && t.pc.outcomes + [o] == [t.pc.outcomes[0], o];
    hide LetThrough, CurrentBatch, Legal, LegalRef;
  }

  lemma DeclineBreaks(z: Setting, first: RefOutcome, o: RefOutcome)
    requires Sane(z) && Legal(first) && LegalRef(o.ref) && o.status == Refused("declined")
    ensures !LetThrough(z, CurrentBatch([first, o]))
  {
    var batch := [first, o];
    ContainsMeansOccurs("declined", STALE_LEASE_MARKER);
    assert CurrentBatch(batch) == batch;
    assert Legal(o) && o in batch && Refusal(o);
    hide LetThrough, Benign, Legal, Refusal, Contains;
    assert AllLegal(batch);
    ReadBatchIsSummary(z, batch);
    NotBenignExactly(batch);
  }

  lemma WroteBeforeReport(z: Setting, run: seq<State>, i: nat, tid: Tid, c: Choice)
    requires IsRun(z, run) && i < |run| && CanStep(z, run[i], tid, c) && run[i].threads[tid].task.MirrorTask?
    requires !run[i].threads[tid].pc.Pushing? && ThreadStep(z, run[i], tid, c).threads[tid].pc.Done?
    requires exists w :: w in ThreadStep(z, run[i], tid, c).writes && w.tid == tid
    ensures run[i].threads[tid].pc.Pushed? && ThreadStep(z, run[i], tid, c).threads[tid].pc.ev.result.ResultOK?
  {
    hide IsRun, Shaped, PlaceOK;
    var s := run[i];
    var t, v := s.threads[tid], Look(s, s.threads[tid].task.leg);
    CallOK(z, run, i, tid);
    SaneRun(z, run);
    MineMeaning(s.writes, tid);
    StepEffect(z, s, tid, StepOf(z, t, v, c));
    hide Mine, Apply, StepOf, WritesOf;
    WroteThenReports(z, tid, t, v, Mine(s.writes, tid), c);
  }

  /** Outside the push no step writes, and a report of a call that wrote is a success. */
  lemma WroteThenReports(z: Setting, tid: Tid, t: Thread, v: Sight, mine: seq<Write>, c: Choice)
    requires t.task.MirrorTask? && Sane(z) && Ready(t, v.cache) && !t.pc.Pushing? && !t.pc.Done?
    requires PlaceOK(z, t.task, if HoldsLock(t.pc) then v.cache else None, t.pc, mine)
    requires StepOf(z, t, v, c).pc.Done?
    ensures WritesOf(tid, t.task, v, StepOf(z, t, v, c)) == []
    ensures mine != [] ==> t.pc.Pushed? && StepOf(z, t, v, c).pc.ev.result.ResultOK?
  {
    if t.pc.Pushed? {
      var cache, plan, outcomes := v.cache.value, t.pc.plan, t.pc.outcomes;
      ToldIsLegal(z, cache, plan, outcomes, mine);
      ReadAllIsSummary(z, outcomes);
      if !Summary(outcomes).changed { NothingMoved(z, cache, plan, outcomes, mine); }
    }
    hide DraftOf, ReadAll, Summary, ClassifyAll, Interrupts, ResolveRefs, PlanFor, Fetch, Clone, Collect, Overridden;
    hide Told, Planned, Settled, MirrorTruth, Truthful, AllLegal;
  }
}
