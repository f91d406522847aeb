/** What holds of every run: any number of calls at once, any outside writes between any
 * two steps, events lost, repeated or in any order.
 */
module Safety {
  import opened Config
  import opened Dispatch
  import opened Events
  import opened Gates
  import opened Git
  import opened Graph
  import opened Invariant
  import opened Loss
  import opened Plan
  import opened Porcelain
  import opened Protocol
  import opened Refs
  import opened Routing
  import opened Runs
  import opened Text

  lemma CallOK(z: Setting, run: seq<State>, i: nat, tid: Tid)
    requires IsRun(z, run) && i < |run| && tid in run[i].threads
    ensures var t := run[i].threads[tid];
      var cache := if HoldsLock(t.pc) then CacheAt(run[i], t.task.leg) else None;
      Shaped(z, t.task) && PlaceOK(z, t.task, cache, t.pc, Mine(run[i].writes, tid))
    ensures Recorded(run[i].log, tid) == if run[i].threads[tid].pc.Done? then [run[i].threads[tid].pc.ev] else []
  {
    hide IsRun, PlaceOK, Shaped, ValidConfig;
    EveryStateOK(z, run, i);
    assert ViewOK(z, ViewOf(run[i], tid));
  }

  lemma ChangeOK(z: Setting, run: seq<State>, i: nat, w: Write)
    requires IsRun(z, run) && i < |run| && w in run[i].writes
    ensures WriteOK(z, w) && w.tid in run[i].threads && run[i].threads[w.tid].task == w.task
  {
    hide IsRun, WriteOK, ValidConfig;
    EveryStateOK(z, run, i);
  }

  // ---- every change the service makes is one of the recorded ones --------------------------

  /** A step of the service changes a ref only by a recorded write, which says exactly what
      changed: nothing else moves, on any remote. */
  lemma EveryChangeIsAWrite(z: Setting, run: seq<State>, i: nat, tid: Tid, c: Choice, p: Place, ref: Ref)
    requires IsRun(z, run) && i < |run| && CanStep(z, run[i], tid, c) && p in run[i].remotes
    ensures var s, s' := run[i], ThreadStep(z, run[i], tid, c);
      && s.writes <= s'.writes && p in s'.remotes
      && (Tip(s'.remotes[p].refs, ref) != Tip(s.remotes[p].refs, ref) ==>
            && |s'.writes| == |s.writes| + 1
            && var w := s'.writes[|s.writes|];
              w.tid == tid && w.at == p && w.ref == ref
              && w.oldTip == Tip(s.remotes[p].refs, ref) && w.newTip == Tip(s'.remotes[p].refs, ref))
  {
    var s := run[i];
    var t, v := s.threads[tid], Look(s, s.threads[tid].task.leg);
    var act := StepOf(z, t, v, c);
    StepEffect(z, s, tid, act);
    StepRemoteEffect(z, s, tid, act);
    if act.write.Some? { WrittenTip(z.g, v.to, act.write.value, ref); }
    hide StepOf, Apply, Written, Tip, IsRun, Honest, Ready;
  }

  lemma WrittenTip(g: ObjectGraph, remote: Store, w: RefWrite, ref: Ref)
    ensures Tip(Written(g, remote, w).refs, ref) == if ref == w.ref then w.newTip else Tip(remote.refs, ref)
  {
  }

  /** At most one call of a repo is between its first step and its return. */
  lemma OneCallPerRepo(z: Setting, run: seq<State>, i: nat, t: Tid, u: Tid)
    requires IsRun(z, run) && i < |run| && t in run[i].threads && u in run[i].threads
    requires HoldsLock(run[i].threads[t].pc) && HoldsLock(run[i].threads[u].pc)
    requires run[i].threads[t].task.leg.repo.name == run[i].threads[u].task.leg.repo.name
    ensures t == u
  {
    hide IsRun;
    EveryStateOK(z, run, i);
  }

  // ---- a guarded mirror discards only what its own side held ---------------------------------

  /** Whatever happened between the check and the write, an unforced mirror that replaces a
      tip discards only objects its own side once held, and never winds a ref back to an
      ancestor of the tip it replaces unless git failed to answer that question. */
  lemma GuardedMirrorDiscardsOnlySeen(z: Setting, run: seq<State>, i: nat, w: Write)
    requires IsRun(z, run) && i < |run| && w in run[i].writes
    requires w.task.MirrorTask? && !w.task.meta.force && w.oldTip != NO_OBJECT
    ensures FromPlace(w.task.leg) in run[i].seen
    ensures Ancestors(z.g, w.oldTip) <= w.known <= run[i].seen[FromPlace(w.task.leg)]
    ensures w.answered ==> !IsAncestor(z.g, w.newTip, w.oldTip)
    ensures w.newTip != NO_OBJECT && Ancestors(z.g, w.newTip) <= w.known
  {
    hide IsRun, ValidConfig;
    EveryStateOK(z, run, i);
    assert WriteOK(z, w);
    hide Inv, IsAncestor;
  }

  // ---- authority -------------------------------------------------------------------------------

  predicate Sends(pc: PC, sp: PushSpec) { pc.Pushing? && sp in pc.plan.specs }

  predicate Withholds(pc: PC, h: HeldRef) { (pc.Pushing? && h in pc.plan.held) || (pc.Done? && h in pc.ev.held) }

  lemma StepPC(z: Setting, s: State, tid: Tid, c: Choice)
    requires CanStep(z, s, tid, c)
    ensures var s' := ThreadStep(z, s, tid, c);
      && tid in s'.threads
      && s'.threads[tid] == s.threads[tid].(pc := StepOf(z, s.threads[tid], Look(s, s.threads[tid].task.leg), c).pc)
  {
    hide StepOf, Apply, Look, Ready, Honest, Blocked;
    StepEffect(z, s, tid, StepOf(z, s.threads[tid], Look(s, s.threads[tid].task.leg), c));
  }

  lemma AheadIsPlanned(z: Setting, task: Task, want: seq<Ref>, v: Sight, c: Choice, ref: Ref)
    requires task.MirrorTask? && !task.meta.force && v.cache.Some? && c.works && ref in want
    requires ref in v.cache.value.refs && ref in v.to.refs && v.to.refs[ref] != v.cache.value.refs[ref]
    requires IsAncestor(z.g, v.cache.value.refs[ref], v.to.refs[ref]) && HasObject(v.cache.value, v.to.refs[ref])
    requires ref !in c.unanswered.objects
    ensures var tip, pc := v.to.refs[ref], PlanStep(z, DraftOf(task), task.meta, want, v, c).pc;
      && (Sends(pc, PushSpec(ref, tip)) <==> ref in c.unanswered.ancestry)
      && (Withholds(pc, HeldRef(ref, HoldDestinationAhead, tip)) <==> ref !in c.unanswered.ancestry)
  {
    DraftIsBlank(task);
    PlanMeaning(z.g, v.cache.value, v.to.refs, want, false, task.meta.forceLease, c.unanswered);
    hide PlanFor, DraftOf, IsAncestor;
  }

  /** At a mirror's plan step, a destination whose tip the cache holds and which is ahead is
      sent for overwriting exactly when git failed to say that it is ahead; otherwise it is
      withheld, with that tip. */
  lemma AheadIsSentExactly(z: Setting, run: seq<State>, i: nat, tid: Tid, c: Choice, ref: Ref)
    requires IsRun(z, run) && i < |run| && CanStep(z, run[i], tid, c) && c.works
    requires var t := run[i].threads[tid];
      t.task.MirrorTask? && !t.task.meta.force && t.pc.Resolved? && ref in t.pc.want
    requires var v := Look(run[i], run[i].threads[tid].task.leg);
      && ref in v.cache.value.refs && ref in v.to.refs && v.to.refs[ref] != v.cache.value.refs[ref]
      && IsAncestor(z.g, v.cache.value.refs[ref], v.to.refs[ref]) && HasObject(v.cache.value, v.to.refs[ref])
      && ref !in c.unanswered.objects
    ensures var tip, pc := run[i].remotes[ToPlace(run[i].threads[tid].task.leg)].refs[ref],
      ThreadStep(z, run[i], tid, c).threads[tid].pc;
      && (Sends(pc, PushSpec(ref, tip)) <==> ref in c.unanswered.ancestry)
      && (Withholds(pc, HeldRef(ref, HoldDestinationAhead, tip)) <==> ref !in c.unanswered.ancestry)
  {
    var s := run[i];
    var t, v := s.threads[tid], Look(s, s.threads[tid].task.leg);
    StepPC(z, s, tid, c);
    AheadIsPlanned(z, t.task, t.pc.want, v, c, ref);
    hide IsRun, ThreadStep, Honest, IsAncestor, PlanStep, Sends, Withholds, CacheAt;
  }

  lemma {:induction false} OneLegPerPlace(repos: seq<RepoConfig>, a: Leg, b: Leg)
    requires Distinct(EndpointKeys(repos)) && a.repo in repos && b.repo in repos
    requires ToPlace(a) == ToPlace(b)
    ensures a == b
  {
    var i := KeyPositions(repos, a.repo);
    var j := KeyPositions(repos, b.repo);
    var m := if a.toTarget then 2 * i + 1 else 2 * i;
    var n := if b.toTarget then 2 * j + 1 else 2 * j;
    hide EndpointKeys;
    assert EndpointKeys(repos)[m] == ToPlace(a).provider + "/" + ToPlace(a).path;
    assert EndpointKeys(repos)[n] == ToPlace(b).provider + "/" + ToPlace(b).path;
    DistinctPositions(EndpointKeys(repos), m, n);
  }

  /** Every change the service ever makes is on the destination of a leg its repo's
      direction permits, never on the side the first matching override keeps
      authoritative, and no other leg of the configuration reaches that place. */
  lemma EveryWriteIsAuthorised(z: Setting, run: seq<State>, i: nat, w: Write)
    requires IsRun(z, run) && i < |run| && w in run[i].writes
    ensures Authorised(z.cfg.repos, w.task.leg) && w.at == ToPlace(w.task.leg)
    ensures var ov := MatchRefOverride(w.task.leg.repo.refOverrides, w.ref.ShortName(), z.glob);
      ov.Some? ==> ov.value.to == w.at.provider && ov.value.from != w.at.provider
    ensures forall leg: Leg :: leg.repo in z.cfg.repos && ToPlace(leg) == w.at ==> leg == w.task.leg
    ensures var r := w.task.leg.repo;
      || (w.at == Place(r.target, r.targetPath) && Lower(r.direction) in [SOURCE_TO_TARGET, BIDIRECTIONAL])
      || (w.at == Place(r.source, r.sourcePath) && Lower(r.direction) in [TARGET_TO_SOURCE, BIDIRECTIONAL])
  {
    hide IsRun;
    EveryStateOK(z, run, i);
    assert WriteOK(z, w);
    var own := w.task.leg;
    assert ValidRepo(own.repo, z.cfg.providers, z.legalPattern);
    hide Inv, Lower, ValidOverrides, ValidRetryDirection, ValidDirection, EndpointKeys, Distinct, Names;
    forall leg: Leg | leg.repo in z.cfg.repos && ToPlace(leg) == w.at ensures leg == own {
      OneLegPerPlace(z.cfg.repos, leg, own);
    }
    AuthorisedEnd(own);
  }

  lemma AuthorisedEnd(leg: Leg)
    requires leg.Allowed()
    ensures var r := leg.repo;
      || (ToPlace(leg) == Place(r.target, r.targetPath) && Lower(r.direction) in [SOURCE_TO_TARGET, BIDIRECTIONAL])
      || (ToPlace(leg) == Place(r.source, r.sourcePath) && Lower(r.direction) in [TARGET_TO_SOURCE, BIDIRECTIONAL])
  {
  }

  // ---- force -------------------------------------------------------------------------------------

  /** A forced call changes at most one ref: the one it names, and only from exactly the
      tip its caller named; the reconcile cron never forces. */
  lemma ForceIsPinned(z: Setting, run: seq<State>, i: nat, w: Write)
    requires IsRun(z, run) && i < |run| && w in run[i].writes && w.task.MirrorTask? && w.task.meta.force
    ensures w.task.meta.ref == Some(w.ref) && w.oldTip == w.task.meta.forceLease && w.oldTip != NO_OBJECT
    ensures w.task.meta.source == SourceRetryAPI || w.task.meta.source == SourceConsole
    ensures forall u :: u in run[i].writes && u.tid == w.tid ==> u == w
    ensures |Mine(run[i].writes, w.tid)| == 1
  {
    hide IsRun, Mine, Guarded, Authorised, Planned, Told, MirrorTruth, Truthful;
    ChangeOK(z, run, i, w);
    CallOK(z, run, i, w.tid);
    MineMeaning(run[i].writes, w.tid);
    var mine := Mine(run[i].writes, w.tid);
    assert w in mine && |mine| <= 1;
    forall u | u in run[i].writes && u.tid == w.tid ensures u == w { assert u in mine; }
  }

  /** From the moment a console force exists, the history holds an event of the same repo,
      to the same destination, that withheld the same ref at exactly the named tip. */
  lemma ConsoleForceWasShown(z: Setting, run: seq<State>, i: nat, tid: Tid)
    requires IsRun(z, run) && i < |run| && tid in run[i].threads
    requires var task := run[i].threads[tid].task;
      task.MirrorTask? && task.meta.force && task.meta.source == SourceConsole
    ensures var task := run[i].threads[tid].task;
      && task.meta.ref.Some?
      && (exists e :: e in run[i].log && e.ev.repo == task.leg.repo.name
                      && NamesDestination(z.cfg.providers, task.leg, e.ev.to)
                      && IsHoldOf(e.ev, e.ev.to, task.meta.ref.value, task.meta.forceLease))
  {
    hide IsRun, IsHoldOf, NamesDestination;
    var task, evs := run[i].threads[tid].task, LoggedEvents(run[i].log);
    EvidenceHolds(z, run, i, tid);
    var ev :| ev in evs && ev.repo == task.leg.repo.name && NamesDestination(z.cfg.providers, task.leg, ev.to)
              && IsHoldOf(ev, ev.to, task.meta.ref.value, task.meta.forceLease);
    var k :| 0 <= k < |evs| && evs[k] == ev;
    assert run[i].log[k] in run[i].log && run[i].log[k].ev == ev;
  }

  lemma EvidenceHolds(z: Setting, run: seq<State>, i: nat, tid: Tid)
    requires IsRun(z, run) && i < |run| && tid in run[i].threads
    ensures Evidence(z, LoggedEvents(run[i].log), run[i].threads[tid].task)
  {
    hide IsRun, Evidence, ValidConfig;
    EveryStateOK(z, run, i);
  }

  // ---- restores fill holes -----------------------------------------------------------------------

  /** A restore only ever creates a ref that does not exist at that moment, at the commit
      some recorded delete removed it from. */
  lemma RestoreOnlyFillsHoles(z: Setting, run: seq<State>, i: nat, w: Write)
    requires IsRun(z, run) && i < |run| && w in run[i].writes && w.task.RestoreTask?
    ensures w.oldTip == NO_OBJECT && w.newTip == w.task.sha && w.ref == w.task.ref
    ensures exists ev :: ev in LoggedEvents(run[i].log) && ev.repo == w.task.leg.repo.name
              && NamesDestination(z.cfg.providers, w.task.leg, ev.to) && IsDeleteOf(ev, ev.to, w.ref, w.newTip)
  {
    hide IsRun, IsDeleteOf, NamesDestination, LoggedEvents;
    ChangeOK(z, run, i, w);
    EvidenceHolds(z, run, i, w.tid);
  }

  /** A successful delete step: the ref goes, whatever it pointed at by then; the event
      carries the tip read earlier, so it names what was removed exactly when nobody wrote
      in between. */
  lemma DeleteStepExactly(z: Setting, run: seq<State>, i: nat, tid: Tid, c: Choice)
    requires IsRun(z, run) && i < |run| && CanStep(z, run[i], tid, c)
    requires run[i].threads[tid].task.DeleteTask? && run[i].threads[tid].pc.DeleteChecked?
    ensures var s, s', t := run[i], ThreadStep(z, run[i], tid, c), run[i].threads[tid];
      var refs, pc := s.remotes[ToPlace(t.task.leg)].refs, s'.threads[tid].pc;
      && s'.threads[tid].task == t.task && pc.Done?
      && (pc.ev.result.ResultOK? ==>
            && t.task.ref in refs
            && s'.remotes[ToPlace(t.task.leg)].refs == refs - {t.task.ref}
            && s'.writes == s.writes + [s'.writes[|s.writes|]]
            && s'.writes[|s.writes|].oldTip == Tip(refs, t.task.ref)
            && (pc.ev.deletedTip == s'.writes[|s.writes|].oldTip <==> t.pc.tip == Tip(refs, t.task.ref))
            && pc.ev.deletedTip == t.pc.tip)
  {
    var s := run[i];
    var t, v := s.threads[tid], Look(s, s.threads[tid].task.leg);
    var act := StepOf(z, t, v, c);
    StepEffect(z, s, tid, act);
    StepRemoteEffect(z, s, tid, act);
    hide Apply, IsRun, Tip, DraftOf;
  }

  /** A successful restore step leaves the ref at the requested commit and changes no other. */
  lemma RestoreStepExactly(z: Setting, run: seq<State>, i: nat, tid: Tid, c: Choice)
    requires IsRun(z, run) && i < |run| && CanStep(z, run[i], tid, c)
    requires run[i].threads[tid].task.RestoreTask? && run[i].threads[tid].pc.ObjectReady?
    ensures var s, s', t := run[i], ThreadStep(z, run[i], tid, c), run[i].threads[tid];
      var refs, pc := s.remotes[ToPlace(t.task.leg)].refs, s'.threads[tid].pc;
      && s'.threads[tid].task == t.task && pc.Done?
      && (pc.ev.result.ResultOK? ==>
            && s'.remotes[ToPlace(t.task.leg)].refs == refs[t.task.ref := t.task.sha]
            && pc.ev.restoredTip == t.task.sha
            && (Tip(refs, t.task.ref) == NO_OBJECT || Tip(refs, t.task.ref) == t.task.sha))
  {
    hide IsRun, DraftOf, Apply, ValidStore;
    CallOK(z, run, i, tid);
    var s := run[i];
    var t, v := s.threads[tid], Look(s, s.threads[tid].task.leg);
    StepEffect(z, s, tid, StepOf(z, t, v, c));
    StepRemoteEffect(z, s, tid, StepOf(z, t, v, c));
    RestoredRefs(z.g, v.to, t.task.ref, t.task.sha);
    hide PlaceOK, Written, CacheAt, WritesOf, EntriesOf, LocksAfter;
  }

  lemma RestoredRefs(g: ObjectGraph, remote: Store, ref: Ref, sha: Oid)
    requires sha != NO_OBJECT
    ensures Written(g, remote, RefWrite(ref, sha, true)).refs == remote.refs[ref := sha]
    ensures Tip(remote.refs, ref) == sha ==> ref in remote.refs && remote.refs == remote.refs[ref := sha]
    ensures Tip(remote.refs, ref) == NO_OBJECT && ref in remote.refs ==> remote.refs[ref] == NO_OBJECT
  {
  }

  /** Deleting a ref and restoring the recorded tip, with no other write between check and
      delete or between delete and restore, gives back exactly the refs there were. */
  lemma DeleteThenRestoreIsIdentity(z: Setting, run: seq<State>, i: nat, d: Tid, dc: Choice, j: nat, r: Tid, rc: Choice)
    requires IsRun(z, run) && i + 1 <= j < |run| - 1
    requires CanStep(z, run[i], d, dc) && run[i + 1] == ThreadStep(z, run[i], d, dc)
    requires CanStep(z, run[j], r, rc) && run[j + 1] == ThreadStep(z, run[j], r, rc)
    requires run[i].threads[d].task.DeleteTask? && run[i].threads[d].pc.DeleteChecked?
    requires run[j].threads[r].task.RestoreTask? && run[j].threads[r].pc.ObjectReady?
    requires var del, res := run[i + 1].threads[d], run[j + 1].threads[r];
      && del.pc.Done? && del.pc.ev.result.ResultOK? && res.pc.Done? && res.pc.ev.result.ResultOK?
      && ToPlace(res.task.leg) == ToPlace(del.task.leg) && res.task.ref == del.task.ref &&
        res.task.sha == del.pc.ev.deletedTip
    requires var at := ToPlace(run[i].threads[d].task.leg);
      && Tip(run[i].remotes[at].refs, run[i].threads[d].task.ref) == run[i].threads[d].pc.tip
      && run[j].remotes[at].refs == run[i + 1].remotes[at].refs
    ensures var at := ToPlace(run[i].threads[d].task.leg);
      run[j + 1].remotes[at].refs == run[i].remotes[at].refs
    ensures run[j + 1].threads[r].pc.ev.restoredTip == run[i + 1].threads[d].pc.ev.deletedTip
  {
    hide CanStep, ThreadStep, IsRun;
    DeleteStepExactly(z, run, i, d, dc);
    RestoreStepExactly(z, run, j, r, rc);
  }

  /** Without that hypothesis the record can name another commit: the delete carries no
      lease, so a push landing after the check is removed under the tip read before it. */
  lemma DeleteIsNotLeased(z: Setting, task: Task, v: Sight, c: Choice, checked: Oid)
    requires task.DeleteTask? && c.works && task.ref in v.to.refs && checked != NO_OBJECT
    requires v.to.refs[task.ref] != checked
    ensures var act := DeleteStep(z, task, DeleteChecked(checked), v, c);
      && act.write == Some(RefWrite(task.ref, NO_OBJECT, true))
      && act.pc.Done? && act.pc.ev.result == ResultOK && act.pc.ev.deletedTip == checked
  {
    hide DraftOf;
  }

  // ---- the history tells the truth -----------------------------------------------------------------

  /** The state a step of this call led to by returning. */
  predicate ReturnsAt(run: seq<State>, k: nat, tid: Tid) {
    && 0 < k < |run| && tid in run[k - 1].threads && !run[k - 1].threads[tid].pc.Done?
    && tid in run[k].threads && run[k].threads[tid].pc.Done?
  }

  /** Where a call that says it deleted or restored a ref left it. */
  predicate LeftAt(t: Thread, refs: RefMap) {
    match t.task
    case DeleteTask(_, ref, _) => Tip(refs, ref) == NO_OBJECT
    case RestoreTask(_, ref, sha, _) => Tip(refs, ref) == sha
    case _ => true
  }

  /** A delete's or a restore's success is decided at its last step, by what that step left. */
  lemma SuccessfulReturn(z: Setting, run: seq<State>, i: nat, tid: Tid, c: Choice)
    requires IsRun(z, run) && i < |run| && CanStep(z, run[i], tid, c) && !run[i].threads[tid].task.MirrorTask?
    requires var pc := ThreadStep(z, run[i], tid, c).threads[tid].pc;
      pc.Done? && pc.ev.result.ResultOK?
    ensures var s', t := ThreadStep(z, run[i], tid, c), run[i].threads[tid];
      && s'.threads[tid].task == t.task && ToPlace(t.task.leg) in s'.remotes
      && LeftAt(t, s'.remotes[ToPlace(t.task.leg)].refs)
  {
    var s := run[i];
    var t, v := s.threads[tid], Look(s, s.threads[tid].task.leg);
    StepEffect(z, s, tid, StepOf(z, t, v, c));
    OnlyTheLastSucceeds(z, t, v, c);
    hide IsRun, Apply, StepOf, Honest, Ready, Blocked, Look;
    if t.task.DeleteTask? { DeleteStepExactly(z, run, i, tid, c); } else { RestoreStepExactly(z, run, i, tid, c); }
  }

  lemma OnlyTheLastSucceeds(z: Setting, t: Thread, v: Sight, c: Choice)
    requires !t.task.MirrorTask? && !t.pc.Done? && StepOf(z, t, v, c).pc.Done?
    requires StepOf(z, t, v, c).pc.ev.result.ResultOK?
    ensures if t.task.DeleteTask? then t.pc.DeleteChecked? else t.pc.ObjectReady?
  {
    hide DraftOf;
  }

  /** So at the moment a call returned with a success, the ref it deleted was gone from the
      destination, and the one it restored was there at the requested commit. */
  lemma {:induction false} SuccessWasReal(z: Setting, run: seq<State>, i: nat, tid: Tid)
    requires IsRun(z, run) && i < |run| && tid in run[i].threads && !run[i].threads[tid].task.MirrorTask?
    requires run[i].threads[tid].pc.Done? && run[i].threads[tid].pc.ev.result.ResultOK?
    ensures var t := run[i].threads[tid];
      exists k: nat :: k <= i && ReturnsAt(run, k, tid) && ToPlace(t.task.leg) in run[k].remotes
                       && LeftAt(t, run[k].remotes[ToPlace(t.task.leg)].refs)
  {
    hide IsRun, Next, LeftAt;
    RunStep(z, run, i);
    if i > 0 {
      ReturnedBefore(z, run, i - 1, tid);
      if !ReturnsAt(run, i, tid) { SuccessWasReal(z, run, i - 1, tid); }
    }
  }

  /** A returned call was there before: unchanged, or at its last step. */
  lemma ReturnedBefore(z: Setting, run: seq<State>, i: nat, tid: Tid)
    requires IsRun(z, run) && i + 1 < |run| && Next(z, run[i], run[i + 1]) && tid in run[i + 1].threads
    requires var t := run[i + 1].threads[tid];
      !t.task.MirrorTask? && t.pc.Done? && t.pc.ev.result.ResultOK?
    ensures tid in run[i].threads
    ensures run[i].threads[tid].pc.Done? ==> run[i].threads[tid] == run[i + 1].threads[tid]
    ensures var t := run[i + 1].threads[tid];
      !run[i].threads[tid].pc.Done? ==>
        ToPlace(t.task.leg) in run[i + 1].remotes && LeftAt(t, run[i + 1].remotes[ToPlace(t.task.leg)].refs)
  {
    var s, s' := run[i], run[i + 1];
    hide IsRun, CanStep, ThreadStep, Admitted, ApplyMove, Arrive, LeftAt;
    var st :| Can(z, s, st) && s' == Do(z, s, st);
    if st.Steps? {
      OthersKeep(z, s, st.tid, st.choice);
      hide Do;
      if st.tid == tid { SuccessfulReturn(z, run, i, tid, st.choice); SameLeft(run[i].threads[tid], s'.threads[tid]); }
    } else {
      OnlyStepsReturn(z, s, st);
      hide Do;
    }
  }

  lemma OnlyStepsReturn(z: Setting, s: State, st: Step)
    requires Can(z, s, st) && !st.Steps?
    ensures forall u :: u in Do(z, s, st).threads ==>
      if u in s.threads then Do(z, s, st).threads[u] == s.threads[u] else Do(z, s, st).threads[u].pc.Waiting?
  {
    hide CanStep, ThreadStep, Admitted, ApplyMove, RouteOf, TaskOf, RefusalEntries;
  }

  lemma SameLeft(t: Thread, t': Thread)
    requires t.task == t'.task
    ensures forall refs :: LeftAt(t, refs) <==> LeftAt(t', refs)
  {
  }

  lemma OthersKeep(z: Setting, s: State, tid: Tid, c: Choice)
    requires CanStep(z, s, tid, c)
    ensures tid in s.threads && !s.threads[tid].pc.Done? && ThreadStep(z, s, tid, c).threads.Keys == s.threads.Keys
    ensures forall u :: u in s.threads && u != tid ==> ThreadStep(z, s, tid, c).threads[u] == s.threads[u]
  {
    hide StepOf, Apply, Look, Ready, Honest, Blocked;
    StepEffect(z, s, tid, StepOf(z, s.threads[tid], Look(s, s.threads[tid].task.leg), c));
  }

  /** A call has recorded nothing until it returns and exactly one event from then on; it
      returned an error exactly when that event is a failure; a skip changed nothing; a
      mirror's success changed something and its event names exactly its overwrites; a
      delete's success removed its ref and changed nothing else; a restore's success names the
      requested commit; and when either returned, the destination was as it says. */
  lemma HistoryTellsTruth(z: Setting, run: seq<State>, i: nat, tid: Tid)
    requires IsRun(z, run) && i < |run| && tid in run[i].threads
    ensures var s, t := run[i], run[i].threads[tid];
      && (!t.pc.Done? ==> Recorded(s.log, tid) == [])
      && (t.pc.Done? ==>
            && Recorded(s.log, tid) == [t.pc.ev]
            && t.pc.ev.repo == t.task.leg.repo.name
            && t.pc.ev.to == Endpoint(t.task.leg.ToProvider(), t.task.leg.ToPath())
            && (t.pc.err <==> t.pc.ev.result.ResultFail?)
            && (t.pc.ev.result.ResultSkip? ==> forall w :: w in s.writes ==> w.tid != tid)
            && (t.pc.ev.result.ResultOK? && t.task.MirrorTask? ==>
                MirrorTruth(z, t.pc.ev, t.pc.alerted, Mine(s.writes, tid)))
            && (t.pc.ev.result.ResultOK? && t.task.DeleteTask? ==>
                  exists w :: w in s.writes && w.tid == tid && w.ref == t.task.ref && w.newTip == NO_OBJECT != w.oldTip
                              && forall u :: u in s.writes && u.tid == tid ==> u == w)
            && (t.pc.ev.result.ResultOK? && t.task.RestoreTask? ==> t.pc.ev.restoredTip == t.task.sha)
            && (t.pc.ev.result.ResultOK? && !t.task.MirrorTask? ==>
                  exists k: nat :: k <= i && ReturnsAt(run, k, tid) && ToPlace(t.task.leg) in run[k].remotes
                                   && LeftAt(t, run[k].remotes[ToPlace(t.task.leg)].refs)))
  {
    hide IsRun, Shaped, MirrorTruth, Truthful, LeftAt, ReturnsAt, PlaceOK, Mine, Recorded;
    CallOK(z, run, i, tid);
    var s, t := run[i], run[i].threads[tid];
    MineMeaning(s.writes, tid);
    var mine := Mine(s.writes, tid);
    if t.pc.Done? {
      ReturnMeans(z, t.task, None, t.pc, mine);
      WhatTruthfulSays(t.task, t.pc.ev, t.pc.err, mine);
      if t.pc.ev.result.ResultOK? && !t.task.MirrorTask? { SuccessWasReal(z, run, i, tid); }
    }
  }

  /** What is known of a call that returned. */
  lemma ReturnMeans(z: Setting, task: Task, cache: Option<Store>, pc: PC, mine: seq<Write>)
    requires PlaceOK(z, task, cache, pc, mine) && pc.Done?
    ensures Truthful(task, pc.ev, pc.err, mine)
    ensures task.MirrorTask? && !pc.ev.result.ResultOK? ==> pc.ev.forced == []
    ensures task.MirrorTask? && pc.ev.result.ResultOK? ==> MirrorTruth(z, pc.ev, pc.alerted, mine)
    ensures task.DeleteTask? && pc.ev.result.ResultOK? ==>
      exists w ::
        w in mine && w.ref == task.ref && w.newTip == NO_OBJECT != w.oldTip && forall u :: u in mine ==> u == w
    ensures task.RestoreTask? && pc.ev.result.ResultOK? ==> pc.ev.restoredTip == task.sha
  {
    hide MirrorTruth, Truthful;
    if task.DeleteTask? && pc.ev.result.ResultOK? {
      assert mine[0] in mine;
      assert forall u :: u in mine ==> u == mine[0];
    }
  }

  lemma RecordedIsRecordable(z: Setting, run: seq<State>, i: nat, tid: Tid)
    requires IsRun(z, run) && i < |run| && tid in run[i].threads && run[i].threads[tid].pc.Done?
    ensures Recordable(run[i].threads[tid].pc.ev)
  {
    hide IsRun, Authorised, Recorded, Mine;
    CallOK(z, run, i, tid);
    var t := run[i].threads[tid];
    ReturnMeans(z, t.task, None, t.pc, Mine(run[i].writes, tid));
    hide PlaceOK, GatedMeta, MirrorTruth, ForcedReason;
    DraftIsBlank(t.task);
  }

  lemma RefusalsAreRecordable(z: Setting, r: Request, e: RouteError)
    ensures forall x :: x in RefusalEntries(z, r, e) ==> Recordable(x.ev)
  {
    hide FindRepo, LegTo;
  }

  /** So every event of the history is one the pages and the gates are judged on, as long as the
      events an earlier run left are. */
  lemma {:induction false} HistoryIsRecordable(z: Setting, run: seq<State>, i: nat)
    requires IsRun(z, run) && i < |run| && forall x :: x in run[0].log ==> Recordable(x.ev)
    ensures forall x :: x in run[i].log ==> Recordable(x.ev)
  {
    hide IsRun, Next, Recordable;
    RunStep(z, run, i);
    if i > 0 {
      HistoryIsRecordable(z, run, i - 1);
      forall x | x in run[i].log ensures Recordable(x.ev) {
        NewEntries(z, run[i - 1], run[i], x);
        if tid: Tid :| tid in run[i].threads && run[i].threads[tid].pc.Done? && x.ev == run[i].threads[tid].pc.ev {
          RecordedIsRecordable(z, run, i, tid);
        }
      }
    }
  }

  /** A step adds to the history what a call returned with, or what a refusal records. */
  lemma NewEntries(z: Setting, s: State, s': State, x: Entry)
    requires Next(z, s, s') && x in s'.log
    ensures x in s.log || Recordable(x.ev) ||
      exists tid :: tid in s'.threads && s'.threads[tid].pc.Done? && x.ev == s'.threads[tid].pc.ev
  {
    hide StepOf, Apply, Look, Ready, Honest, Blocked, Admitted, ApplyMove, RouteOf, TaskOf, RefusalEntries, Recordable;
    var st :| Can(z, s, st) && s' == Do(z, s, st);
    match st
    case OutsideMove(_, _) =>
    case Arrives(_, r) => if RouteOf(z, r).Refuse? { RefusalsAreRecordable(z, r, RouteOf(z, r).error); }
    case Steps(tid, c) =>
      var act := StepOf(z, s.threads[tid], Look(s, s.threads[tid].task.leg), c);
      StepEffect(z, s, tid, act);
      if x !in s.log { assert tid in s'.threads && s'.threads[tid].pc == act.pc && act.pc.Done? && x.ev == act.pc.ev; }
  }

  lemma WhatTruthfulSays(task: Task, ev: Event, err: bool, mine: seq<Write>)
    ensures Truthful(task, ev, err, mine) ==>
      && ev.repo == task.leg.repo.name && ev.to == Endpoint(task.leg.ToProvider(), task.leg.ToPath())
      && (err <==> ev.result.ResultFail?) && (ev.result.ResultSkip? ==> mine == [])
  {
  }

  lemma LegFacts(z: Setting, run: seq<State>, i: nat, tid: Tid)
    requires IsRun(z, run) && i < |run| && tid in run[i].threads
    ensures var leg := run[i].threads[tid].task.leg;
      && Authorised(z.cfg.repos, leg) && Distinct(Names(z.cfg.repos))
      && leg.repo.source != leg.repo.target && ValidDirection(Lower(leg.repo.direction))
  {
    hide IsRun, PlaceOK, Lower, ValidDirection;
    EveryStateOK(z, run, i);
    CallOK(z, run, i, tid);
    assert ValidRepo(run[i].threads[tid].task.leg.repo, z.cfg.providers, z.legalPattern);
  }

  /** A push that reaches its report has sent every spec exactly once, in order, and every
      one of its batches was let through. */
  lemma CompletedPush(z: Setting, run: seq<State>, i: nat, tid: Tid)
    requires IsRun(z, run) && i < |run| && tid in run[i].threads
    requires run[i].threads[tid].task.MirrorTask? && run[i].threads[tid].pc.Pushed?
    ensures var plan, outcomes := run[i].threads[tid].pc.plan, run[i].threads[tid].pc.outcomes;
      && Distinct(SpecRefs(plan.specs)) && |outcomes| == |plan.specs|
      && (forall k :: 0 <= k < |outcomes| ==> outcomes[k].ref == plan.specs[k].ref)
      && Settled(outcomes)
      && ChangesOf(Mine(run[i].writes, tid)) == Moves(outcomes)
  {
    hide IsRun, Shaped, Settled, Distinct;
    CallOK(z, run, i, tid);
    hide Mine, Moves, ChangesOf;
  }

  /** Acting on a recorded row, in its own notation or the older one, runs exactly the leg
      that recorded it or is refused, whatever ref it is asked for. */
  lemma RecordedRowsNeverInvert(z: Setting, run: seq<State>, i: nat, tid: Tid, ev: Event, to: string, refName: string)
    requires IsRun(z, run) && i < |run| && Entry(Some(tid), ev) in run[i].log
    requires tid in run[i].threads
    requires var leg := run[i].threads[tid].task.leg;
      to == ev.to || to == LegacyEndpoint(z.cfg.providers, leg.ToProvider(), leg.ToPath())
    ensures var leg := run[i].threads[tid].task.leg;
      var force := ForcePush(z.cfg.providers, z.cfg.repos, ev.repo, to);
      var restore := RestoreRef(z.cfg.providers, z.cfg.repos, ev.repo, to, refName, z.glob);
      var dir := DirectionTo(z.cfg.providers, z.cfg.repos, ev.repo, to);
      && (force.Run? ==> force.leg == leg) && (restore.Run? ==> restore.leg == leg)
      && (dir.Direction? ==> Retry(z.cfg.repos, ev.repo, dir.dir) == Run(leg))
      && (EndpointAmbiguous(z.cfg.providers, leg.repo, to) ==> force.Refuse? && restore.Refuse? && dir.NoDirection?)
      && (!EndpointAmbiguous(z.cfg.providers, leg.repo, to) ==> force.Run? && dir.Direction?)
  {
    hide IsRun, ForcePush, RestoreRef, DirectionTo, Retry, LegacyEndpoint, Endpoint, EndpointAmbiguous;
    var leg := run[i].threads[tid].task.leg;
    RecordedMeaning(run[i].log, tid);
    HistoryTellsTruth(z, run, i, tid);
    LegFacts(z, run, i, tid);
    RowNeverInverts(z.cfg.providers, z.cfg.repos, leg, to, refName, z.glob);
    hide MirrorTruth, Recorded;
  }

  // ---- silence is sound ---------------------------------------------------------------------------------

  /** A branch that only moved forward lost no commit. */
  lemma ForwardLosesNothing(g: ObjectGraph, w: Write)
    requires !Overwrites(g, w) && w.ref.Branch?
    ensures Side(g, w.oldTip, w.newTip) == {}
  {
    if w.oldTip != NO_OBJECT {
      forall c | c in Ancestors(g, Peel(g, w.oldTip)) ensures c in Ancestors(g, Peel(g, w.newTip)) {
        AncestorsTransitive(g, c, Peel(g, w.oldTip), Peel(g, w.newTip));
      }
    }
  }

  /** A quiet report about one overwritten branch. */
  lemma QuietAboutOne(z: Setting, cache: Store, check: Check, raw: seq<ForcedRef>, w: Write)
    requires AnswersFor(z.g, z.content, cache, check) && w.ref.Branch?
    requires Unclassified(w.ref, w.oldTip, w.newTip) in raw
    requires forall f :: f in ClassifyAll(raw, check) ==> !Interrupts(f)
    ensures forall c :: c in Side(z.g, w.oldTip, w.newTip) ==> Survives(z.g, z.content, cache, w.newTip, w.oldTip, c)
  {
    SilenceIsSound(z.g, z.content, cache, check, raw, Unclassified(w.ref, w.oldTip, w.newTip));
    hide Survives, Side, ClassifyAll, AnswersFor, Interrupts;
  }

  /** The writes of a mirror about to report, and what its alert decision says of them. */
  lemma QuietReport(z: Setting, cache: Store, plan: PushPlan, outcomes: seq<RefOutcome>, mine: seq<Write>, check: Check,
                    w: Write)
    requires Sane(z) && Told(z, cache, plan, outcomes, mine) && AnswersFor(z.g, z.content, cache, check)
    requires w in mine && w.ref.Branch?
    requires ReadAll(z, outcomes).changed ==>
      forall f :: f in ClassifyAll(ReadAll(z, outcomes).forced, check) ==> !Interrupts(f)
    ensures forall k :: k in Side(z.g, w.oldTip, w.newTip) ==> Survives(z.g, z.content, cache, w.newTip, w.oldTip, k)
  {
    ToldIsLegal(z, cache, plan, outcomes, mine);
    ReadAllIsSummary(z, outcomes);
    ForcedAreOverwrites(z, cache, plan, outcomes, mine);
    MovesCount(outcomes);
    assert |ChangesOf(mine)| == |mine|;
    hide Told, ReadAll, Summary, Moves, Survives, Side, Interrupts, AnswersFor, ClassifyAll, Overwrites, AllLegal;
    if Overwrites(z.g, w) {
      QuietAboutOne(z, cache, check, Summary(outcomes).forced, w);
    } else {
      ForwardLosesNothing(z.g, w);
    }
  }

  /** A mirror returns without an error either before it wrote anything or from its report. */
  lemma OnlyTheReportSucceeds(z: Setting, t: Thread, v: Sight, mine: seq<Write>, c: Choice)
    requires t.task.MirrorTask? && Ready(t, v.cache)
    requires PlaceOK(z, t.task, if HoldsLock(t.pc) then v.cache else None, t.pc, mine)
    requires !t.pc.Done? && StepOf(z, t, v, c).pc.Done? && !StepOf(z, t, v, c).pc.err && mine != []
    ensures t.pc.Pushed?
  {
    hide DraftOf, PushStatus, LetThrough, CurrentBatch, ReadAll, ClassifyAll, Interrupts, ResolveRefs, PlanFor, Fetch;
    hide Clone, Collect;
    hide Told, Planned, Settled, MirrorTruth, Truthful;
  }

  /** When a mirror returns no error and sends no data-loss alert, every commit that left any
      branch it wrote carried no content, or has its patch among the commits only the new
      tip reaches, or is still reached by a branch of the cache. The alert is decided from
      git's report as the program reads it. */
  lemma SilentMirrorLosesNothing(z: Setting, run: seq<State>, i: nat, tid: Tid, c: Choice, w: Write)
    requires IsRun(z, run) && i < |run| && CanStep(z, run[i], tid, c) && run[i].threads[tid].task.MirrorTask?
    requires var pc := ThreadStep(z, run[i], tid, c).threads[tid].pc;
      pc.Done? && !pc.err && !pc.alerted
    requires w in run[i].writes && w.tid == tid && w.ref.Branch?
    ensures CacheOf(run[i].threads[tid].task.leg) in run[i].caches
    ensures var cache := run[i].caches[CacheOf(run[i].threads[tid].task.leg)];
      forall k :: k in Side(z.g, w.oldTip, w.newTip) ==> Survives(z.g, z.content, cache, w.newTip, w.oldTip, k)
  {
    hide IsRun, Shaped, Planned, Settled, ReadAll, Survives, Side, AnswersFor, Interrupts;
    var s := run[i];
    var t, v := s.threads[tid], Look(s, s.threads[tid].task.leg);
    CallOK(z, run, i, tid);
    MineMeaning(s.writes, tid);
    var mine := Mine(s.writes, tid);
    assert w in mine;
    SaneRun(z, run);
    StepEffect(z, s, tid, StepOf(z, t, v, c));
    hide Mine, Told, Apply, LocksAfter, WritesOf, EntriesOf;
    OnlyTheReportSucceeds(z, t, v, mine, c);
    hide ClassifyAll, DraftOf;
    QuietReport(z, v.cache.value, t.pc.plan, t.pc.outcomes, mine, c.check, w);
  }

  lemma SaneRun(z: Setting, run: seq<State>)
    requires IsRun(z, run)
    ensures Sane(z)
  {
    hide ValidConfig, CachesHeld, Next;
  }
}
