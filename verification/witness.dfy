/** The tips the history shows were real: whatever is withheld from an overwrite, about to
 * be deleted or recorded as deleted, the destination once had.
 */
module Witness {
  import opened Events
  import opened Git
  import opened Graph
  import opened Invariant
  import opened Loss
  import opened Plan
  import opened Protocol
  import opened Refs
  import opened Runs

  /** A tip some call says the destination had: withheld from an overwrite, about to be
      deleted, or recorded as deleted. */
  datatype Claim = Claim(ref: Ref, tip: Oid)

  predicate Claims(t: Thread, q: Claim) {
    match t.pc
    case Pushing(plan, _) => HoldsClaim(plan.held, q)
    case Pushed(plan, _) => HoldsClaim(plan.held, q)
    case DeleteChecked(tip) => t.task.DeleteTask? && q == Claim(t.task.ref, tip)
    case Done(ev, _, _) =>
      HoldsClaim(ev.held, q) || (q.tip != NO_OBJECT && ev.deletedTip == q.tip && ev.ref == Some(q.ref))
    case _ => false
  }

  predicate HoldsClaim(held: seq<HeldRef>, q: Claim) {
    exists h :: h in held && h.ref == q.ref && h.dest == q.tip
  }

  lemma PlanClaims(z: Setting, t: Thread, want: seq<Ref>, v: Sight, c: Choice, q: Claim)
    requires t.task.MirrorTask? && v.cache.Some?
    requires Claims(t.(pc := PlanStep(z, DraftOf(t.task), t.task.meta, want, v, c).pc), q)
    ensures Tip(v.to.refs, q.ref) == q.tip
  {
    DraftIsBlank(t.task);
    PlanMeaning(z.g, v.cache.value, v.to.refs, want, t.task.meta.force, t.task.meta.forceLease, c.unanswered);
    hide DraftOf, PlanFor, IsAncestor;
  }

  lemma MirrorClaims(z: Setting, t: Thread, v: Sight, c: Choice, q: Claim)
    requires t.task.MirrorTask? && Ready(t, v.cache) && !t.pc.Done? && !t.pc.Resolved?
    requires Claims(t.(pc := StepOf(z, t, v, c).pc), q)
    ensures Claims(t, q)
  {
    DraftIsBlank(t.task);
    hide DraftOf, PushStatus, LetThrough, CurrentBatch, ReadAll, ClassifyAll, Interrupts, ResolveRefs;
    hide Fetch, Clone, Collect, Overridden, HoldsClaim;
    assert !HoldsClaim([], q) by { NothingHeld(q); }
  }

  lemma NothingHeld(q: Claim)
    ensures !HoldsClaim([], q)
  {
  }

  /** A step only adds claims it has just read off the destination. */
  lemma StepClaims(z: Setting, t: Thread, v: Sight, c: Choice, q: Claim)
    requires Ready(t, v.cache) && !t.pc.Done? && Claims(t.(pc := StepOf(z, t, v, c).pc), q)
    ensures Claims(t, q) || Tip(v.to.refs, q.ref) == q.tip
  {
    if t.task.MirrorTask? {
      hide Claims, PlanStep;
      if t.pc.Resolved? { PlanClaims(z, t, t.pc.want, v, c, q); } else { MirrorClaims(z, t, v, c, q); }
    } else {
      DraftIsBlank(t.task);
      NothingHeld(q);
      hide DraftOf, HoldsClaim, Tip;
    }
  }

  /** Every tip the service holds against a destination, or records as withheld or deleted,
      the destination really had in some earlier state of the run. */
  lemma {:induction false} ClaimedTipsWereReal(z: Setting, run: seq<State>, i: nat, tid: Tid, q: Claim)
    requires IsRun(z, run) && i < |run| && tid in run[i].threads && Claims(run[i].threads[tid], q)
    ensures var at := ToPlace(run[i].threads[tid].task.leg);
      exists k: nat :: k <= i && at in run[k].remotes && Tip(run[k].remotes[at].refs, q.ref) == q.tip
  {
    hide IsRun, Claims, Next, Tip;
    RunStep(z, run, i);
    var at := ToPlace(run[i].threads[tid].task.leg);
    if i > 0 {
      ThreadCameFrom(z, run[i - 1], run[i], tid, q);
      if at in run[i - 1].remotes && Tip(run[i - 1].remotes[at].refs, q.ref) == q.tip {
      } else {
        ClaimedTipsWereReal(z, run, i - 1, tid, q);
      }
    }
  }

  lemma ThreadCameFrom(z: Setting, s: State, s': State, tid: Tid, q: Claim)
    requires Next(z, s, s') && tid in s'.threads && Claims(s'.threads[tid], q)
    ensures var t' := s'.threads[tid];
      || (tid in s.threads && s.threads[tid].task == t'.task && Claims(s.threads[tid], q))
      || (ToPlace(t'.task.leg) in s.remotes && Tip(s.remotes[ToPlace(t'.task.leg)].refs, q.ref) == q.tip)
  {
    hide CanStep, ThreadStep, Admitted, ApplyMove, RouteOf, TaskOf, RefusalEntries, Claims;
    var st :| Can(z, s, st) && s' == Do(z, s, st);
    if st.Steps? {
      StepKeepsClaims(z, s, st.tid, st.choice, tid, q);
    } else {
      NewcomersClaimNothing(s'.threads[tid], q);
      hide Tip;
    }
  }

  lemma NewcomersClaimNothing(t: Thread, q: Claim)
    ensures t.pc.Waiting? ==> !Claims(t, q)
  {
  }

  lemma StepKeepsClaims(z: Setting, s: State, u: Tid, c: Choice, tid: Tid, q: Claim)
    requires CanStep(z, s, u, c) && tid in ThreadStep(z, s, u, c).threads
    requires Claims(ThreadStep(z, s, u, c).threads[tid], q)
    ensures tid in s.threads && ThreadStep(z, s, u, c).threads[tid].task == s.threads[tid].task
    ensures var at := ToPlace(s.threads[tid].task.leg);
      Claims(s.threads[tid], q) || (at in s.remotes && Tip(s.remotes[at].refs, q.ref) == q.tip)
  {
    var t, v := s.threads[u], Look(s, s.threads[u].task.leg);
    hide StepOf, Claims, Honest, Blocked, Ready, Apply, Tip;
    StepEffect(z, s, u, StepOf(z, t, v, c));
    if tid == u { StepClaims(z, t, v, c, q); }
  }
}
