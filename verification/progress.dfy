/** Calls get to their end: each of a call's own steps takes it nearer, whatever git answers,
 * nobody else's step takes it back, and the service never stands still.
 */
module Progress {
  import opened Answers
  import opened Config
  import opened Events
  import opened Git
  import opened Invariant
  import opened Loss
  import opened Plan
  import opened Protocol
  import opened Refs
  import opened Runs
  import opened Section
  import opened Serial
  import Legs

  /** How far a call still has to go, and how many refs it has left to push. */
  function Stage(pc: PC): nat {
    match pc
    case Waiting => 6
    case Locked => 5
    case Fetched => 4
    case HoleSeen => 4
    case Resolved(_) => 3
    case ObjectReady => 3
    case Pushing(_, _) => 2
    case Pushed(_, _) => 1
    case DeleteChecked(_) => 1
    case Done(_, _, _) => 0
  }

  function Left(pc: PC): nat {
    if pc.Pushing? && |pc.outcomes| <= |pc.plan.specs| then |pc.plan.specs| - |pc.outcomes| else 0
  }

  predicate Nearer(after: PC, before: PC) {
    Stage(after) < Stage(before) || (Stage(after) == Stage(before) && Left(after) < Left(before))
  }

  /** The place is one its kind of call can be at. */
  predicate Proper(t: Thread) {
    match t.pc
    case Waiting => true
    case Locked => true
    case Done(_, _, _) => true
    case DeleteChecked(_) => t.task.DeleteTask?
    case HoleSeen => t.task.RestoreTask?
    case ObjectReady => t.task.RestoreTask?
    case _ => t.task.MirrorTask?
  }

  lemma PlaceIsProper(z: Setting, t: Thread, v: Sight, mine: seq<Write>)
    requires PlaceOK(z, t.task, if HoldsLock(t.pc) then v.cache else None, t.pc, mine)
    ensures Ready(t, v.cache) && Proper(t)
  {
    hide Told, Settled, MirrorTruth, Truthful, Distinct, SpecRefs, Guarded;
    if t.task.MirrorTask? && t.pc.Pushing? { assert t.pc.plan.specs[|t.pc.outcomes|] in t.pc.plan.specs; }
  }

  lemma StepAdvances(z: Setting, t: Thread, v: Sight, c: Choice)
    requires Ready(t, v.cache) && Proper(t) && !t.pc.Done?
    ensures Nearer(StepOf(z, t, v, c).pc, t.pc)
  {
    if t.task.MirrorTask? {
      MirrorAdvances(z, t, v, c);
      hide MirrorStep, Nearer;
    } else {
      hide DraftOf;
    }
  }

  lemma MirrorAdvances(z: Setting, t: Thread, v: Sight, c: Choice)
    requires t.task.MirrorTask? && Ready(t, v.cache) && Proper(t) && !t.pc.Done?
    ensures Nearer(MirrorStep(z, t.task, t.pc, v, c).pc, t.pc)
  {
    hide DraftOf, PushStatus, LetThrough, CurrentBatch, ReadAll, ClassifyAll, Interrupts, PlanFor, ResolveRefs, Fetch;
    hide Clone, Collect;
  }

  /** What every state knows of one of its calls. */
  lemma CallStands(z: Setting, s: State, tid: Tid)
    requires Inv(z, s) && tid in s.threads
    ensures Wired(s, s.threads[tid].task.leg)
    ensures Ready(s.threads[tid], Look(s, s.threads[tid].task.leg).cache) && Proper(s.threads[tid])
  {
    var leg := s.threads[tid].task.leg;
    OwnRepoConfigured(z, s, tid);
    TwoLegs(z, s, leg.repo);
    assert ViewOK(z, ViewOf(s, tid));
    hide Inv, Ready, Proper, Shaped, PlaceOK, Mine;
    WiredBothWays(s, leg.repo);
    PlaceIsProper(z, s.threads[tid], Look(s, leg), Mine(s.writes, tid));
  }

  /** Any step of anyone leaves a call where it is, or takes it nearer to its return. */
  lemma CallAdvances(z: Setting, s: State, st: Step, tid: Tid)
    requires Inv(z, s) && Can(z, s, st) && tid in s.threads
    ensures tid in Do(z, s, st).threads
    ensures if st.Steps? && st.tid == tid then Nearer(Do(z, s, st).threads[tid].pc, s.threads[tid].pc)
            else Do(z, s, st).threads[tid] == s.threads[tid]
  {
    hide Inv, ApplyMove, Admitted, RouteOf, TaskOf, RefusalEntries, StepOf, Honest, Blocked, Ready, Look, Nearer;
    match st
    case OutsideMove(_, _) =>
    case Arrives(_, _) =>
    case Steps(u, c) =>
      ThreadsAfter(z, s, u, StepOf(z, s.threads[u], Look(s, s.threads[u].task.leg), c));
      CallStands(z, s, u);
      StepAdvances(z, s.threads[u], Look(s, s.threads[u].task.leg), c);
  }

  // ---- every schedule returns -------------------------------------------------------------------------

  /** A run without end: any steps of anyone, as long as each can happen. */
  ghost predicate Endless(z: Setting, states: nat -> State, steps: nat -> Step) {
    && Inv(z, states(0))
    && forall i: nat :: Can(z, states(i), steps(i)) && states(i + 1) == Do(z, states(i), steps(i))
  }

  predicate ItsStep(st: Step, tid: Tid) { st.Steps? && st.tid == tid }

  /** The call keeps getting its turn until it returns. */
  ghost predicate GetsItsTurns(states: nat -> State, steps: nat -> Step, tid: Tid) {
    forall i: nat :: tid in states(i).threads && !states(i).threads[tid].pc.Done? ==>
      exists j: nat :: i <= j && ItsStep(steps(j), tid)
  }

  lemma {:induction false} EndlessOK(z: Setting, states: nat -> State, steps: nat -> Step, i: nat)
    requires Endless(z, states, steps)
    ensures Inv(z, states(i))
  {
    hide Inv, Can, Do;
    if i > 0 {
      EndlessOK(z, states, steps, i - 1);
      assert Can(z, states(i - 1), steps(i - 1)) && states(i - 1 + 1) == Do(z, states(i - 1), steps(i - 1));
      DoKeeps(z, states(i - 1), steps(i - 1));
    }
  }

  /** Until its next turn a call stays where it is. */
  lemma {:induction false} WaitsForItsTurn(z: Setting, states: nat -> State, steps: nat -> Step, tid: Tid, i: nat,
                                           j: nat)
    returns (k: nat)
    requires Endless(z, states, steps) && tid in states(i).threads && i <= j && ItsStep(steps(j), tid)
    decreases j - i
    ensures i <= k <= j && ItsStep(steps(k), tid) && tid in states(k).threads
    ensures states(k).threads[tid] == states(i).threads[tid]
  {
    hide Inv, Can, Do;
    if ItsStep(steps(i), tid) {
      k := i;
    } else {
      EndlessOK(z, states, steps, i);
      assert Can(z, states(i), steps(i)) && states(i + 1) == Do(z, states(i), steps(i));
      CallAdvances(z, states(i), steps(i), tid);
      k := WaitsForItsTurn(z, states, steps, tid, i + 1, j);
    }
  }

  /** In every run without end, whatever git answers and whatever anyone else does, a call that
      keeps getting its turn returns. */
  lemma {:induction false} EveryCallReturns(z: Setting, states: nat -> State, steps: nat -> Step, tid: Tid, i: nat)
    returns (k: nat)
    requires Endless(z, states, steps) && GetsItsTurns(states, steps, tid) && tid in states(i).threads
    decreases Stage(states(i).threads[tid].pc), Left(states(i).threads[tid].pc)
    ensures i <= k && tid in states(k).threads && states(k).threads[tid].pc.Done?
  {
    hide Inv, Can, Do, Stage, Left;
    if states(i).threads[tid].pc.Done? {
      k := i;
    } else {
      var j: nat :| i <= j && ItsStep(steps(j), tid);
      var turn := WaitsForItsTurn(z, states, steps, tid, i, j);
      EndlessOK(z, states, steps, turn);
      assert Can(z, states(turn), steps(turn)) && states(turn + 1) == Do(z, states(turn), steps(turn));
      CallAdvances(z, states(turn), steps(turn), tid);
      k := EveryCallReturns(z, states, steps, tid, turn + 1);
    }
  }

  // ---- a turn can always be given --------------------------------------------------------------------

  lemma {:induction false} SomeListing(keys: set<Ref>) returns (s: seq<Ref>)
    ensures Distinct(s) && forall r :: r in s <==> r in keys
  {
    if keys == {} {
      s := [];
    } else {
      var r :| r in keys;
      var rest := SomeListing(keys - {r});
      DistinctSnoc(rest, r);
      s := rest + [r];
    }
  }

  /** Git can always answer: some order of the cache's refs, and no verdict on what was lost. */
  lemma HonestChoice(z: Setting, t: Thread, v: Sight) returns (c: Choice)
    ensures Cooperative(c) && Honest(z, t, v, c)
  {
    var refs: RefMap := if v.cache.Some? then v.cache.value.refs else map[];
    var listing := SomeListing(set r | r in refs && !r.Other?);
    c := Choice(true, true, false, {}, listing, None, false, true, ALL_ANSWERED, (_, _) => None);
  }

  /** A call can step, with a git that serves it, unless it waits for a lock. */
  lemma CanAlwaysStep(z: Setting, s: State, tid: Tid) returns (c: Choice)
    requires Inv(z, s) && tid in s.threads && !s.threads[tid].pc.Done?
    ensures Wired(s, s.threads[tid].task.leg)
    ensures Blocked(z, s.threads[tid], Look(s, s.threads[tid].task.leg).busy) ||
      (CanStep(z, s, tid, c) && Cooperative(c))
  {
    CallStands(z, s, tid);
    hide Inv, Honest, Ready, Proper, Cooperative, Blocked;
    c := HonestChoice(z, s.threads[tid], Look(s, s.threads[tid].task.leg));
  }

  /** The service never stands still: while any call has not returned, it or the call holding
      its repo's lock can step. */
  lemma NeverStuck(z: Setting, s: State, tid: Tid) returns (u: Tid, c: Choice)
    requires Inv(z, s) && tid in s.threads && !s.threads[tid].pc.Done?
    ensures CanStep(z, s, u, c) && Cooperative(c)
    ensures s.threads[u].task.leg.repo.name == s.threads[tid].task.leg.repo.name
  {
    CallStands(z, s, tid);
    var leg := s.threads[tid].task.leg;
    u := if Blocked(z, s.threads[tid], Look(s, leg).busy) then s.locks[leg.repo.name] else tid;
    c := CanAlwaysStep(z, s, u);
    hide CanStep, Cooperative, Ready, Proper, Overridden;
  }

  /** Who waits: a call about to start cannot step exactly when its repo's lock is taken, unless it
      is a restore, which gives up, or an event for a ref an override sends the other way, which has
      nothing to do. */
  lemma WaitsExactly(z: Setting, s: State, tid: Tid)
    requires Inv(z, s) && tid in s.threads && s.threads[tid].pc.Waiting?
    ensures var task := s.threads[tid].task;
      (exists c :: CanStep(z, s, tid, c)) <==>
      || task.leg.repo.name !in s.locks || task.RestoreTask?
      || (task.MirrorTask? && task.meta.ref.Some? &&
          KeptFrom(task.leg.repo, task.meta.ref.value.ShortName(), z.glob, task.leg.FromProvider(),
                   task.leg.ToProvider()))
  {
    var task := s.threads[tid].task;
    CallStands(z, s, tid);
    if task.MirrorTask? && task.meta.ref.Some? { BlocksExactly(task.leg, task.meta.ref.value.ShortName(), z.glob); }
    hide Inv, KeptFrom, Honest, Ready, Proper;
    if !Blocked(z, s.threads[tid], Look(s, task.leg).busy) {
      var c := CanAlwaysStep(z, s, tid);
      assert CanStep(z, s, tid, c);
    }
    hide CacheAt;
  }

  // ---- quiet runs exist ---------------------------------------------------------------------------------

  /** Only this call has moved. */
  predicate OnlyMoved(s: State, s': State, tid: Tid) {
    && s'.threads.Keys == s.threads.Keys
    && forall u :: u in s.threads && u != tid ==> s'.threads[u] == s.threads[u]
  }

  /** A call that holds the lock, or finds it free, holds it after its step or leaves it free. */
  lemma LockAfterStep(z: Setting, s: State, tid: Tid, act: Act)
    requires tid in s.threads && Wired(s, s.threads[tid].task.leg)
    requires var name := s.threads[tid].task.leg.repo.name;
      if HoldsLock(s.threads[tid].pc) then name in s.locks && s.locks[name] == tid else name !in s.locks
    ensures HoldsLock(act.pc) || s.threads[tid].task.leg.repo.name !in Apply(z, s, tid, act).locks
  {
    StepEffect(z, s, tid, act);
    hide Apply, EntriesOf, WritesOf, CacheAt, Written;
  }

  lemma HolderOwnsLock(z: Setting, s: State, tid: Tid)
    requires Inv(z, s) && tid in s.threads && HoldsLock(s.threads[tid].pc)
    ensures s.threads[tid].task.leg.repo.name in s.locks && s.locks[s.threads[tid].task.leg.repo.name] == tid
  {
    hide RemotesOK, CachesHeld, ThreadsOK, WritesOK, CallersKnown, EvidenceOK, ValidConfig;
  }

  lemma ServedStep(z: Setting, repo: RepoConfig, coop: set<Tid>, s: State, tid: Tid) returns (st: Step)
    requires Inv(z, s) && tid in s.threads && s.threads[tid].task.leg.repo == repo && !s.threads[tid].pc.Done?
    requires HoldsLock(s.threads[tid].pc) || repo.name !in s.locks
    ensures Can(z, s, st) && Quiet(z, repo, coop, s, st) && ItsStep(st, tid) && Cooperative(st.choice)
    ensures var s' := Do(z, s, st);
      && Inv(z, s') && tid in s'.threads && s'.threads[tid].task == s.threads[tid].task && OnlyMoved(s, s', tid)
      && Nearer(s'.threads[tid].pc, s.threads[tid].pc) && (HoldsLock(s'.threads[tid].pc) || repo.name !in s'.locks)
  {
    hide Inv, StepOf, Apply, Look, Honest, Ready, Nearer, HoldsLock;
    var c := CanAlwaysStep(z, s, tid);
    st := Steps(tid, c);
    NotBlocked(z, s, tid);
    DoKeeps(z, s, st);
    CallAdvances(z, s, st, tid);
    var act := StepOf(z, s.threads[tid], Look(s, s.threads[tid].task.leg), c);
    ThreadsAfter(z, s, tid, act);
    if HoldsLock(s.threads[tid].pc) { HolderOwnsLock(z, s, tid); }
    LockAfterStep(z, s, tid, act);
  }

  lemma NotBlocked(z: Setting, s: State, tid: Tid)
    requires tid in s.threads && Wired(s, s.threads[tid].task.leg)
    requires HoldsLock(s.threads[tid].pc) || s.threads[tid].task.leg.repo.name !in s.locks
    ensures !Blocked(z, s.threads[tid], Look(s, s.threads[tid].task.leg).busy)
  {
    hide Overridden;
  }

  /** From any state in which a call holds its repo's lock or finds it free, some quiet run with
      a git that serves it takes it to its return and leaves the lock free. */
  lemma {:induction false} CompletesQuietly(z: Setting, repo: RepoConfig, coop: set<Tid>, s: State, tid: Tid)
    returns (steps: seq<Step>, last: State)
    requires Inv(z, s) && tid in s.threads && s.threads[tid].task.leg.repo == repo
    requires HoldsLock(s.threads[tid].pc) || repo.name !in s.locks
    decreases Stage(s.threads[tid].pc), Left(s.threads[tid].pc)
    ensures Leads(z, repo, coop, s, steps, last) && Inv(z, last) && repo.name !in last.locks && OnlyMoved(s, last, tid)
    ensures tid in last.threads && last.threads[tid].pc.Done? && last.threads[tid].task == s.threads[tid].task
  {
    hide Inv, Can, Do, Quiet, Stage, Left;
    if s.threads[tid].pc.Done? {
      steps, last := [], s;
    } else {
      var st := ServedStep(z, repo, coop, s, tid);
      var rest, end := CompletesQuietly(z, repo, coop, Do(z, s, st), tid);
      steps, last := [st] + rest, end;
      assert steps[1..] == rest;
    }
  }

  /** A served step of a call that holds the lock or finds it free does nothing before its last,
      which does the whole deed. */
  lemma StandsAfter(z: Setting, repo: RepoConfig, coop: set<Tid>, w: Legs.World, s: State, st: Step, tid: Tid)
    returns (d: WorldDeed)
    requires Inv(z, s) && repo in z.cfg.repos && Stands(z, repo, coop, w, s) && RoutineCalls(s, repo)
    requires Can(z, s, st) && ItsStep(st, tid) && Cooperative(st.choice) && tid in coop
    requires s.threads[tid].task.leg.repo == repo
    requires HoldsLock(s.threads[tid].pc) || repo.name !in s.locks
    requires var task := s.threads[tid].task;
      task.MirrorTask? ==> !Overridden(z, task.leg, task.meta.ref)
    ensures tid in Do(z, s, st).threads && Stands(z, repo, coop, DoDeed(z.g, w, d), Do(z, s, st))
    ensures if Do(z, s, st).threads[tid].pc.Done? then ItsDeed(z, s.threads[tid].task, w, d) else d == NOTHING
  {
    hide Inv, Stands, RoutineCalls, DoDeed, WholeDeed, Overridden, ThreadStep, Look, Honest, Ready, Blocked;
    CallAdvances(z, s, st, tid);
    NothingDone(z.g, w);
    if HoldsLock(s.threads[tid].pc) {
      HolderOwnsLock(z, s, tid);
      d := HolderStep(z, repo, coop, w, s, tid, st.choice);
    } else {
      BystanderStep(z, repo, coop, w, s, tid, st.choice);
      d := NOTHING;
    }
  }

  /** And what a call does from there to its return is its whole deed and nothing else. */
  lemma {:induction false} CompletesWithDeed(z: Setting, repo: RepoConfig, coop: set<Tid>, w: Legs.World, s: State,
                                             tid: Tid)
    returns (steps: seq<Step>, last: State, d: WorldDeed)
    requires Inv(z, s) && repo in z.cfg.repos && Stands(z, repo, coop, w, s) && RoutineCalls(s, repo)
    requires tid in coop && tid in s.threads && s.threads[tid].task.leg.repo == repo && !s.threads[tid].pc.Done?
    requires HoldsLock(s.threads[tid].pc) || repo.name !in s.locks
    requires var task := s.threads[tid].task;
      task.MirrorTask? ==> !Overridden(z, task.leg, task.meta.ref)
    decreases Stage(s.threads[tid].pc), Left(s.threads[tid].pc)
    ensures Leads(z, repo, coop, s, steps, last) && Inv(z, last) && repo.name !in last.locks && OnlyMoved(s, last, tid)
    ensures tid in last.threads && last.threads[tid].pc.Done? && last.threads[tid].task == s.threads[tid].task
    ensures Stands(z, repo, coop, DoDeed(z.g, w, d), last) && ItsDeed(z, s.threads[tid].task, w, d)
    ensures RoutineCalls(last, repo)
  {
    hide Inv, Can, Do, Stage, Left, Stands, RoutineCalls, DoDeed, WholeDeed, Overridden, Quiet, Cooperative;
    var st := ServedStep(z, repo, coop, s, tid);
    var next := Do(z, s, st);
    RoutineStays(z, repo, coop, s, st);
    var first := StandsAfter(z, repo, coop, w, s, st, tid);
    NothingDone(z.g, w);
    if next.threads[tid].pc.Done? {
      steps, last, d := [st], next, first;
      assert [st][1..] == [] && Leads(z, repo, coop, next, [], next);
    } else {
      var rest, end, deed := CompletesWithDeed(z, repo, coop, w, next, tid);
      steps, last, d := [st] + rest, end, deed;
      assert steps[1..] == rest;
    }
  }
  lemma {:induction false} LeadsOn(z: Setting, repo: RepoConfig, coop: set<Tid>, s: State, steps: seq<Step>, mid: State,
                                   more: seq<Step>, last: State)
    requires Leads(z, repo, coop, s, steps, mid) && Leads(z, repo, coop, mid, more, last)
    decreases steps
    ensures Leads(z, repo, coop, s, steps + more, last)
  {
    hide Can, Do, Quiet;
    if steps == [] {
      assert steps + more == more;
    } else {
      LeadsOn(z, repo, coop, Do(z, s, steps[0]), steps[1..], mid, more, last);
      assert (steps + more)[1..] == steps[1..] + more;
    }
  }
}
