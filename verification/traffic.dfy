/** How often the service writes a ref in a quiet run: its own writes come back as events, and
 * the echoes stop.
 */
module Traffic {
  import opened Config
  import opened Gates
  import opened Git
  import opened Graph
  import opened Invariant
  import opened Loss
  import opened Plan
  import opened Porcelain
  import opened Protocol
  import opened Refs
  import opened Routing
  import opened Runs
  import opened Safety
  import opened Section
  import opened Serial
  import opened Settle
  import Legs

  predicate IsEnd(repo: RepoConfig, at: Place) { at == FromPlace(Leg(repo, true)) || at == ToPlace(Leg(repo, true)) }

  /** The writes of a ref at either end of the repo. */
  function CountOn(ws: seq<Write>, repo: RepoConfig, r: Ref): nat {
    if ws == [] then 0
    else
      var w := ws[|ws| - 1];
      CountOn(ws[..|ws| - 1], repo, r) + (if IsEnd(repo, w.at) && w.ref == r then 1 else 0)
  }

  lemma CountMore(ws: seq<Write>, more: seq<Write>, repo: RepoConfig, r: Ref)
    requires |more| <= 1
    ensures CountOn(ws + more, repo, r) ==
      CountOn(ws, repo, r) + (if |more| == 1 && IsEnd(repo, more[0].at) && more[0].ref == r then 1 else 0)
  {
    if more == [] {
      assert ws + more == ws;
    } else {
      assert (ws + more)[..|ws|] == ws;
    }
  }

  /** Whether the two ends of the repo differ on a ref. */
  function Disagreement(s: State, repo: RepoConfig, r: Ref): nat
    requires Wired(s, Leg(repo, true))
  {
    var w := WorldOf(s, repo);
    if Tip(w.a, r) == Tip(w.b, r) then 0 else 1
  }

  /** At how many ends of the repo a ref exists. */
  function Presence(s: State, repo: RepoConfig, r: Ref): nat
    requires Wired(s, Leg(repo, true))
  {
    var w := WorldOf(s, repo);
    (if Tip(w.a, r) != NO_OBJECT then 1 else 0) + (if Tip(w.b, r) != NO_OBJECT then 1 else 0)
  }

  /** The refs at both ends of the repo and the writes on them are as before. */
  ghost predicate SameTraffic(s: State, s': State, repo: RepoConfig, r: Ref) {
    && Wired(s, Leg(repo, true)) && Wired(s', Leg(repo, true)) &&
      CountOn(s'.writes, repo, r) == CountOn(s.writes, repo, r)
    && Tip(WorldOf(s', repo).a, r) == Tip(WorldOf(s, repo).a, r) &&
      Tip(WorldOf(s', repo).b, r) == Tip(WorldOf(s, repo).b, r)
  }

  lemma EndsAreSeen(s: State, leg: Leg)
    requires Wired(s, leg) && Wired(s, Leg(leg.repo, true))
    requires FromPlace(Leg(leg.repo, false)) == ToPlace(Leg(leg.repo, true))
    requires ToPlace(Leg(leg.repo, false)) == FromPlace(Leg(leg.repo, true))
    ensures EndsIn(WorldOf(s, leg.repo), leg.toTarget).from == Look(s, leg).from.refs
    ensures EndsIn(WorldOf(s, leg.repo), leg.toTarget).to == Look(s, leg).to.refs
    ensures IsEnd(leg.repo, ToPlace(leg))
  {
    assert leg == Leg(leg.repo, leg.toTarget);
    hide CacheAt;
  }

  /** The writes a step adds, counted. */
  lemma StepCount(z: Setting, repo: RepoConfig, s: State, tid: Tid, act: Act, r: Ref)
    requires tid in s.threads && Wired(s, s.threads[tid].task.leg)
    ensures CountOn(Apply(z, s, tid, act).writes, repo, r) == CountOn(s.writes, repo, r) +
      (if act.write.Some? && act.write.value.ref == r && IsEnd(repo, ToPlace(s.threads[tid].task.leg)) then 1 else 0)
  {
    StepEffect(z, s, tid, act);
    CountMore(s.writes, WritesOf(tid, s.threads[tid].task, Look(s, s.threads[tid].task.leg), act), repo, r);
    hide Apply, CountOn, LocksAfter, EntriesOf, CacheAt;
  }

  /** A step of one of the repo's own calls changes a ref only where it writes it. */
  lemma OwnTraffic(z: Setting, repo: RepoConfig, s: State, tid: Tid, act: Act, r: Ref)
    requires Inv(z, s) && repo in z.cfg.repos && tid in s.threads && Wired(s, s.threads[tid].task.leg)
    requires s.threads[tid].task.leg.repo == repo
    ensures Wired(s, Leg(repo, true)) && Wired(Apply(z, s, tid, act), Leg(repo, true))
    ensures var toB, s' := s.threads[tid].task.leg.toTarget, Apply(z, s, tid, act);
      var e, e' := EndsIn(WorldOf(s, repo), toB), EndsIn(WorldOf(s', repo), toB);
      && Tip(e'.from, r) == Tip(e.from, r)
      && (if act.write.Some? && act.write.value.ref == r
          then Tip(e'.to, r) == act.write.value.newTip && CountOn(s'.writes, repo, r) == CountOn(s.writes, repo, r) + 1
          else Tip(e'.to, r) == Tip(e.to, r) && CountOn(s'.writes, repo, r) == CountOn(s.writes, repo, r))
  {
    var leg, s' := s.threads[tid].task.leg, Apply(z, s, tid, act);
    var v := Look(s, leg);
    TwoLegs(z, s, repo);
    OwnSpot(z, repo, s, tid, act);
    StepCount(z, repo, s, tid, act, r);
    if act.write.Some? { WrittenTip(z.g, v.to, act.write.value, r); }
    hide Inv, Apply, Look, CacheAt, CountOn, Tip, Written, WorldOf, IsEnd;
    BothWired(s', leg);
    EndsAreSeen(s, leg);
    EndsAreSeen(s', leg);
  }

  lemma OtherTraffic(z: Setting, repo: RepoConfig, s: State, tid: Tid, act: Act, r: Ref)
    requires Inv(z, s) && repo in z.cfg.repos && tid in s.threads && Wired(s, s.threads[tid].task.leg)
    requires s.threads[tid].task.leg.repo != repo
    ensures SameTraffic(s, Apply(z, s, tid, act), repo, r)
  {
    var s', own := Apply(z, s, tid, act), s.threads[tid].task.leg;
    TwoLegs(z, s, repo);
    OwnRepoConfigured(z, s, tid);
    assert ValidConfig(z.cfg, z.legalPattern);
    hide Inv, Apply, ValidConfig, CountOn, Tip;
    LegsApart(z, own, Leg(repo, true));
    OtherRepoStep(z, repo, s, tid, act);
    StepCount(z, repo, s, tid, act, r);
    UntouchedTraffic(s, s', repo);
  }

  lemma UntouchedTraffic(s: State, s': State, repo: RepoConfig)
    requires Untouched(s, s', repo) && Wired(s, Leg(repo, true))
    ensures Wired(s', Leg(repo, true)) && WorldOf(s', repo).a == WorldOf(s, repo).a
    ensures WorldOf(s', repo).b == WorldOf(s, repo).b
  {
    var there := Leg(repo, true);
    assert SpotOf(Look(s', there)) == SpotOf(Look(s, there));
  }

  // ---- what a routine call writes ------------------------------------------------------------------

  /** A mirror writes the tip its source has now, over a different one. */
  lemma MirrorWritesSource(z: Setting, t: Thread, before: Ends, v: Sight, c: Choice, coop: bool)
    requires t.task.MirrorTask? && Ready(t, v.cache) && InSection(z, t.task, before, t.pc, SpotOf(v), coop)
    ensures var w := StepOf(z, t, v, c).write;
      w.Some? ==> w.value.newTip == Tip(v.from.refs, w.value.ref) != Tip(v.to.refs, w.value.ref)
  {
    hide DraftOf, LetThrough, CurrentBatch, ReadAll, ClassifyAll, ResolveRefs, PlanFor, Fetch, Clone, Collect;
    hide PlanMade, Landed, DoEnds;
    if t.pc.Pushing? {
      NextIsNew(z, t.pc.plan, t.pc.outcomes, v, c);
      hide NextOutcome;
    }
  }

  lemma NextIsNew(z: Setting, plan: PushPlan, outcomes: seq<RefOutcome>, v: Sight, c: Choice)
    requires v.cache.Some? && |outcomes| < |plan.specs| && plan.specs[|outcomes|].ref in v.cache.value.refs
    ensures var o := NextOutcome(z, plan, outcomes, v, c);
      o.ref == plan.specs[|outcomes|].ref && (o.Moved() ==> Tip(v.to.refs, o.ref) != v.cache.value.refs[o.ref])
  {
    hide IsAncestor;
  }

  /** A delete writes its own ref, and only where it exists. */
  lemma DeleteWritesOwn(z: Setting, t: Thread, v: Sight, c: Choice)
    requires t.task.DeleteTask? && ValidStore(z.g, v.to)
    ensures var w := StepOf(z, t, v, c).write;
      w.Some? ==> w.value.ref == t.task.ref && w.value.newTip == NO_OBJECT != Tip(v.to.refs, t.task.ref)
  {
    TipIsPresence(z.g, v.to, t.task.ref);
    hide DraftOf, ValidStore, Tip;
  }

  /** Before it holds the lock and after it returned a call writes nothing. */
  lemma OnlyHoldersWrite(z: Setting, t: Thread, v: Sight, c: Choice)
    requires Ready(t, v.cache) && !HoldsLock(t.pc)
    ensures StepOf(z, t, v, c).write.None?
  {
    hide DraftOf;
  }

  // ---- every step of a quiet run -------------------------------------------------------------------

  /** A mirror of the repo still to return in `s` that could write this ref. */
  predicate MirrorUnderWay(s: State, repo: RepoConfig, ref: Ref) {
    exists u :: u in s.threads && !s.threads[u].pc.Done? && s.threads[u].task.MirrorTask?
                && s.threads[u].task.leg.repo == repo && MayWrite(s.threads[u].task.meta, ref)
  }

  /** A full mirror may write any ref, a named one its own. */
  predicate MayWrite(meta: EventMeta, ref: Ref) { meta.ref.None? || meta.ref.value == ref }

  /** What every step keeps: without a delete of the ref, the writes on it and the disagreement
      about it add up to the same; without a mirror of it, the writes and the ends it exists at. */
  ghost predicate Balanced(s: State, s': State, repo: RepoConfig, r: Ref, deletes: bool, mirrors: bool) {
    && Wired(s, Leg(repo, true)) && Wired(s', Leg(repo, true))
    && CountOn(s.writes, repo, r) <= CountOn(s'.writes, repo, r)
    && (CountOn(s.writes, repo, r) == CountOn(s'.writes, repo, r) ==> SameTraffic(s, s', repo, r))
    && var more := CountOn(s'.writes, repo, r) - CountOn(s.writes, repo, r);
      && (!deletes ==> more + Disagreement(s', repo, r) == Disagreement(s, repo, r))
      && (!mirrors ==> more + Presence(s', repo, r) == Presence(s, repo, r))
  }

  lemma SameIsBalanced(s: State, s': State, repo: RepoConfig, r: Ref, deletes: bool, mirrors: bool)
    requires SameTraffic(s, s', repo, r)
    ensures Balanced(s, s', repo, r, deletes, mirrors)
  {
    hide WorldOf, CountOn, Tip;
  }

  /** A mirror's writes are of refs it may write. */
  lemma MirrorWritesWanted(z: Setting, t: Thread, v: Sight, mine: seq<Write>, c: Choice)
    requires t.task.MirrorTask? && Ready(t, v.cache) && PlaceOK(z, t.task, v.cache, t.pc, mine)
    ensures var w := StepOf(z, t, v, c).write;
      w.Some? ==> MayWrite(t.task.meta, w.value.ref)
  {
    hide DraftOf, PushStatus, AfterOutcome, ReadAll, ClassifyAll, ResolveRefs, PlanFor, Fetch, Clone, Collect, Told;
    hide Settled, Guarded;
    if t.pc.Pushing? { assert t.pc.plan.specs[|t.pc.outcomes|] in t.pc.plan.specs; }
  }

  /** What a routine call's step writes, if it writes at all. */
  lemma OwnWrite(z: Setting, repo: RepoConfig, coop: set<Tid>, w: Legs.World, s: State, tid: Tid, c: Choice)
    requires Inv(z, s) && repo in z.cfg.repos && Stands(z, repo, coop, w, s) && RoutineCalls(s, repo)
    requires CanStep(z, s, tid, c) && s.threads[tid].task.leg.repo == repo
    ensures var t, v := s.threads[tid], Look(s, s.threads[tid].task.leg);
      var wr := StepOf(z, t, v, c).write;
      wr.Some? ==>
        && (t.task.MirrorTask? ==> wr.value.newTip == Tip(v.from.refs, wr.value.ref) != Tip(v.to.refs, wr.value.ref)
                                   && MayWrite(t.task.meta, wr.value.ref))
        && (t.task.DeleteTask? ==>
            wr.value.ref == t.task.ref && wr.value.newTip == NO_OBJECT != Tip(v.to.refs, wr.value.ref))
        && Routine(t.task)
  {
    var t, v := s.threads[tid], Look(s, s.threads[tid].task.leg);
    assert Routine(t.task);
    if HoldsLock(t.pc) {
      assert repo.name in s.locks && s.locks[repo.name] == tid;
      HolderSight(z, s, tid);
      hide Inv, StepOf, Look, PlaceOK, ValidStore, Honest, Ready, InSection, CacheAt, Legs.RealTips, Mine;
      hide RoutineCalls, Blocked;
      if t.task.MirrorTask? {
        MirrorWritesSource(z, t, EndsIn(w, t.task.leg.toTarget), v, c, tid in coop);
        MirrorWritesWanted(z, t, v, Mine(s.writes, tid), c);
      } else {
        DeleteWritesOwn(z, t, v, c);
      }
    } else {
      OnlyHoldersWrite(z, t, v, c);
    }
  }

  /** One side of the world changed at one ref, or nothing did. */
  lemma WriteBalances(s: State, s': State, repo: RepoConfig, r: Ref, toB: bool, written: bool, newTip: Oid,
                      isDelete: bool, deletes: bool, mirrors: bool)
    requires Wired(s, Leg(repo, true)) && Wired(s', Leg(repo, true))
    requires var e, e' := EndsIn(WorldOf(s, repo), toB), EndsIn(WorldOf(s', repo), toB);
      && Tip(e'.from, r) == Tip(e.from, r)
      && (if written
          then Tip(e'.to, r) == newTip != Tip(e.to, r) && CountOn(s'.writes, repo, r) == CountOn(s.writes, repo, r) + 1
          else Tip(e'.to, r) == Tip(e.to, r) && CountOn(s'.writes, repo, r) == CountOn(s.writes, repo, r))
      && (written && isDelete ==> deletes && newTip == NO_OBJECT)
      && (written && !isDelete ==> mirrors && newTip == Tip(e.from, r))
    ensures Balanced(s, s', repo, r, deletes, mirrors)
  {
    hide CountOn, Tip, Wired;
  }

  lemma OwnCallBalanced(z: Setting, repo: RepoConfig, coop: set<Tid>, w: Legs.World, s: State, tid: Tid, c: Choice,
                        r: Ref)
    requires Inv(z, s) && repo in z.cfg.repos && Stands(z, repo, coop, w, s) && RoutineCalls(s, repo)
    requires CanStep(z, s, tid, c) && s.threads[tid].task.leg.repo == repo
    ensures Balanced(s, ThreadStep(z, s, tid, c), repo, r, DeleteUnderWay(s, repo, r), MirrorUnderWay(s, repo, r))
  {
    var t, v := s.threads[tid], Look(s, s.threads[tid].task.leg);
    var act, leg := StepOf(z, t, v, c), t.task.leg;
    OwnWrite(z, repo, coop, w, s, tid, c);
    OwnTraffic(z, repo, s, tid, act, r);
    TwoLegs(z, s, repo);
    hide Inv, StepOf, Apply, Look, Stands, CountOn, Tip, WorldOf, RoutineCalls, Honest, Ready, Blocked, Balanced;
    hide EndsIn, IsEnd, MayWrite;
    EndsAreSeen(s, leg);
    var written := act.write.Some? && act.write.value.ref == r;
    var newTip := if written then act.write.value.newTip else NO_OBJECT;
    WriteBalances(s, ThreadStep(z, s, tid, c), repo, r, leg.toTarget, written, newTip,
                  t.task.DeleteTask?, DeleteUnderWay(s, repo, r), MirrorUnderWay(s, repo, r));
  }

  /** Every step of a quiet run is balanced. */
  lemma QuietBalanced(z: Setting, repo: RepoConfig, coop: set<Tid>, w: Legs.World, s: State, st: Step, r: Ref)
    requires Inv(z, s) && repo in z.cfg.repos && Stands(z, repo, coop, w, s) && RoutineCalls(s, repo)
    requires Can(z, s, st) && Quiet(z, repo, coop, s, st)
    ensures Balanced(s, Do(z, s, st), repo, r, DeleteUnderWay(s, repo, r), MirrorUnderWay(s, repo, r))
  {
    hide Stands, RoutineCalls, ApplyMove, RouteOf, Admitted, Balanced, CountOn, Tip, DeleteUnderWay, MirrorUnderWay;
    hide Inv, WorldOf;
    hide StepOf, Look, Honest, Ready, Blocked;
    TwoLegs(z, s, repo);
    var deletes, mirrors := DeleteUnderWay(s, repo, r), MirrorUnderWay(s, repo, r);
    match st
    case OutsideMove(at, m) =>
      MoveElsewhere(z, repo, s, at, m);
      UntouchedTraffic(s, Do(z, s, st), repo);
      SameIsBalanced(s, Do(z, s, st), repo, r, deletes, mirrors);
    case Arrives(tid, req) =>
      ArrivalElsewhere(z, repo, s, tid, req);
      UntouchedTraffic(s, Do(z, s, st), repo);
      SameIsBalanced(s, Do(z, s, st), repo, r, deletes, mirrors);
    case Steps(tid, c) =>
      if s.threads[tid].task.leg.repo == repo {
        OwnCallBalanced(z, repo, coop, w, s, tid, c, r);
      } else {
        OtherTraffic(z, repo, s, tid, StepOf(z, s.threads[tid], Look(s, s.threads[tid].task.leg), c), r);
        SameIsBalanced(s, Do(z, s, st), repo, r, deletes, mirrors);
      }
  }

  // ---- whole quiet runs ------------------------------------------------------------------------------

  ghost predicate MirrorBetween(s: State, last: State, repo: RepoConfig, ref: Ref) {
    exists u :: u in last.threads && !(u in s.threads && s.threads[u].pc.Done?) && last.threads[u].task.MirrorTask?
                && last.threads[u].task.leg.repo == repo && MayWrite(last.threads[u].task.meta, ref)
  }

  lemma BalancedTwice(s: State, next: State, last: State, repo: RepoConfig, r: Ref, d: bool, d1: bool, m: bool,
                      m1: bool, deletes: bool, mirrors: bool)
    requires Balanced(s, next, repo, r, d, m) && Balanced(next, last, repo, r, d1, m1)
    requires (d || d1 ==> deletes) && (m || m1 ==> mirrors)
    ensures Balanced(s, last, repo, r, deletes, mirrors)
  {
    hide WorldOf, CountOn, Tip;
  }

  lemma {:induction false} RunBalanced(z: Setting, repo: RepoConfig, coop: set<Tid>, w: Legs.World, s: State,
                                       steps: seq<Step>, last: State, r: Ref)
    requires Inv(z, s) && repo in z.cfg.repos && Stands(z, repo, coop, w, s) && RoutineCalls(s, repo)
    requires Leads(z, repo, coop, s, steps, last)
    decreases steps
    ensures Balanced(s, last, repo, r, DeleteBetween(s, last, repo, r), MirrorBetween(s, last, repo, r))
  {
    hide Inv, Stands, RoutineCalls, Can, Do, Quiet, Balanced, DoDeed, DeleteUnderWay, MirrorUnderWay, DeleteBetween;
    hide MirrorBetween, WholeDeed, Completed, DoneAmong;
    if steps == [] {
      TwoLegs(z, s, repo);
      SameIsBalanced(s, last, repo, r, DeleteBetween(s, last, repo, r), MirrorBetween(s, last, repo, r));
    } else {
      var next := Do(z, s, steps[0]);
      QuietBalanced(z, repo, coop, w, s, steps[0], r);
      var d := Serial.QuietStep(z, repo, coop, w, s, steps[0]);
      DoKeeps(z, s, steps[0]);
      RoutineStays(z, repo, coop, s, steps[0]);
      RunBalanced(z, repo, coop, DoDeed(z.g, w, d), next, steps[1..], last, r);
      CallsLast(z, repo, coop, DoDeed(z.g, w, d), s, next, steps, last, r);
      BalancedTwice(s, next, last, repo, r, DeleteUnderWay(s, repo, r), DeleteBetween(next, last, repo, r),
                    MirrorUnderWay(s, repo, r), MirrorBetween(next, last, repo, r),
                    DeleteBetween(s, last, repo, r), MirrorBetween(s, last, repo, r));
    }
  }

  /** A call that runs at the first step, or between the later ones, runs between all. */
  lemma CallsLast(z: Setting, repo: RepoConfig, coop: set<Tid>, w: Legs.World, s: State, next: State, steps: seq<Step>,
                  last: State, r: Ref)
    requires Inv(z, next) && repo in z.cfg.repos && Stands(z, repo, coop, w, next) && RoutineCalls(next, repo)
    requires steps != [] && Can(z, s, steps[0]) && next == Do(z, s, steps[0])
    requires Leads(z, repo, coop, next, steps[1..], last)
    ensures DeleteUnderWay(s, repo, r) || DeleteBetween(next, last, repo, r) ==> DeleteBetween(s, last, repo, r)
    ensures MirrorUnderWay(s, repo, r) || MirrorBetween(next, last, repo, r) ==> MirrorBetween(s, last, repo, r)
  {
    hide Inv, Stands, RoutineCalls, Can, Do, Leads, MayWrite, Completed, DoneAmong;
    CallsPersist(z, s, steps[0]);
    var deeds := QuietRunIsSerial(z, repo, coop, w, next, steps[1..], last);
  }

  /** Pushes echo at most once: in a quiet run with no delete of a ref, however many syncs for
      it arrive and whatever their git does, the service writes the ref at most once between
      the two sides, exactly when they come to agree; and where they agree it writes nothing. */
  lemma PushEchoesStop(z: Setting, repo: RepoConfig, coop: set<Tid>, s: State, steps: seq<Step>, last: State, r: Ref)
    requires QuietRun(z, repo, coop, s, steps, last) && !DeleteBetween(s, last, repo, r)
    ensures Wired(s, Leg(repo, true)) && Wired(last, Leg(repo, true))
    ensures CountOn(last.writes, repo, r) - CountOn(s.writes, repo, r) ==
      Disagreement(s, repo, r) - Disagreement(last, repo, r)
    ensures Disagreement(s, repo, r) == 0 ==> SameTraffic(s, last, repo, r)
  {
    hide Reachable, Inv, Stands, RoutineCalls, Leads, DeleteBetween, MirrorBetween, WorldOf, Tip, CountOn, SameTraffic;
    QuietStart(z, repo, coop, s);
    RunBalanced(z, repo, coop, WorldOf(s, repo), s, steps, last, r);
  }

  /** Deletes echo at most twice: with no mirror of the ref, the service's writes of it are
      exactly the sides it is gone from, and where it is gone it writes nothing. */
  lemma DeleteEchoesStop(z: Setting, repo: RepoConfig, coop: set<Tid>, s: State, steps: seq<Step>, last: State, r: Ref)
    requires QuietRun(z, repo, coop, s, steps, last) && !MirrorBetween(s, last, repo, r)
    ensures Wired(s, Leg(repo, true)) && Wired(last, Leg(repo, true))
    ensures CountOn(last.writes, repo, r) - CountOn(s.writes, repo, r) ==
      Presence(s, repo, r) - Presence(last, repo, r) <= 2
    ensures Presence(s, repo, r) == 0 ==> SameTraffic(s, last, repo, r)
  {
    hide Reachable, Inv, Stands, RoutineCalls, Leads, DeleteBetween, MirrorBetween, WorldOf, Tip, CountOn, SameTraffic;
    QuietStart(z, repo, coop, s);
    RunBalanced(z, repo, coop, WorldOf(s, repo), s, steps, last, r);
  }

  /** Once two full syncs have converged, later mirrors write nothing: in any quiet run that
      follows without a delete of the ref, it stays at the join on both sides, unwritten. */
  lemma LaterMirrorsWriteNothing(z: Setting, repo: RepoConfig, coop: set<Tid>, s: State, steps: seq<Step>, mid: State,
                                 t: Tid, u: Tid, coop': set<Tid>, more: seq<Step>, last: State, r: Ref)
    requires QuietRun(z, repo, coop, s, steps, mid) && repo.name !in mid.locks && repo.refOverrides == [] && !r.Other?
    requires t in coop && Completed(z, s, mid, t) && IsFullMirror(mid.threads[t].task, repo, true)
    requires u in coop && Completed(z, s, mid, u) && IsFullMirror(mid.threads[u].task, repo, false)
    requires forall ref :: !DeleteBetween(s, mid, repo, ref)
    requires Wired(s, Leg(repo, true)) && Legs.ComparableSides(z.g, WorldOf(s, repo))
    requires Leads(z, repo, coop', mid, more, last) && !DeleteBetween(mid, last, repo, r)
    ensures SameTraffic(mid, last, repo, r)
    ensures Tip(WorldOf(last, repo).a, r) == Tip(WorldOf(last, repo).b, r) == JoinAt(z.g, WorldOf(s, repo), r)
  {
    hide Reachable, RoutineCalls, Leads, DeleteBetween, WorldOf, Tip, CountOn, Completed, IsFullMirror, JoinAt;
    hide Legs.ComparableSides, Ancestors;
    FullSyncsConverge(z, repo, coop, s, steps, mid, t, u, r);
    QuietRunsGoOn(z, repo, coop, s, steps, mid);
    PushEchoesStop(z, repo, coop', mid, more, last, r);
  }
}
