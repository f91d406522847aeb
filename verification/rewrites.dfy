/** What becomes of a divergent rewrite in quiet runs: it lands and stays, it is undone when its
 * commit travels under another name first, and two of them keep each other out.
 */
module Rewrites {
  import opened Config
  import opened Events
  import opened Git
  import opened Graph
  import opened Progress
  import opened Protocol
  import opened Refs
  import opened Routing
  import opened Runs
  import opened Section
  import opened Serial
  import opened Settle
  import Echoes
  import Legs

  // ---- what a deed does to a rewrite --------------------------------------------------------------

  /** The rewrite is pending or done; while pending, only this ref of side A reaches the new tip. */
  ghost predicate RewriteHolds(g: ObjectGraph, w: Legs.World, r: Ref, newTip: Oid, oldTip: Oid) {
    && Legs.Rewrite(g, w, r, newTip, oldTip) && Legs.RewritePending(g, w, r, newTip, oldTip)
    && (Tip(w.b, r) == newTip || forall o :: o in w.a && o != r ==> newTip !in Ancestors(g, w.a[o]))
  }

  lemma DeedKeepsRewrite(g: ObjectGraph, w: Legs.World, d: WorldDeed, r: Ref, newTip: Oid, oldTip: Oid)
    requires RewriteHolds(g, w, r, newTip, oldTip) && d.deed != Removed(r)
    ensures RewriteHolds(g, DoDeed(g, w, d), r, newTip, oldTip)
    ensures Tip(w.b, r) == newTip ==> Tip(DoDeed(g, w, d).b, r) == newTip
    ensures d.deed.Turned? && Legs.LandsRewrite(g, w, Legs.Turn(d.toB, d.deed.only, d.deed.keep), r, oldTip) ==>
      Tip(DoDeed(g, w, d).b, r) == newTip
  {
    match d.deed
    case Turned(only, keep) => {
      TurnedIsTurn(g, w, d.toB, only, keep);
      hide DoDeed;
      TurnKeepsRewrite(g, w, Legs.Turn(d.toB, only, keep), r, newTip, oldTip);
    }
    case Removed(ref) => RemovalKeepsRewrite(g, w, d.toB, ref, r, newTip, oldTip);
    case _ =>
      assert Closed(g, {});
      hide Closed, Closure, Ancestors, IsAncestor, Legs.RealTips;
  }

  lemma RemovalKeepsRewrite(g: ObjectGraph, w: Legs.World, toB: bool, ref: Ref, r: Ref, newTip: Oid, oldTip: Oid)
    requires RewriteHolds(g, w, r, newTip, oldTip) && ref != r
    ensures RewriteHolds(g, DoDeed(g, w, WorldDeed(toB, Removed(ref))), r, newTip, oldTip)
    ensures Tip(w.b, r) == newTip ==> Tip(DoDeed(g, w, WorldDeed(toB, Removed(ref))).b, r) == newTip
  {
    RemovalReachesLess(g, w.b, ref);
    hide Closed, Closure, Ancestors, IsAncestor;
  }

  lemma RemovalReachesLess(g: ObjectGraph, refs: RefMap, ref: Ref)
    ensures Closure(g, (refs - {ref}).Values) <= Closure(g, refs.Values)
  {
    assert (refs - {ref}).Values <= refs.Values;
  }

  lemma TurnKeepsRewrite(g: ObjectGraph, w: Legs.World, turn: Legs.Turn, r: Ref, newTip: Oid, oldTip: Oid)
    requires RewriteHolds(g, w, r, newTip, oldTip)
    ensures RewriteHolds(g, Legs.Take(g, w, turn), r, newTip, oldTip)
    ensures Tip(w.b, r) == newTip || Legs.LandsRewrite(g, w, turn, r, oldTip) ==>
      Tip(Legs.Take(g, w, turn).b, r) == newTip
  {
    var w' := Legs.Take(g, w, turn);
    Legs.RewriteStays(g, w, turn, r, newTip, oldTip);
    if Tip(w.b, r) == newTip {
      PendingStaysDone(g, w, turn, r, newTip, oldTip);
    } else {
      NothingElseCarries(g, w, turn, r, newTip);
      Legs.RewriteStep(g, w, turn, r, newTip, oldTip);
      if Tip(w'.b, r) != newTip {
        forall o | o in w'.a && o != r ensures newTip !in Ancestors(g, w'.a[o]) {
          OthersReachNothing(g, w, turn, r, newTip, oldTip, o);
        }
      }
    }
    hide Legs.Take, Legs.Rewrite, Closure, Ancestors, Legs.LandsRewrite;
  }

  lemma PendingStaysDone(g: ObjectGraph, w: Legs.World, turn: Legs.Turn, r: Ref, newTip: Oid, oldTip: Oid)
    requires Tip(w.a, r) == newTip && Tip(w.b, r) == newTip
    ensures Legs.RewritePending(g, Legs.Take(g, w, turn), r, newTip, oldTip)
    ensures Tip(Legs.Take(g, w, turn).b, r) == newTip
  {
    Legs.TakenTips(g, w, turn, r);
    hide Legs.Take, Legs.CacheFor, Closure;
  }

  lemma NothingElseCarries(g: ObjectGraph, w: Legs.World, turn: Legs.Turn, r: Ref, newTip: Oid)
    requires forall o :: o in w.a && o != r ==> newTip !in Ancestors(g, w.a[o])
    ensures !Legs.CarriesElsewhere(g, w, turn, r, newTip)
  {
    assert NO_OBJECT !in g.parents;
    assert Ancestors(g, NO_OBJECT) == {};
    hide Ancestors;
  }

  /** What another ref of side A gets from side B does not reach the new tip either. */
  lemma OthersReachNothing(g: ObjectGraph, w: Legs.World, turn: Legs.Turn, r: Ref, newTip: Oid, oldTip: Oid, o: Ref)
    requires RewriteHolds(g, w, r, newTip, oldTip) && Tip(w.b, r) != newTip && o != r && o in Legs.Take(g, w, turn).a
    ensures newTip !in Ancestors(g, Legs.Take(g, w, turn).a[o])
  {
    var tip := Legs.Take(g, w, turn).a[o];
    Legs.TakenTips(g, w, turn, o);
    assert Tip(Legs.Take(g, w, turn).a, o) == tip;
    hide Legs.Take, Legs.CacheFor, Legs.Rewrite, IsAncestor;
    assert tip == Tip(w.a, o) || tip == Tip(w.b, o);
    assert Ancestors(g, NO_OBJECT) == {} by { assert NO_OBJECT !in g.parents; }
    RefReachesClosure(g, w.b, o);
    hide Ancestors, Closure;
  }

  lemma RefReachesClosure(g: ObjectGraph, refs: RefMap, o: Ref)
    ensures o in refs ==> Ancestors(g, refs[o]) <= Closure(g, refs.Values)
  {
    if o in refs {
      assert refs[o] in refs.Values;
      forall x | x in Ancestors(g, refs[o]) ensures x in Closure(g, refs.Values) {
        ClosureContains(g, refs.Values, refs[o], x);
      }
    }
  }

  ghost predicate LandedAmong(g: ObjectGraph, w: Legs.World, deeds: seq<WorldDeed>, r: Ref, oldTip: Oid)
    decreases deeds
  {
    deeds != [] &&
    (   (deeds[0].deed.Turned? &&
          Legs.LandsRewrite(g, w, Legs.Turn(deeds[0].toB, deeds[0].deed.only, deeds[0].deed.keep), r, oldTip))
     || LandedAmong(g, DoDeed(g, w, deeds[0]), deeds[1..], r, oldTip))
  }

  lemma {:induction false} DeedsKeepRewrite(g: ObjectGraph, w: Legs.World, deeds: seq<WorldDeed>, r: Ref, newTip: Oid,
                                            oldTip: Oid)
    requires RewriteHolds(g, w, r, newTip, oldTip) && forall d :: d in deeds ==> d.deed != Removed(r)
    decreases deeds
    ensures RewriteHolds(g, DoAll(g, w, deeds), r, newTip, oldTip)
    ensures Tip(w.b, r) == newTip || LandedAmong(g, w, deeds, r, oldTip) ==> Tip(DoAll(g, w, deeds).b, r) == newTip
  {
    hide RewriteHolds, DoDeed, Legs.LandsRewrite;
    if deeds != [] {
      assert deeds[0] in deeds && forall d :: d in deeds[1..] ==> d in deeds;
      DeedKeepsRewrite(g, w, deeds[0], r, newTip, oldTip);
      DeedsKeepRewrite(g, DoDeed(g, w, deeds[0]), deeds[1..], r, newTip, oldTip);
    }
  }

  /** Side A rewrote a ref to a divergent tip that side B and its cache have never seen, or have
      taken over already, and that no other ref of A reaches. */
  ghost predicate Rewritten(z: Setting, repo: RepoConfig, s: State, r: Ref, newTip: Oid, oldTip: Oid) {
    && Wired(s, Leg(repo, true)) && !r.Other?
    && newTip in z.g.parents && oldTip in z.g.parents && !IsAncestor(z.g, newTip, oldTip)
    && var w := WorldOf(s, repo);
      && Legs.RewritePending(z.g, w, r, newTip, oldTip)
      && forall o :: o in w.a && o != r ==> newTip !in Ancestors(z.g, w.a[o])
  }

  lemma RewriteStart(z: Setting, repo: RepoConfig, coop: set<Tid>, s: State, r: Ref, newTip: Oid, oldTip: Oid)
    requires Reachable(z, s) && repo in z.cfg.repos && repo.name !in s.locks
    requires Rewritten(z, repo, s, r, newTip, oldTip)
    ensures RewriteHolds(z.g, WorldOf(s, repo), r, newTip, oldTip)
  {
    hide Reachable, Inv, WorldOf, IsAncestor, Ancestors, Closed, Closure, Holder;
    QuietStart(z, repo, coop, s);
    AtRest(z, repo, coop, WorldOf(s, repo), s);
    hide Stands;
  }

  /** In every quiet run that does not delete the ref, with mirrors of any scope in any order,
      repeated, failing or cut short, the rewrite is never undone; it lands with the first
      mirror that finds the old tip in A's cache and gets to the ref, and then the old tip
      never returns. Every completed call that git served has its whole deed among those
      returned. */
  lemma RewriteIsNeverUndoneInRuns(z: Setting, repo: RepoConfig, coop: set<Tid>, s: State, steps: seq<Step>,
                                   last: State, r: Ref, newTip: Oid, oldTip: Oid)
    returns (deeds: seq<WorldDeed>)
    requires QuietRun(z, repo, coop, s, steps, last) && repo.name !in last.locks && !DeleteBetween(s, last, repo, r)
    requires Rewritten(z, repo, s, r, newTip, oldTip)
    ensures Wired(last, Leg(repo, true)) && WorldOf(last, repo) == DoAll(z.g, WorldOf(s, repo), deeds)
    ensures var w, w' := WorldOf(s, repo), WorldOf(last, repo);
      && Tip(w'.a, r) == newTip && (Tip(w'.b, r) == newTip || Tip(w'.b, r) == oldTip)
      && (Tip(w.b, r) == newTip || LandedAmong(z.g, w, deeds, r, oldTip) ==> Tip(w'.b, r) == newTip)
    ensures forall d :: d in deeds ==> d.deed != Removed(r)
    ensures forall u :: u in coop && Completed(z, s, last, u) && last.threads[u].task.leg.repo == repo ==>
      DoneAmong(z, last.threads[u].task, WorldOf(s, repo), deeds)
  {
    hide Reachable, Inv, Stands, Leads, RoutineCalls, Completed, DoneAmong, DoAll, WorldOf, LandedAmong, IsAncestor;
    hide Ancestors, Closed;
    hide Closure, DeleteBetween;
    QuietStart(z, repo, coop, s);
    var w := WorldOf(s, repo);
    deeds := QuietRunIsSerial(z, repo, coop, w, s, steps, last);
    AtRest(z, repo, coop, DoAll(z.g, w, deeds), last);
    RewriteStart(z, repo, coop, s, r, newTip, oldTip);
    DeedsKeepRewrite(z.g, w, deeds, r, newTip, oldTip);
  }

  lemma {:induction false} LandedAt(g: ObjectGraph, w: Legs.World, deeds: seq<WorldDeed>, k: nat, r: Ref, oldTip: Oid)
    requires k < |deeds| && deeds[k].deed.Turned?
    requires var turn := Legs.Turn(deeds[k].toB, deeds[k].deed.only, deeds[k].deed.keep);
      Legs.LandsRewrite(g, DoAll(g, w, deeds[..k]), turn, r, oldTip)
    decreases k
    ensures LandedAmong(g, w, deeds, r, oldTip)
  {
    hide DoDeed, Legs.LandsRewrite;
    if k == 0 {
      assert deeds[..0] == [];
    } else {
      assert deeds[..k][1..] == deeds[1..][..k - 1] && deeds[1..][k - 1] == deeds[k];
      LandedAt(g, DoDeed(g, w, deeds[0]), deeds[1..], k - 1, r, oldTip);
    }
  }

  /** A mirror from side A that is to bring this ref over. */
  predicate Brings(z: Setting, task: Task, repo: RepoConfig, r: Ref) {
    task.MirrorTask? && task.leg == Leg(repo, true) && Covered(z, task.leg, task.meta.ref, r)
  }

  /** The whole deed of such a mirror lands the rewrite if its cache holds the old tip. */
  lemma ItLands(z: Setting, task: Task, repo: RepoConfig, w: Legs.World, d: WorldDeed, r: Ref, newTip: Oid, oldTip: Oid)
    requires Brings(z, task, repo, r) && ItsDeed(z, task, w, d) && RewriteHolds(z.g, w, r, newTip, oldTip)
    ensures d.deed.Turned? && d.toB
    ensures oldTip in Legs.CacheFor(z.g, w, Legs.Turn(d.toB, d.deed.only, d.deed.keep)) ==>
      Legs.LandsRewrite(z.g, w, Legs.Turn(d.toB, d.deed.only, d.deed.keep), r, oldTip)
  {
    assert NO_OBJECT !in z.g.parents && r in w.a;
    hide Legs.CacheFor, Closed, Legs.RealTips, IsAncestor, Ancestors, Closure;
  }

  /** A mirror from side A that covers the ref and completes with a git that serves it has its
      turn among the deeds, and lands the rewrite if the cache of that turn holds the old tip. */
  lemma CompletedMirrorLands(z: Setting, repo: RepoConfig, coop: set<Tid>, s: State, steps: seq<Step>, last: State,
                             t: Tid, r: Ref, newTip: Oid, oldTip: Oid)
    returns (deeds: seq<WorldDeed>, k: nat)
    requires QuietRun(z, repo, coop, s, steps, last) && repo.name !in last.locks && !DeleteBetween(s, last, repo, r)
    requires Rewritten(z, repo, s, r, newTip, oldTip)
    requires t in coop && Completed(z, s, last, t) && Brings(z, last.threads[t].task, repo, r)
    ensures Wired(last, Leg(repo, true)) && WorldOf(last, repo) == DoAll(z.g, WorldOf(s, repo), deeds)
    ensures k < |deeds| && deeds[k].deed.Turned?
    ensures var met := DoAll(z.g, WorldOf(s, repo), deeds[..k]);
      var turn := Legs.Turn(deeds[k].toB, deeds[k].deed.only, deeds[k].deed.keep);
      && ItsDeed(z, last.threads[t].task, met, deeds[k])
      && (oldTip in Legs.CacheFor(z.g, met, turn) ==> Tip(WorldOf(last, repo).b, r) == newTip)
  {
    hide Reachable, Inv, Stands, Leads, RoutineCalls, Overridden, DoAll, WorldOf, LandedAmong, IsAncestor, Ancestors;
    hide Closed, Closure;
    hide DeleteBetween, ItsDeed, RewriteHolds, Legs.CacheFor, Covered;
    deeds := RewriteIsNeverUndoneInRuns(z, repo, coop, s, steps, last, r, newTip, oldTip);
    var w, task := WorldOf(s, repo), last.threads[t].task;
    k :| k < |deeds| && ItsDeed(z, task, DoAll(z.g, w, deeds[..k]), deeds[k]);
    RewriteStart(z, repo, coop, s, r, newTip, oldTip);
    assert forall d :: d in deeds[..k] ==> d in deeds;
    DeedsKeepRewrite(z.g, w, deeds[..k], r, newTip, oldTip);
    var met := DoAll(z.g, w, deeds[..k]);
    ItLands(z, task, repo, met, deeds[k], r, newTip, oldTip);
    var turn := Legs.Turn(deeds[k].toB, deeds[k].deed.only, deeds[k].deed.keep);
    if oldTip in Legs.CacheFor(z.g, met, turn) { LandedAt(z.g, w, deeds, k, r, oldTip); }
  }

  // ---- a rewrite whose old tip stays in the cache ------------------------------------------------------

  /** On the way the cache of side A never loses this object. */
  ghost predicate NeverDropped(z: Setting, repo: RepoConfig, s: State, steps: seq<Step>, o: Oid)
    decreases steps
  {
    && o in ObjectsOf(CacheAt(s, Leg(repo, true)))
    && (steps != [] ==> Can(z, s, steps[0]) && NeverDropped(z, repo, Do(z, s, steps[0]), steps[1..], o))
  }

  /** Completing, a mirror lets go of the lock. */
  lemma CompletingFrees(z: Setting, repo: RepoConfig, s: State, st: Step, t: Tid)
    requires Inv(z, s) && Can(z, s, st) && Completed(z, s, Do(z, s, st), t) && RoutineCalls(s, repo)
    requires Do(z, s, st).threads[t].task.MirrorTask? && Do(z, s, st).threads[t].task.leg.repo == repo
    ensures repo.name !in Do(z, s, st).locks
  {
    hide Inv, Overridden, StepOf, Apply, Look, Honest, Ready, Blocked, Proper, Routine, HoldsLock;
    OnlyItsStepCompletes(z, s, st, t);
    CallsPersist(z, s, st);
    var act := StepOf(z, s.threads[t], Look(s, s.threads[t].task.leg), st.choice);
    CallStands(z, s, t);
    ThreadsAfter(z, s, t, act);
    CompletesFromLock(z, s.threads[t], Look(s, s.threads[t].task.leg), st.choice);
    HolderOwnsLock(z, s, t);
    LockAfterStep(z, s, t, act);
    DoneHoldsNothing(act.pc);
  }

  lemma DoneHoldsNothing(pc: PC)
    ensures pc.Done? ==> !HoldsLock(pc)
  {
  }

  lemma OnlyItsStepCompletes(z: Setting, s: State, st: Step, t: Tid)
    requires Inv(z, s) && Can(z, s, st) && Completed(z, s, Do(z, s, st), t)
    ensures ItsStep(st, t)
  {
    hide Inv, Overridden, StepOf, Apply, Look, Honest, Ready, Blocked, RouteOf, TaskOf, RefusalEntries, ApplyMove;
    hide Admitted;
    if st.Steps? {
      ThreadsAfter(z, s, st.tid, StepOf(z, s.threads[st.tid], Look(s, s.threads[st.tid].task.leg), st.choice));
    }
  }

  /** A routine mirror that no override sends away completes only from under its lock. */
  lemma CompletesFromLock(z: Setting, t: Thread, v: Sight, c: Choice)
    requires Ready(t, v.cache) && Routine(t.task) && t.task.MirrorTask? && !Overridden(z, t.task.leg, t.task.meta.ref)
    requires !t.pc.Done? && !Blocked(z, t, v.busy) && StepOf(z, t, v, c).pc.Done?
    ensures HoldsLock(t.pc)
  {
    hide Overridden, Routine;
    if t.pc.Waiting? { WaitingSteps(z, t, v, c); }
    hide StepOf, Ready;
  }

  /** What the rest of a quiet run says of the calls of its first step. */
  lemma CallsLater(z: Setting, repo: RepoConfig, coop: set<Tid>, w: Legs.World, s: State, next: State, steps: seq<Step>,
                   last: State, ref: Ref)
    requires Inv(z, next) && repo in z.cfg.repos && Stands(z, repo, coop, w, next) && RoutineCalls(next, repo)
    requires steps != [] && Can(z, s, steps[0]) && next == Do(z, s, steps[0])
    requires Leads(z, repo, coop, next, steps[1..], last)
    ensures DeleteUnderWay(s, repo, ref) || DeleteBetween(next, last, repo, ref) ==> DeleteBetween(s, last, repo, ref)
    ensures forall u :: u in next.threads ==> u in last.threads && last.threads[u].task == next.threads[u].task
                                              && (next.threads[u].pc.Done? ==> last.threads[u] == next.threads[u])
  {
    hide Inv, Stands, RoutineCalls, Can, Do, Leads, Completed, DoneAmong;
    CallsPersist(z, s, steps[0]);
    var deeds := QuietRunIsSerial(z, repo, coop, w, next, steps[1..], last);
  }

  /** Whatever the rest of a quiet run does, a landed rewrite stays landed. */
  lemma LandedStays(z: Setting, repo: RepoConfig, coop: set<Tid>, w: Legs.World, s: State, steps: seq<Step>,
                    last: State, r: Ref, newTip: Oid, oldTip: Oid)
    returns (w': Legs.World)
    requires Inv(z, s) && repo in z.cfg.repos && Stands(z, repo, coop, w, s) && RoutineCalls(s, repo)
    requires Leads(z, repo, coop, s, steps, last) && !DeleteBetween(s, last, repo, r)
    requires RewriteHolds(z.g, w, r, newTip, oldTip) && Tip(w.b, r) == newTip
    ensures Stands(z, repo, coop, w', last) && RewriteHolds(z.g, w', r, newTip, oldTip) && Tip(w'.b, r) == newTip
  {
    hide Inv, Stands, RoutineCalls, Leads, DeleteBetween, RewriteHolds, Completed, DoneAmong;
    var deeds := QuietRunIsSerial(z, repo, coop, w, s, steps, last);
    DeedsKeepRewrite(z.g, w, deeds, r, newTip, oldTip);
    w' := DoAll(z.g, w, deeds);
  }

  /** The step with which such a mirror completes lands the rewrite. */
  lemma CompletionLands(z: Setting, repo: RepoConfig, coop: set<Tid>, w: Legs.World, s: State, next: State,
                        d: WorldDeed, t: Tid, r: Ref, newTip: Oid, oldTip: Oid)
    requires Stands(z, repo, coop, DoDeed(z.g, w, d), next) && repo.name !in next.locks
    requires RewriteHolds(z.g, w, r, newTip, oldTip)
    requires t in next.threads && Brings(z, next.threads[t].task, repo, r) && ItsDeed(z, next.threads[t].task, w, d)
    requires d.deed != Removed(r) && oldTip in ObjectsOf(CacheAt(next, Leg(repo, true)))
    ensures Tip(DoDeed(z.g, w, d).b, r) == newTip
  {
    hide Holder, RewriteHolds, Covered, Legs.CacheFor, Brings, ItsDeed, CacheAt;
    ItLands(z, next.threads[t].task, repo, w, d, r, newTip, oldTip);
    var turn := Legs.Turn(d.toB, d.deed.only, d.deed.keep);
    AtRest(z, repo, coop, DoDeed(z.g, w, d), next);
    TurnLeavesCache(z.g, w, d.deed.only, d.deed.keep);
    hide Stands;
    DeedKeepsRewrite(z.g, w, d, r, newTip, oldTip);
  }

  lemma TurnLeavesCache(g: ObjectGraph, w: Legs.World, only: Option<set<Ref>>, keep: set<Oid>)
    ensures DoDeed(g, w, WorldDeed(true, Turned(only, keep))).knownA == Legs.CacheFor(g, w, Legs.Turn(true, only, keep))
  {
    hide Legs.Known, Legs.TurnRefs;
  }

  lemma {:induction false} KeptRewriteLands(z: Setting, repo: RepoConfig, coop: set<Tid>, w: Legs.World, s: State,
                                            steps: seq<Step>, last: State, t: Tid, r: Ref, newTip: Oid, oldTip: Oid)
    returns (w': Legs.World)
    requires Inv(z, s) && repo in z.cfg.repos && Stands(z, repo, coop, w, s) && RoutineCalls(s, repo)
    requires Leads(z, repo, coop, s, steps, last) && !DeleteBetween(s, last, repo, r)
    requires NeverDropped(z, repo, s, steps, oldTip)
    requires RewriteHolds(z.g, w, r, newTip, oldTip)
    requires t in coop && Completed(z, s, last, t) && Brings(z, last.threads[t].task, repo, r)
    decreases steps
    ensures Stands(z, repo, coop, w', last) && Tip(w'.b, r) == newTip
  {
    hide Inv, Stands, RoutineCalls, Can, Do, Quiet, DoDeed, DeleteBetween, DeleteUnderWay, RewriteHolds, Overridden;
    hide WholeDeed;
    hide Covered, CacheAt, DoneAmong;
    var next := Do(z, s, steps[0]);
    var d := Serial.QuietStep(z, repo, coop, w, s, steps[0]);
    var w1 := DoDeed(z.g, w, d);
    DoKeeps(z, s, steps[0]);
    RoutineStays(z, repo, coop, s, steps[0]);
    CallsPersist(z, s, steps[0]);
    CallsLater(z, repo, coop, w1, s, next, steps, last, r);
    DeedKeepsRewrite(z.g, w, d, r, newTip, oldTip);
    if Completed(z, s, next, t) {
      CompletingFrees(z, repo, s, steps[0], t);
      CompletionLands(z, repo, coop, w, s, next, d, t, r, newTip, oldTip);
      w' := LandedStays(z, repo, coop, w1, next, steps[1..], last, r, newTip, oldTip);
    } else {
      w' := KeptRewriteLands(z, repo, coop, w1, next, steps[1..], last, t, r, newTip, oldTip);
    }
  }

  /** The rewrite wins: when the old tip never leaves A's cache on the way, and a mirror that
      covers the ref completes with a git that serves it, both sides end at the new tip. */
  lemma RewriteWins(z: Setting, repo: RepoConfig, coop: set<Tid>, s: State, steps: seq<Step>, last: State, t: Tid,
                    r: Ref, newTip: Oid, oldTip: Oid)
    requires QuietRun(z, repo, coop, s, steps, last) && repo.name !in last.locks && !DeleteBetween(s, last, repo, r)
    requires Rewritten(z, repo, s, r, newTip, oldTip) && NeverDropped(z, repo, s, steps, oldTip)
    requires t in coop && Completed(z, s, last, t) && Brings(z, last.threads[t].task, repo, r)
    ensures Wired(last, Leg(repo, true)) && Tip(WorldOf(last, repo).a, r) == Tip(WorldOf(last, repo).b, r) == newTip
  {
    hide Reachable, Inv, Stands, Leads, RoutineCalls, Overridden, WorldOf, NeverDropped, DeleteBetween, RewriteHolds;
    hide Covered;
    QuietStart(z, repo, coop, s);
    RewriteStart(z, repo, coop, s, r, newTip, oldTip);
    var w := KeptRewriteLands(z, repo, coop, WorldOf(s, repo), s, steps, last, t, r, newTip, oldTip);
    AtRest(z, repo, coop, w, last);
    hide Rewritten;
    var deeds := RewriteIsNeverUndoneInRuns(z, repo, coop, s, steps, last, r, newTip, oldTip);
  }

  // ---- how a rewrite is undone -------------------------------------------------------------------------

  /** A mirror that waits, names this ref and is not sent away by an override. */
  predicate WaitsToBring(z: Setting, s: State, t: Tid, leg: Leg, r: Ref) {
    && t in s.threads && s.threads[t].pc.Waiting? && s.threads[t].task.MirrorTask? && s.threads[t].task.leg == leg
    && s.threads[t].task.meta.ref == Some(r) && !Overridden(z, leg, Some(r))
  }

  /** The world after a named mirror's whole deed is the turn of its ref. */
  lemma NamedDeedIsTurn(z: Setting, task: Task, w: Legs.World, d: WorldDeed, r: Ref) returns (keep: set<Oid>)
    requires Legs.Real(z.g, w) && ItsDeed(z, task, w, d) && task.MirrorTask? && task.meta.ref == Some(r)
    ensures DoDeed(z.g, w, d) == Legs.Take(z.g, w, Legs.Turn(task.leg.toTarget, Some({r}), keep))
  {
    Echoes.HandledIsDeed(z, task, w, d, r);
    keep := d.deed.keep;
    hide Legs.Take, DoDeed, Legs.RealTips;
  }

  /** Side A rewrote a ref and also gave another ref the new commit. When the mirror of the other
      ref runs first, and then the one that brings the rewritten ref back from side B, the
      rewrite is undone: from every such state there is a quiet run of these two calls, both
      served in every way, that ends with both sides at the old tip. */
  lemma RewriteCanBeUndone(z: Setting, repo: RepoConfig, s: State, t: Tid, u: Tid, r: Ref, o: Ref, newTip: Oid,
                           oldTip: Oid)
    returns (steps: seq<Step>, last: State)
    requires Reachable(z, s) && repo in z.cfg.repos && repo.name !in s.locks && RoutineCalls(s, repo)
    requires WaitsToBring(z, s, t, Leg(repo, true), o) && WaitsToBring(z, s, u, Leg(repo, false), r)
    requires Wired(s, Leg(repo, true)) && r != o && !r.Other? && !o.Other?
    requires newTip in z.g.parents && oldTip in z.g.parents && newTip != oldTip && !IsAncestor(z.g, oldTip, newTip)
    requires var w := WorldOf(s, repo);
      Tip(w.a, r) == newTip && Tip(w.a, o) == newTip && Tip(w.b, r) == oldTip && Tip(w.b, o) == NO_OBJECT
    ensures QuietRun(z, repo, {t, u}, s, steps, last) && repo.name !in last.locks
    ensures Completed(z, s, last, t) && Completed(z, s, last, u)
    ensures Wired(last, Leg(repo, true)) && Tip(WorldOf(last, repo).a, r) == Tip(WorldOf(last, repo).b, r) == oldTip
  {
    hide Reachable, Inv, RoutineCalls, Leads, WorldOf, Tip, IsAncestor, Stands, Overridden, DoDeed, ItsDeed, Legs.Take;
    QuietStart(z, repo, {t, u}, s);
    var w := WorldOf(s, repo);
    var first, mid, d := CompletesWithDeed(z, repo, {t, u}, w, s, t);
    var w1 := DoDeed(z.g, w, d);
    var second, end, e := CompletesWithDeed(z, repo, {t, u}, w1, mid, u);
    LeadsOn(z, repo, {t, u}, s, first, mid, second, end);
    steps, last := first + second, end;
    AtRest(z, repo, {t, u}, w, s);
    AtRest(z, repo, {t, u}, w1, mid);
    AtRest(z, repo, {t, u}, DoDeed(z.g, w1, e), last);
    var keep := NamedDeedIsTurn(z, s.threads[t].task, w, d, o);
    var keep1 := NamedDeedIsTurn(z, s.threads[u].task, w1, e, r);
    Legs.CarriedRewriteIsUndone(z.g, w, r, o, newTip, oldTip, keep, keep1);
  }

  // ---- stalemates --------------------------------------------------------------------------------------

  lemma DeedKeepsStalemate(g: ObjectGraph, w: Legs.World, d: WorldDeed, r: Ref, x: Oid, y: Oid)
    requires Legs.Stalemate(g, w, r, x, y) && d.deed != Removed(r)
    ensures Legs.Stalemate(g, DoDeed(g, w, d), r, x, y)
  {
    match d.deed
    case Turned(only, keep) => {
      TurnedIsTurn(g, w, d.toB, only, keep);
      Legs.StalemateStays(g, w, Legs.Turn(d.toB, only, keep), r, x, y);
      hide Legs.Stalemate, DoDeed, Legs.Take;
    }
    case _ =>
      assert Closed(g, {});
      hide Closed, Ancestors;
  }

  lemma {:induction false} DeedsKeepStalemate(g: ObjectGraph, w: Legs.World, deeds: seq<WorldDeed>, r: Ref, x: Oid,
                                              y: Oid)
    requires Legs.Stalemate(g, w, r, x, y) && forall d :: d in deeds ==> d.deed != Removed(r)
    decreases deeds
    ensures Legs.Stalemate(g, DoAll(g, w, deeds), r, x, y)
  {
    hide Legs.Stalemate, DoDeed;
    if deeds != [] {
      assert deeds[0] in deeds && forall d :: d in deeds[1..] ==> d in deeds;
      DeedKeepsStalemate(g, w, deeds[0], r, x, y);
      DeedsKeepStalemate(g, DoDeed(g, w, deeds[0]), deeds[1..], r, x, y);
    }
  }

  /** The sides diverged and neither carries the other: while no cache holds the other side's tip
      and no other ref carries either, no quiet run without a delete of the ref ever moves it. */
  lemma DivergedStaysDiverged(z: Setting, repo: RepoConfig, coop: set<Tid>, s: State, steps: seq<Step>, last: State,
                              r: Ref, x: Oid, y: Oid)
    requires QuietRun(z, repo, coop, s, steps, last) && repo.name !in last.locks && !DeleteBetween(s, last, repo, r)
    requires Wired(s, Leg(repo, true)) && Legs.Stalemate(z.g, WorldOf(s, repo), r, x, y)
    ensures Wired(last, Leg(repo, true)) && Legs.Stalemate(z.g, WorldOf(last, repo), r, x, y)
    ensures Tip(WorldOf(last, repo).a, r) == x && Tip(WorldOf(last, repo).b, r) == y
  {
    hide Reachable, Inv, Stands, Leads, RoutineCalls, Completed, DoneAmong, DoAll, WorldOf, DeleteBetween, Closed;
    hide Legs.Apart;
    QuietStart(z, repo, coop, s);
    var w := WorldOf(s, repo);
    var deeds := QuietRunIsSerial(z, repo, coop, w, s, steps, last);
    AtRest(z, repo, coop, DoAll(z.g, w, deeds), last);
    DeedsKeepStalemate(z.g, w, deeds, r, x, y);
  }
}
