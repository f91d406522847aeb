/** What quiet runs settle to: two full syncs converge. */
module Settle {
  import opened Config
  import opened Git
  import opened Graph
  import opened Progress
  import opened Protocol
  import opened Refs
  import opened Routing
  import opened Runs
  import opened Section
  import opened Serial
  import Legs

  /** A quiet run from a reachable state in which no call of the repo is partway. */
  ghost predicate QuietRun(z: Setting, repo: RepoConfig, coop: set<Tid>, s: State, steps: seq<Step>, last: State) {
    && Reachable(z, s) && repo in z.cfg.repos && repo.name !in s.locks && RoutineCalls(s, repo)
    && Leads(z, repo, coop, s, steps, last)
  }

  lemma QuietStart(z: Setting, repo: RepoConfig, coop: set<Tid>, s: State)
    requires Reachable(z, s) && repo in z.cfg.repos && repo.name !in s.locks
    ensures Inv(z, s) && Wired(s, Leg(repo, true)) && Stands(z, repo, coop, WorldOf(s, repo), s)
    ensures Closed(z.g, WorldOf(s, repo).knownA) && Closed(z.g, WorldOf(s, repo).knownB)
  {
    ReachableIsOK(z, s);
    TwoLegs(z, s, repo);
    StoreIsReal(z.g, s.remotes[FromPlace(Leg(repo, true))]);
    StoreIsReal(z.g, s.remotes[ToPlace(Leg(repo, true))]);
    CacheIsClosed(z, s, Leg(repo, true));
    CacheIsClosed(z, s, Leg(repo, false));
    hide Reachable, Inv, CacheAt, Legs.RealTips, Holder;
  }

  lemma StoreIsReal(g: ObjectGraph, s: Store)
    ensures ValidStore(g, s) ==> Legs.RealTips(g, s.refs)
  {
  }

  lemma CacheIsClosed(z: Setting, s: State, leg: Leg)
    requires Inv(z, s) && leg.repo in z.cfg.repos
    ensures Closed(z.g, ObjectsOf(CacheAt(s, leg)))
  {
    assert Closed(z.g, {});
    hide LocksOK, ThreadsOK, WritesOK, EvidenceOK, ValidConfig, Closed;
  }

  /** A quiet run ends in a reachable state from which another can go on. */
  lemma {:induction false} QuietRunsGoOn(z: Setting, repo: RepoConfig, coop: set<Tid>, s: State, steps: seq<Step>,
                                         last: State)
    requires Reachable(z, s) && RoutineCalls(s, repo) && Leads(z, repo, coop, s, steps, last)
    decreases steps
    ensures Reachable(z, last) && RoutineCalls(last, repo)
  {
    hide Reachable, RoutineCalls, Can, Do, Quiet;
    if steps != [] {
      ReachableOn(z, s, steps[0]);
      RoutineStays(z, repo, coop, s, steps[0]);
      QuietRunsGoOn(z, repo, coop, Do(z, s, steps[0]), steps[1..], last);
    }
  }

  // ---- convergence ------------------------------------------------------------------------------

  function JoinAt(g: ObjectGraph, w: Legs.World, r: Ref): Oid { Legs.Join(g, Tip(w.a, r), Tip(w.b, r)) }

  /** Any deed that removes nothing keeps the sides comparable and what they join to, and
      never takes a side off the join. */
  lemma DeedKeepsJoin(g: ObjectGraph, w: Legs.World, d: WorldDeed, r: Ref)
    requires Legs.Real(g, w) && Legs.ComparableSides(g, w) && !d.deed.Removed? && !r.Other?
    ensures var w' := DoDeed(g, w, d);
      && Legs.Real(g, w') && Legs.ComparableSides(g, w') && JoinAt(g, w', r) == JoinAt(g, w, r)
      && (Tip(w.a, r) == JoinAt(g, w, r) ==> Tip(w'.a, r) == JoinAt(g, w, r))
      && (Tip(w.b, r) == JoinAt(g, w, r) ==> Tip(w'.b, r) == JoinAt(g, w, r))
  {
    DeedStaysReal(g, w, d);
    match d.deed
    case Turned(only, keep) => {
      TurnedIsTurn(g, w, d.toB, only, keep);
      var turn := Legs.Turn(d.toB, only, keep);
      Legs.StaysComparable(g, w, turn);
      Legs.TurnTowardsJoin(g, w, turn, r);
      Legs.TakenTips(g, w, turn, r);
      JoinFacts(g, w, r);
      hide DoDeed, Legs.Take, Legs.CacheFor, Legs.TurnTip, Legs.RealTips, Legs.ComparableSides, Legs.Join;
      JoinOfSelf(g, Tip(w.a, r));
      JoinOfSelf(g, Tip(w.b, r));
    }
    case _ =>
      hide Legs.Join, Legs.RealTips;
  }

  lemma JoinOfSelf(g: ObjectGraph, o: Oid)
    ensures Legs.Join(g, o, o) == o
  {
    hide IsAncestor;
  }

  /** The join is one of the two tips, and does not depend on which comes first. */
  lemma JoinFacts(g: ObjectGraph, w: Legs.World, r: Ref)
    requires Legs.Real(g, w) && Legs.ComparableSides(g, w) && !r.Other?
    ensures JoinAt(g, w, r) == Tip(w.a, r) || JoinAt(g, w, r) == Tip(w.b, r)
    ensures Legs.Join(g, Tip(w.b, r), Tip(w.a, r)) == JoinAt(g, w, r)
    ensures Tip(w.a, r) == NO_OBJECT ==> JoinAt(g, w, r) == Tip(w.b, r)
    ensures Tip(w.b, r) == NO_OBJECT ==> JoinAt(g, w, r) == Tip(w.a, r)
  {
    if r in w.a && r in w.b { Legs.JoinIsLeastDescendant(g, w.a[r], w.b[r]); }
    hide IsAncestor, Ancestors;
  }

  /** A whole deed of a full mirror of an unpinned repo takes its destination to the join. */
  lemma WholeMirrorReachesJoin(z: Setting, task: Task, w: Legs.World, d: WorldDeed, r: Ref)
    requires Legs.Real(z.g, w) && Legs.ComparableSides(z.g, w) && !r.Other? && ItsDeed(z, task, w, d)
    requires task.MirrorTask? && task.meta.ref.None? && task.leg.repo.refOverrides == []
    ensures var w' := DoDeed(z.g, w, d);
      Tip(Legs.SourceRefs(w', !d.toB), r) == JoinAt(z.g, w, r)
  {
    var turn := Legs.Turn(d.toB, d.deed.only, d.deed.keep);
    TurnedIsTurn(z.g, w, d.toB, d.deed.only, d.deed.keep);
    Legs.TurnTowardsJoin(z.g, w, turn, r);
    JoinFacts(z.g, w, r);
    assert r in EndsIn(w, d.toB).from ==> turn.Covers(r) && Tip(EndsIn(w, d.toB).from, r) == EndsIn(w, d.toB).from[r];
    assert NO_OBJECT !in z.g.parents;
    hide DoDeed, Legs.Take, Legs.Join, Legs.ComparableSides;
  }

  /** Deeds without a removal keep the join; once a whole full mirror in one direction is among
      them, its destination is at it. */
  lemma {:induction false} DeedsReachJoin(z: Setting, task: Task, w: Legs.World, deeds: seq<WorldDeed>, r: Ref)
    requires Legs.Real(z.g, w) && Legs.ComparableSides(z.g, w) && !r.Other?
    requires forall d :: d in deeds ==> !d.deed.Removed?
    requires task.MirrorTask? && task.meta.ref.None? && task.leg.repo.refOverrides == []
    requires DoneAmong(z, task, w, deeds) || Tip(Legs.SourceRefs(w, !task.leg.toTarget), r) == JoinAt(z.g, w, r)
    decreases deeds
    ensures var w' := DoAll(z.g, w, deeds);
      JoinAt(z.g, w', r) == JoinAt(z.g, w, r) == Tip(Legs.SourceRefs(w', !task.leg.toTarget), r)
  {
    hide DoDeed, Legs.Real, Legs.ComparableSides, Legs.Join, ItsDeed;
    if deeds != [] {
      var d, rest, w1 := deeds[0], deeds[1..], DoDeed(z.g, w, deeds[0]);
      assert deeds == [d] + rest && d in deeds;
      DeedKeepsJoin(z.g, w, d, r);
      if Tip(Legs.SourceRefs(w, !task.leg.toTarget), r) != JoinAt(z.g, w, r) {
        var k: nat :| k < |deeds| && ItsDeed(z, task, DoAll(z.g, w, deeds[..k]), deeds[k]);
        if k == 0 {
          assert deeds[..0] == [] && DoAll(z.g, w, deeds[..0]) == w;
          WholeMirrorReachesJoin(z, task, w, d, r);
          DirectionOf(z, task, w, d);
        } else {
          assert deeds[..k][1..] == rest[..k - 1] && rest[k - 1] == deeds[k];
        }
      }
      DeedsReachJoin(z, task, w1, rest, r);
    }
  }

  lemma DirectionOf(z: Setting, task: Task, w: Legs.World, d: WorldDeed)
    requires ItsDeed(z, task, w, d)
    ensures d.toB == task.leg.toTarget
  {
    hide WholeDeed;
  }

  /** A full mirror in this direction, of every ref. */
  predicate IsFullMirror(task: Task, repo: RepoConfig, toB: bool) {
    task.MirrorTask? && task.leg == Leg(repo, toB) && task.meta.ref.None?
  }

  /** Convergence of the service: the sides of an unpinned repo differ only by comparable
      commits, and nobody outside touches them while, among any other mirrors and any other
      repos' calls, one full mirror each way completes with a git that serves it. Then both
      sides are at the pointwise join, whichever completed first, and no commit has left a ref. */
  lemma FullSyncsConverge(z: Setting, repo: RepoConfig, coop: set<Tid>, s: State, steps: seq<Step>, last: State, t: Tid,
                          u: Tid, r: Ref)
    requires QuietRun(z, repo, coop, s, steps, last) && repo.name !in last.locks && repo.refOverrides == [] && !r.Other?
    requires t in coop && Completed(z, s, last, t) && IsFullMirror(last.threads[t].task, repo, true)
    requires u in coop && Completed(z, s, last, u) && IsFullMirror(last.threads[u].task, repo, false)
    requires forall ref :: !DeleteBetween(s, last, repo, ref)
    requires Wired(s, Leg(repo, true)) && Legs.ComparableSides(z.g, WorldOf(s, repo))
    ensures Wired(last, Leg(repo, true))
    ensures var w, w' := WorldOf(s, repo), WorldOf(last, repo);
      && Tip(w'.a, r) == Tip(w'.b, r) == JoinAt(z.g, w, r)
      && Ancestors(z.g, Tip(w'.a, r)) == Ancestors(z.g, Tip(w.a, r)) + Ancestors(z.g, Tip(w.b, r))
  {
    hide Reachable, Inv, Stands, Leads, RoutineCalls, Overridden, DoneAmong, DoAll, WorldOf, Legs.ComparableSides;
    hide DeleteBetween;
    QuietStart(z, repo, coop, s);
    var w := WorldOf(s, repo);
    var deeds := QuietRunIsSerial(z, repo, coop, w, s, steps, last);
    AtRest(z, repo, coop, w, s);
    AtRest(z, repo, coop, DoAll(z.g, w, deeds), last);
    DeedsReachJoin(z, last.threads[t].task, w, deeds, r);
    DeedsReachJoin(z, last.threads[u].task, w, deeds, r);
    JoinHasBoth(z.g, w, r);
    hide Legs.Join, Ancestors, QuietRun;
  }

  /** Such runs exist: two waiting full mirrors, one each way, can take the sides to the join. */
  lemma TwoSyncsCanConverge(z: Setting, repo: RepoConfig, s: State, t: Tid, u: Tid)
    returns (steps: seq<Step>, last: State)
    requires Reachable(z, s) && repo in z.cfg.repos && repo.name !in s.locks && RoutineCalls(s, repo)
    requires repo.refOverrides == []
    requires t in s.threads && s.threads[t].pc.Waiting? && IsFullMirror(s.threads[t].task, repo, true)
    requires u in s.threads && s.threads[u].pc.Waiting? && IsFullMirror(s.threads[u].task, repo, false)
    requires forall ref :: !DeleteUnderWay(s, repo, ref)
    requires Wired(s, Leg(repo, true)) && Legs.ComparableSides(z.g, WorldOf(s, repo))
    ensures QuietRun(z, repo, {t, u}, s, steps, last) && Wired(last, Leg(repo, true))
    ensures forall r: Ref :: !r.Other? ==>
      Tip(WorldOf(last, repo).a, r) == Tip(WorldOf(last, repo).b, r) == JoinAt(z.g, WorldOf(s, repo), r)
  {
    hide Reachable, Inv, RoutineCalls, Leads, WorldOf, JoinAt, Legs.ComparableSides, Tip, Ancestors;
    QuietStart(z, repo, {t, u}, s);
    var first, mid := CompletesQuietly(z, repo, {t, u}, s, t);
    var second, end := CompletesQuietly(z, repo, {t, u}, mid, u);
    LeadsOn(z, repo, {t, u}, s, first, mid, second, end);
    steps, last := first + second, end;
    forall ref ensures !DeleteBetween(s, last, repo, ref) {
      assert !DeleteUnderWay(s, repo, ref);
    }
    QuietRunsGoOn(z, repo, {t, u}, s, steps, last);
    QuietStart(z, repo, {t, u}, last);
    forall r: Ref | !r.Other?
      ensures Tip(WorldOf(last, repo).a, r) == Tip(WorldOf(last, repo).b, r) == JoinAt(z.g, WorldOf(s, repo), r)
    {
      FullSyncsConverge(z, repo, {t, u}, s, steps, last, t, u, r);
    }
  }

  /** With the lock free a repo stands in its world, on real tips. */
  lemma AtRest(z: Setting, repo: RepoConfig, coop: set<Tid>, w: Legs.World, s: State)
    requires Stands(z, repo, coop, w, s) && repo.name !in s.locks
    ensures Wired(s, Leg(repo, true)) && WorldOf(s, repo) == w && Legs.Real(z.g, w)
  {
    hide Holder, WorldOf, Legs.RealTips;
  }

  lemma JoinHasBoth(g: ObjectGraph, w: Legs.World, r: Ref)
    requires Legs.Real(g, w) && Legs.ComparableSides(g, w) && !r.Other?
    ensures Ancestors(g, JoinAt(g, w, r)) == Ancestors(g, Tip(w.a, r)) + Ancestors(g, Tip(w.b, r))
  {
    if r in w.a && r in w.b { Legs.JoinIsLeastDescendant(g, w.a[r], w.b[r]); }
    assert Ancestors(g, NO_OBJECT) == {};
    hide Ancestors, IsAncestor;
  }
}
