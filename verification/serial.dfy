/** Runs in which nobody but the service touches the two ends of a repo: however calls of this
 * and of other repos interleave, the repo's world changes as if its calls ran one by one.
 */
module Serial {
  import opened Config
  import opened Events
  import opened Git
  import opened Graph
  import opened Invariant
  import opened Protocol
  import opened Refs
  import opened Routing
  import opened Runs
  import opened Safety
  import opened Section
  import Legs

  // ---- the world of a repo -----------------------------------------------------------------

  /** Both sides of a repo, source as A, with the objects the caches of its two legs hold. */
  function WorldOf(s: State, repo: RepoConfig): Legs.World
    requires Wired(s, Leg(repo, true))
  {
    Legs.World(s.remotes[FromPlace(Leg(repo, true))].refs, s.remotes[ToPlace(Leg(repo, true))].refs,
               ObjectsOf(CacheAt(s, Leg(repo, true))), ObjectsOf(CacheAt(s, Leg(repo, false))))
  }

  /** The world as one of its legs sees it. */
  function EndsIn(w: Legs.World, toB: bool): Ends {
    if toB then Ends(w.a, w.b, w.knownA) else Ends(w.b, w.a, w.knownB)
  }

  /** One call's deed, in the direction of its leg. */
  datatype WorldDeed = WorldDeed(toB: bool, deed: Deed)

  function DoDeed(g: ObjectGraph, w: Legs.World, d: WorldDeed): Legs.World {
    var e := DoEnds(g, EndsIn(w, d.toB), d.deed);
    if d.toB then Legs.World(e.from, e.to, e.known, w.knownB) else Legs.World(e.to, e.from, w.knownA, e.known)
  }

  function DoAll(g: ObjectGraph, w: Legs.World, deeds: seq<WorldDeed>): Legs.World
    decreases deeds
  {
    if deeds == [] then w else DoAll(g, DoDeed(g, w, deeds[0]), deeds[1..])
  }

  const NOTHING := WorldDeed(true, Idle)

  lemma NothingDone(g: ObjectGraph, w: Legs.World)
    ensures DoDeed(g, w, NOTHING) == w
  {
  }

  /** A turned deed is a turn. */
  lemma TurnedIsTurn(g: ObjectGraph, w: Legs.World, toB: bool, only: Option<set<Ref>>, keep: set<Oid>)
    ensures DoDeed(g, w, WorldDeed(toB, Turned(only, keep))) == Legs.Take(g, w, Legs.Turn(toB, only, keep))
  {
    var ours, turn := Legs.Turn(true, only, keep), Legs.Turn(toB, only, keep);
    assert forall known, from, to :: Legs.TurnRefs(g, known, from, to, ours) == Legs.TurnRefs(g, known, from, to, turn);
    hide Legs.Known;
  }

  lemma DeedStaysReal(g: ObjectGraph, w: Legs.World, d: WorldDeed)
    requires Legs.Real(g, w)
    ensures Legs.Real(g, DoDeed(g, w, d))
  {
    if d.deed.Turned? {
      TurnedIsTurn(g, w, d.toB, d.deed.only, d.deed.keep);
      Legs.StaysReal(g, w, Legs.Turn(d.toB, d.deed.only, d.deed.keep));
      hide Legs.Real, Legs.Take, DoDeed;
    }
  }

  // ---- quiet runs ------------------------------------------------------------------------------

  /** Nobody outside changes either end of the repo; of its own calls only routine ones start;
      git answers their ancestry questions, and those in `coop` it serves in every way. Other
      repos' calls, arrivals and moves elsewhere are as they may be. */
  ghost predicate Quiet(z: Setting, repo: RepoConfig, coop: set<Tid>, s: State, st: Step) {
    match st
    case OutsideMove(at, _) => at != FromPlace(Leg(repo, true)) && at != ToPlace(Leg(repo, true))
    case Arrives(_, r) => RouteOf(z, r).Run? && RouteOf(z, r).leg.repo == repo ==> Routine(TaskOf(r, RouteOf(z, r).leg))
    case Steps(tid, c) =>
      tid in s.threads && s.threads[tid].task.leg.repo == repo ==>
        c.unanswered.ancestry == {} && (tid in coop ==> Cooperative(c))
  }

  /** A quiet run, step by step. */
  ghost predicate Leads(z: Setting, repo: RepoConfig, coop: set<Tid>, s: State, steps: seq<Step>, last: State)
    decreases steps
  {
    if steps == [] then s == last
    else
      && Can(z, s, steps[0]) && Quiet(z, repo, coop, s, steps[0])
      && Leads(z, repo, coop, Do(z, s, steps[0]), steps[1..], last)
  }

  predicate RoutineCalls(s: State, repo: RepoConfig) {
    forall tid :: tid in s.threads && s.threads[tid].task.leg.repo == repo && !s.threads[tid].pc.Done? ==>
      Routine(s.threads[tid].task)
  }

  /** The call holding the repo's lock, partway through its section from world `w`. */
  ghost predicate Holder(z: Setting, repo: RepoConfig, coop: set<Tid>, w: Legs.World, s: State, tid: Tid) {
    && tid in s.threads && s.threads[tid].task.leg.repo == repo && Routine(s.threads[tid].task) &&
      HoldsLock(s.threads[tid].pc)
    && Wired(s, s.threads[tid].task.leg)
    && var t, leg := s.threads[tid], s.threads[tid].task.leg;
      && InSection(z, t.task, EndsIn(w, leg.toTarget), t.pc, SpotOf(Look(s, leg)), tid in coop)
      && ObjectsOf(CacheAt(s, Leg(repo, !leg.toTarget))) == EndsIn(w, !leg.toTarget).known
  }

  /** Where the repo stands: with its lock free it is in world `w`, otherwise partway from it. */
  ghost predicate Stands(z: Setting, repo: RepoConfig, coop: set<Tid>, w: Legs.World, s: State) {
    && Wired(s, Leg(repo, true)) && Legs.Real(z.g, w)
    && (repo.name !in s.locks ==> WorldOf(s, repo) == w)
    && (repo.name in s.locks ==> Holder(z, repo, coop, w, s, s.locks[repo.name]))
  }

  lemma WiredBothWays(s: State, repo: RepoConfig)
    requires Wired(s, Leg(repo, true))
    ensures Wired(s, Leg(repo, false))
    ensures forall leg: Leg :: leg.repo == repo ==> Wired(s, leg)
  {
    assert forall leg: Leg :: leg.repo == repo ==> leg == Leg(repo, true) || leg == Leg(repo, false);
  }

  /** What the two legs of a repo have and do not have in common. */
  lemma TwoLegs(z: Setting, s: State, repo: RepoConfig)
    requires Inv(z, s) && repo in z.cfg.repos
    ensures FromPlace(Leg(repo, true)) != ToPlace(Leg(repo, true))
    ensures CacheOf(Leg(repo, true)) != CacheOf(Leg(repo, false))
    ensures FromPlace(Leg(repo, false)) == ToPlace(Leg(repo, true))
    ensures ToPlace(Leg(repo, false)) == FromPlace(Leg(repo, true))
    ensures Wired(s, Leg(repo, true)) && ProvidersKnown(z, Leg(repo, true)) && ProvidersKnown(z, Leg(repo, false))
  {
    assert ValidRepo(repo, z.cfg.providers, z.legalPattern);
    assert IsPlace(z, FromPlace(Leg(repo, true))) && IsPlace(z, ToPlace(Leg(repo, true)));
    hide ValidOverrides, ValidRetryDirection, ValidDirection, LocksOK, ThreadsOK, WritesOK, CachesHeld, EvidenceOK;
  }

  // ---- what others do leaves the repo alone --------------------------------------------------------

  /** Nothing a leg of this repo sees has changed, and neither has the lock. */
  ghost predicate Untouched(s: State, s': State, repo: RepoConfig) {
    && (forall leg: Leg :: leg.repo == repo && Wired(s, leg) ==>
        Wired(s', leg) && SpotOf(Look(s', leg)) == SpotOf(Look(s, leg)))
    && (repo.name in s.locks <==> repo.name in s'.locks)
    && (repo.name in s.locks ==> s'.locks[repo.name] == s.locks[repo.name])
  }

  lemma UntouchedStands(z: Setting, repo: RepoConfig, coop: set<Tid>, w: Legs.World, s: State, s': State)
    requires Stands(z, repo, coop, w, s) && Untouched(s, s', repo)
    requires repo.name in s.locks ==>
      s.locks[repo.name] in s'.threads && s'.threads[s.locks[repo.name]] == s.threads[s.locks[repo.name]]
    ensures Stands(z, repo, coop, w, s')
  {
    hide InSection, Legs.RealTips, Routine;
    WiredBothWays(s, repo);
    var there, back := Leg(repo, true), Leg(repo, false);
    assert SpotOf(Look(s', there)) == SpotOf(Look(s, there)) && SpotOf(Look(s', back)) == SpotOf(Look(s, back));
  }

  lemma MoveElsewhere(z: Setting, repo: RepoConfig, s: State, at: Place, m: Move)
    requires at in s.remotes && at in s.seen && at != FromPlace(Leg(repo, true)) && at != ToPlace(Leg(repo, true))
    ensures Untouched(s, SetRemote(s, at, ApplyMove(z.g, s.remotes[at], m)), repo)
  {
    hide ApplyMove;
    assert forall leg: Leg :: leg.repo == repo ==> leg == Leg(repo, true) || leg == Leg(repo, false);
  }

  lemma ArrivalElsewhere(z: Setting, repo: RepoConfig, s: State, tid: Tid, r: Request)
    requires tid !in s.threads
    ensures var s' := Arrive(z, s, tid, r);
      && Untouched(s, s', repo) && forall u :: u in s.threads ==> u in s'.threads && s'.threads[u] == s.threads[u]
  {
    hide RouteOf, TaskOf, RefusalEntries;
  }

  /** Legs of different repos share no end, no cache and no lock. */
  lemma LegsApart(z: Setting, own: Leg, leg: Leg)
    requires ValidConfig(z.cfg, z.legalPattern) && own.repo in z.cfg.repos && leg.repo in z.cfg.repos
    requires own.repo != leg.repo
    ensures ToPlace(own) != ToPlace(leg) && ToPlace(own) != FromPlace(leg)
    ensures CacheOf(own) != CacheOf(leg) && own.repo.name != leg.repo.name
  {
    var back := Leg(leg.repo, !leg.toTarget);
    assert FromPlace(leg) == ToPlace(back);
    if own.repo.name == leg.repo.name { SameNameSameRepo(z.cfg.repos, own.repo, leg.repo); }
    hide Names, EndpointKeys, Distinct, ValidRepo;
    if ToPlace(own) == ToPlace(leg) { OneLegPerPlace(z.cfg.repos, own, leg); }
    if ToPlace(own) == ToPlace(back) { OneLegPerPlace(z.cfg.repos, own, back); }
  }

  lemma SpotAcross(z: Setting, s: State, tid: Tid, act: Act, leg: Leg)
    requires tid in s.threads && Wired(s, s.threads[tid].task.leg) && Wired(s, leg)
    requires var own := s.threads[tid].task.leg;
      ToPlace(own) != ToPlace(leg) && ToPlace(own) != FromPlace(leg) && CacheOf(own) != CacheOf(leg)
    ensures Wired(Apply(z, s, tid, act), leg) && SpotOf(Look(Apply(z, s, tid, act), leg)) == SpotOf(Look(s, leg))
  {
    hide Apply, CacheAt, Written, WritesOf, EntriesOf, LocksAfter;
    StepEffect(z, s, tid, act);
    StepRemoteEffect(z, s, tid, act);
  }

  /** Another repo's call writes elsewhere, keeps its own caches and takes its own lock. */
  lemma OtherRepoStep(z: Setting, repo: RepoConfig, s: State, tid: Tid, act: Act)
    requires ValidConfig(z.cfg, z.legalPattern) && repo in z.cfg.repos && tid in s.threads
    requires Wired(s, s.threads[tid].task.leg)
    requires s.threads[tid].task.leg.repo in z.cfg.repos && s.threads[tid].task.leg.repo != repo
    ensures Untouched(s, Apply(z, s, tid, act), repo)
  {
    var s', own := Apply(z, s, tid, act), s.threads[tid].task.leg;
    hide Apply, CacheAt, WritesOf, EntriesOf, ValidConfig;
    LegsApart(z, own, Leg(repo, true));
    StepEffect(z, s, tid, act);
    assert repo.name in s.locks <==> repo.name in s'.locks;
    hide LocksAfter;
    forall leg: Leg | leg.repo == repo && Wired(s, leg)
      ensures Wired(s', leg) && SpotOf(Look(s', leg)) == SpotOf(Look(s, leg))
    {
      LegsApart(z, own, leg);
      SpotAcross(z, s, tid, act, leg);
    }
  }

  /** What the sight of a call is after its own step. */
  lemma OwnSpot(z: Setting, repo: RepoConfig, s: State, tid: Tid, act: Act)
    requires Inv(z, s) && repo in z.cfg.repos && tid in s.threads && s.threads[tid].task.leg.repo == repo
    requires Wired(s, s.threads[tid].task.leg)
    ensures var t, v, s' := s.threads[tid], Look(s, s.threads[tid].task.leg), Apply(z, s, tid, act);
      && tid in s'.threads && s'.threads[tid] == t.(pc := act.pc) && Wired(s', t.task.leg)
      && SpotOf(Look(s', t.task.leg)) == SpotOf(SightAfter(z, v, act))
      && CacheAt(s', Leg(repo, !t.task.leg.toTarget)) == CacheAt(s, Leg(repo, !t.task.leg.toTarget))
      && s'.locks == LocksAfter(s.locks, tid, repo.name, act.pc)
  {
    TwoLegs(z, s, repo);
    StepEffect(z, s, tid, act);
    StepRemoteEffect(z, s, tid, act);
    hide Apply, Inv, CacheAt, Written, WritesOf, EntriesOf, LocksAfter;
  }

  /** Seen from either leg, the world is the same one. */
  lemma WorldFromLeg(s: State, leg: Leg, w: Legs.World)
    requires Wired(s, leg) && Wired(s, Leg(leg.repo, true))
    requires FromPlace(Leg(leg.repo, false)) == ToPlace(Leg(leg.repo, true))
    requires ToPlace(Leg(leg.repo, false)) == FromPlace(Leg(leg.repo, true))
    ensures WorldOf(s, leg.repo) == w <==>
      EndsOf(SpotOf(Look(s, leg))) == EndsIn(w, leg.toTarget) &&
        ObjectsOf(CacheAt(s, Leg(leg.repo, !leg.toTarget))) == EndsIn(w, !leg.toTarget).known
  {
    assert leg == Leg(leg.repo, leg.toTarget);
  }

  lemma HolderSight(z: Setting, s: State, tid: Tid)
    requires Inv(z, s) && tid in s.threads && Wired(s, s.threads[tid].task.leg) && HoldsLock(s.threads[tid].pc)
    ensures var t, v := s.threads[tid], Look(s, s.threads[tid].task.leg);
      ValidSight(z, v) && PlaceOK(z, t.task, v.cache, t.pc, Mine(s.writes, tid)) && t.task.leg.repo in z.cfg.repos
  {
    hide PlaceOK, ValidStore, ValidConfig;
    assert ViewOK(z, ViewOf(s, tid));
  }

  /** A call that returned leaves the world its deed makes. */
  lemma ReturnedStands(z: Setting, repo: RepoConfig, coop: set<Tid>, w: Legs.World, s: State, leg: Leg, e: Ends,
                       deed: Deed)
    requires leg.repo == repo && Wired(s, leg) && Wired(s, Leg(repo, true)) && Legs.Real(z.g, w)
    requires repo.name !in s.locks
    requires FromPlace(Leg(repo, false)) == ToPlace(Leg(repo, true))
    requires ToPlace(Leg(repo, false)) == FromPlace(Leg(repo, true))
    requires EndsOf(SpotOf(Look(s, leg))) == DoEnds(z.g, EndsIn(w, leg.toTarget), deed)
    requires ObjectsOf(CacheAt(s, Leg(repo, !leg.toTarget))) == EndsIn(w, !leg.toTarget).known
    ensures Stands(z, repo, coop, DoDeed(z.g, w, WorldDeed(leg.toTarget, deed)), s)
  {
    DeedStaysReal(z.g, w, WorldDeed(leg.toTarget, deed));
    WorldFromLeg(s, leg, DoDeed(z.g, w, WorldDeed(leg.toTarget, deed)));
    hide Look, CacheAt, Legs.RealTips, DoEnds, Holder;
  }

  lemma HolderStands(z: Setting, repo: RepoConfig, coop: set<Tid>, w: Legs.World, s: State, tid: Tid, act: Act,
                     deed: Deed)
    requires Inv(z, s) && repo in z.cfg.repos && Stands(z, repo, coop, w, s) && tid in s.threads
    requires repo.name in s.locks && s.locks[repo.name] == tid && Wired(s, s.threads[tid].task.leg)
    requires Carries(z, s.threads[tid].task, EndsIn(w, s.threads[tid].task.leg.toTarget),
                     Look(s, s.threads[tid].task.leg), act, tid in coop, deed)
    ensures var toB := s.threads[tid].task.leg.toTarget;
      Stands(z, repo, coop, if act.pc.Done? then DoDeed(z.g, w, WorldDeed(toB, deed)) else w, Apply(z, s, tid, act))
  {
    var leg, s' := s.threads[tid].task.leg, Apply(z, s, tid, act);
    assert leg.repo == repo;
    TwoLegs(z, s, repo);
    OwnSpot(z, repo, s, tid, act);
    hide Inv, Apply, Look, SightAfter, CacheAt, Legs.RealTips, DoEnds, WholeDeed, DoDeed;
    BothWired(s', leg);
    if act.pc.Done? {
      hide InSection;
      ReturnedStands(z, repo, coop, w, s', leg, EndsIn(w, leg.toTarget), deed);
    } else {
      hide Partway, Sending, WantExactly, EndsIn;
    }
  }

  lemma BothWired(s: State, leg: Leg)
    requires Wired(s, leg) && FromPlace(Leg(leg.repo, false)) == ToPlace(Leg(leg.repo, true))
    requires ToPlace(Leg(leg.repo, false)) == FromPlace(Leg(leg.repo, true))
    ensures Wired(s, Leg(leg.repo, true)) && Wired(s, Leg(leg.repo, false))
  {
    assert leg == Leg(leg.repo, leg.toTarget);
  }

  /** The holder's step: it stays partway, or returns and its deed is done. */
  lemma HolderStep(z: Setting, repo: RepoConfig, coop: set<Tid>, w: Legs.World, s: State, tid: Tid, c: Choice)
    returns (d: WorldDeed)
    requires Inv(z, s) && repo in z.cfg.repos && Stands(z, repo, coop, w, s) && CanStep(z, s, tid, c)
    requires repo.name in s.locks && s.locks[repo.name] == tid && c.unanswered.ancestry == {}
    requires tid in coop ==> Cooperative(c)
    ensures var s', task := ThreadStep(z, s, tid, c), s.threads[tid].task;
      && Stands(z, repo, coop, DoDeed(z.g, w, d), s')
      && (!s'.threads[tid].pc.Done? ==> d == NOTHING)
      && (s'.threads[tid].pc.Done? && tid in coop ==>
          d.toB == task.leg.toTarget && WholeDeed(z, task, EndsIn(w, task.leg.toTarget), d.deed))
      && (d.deed.Removed? ==> task.DeleteTask? && task.ref == d.deed.ref && task.leg.repo == repo)
  {
    var t, leg, v := s.threads[tid], s.threads[tid].task.leg, Look(s, s.threads[tid].task.leg);
    var act, before := StepOf(z, t, v, c), EndsIn(w, leg.toTarget);
    TwoLegs(z, s, repo);
    OwnSpot(z, repo, s, tid, act);
    HolderSight(z, s, tid);
    hide Inv, StepOf, Apply, Look, PlaceOK, ValidSight, Honest, Ready, InSection, CacheAt, Legs.RealTips, Mine;
    hide ProvidersKnown;
    WiredBothWays(s, repo);
    assert leg == Leg(repo, leg.toTarget);
    var deed := SectionStep(z, t, before, v, Mine(s.writes, tid), c, tid in coop);
    HolderStands(z, repo, coop, w, s, tid, act, deed);
    d := if act.pc.Done? then WorldDeed(leg.toTarget, deed) else NOTHING;
    NothingDone(z.g, w);
    hide Stands, DoDeed, Carries;
  }

  // ---- one step of a quiet run -----------------------------------------------------------------------

  /** A routine call that waits either takes the free lock, or returns because an override
      sends its ref the other way; neither touches anything. */
  lemma WaitingSteps(z: Setting, t: Thread, v: Sight, c: Choice)
    requires Routine(t.task) && t.pc.Waiting? && Ready(t, v.cache) && !Blocked(z, t, v.busy)
    ensures var act := StepOf(z, t, v, c);
      && act.cache == v.cache && act.write.None?
      && (act.pc.Locked? || (act.pc.Done? && t.task.MirrorTask? && Overridden(z, t.task.leg, t.task.meta.ref)))
      && (act.pc.Locked? ==> !v.busy)
  {
    hide DraftOf;
  }

  lemma BystanderStep(z: Setting, repo: RepoConfig, coop: set<Tid>, w: Legs.World, s: State, tid: Tid, c: Choice)
    requires Inv(z, s) && repo in z.cfg.repos && Stands(z, repo, coop, w, s) && RoutineCalls(s, repo)
    requires CanStep(z, s, tid, c)
    requires s.threads[tid].task.leg.repo == repo && !(repo.name in s.locks && s.locks[repo.name] == tid)
    ensures var s', task := ThreadStep(z, s, tid, c), s.threads[tid].task;
      && Stands(z, repo, coop, w, s')
      && (s'.threads[tid].pc.Done? ==> task.MirrorTask? && Overridden(z, task.leg, task.meta.ref))
  {
    var t, leg, v := s.threads[tid], s.threads[tid].task.leg, Look(s, s.threads[tid].task.leg);
    var act := StepOf(z, t, v, c);
    assert t.pc.Waiting?;
    WaitingSteps(z, t, v, c);
    TwoLegs(z, s, repo);
    OwnSpot(z, repo, s, tid, act);
    StepEffect(z, s, tid, act);
    hide Inv, StepOf, Honest, Ready, Blocked, Overridden, Apply, Routine, RoutineCalls;
    WaitingStands(z, repo, coop, w, s, tid, act);
  }

  lemma ThreadsAfter(z: Setting, s: State, tid: Tid, act: Act)
    requires tid in s.threads && Wired(s, s.threads[tid].task.leg)
    ensures Apply(z, s, tid, act).threads == s.threads[tid := s.threads[tid].(pc := act.pc)]
  {
    hide Written, WritesOf, EntriesOf, LocksAfter;
  }

  lemma WaitingStands(z: Setting, repo: RepoConfig, coop: set<Tid>, w: Legs.World, s: State, tid: Tid, act: Act)
    requires Inv(z, s) && repo in z.cfg.repos && Stands(z, repo, coop, w, s) && tid in s.threads
    requires Wired(s, s.threads[tid].task.leg)
    requires s.threads[tid].task.leg.repo == repo && Routine(s.threads[tid].task)
    requires !(repo.name in s.locks && s.locks[repo.name] == tid)
    requires act.cache == CacheAt(s, s.threads[tid].task.leg) && act.write.None?
    requires act.pc.Done? || (act.pc.Locked? && repo.name !in s.locks)
    ensures Stands(z, repo, coop, w, Apply(z, s, tid, act))
  {
    hide Inv, Apply, CacheAt, Legs.RealTips, Routine, Stands, Look;
    var leg, s' := s.threads[tid].task.leg, Apply(z, s, tid, act);
    TwoLegs(z, s, repo);
    OwnSpot(z, repo, s, tid, act);
    ThreadsAfter(z, s, tid, act);
    BothWired(s', leg);
    SpotUnmoved(z, s, leg, act);
    if act.pc.Done? {
      assert s'.locks == s.locks;
      HolderIsOther(z, repo, coop, w, s, tid);
      QuietReturn(z, repo, coop, w, s, s', leg);
    } else {
      AcquiredStands(z, repo, coop, w, s, s', leg, tid);
    }
  }

  lemma SpotUnmoved(z: Setting, s: State, leg: Leg, act: Act)
    requires Wired(s, leg) && act.cache == CacheAt(s, leg) && act.write.None?
    ensures SpotOf(SightAfter(z, Look(s, leg), act)) == SpotOf(Look(s, leg))
  {
    hide CacheAt, Written;
  }

  lemma HolderIsOther(z: Setting, repo: RepoConfig, coop: set<Tid>, w: Legs.World, s: State, tid: Tid)
    requires Stands(z, repo, coop, w, s) && !(repo.name in s.locks && s.locks[repo.name] == tid)
    ensures repo.name in s.locks ==> s.locks[repo.name] in s.threads && s.locks[repo.name] != tid
  {
    hide InSection, Look;
  }

  /** A call that has just taken the lock starts from the world as it is. */
  lemma AcquiredStands(z: Setting, repo: RepoConfig, coop: set<Tid>, w: Legs.World, s: State, s': State, leg: Leg,
                       tid: Tid)
    requires Stands(z, repo, coop, w, s) && repo.name !in s.locks && leg.repo == repo && Wired(s, leg)
    requires FromPlace(Leg(repo, false)) == ToPlace(Leg(repo, true))
    requires ToPlace(Leg(repo, false)) == FromPlace(Leg(repo, true))
    requires Wired(s', leg) && Wired(s', Leg(repo, true)) && SpotOf(Look(s', leg)) == SpotOf(Look(s, leg))
    requires CacheAt(s', Leg(repo, !leg.toTarget)) == CacheAt(s, Leg(repo, !leg.toTarget))
    requires repo.name in s'.locks && s'.locks[repo.name] == tid && tid in s'.threads
    requires s'.threads[tid].pc.Locked? && s'.threads[tid].task.leg == leg && Routine(s'.threads[tid].task)
    ensures Stands(z, repo, coop, w, s')
  {
    WorldFromLeg(s, leg, w);
    assert SpotOf(Look(s', leg)).from == EndsIn(w, leg.toTarget).from;
    hide Look, CacheAt, Legs.RealTips, Routine, WorldOf;
  }

  /** A bystander's return changes nothing the repo's standing depends on. */
  lemma QuietReturn(z: Setting, repo: RepoConfig, coop: set<Tid>, w: Legs.World, s: State, s': State, leg: Leg)
    requires Stands(z, repo, coop, w, s) && leg.repo == repo && Wired(s, leg) && Wired(s', leg)
    requires Wired(s', Leg(repo, true))
    requires FromPlace(Leg(repo, false)) == ToPlace(Leg(repo, true))
    requires ToPlace(Leg(repo, false)) == FromPlace(Leg(repo, true))
    requires SpotOf(Look(s', leg)) == SpotOf(Look(s, leg))
    requires CacheAt(s', Leg(repo, !leg.toTarget)) == CacheAt(s, Leg(repo, !leg.toTarget))
    requires s'.locks == s.locks
    requires repo.name in s.locks ==>
      s.locks[repo.name] in s'.threads && s'.threads[s.locks[repo.name]] == s.threads[s.locks[repo.name]]
    ensures Stands(z, repo, coop, w, s')
  {
    assert leg == Leg(repo, leg.toTarget);
    var back := Leg(repo, !leg.toTarget);
    assert Wired(s, back) && Wired(s', back) && SpotOf(Look(s', back)) == SpotOf(Look(s, back));
    assert Untouched(s, s', repo) by {
      forall other: Leg | other.repo == repo ensures other == leg || other == back { }
      hide Look;
    }
    hide Untouched;
    UntouchedStands(z, repo, coop, w, s, s');
  }

  /** A call of the repo still to return in `s` that deletes this ref. */
  predicate DeleteUnderWay(s: State, repo: RepoConfig, ref: Ref) {
    exists u :: u in s.threads && !s.threads[u].pc.Done? && s.threads[u].task.DeleteTask?
                && s.threads[u].task.leg.repo == repo && s.threads[u].task.ref == ref
  }

  /** Whether the call returned without having been sent away by an override. */
  predicate Completed(z: Setting, s: State, s': State, tid: Tid) {
    && tid in s'.threads && s'.threads[tid].pc.Done? && !(tid in s.threads && s.threads[tid].pc.Done?)
    && (s'.threads[tid].task.MirrorTask? ==> !Overridden(z, s'.threads[tid].task.leg, s'.threads[tid].task.meta.ref))
  }

  /** One step of a quiet run does at most one deed, and does it whole when it completes a call
      whose git cooperated. */
  lemma QuietStep(z: Setting, repo: RepoConfig, coop: set<Tid>, w: Legs.World, s: State, st: Step)
    returns (d: WorldDeed)
    requires Inv(z, s) && repo in z.cfg.repos && Stands(z, repo, coop, w, s) && RoutineCalls(s, repo)
    requires Can(z, s, st) && Quiet(z, repo, coop, s, st)
    ensures var s' := Do(z, s, st);
      && Stands(z, repo, coop, DoDeed(z.g, w, d), s')
      && forall tid :: tid in coop && Completed(z, s, s', tid) && s'.threads[tid].task.leg.repo == repo ==>
           var task := s'.threads[tid].task;
           d.toB == task.leg.toTarget && WholeDeed(z, task, EndsIn(w, d.toB), d.deed)
    ensures d.deed.Removed? ==> DeleteUnderWay(s, repo, d.deed.ref)
  {
    hide Stands, WholeDeed, DoDeed, RoutineCalls, ApplyMove, RouteOf, Admitted;
    NothingDone(z.g, w);
    d := NOTHING;
    match st
    case OutsideMove(at, m) =>
      MoveElsewhere(z, repo, s, at, m);
      StandsOn(z, repo, coop, w, s, Do(z, s, st));
    case Arrives(tid, r) =>
      ArrivalElsewhere(z, repo, s, tid, r);
      NewcomerWaits(z, s, tid, r);
      StandsOn(z, repo, coop, w, s, Do(z, s, st));
    case Steps(tid, c) => d := CallSteps(z, repo, coop, w, s, tid, c);
  }

  lemma NewcomerWaits(z: Setting, s: State, tid: Tid, r: Request)
    requires tid !in s.threads
    ensures var s' := Arrive(z, s, tid, r);
      forall u :: u in s'.threads && u !in s.threads ==> u == tid && s'.threads[u].pc.Waiting?
  {
    hide RouteOf, TaskOf, RefusalEntries;
  }

  lemma StandsOn(z: Setting, repo: RepoConfig, coop: set<Tid>, w: Legs.World, s: State, s': State)
    requires Stands(z, repo, coop, w, s) && Untouched(s, s', repo)
    requires forall u :: u in s.threads ==> u in s'.threads && s'.threads[u] == s.threads[u]
    ensures Stands(z, repo, coop, w, s')
  {
    assert repo.name in s.locks ==> s.locks[repo.name] in s.threads;
    hide Untouched, Holder;
    UntouchedStands(z, repo, coop, w, s, s');
  }

  lemma OtherRepoCall(z: Setting, repo: RepoConfig, coop: set<Tid>, w: Legs.World, s: State, tid: Tid, act: Act)
    requires Inv(z, s) && repo in z.cfg.repos && Stands(z, repo, coop, w, s)
    requires tid in s.threads && Wired(s, s.threads[tid].task.leg) && s.threads[tid].task.leg.repo != repo
    ensures Stands(z, repo, coop, w, Apply(z, s, tid, act))
  {
    hide Apply, ValidConfig, Stands, Untouched, ThreadsOK, WritesOK, LocksOK, EvidenceOK, CachesHeld, RemotesOK;
    hide CallersKnown, CacheAt;
    OwnRepoConfigured(z, s, tid);
    OtherRepoStep(z, repo, s, tid, act);
    HolderIsOurs(z, repo, coop, w, s);
    ThreadsAfter(z, s, tid, act);
    hide Inv;
    UntouchedStands(z, repo, coop, w, s, Apply(z, s, tid, act));
  }

  lemma OnlyItCompletes(z: Setting, s: State, tid: Tid, act: Act, u: Tid)
    requires tid in s.threads && Wired(s, s.threads[tid].task.leg) && Completed(z, s, Apply(z, s, tid, act), u)
    ensures u == tid
  {
    ThreadsAfter(z, s, tid, act);
    hide Apply, Overridden;
  }

  lemma CallSteps(z: Setting, repo: RepoConfig, coop: set<Tid>, w: Legs.World, s: State, tid: Tid, c: Choice)
    returns (d: WorldDeed)
    requires Inv(z, s) && repo in z.cfg.repos && Stands(z, repo, coop, w, s) && RoutineCalls(s, repo)
    requires CanStep(z, s, tid, c) && Quiet(z, repo, coop, s, Steps(tid, c))
    ensures var s' := ThreadStep(z, s, tid, c);
      && Stands(z, repo, coop, DoDeed(z.g, w, d), s')
      && forall u :: u in coop && Completed(z, s, s', u) && s'.threads[u].task.leg.repo == repo ==>
           var task := s'.threads[u].task;
           d.toB == task.leg.toTarget && WholeDeed(z, task, EndsIn(w, d.toB), d.deed)
    ensures d.deed.Removed? ==> DeleteUnderWay(s, repo, d.deed.ref)
  {
    hide Inv, StepOf, Apply, WholeDeed, DoDeed, RoutineCalls, Stands, Look;
    var t, act := s.threads[tid], StepOf(z, s.threads[tid], Look(s, s.threads[tid].task.leg), c);
    ThreadsAfter(z, s, tid, act);
    NothingDone(z.g, w);
    d := NOTHING;
    if t.task.leg.repo != repo {
      OtherRepoCall(z, repo, coop, w, s, tid, act);
    } else if repo.name in s.locks && s.locks[repo.name] == tid {
      d := HolderStep(z, repo, coop, w, s, tid, c);
    } else {
      BystanderStep(z, repo, coop, w, s, tid, c);
    }
    forall u | Completed(z, s, Apply(z, s, tid, act), u) ensures u == tid { OnlyItCompletes(z, s, tid, act, u); }
    hide Honest, Ready, Blocked;
  }

  lemma OwnRepoConfigured(z: Setting, s: State, tid: Tid)
    requires Inv(z, s) && tid in s.threads
    ensures s.threads[tid].task.leg.repo in z.cfg.repos
  {
    hide PlaceOK, ValidConfig;
    assert ViewOK(z, ViewOf(s, tid));
  }

  lemma HolderIsOurs(z: Setting, repo: RepoConfig, coop: set<Tid>, w: Legs.World, s: State)
    requires Stands(z, repo, coop, w, s)
    ensures repo.name in s.locks ==>
      s.locks[repo.name] in s.threads && s.threads[s.locks[repo.name]].task.leg.repo == repo
  {
    hide InSection, Look;
  }

  // ---- quiet runs are serial ----------------------------------------------------------------------------

  /** A call keeps its task for ever, and a returned one everything. */
  lemma CallsPersist(z: Setting, s: State, st: Step)
    requires Can(z, s, st)
    ensures forall u :: u in s.threads ==>
      && u in Do(z, s, st).threads && Do(z, s, st).threads[u].task == s.threads[u].task
      && (s.threads[u].pc.Done? ==> Do(z, s, st).threads[u] == s.threads[u])
  {
    hide ApplyMove, Admitted, RouteOf, TaskOf, RefusalEntries, StepOf, Honest, Ready, Blocked, Look;
    match st
    case OutsideMove(_, _) =>
    case Arrives(_, _) =>
    case Steps(tid, c) => ThreadsAfter(z, s, tid, StepOf(z, s.threads[tid], Look(s, s.threads[tid].task.leg), c));
  }

  lemma RoutineStays(z: Setting, repo: RepoConfig, coop: set<Tid>, s: State, st: Step)
    requires RoutineCalls(s, repo) && Can(z, s, st) && Quiet(z, repo, coop, s, st)
    ensures RoutineCalls(Do(z, s, st), repo)
  {
    hide ApplyMove, Admitted, RouteOf, Routine, RefusalEntries, StepOf, Honest, Ready, Blocked, Look;
    match st
    case OutsideMove(_, _) =>
    case Arrives(_, r) => if RouteOf(z, r).Run? { TaskKeepsLeg(r, RouteOf(z, r).leg); }
    case Steps(tid, c) => ThreadsAfter(z, s, tid, StepOf(z, s.threads[tid], Look(s, s.threads[tid].task.leg), c));
    hide TaskOf;
  }

  lemma TaskKeepsLeg(r: Request, leg: Leg)
    ensures TaskOf(r, leg).leg == leg
  {
  }

  /** The deed of one whole call, at the world it met. */
  predicate ItsDeed(z: Setting, task: Task, w: Legs.World, d: WorldDeed) {
    d.toB == task.leg.toTarget && WholeDeed(z, task, EndsIn(w, d.toB), d.deed)
  }

  ghost predicate DoneAmong(z: Setting, task: Task, w: Legs.World, deeds: seq<WorldDeed>) {
    exists k: nat :: k < |deeds| && ItsDeed(z, task, DoAll(z.g, w, deeds[..k]), deeds[k])
  }

  lemma DoneLater(z: Setting, task: Task, w: Legs.World, d: WorldDeed, rest: seq<WorldDeed>)
    requires DoneAmong(z, task, DoDeed(z.g, w, d), rest)
    ensures DoneAmong(z, task, w, [d] + rest)
  {
    var k: nat :| k < |rest| && ItsDeed(z, task, DoAll(z.g, DoDeed(z.g, w, d), rest[..k]), rest[k]);
    var deeds := [d] + rest;
    assert deeds[k + 1] == rest[k] && deeds[..k + 1][1..] == rest[..k] && deeds[..k + 1][0] == d;
    hide ItsDeed, DoDeed;
  }

  lemma DoneFirst(z: Setting, task: Task, w: Legs.World, d: WorldDeed, rest: seq<WorldDeed>)
    requires ItsDeed(z, task, w, d)
    ensures DoneAmong(z, task, w, [d] + rest)
  {
    var deeds := [d] + rest;
    assert deeds[..0] == [] && DoAll(z.g, w, deeds[..0]) == w && deeds[0] == d;
    hide ItsDeed, DoDeed;
  }

  /** A call of the repo that deletes this ref runs between the two states. */
  ghost predicate DeleteBetween(s: State, last: State, repo: RepoConfig, ref: Ref) {
    exists u :: u in last.threads && !(u in s.threads && s.threads[u].pc.Done?) && last.threads[u].task.DeleteTask?
                && last.threads[u].task.leg.repo == repo && last.threads[u].task.ref == ref
  }

  /** However a quiet run interleaves the calls of the repo with each other, with other repos'
      calls, with arrivals and with what happens elsewhere, the repo ends where its deeds, done
      one after the other, lead; and every call that completed with a cooperative git has its
      whole deed among them. */
  lemma {:induction false} QuietRunIsSerial(z: Setting, repo: RepoConfig, coop: set<Tid>, w: Legs.World, s: State,
                                            steps: seq<Step>, last: State) returns (deeds: seq<WorldDeed>)
    requires Inv(z, s) && repo in z.cfg.repos && Stands(z, repo, coop, w, s) && RoutineCalls(s, repo)
    requires Leads(z, repo, coop, s, steps, last)
    decreases steps
    ensures Inv(z, last) && Stands(z, repo, coop, DoAll(z.g, w, deeds), last) && RoutineCalls(last, repo)
    ensures forall u :: u in s.threads ==> u in last.threads && last.threads[u].task == s.threads[u].task
                                           && (s.threads[u].pc.Done? ==> last.threads[u] == s.threads[u])
    ensures forall u :: u in coop && Completed(z, s, last, u) && last.threads[u].task.leg.repo == repo ==>
      DoneAmong(z, last.threads[u].task, w, deeds)
    ensures forall d :: d in deeds && d.deed.Removed? ==> DeleteBetween(s, last, repo, d.deed.ref)
  {
    hide Inv, Stands, RoutineCalls, Can, Do, Quiet, DoDeed, ItsDeed, DoneAmong, WholeDeed, Overridden;
    if steps == [] {
      deeds := [];
    } else {
      var next := Do(z, s, steps[0]);
      var d := QuietStep(z, repo, coop, w, s, steps[0]);
      DoKeeps(z, s, steps[0]);
      RoutineStays(z, repo, coop, s, steps[0]);
      CallsPersist(z, s, steps[0]);
      var rest := QuietRunIsSerial(z, repo, coop, DoDeed(z.g, w, d), next, steps[1..], last);
      deeds := [d] + rest;
      assert deeds[1..] == rest;
      assert forall e :: e in rest && e.deed.Removed? ==> DeleteBetween(s, last, repo, e.deed.ref);
      forall u | u in coop && Completed(z, s, last, u) && last.threads[u].task.leg.repo == repo
        ensures DoneAmong(z, last.threads[u].task, w, deeds)
      {
        if Completed(z, next, last, u) {
          DoneLater(z, last.threads[u].task, w, d, rest);
        } else {
          FirstCompletes(z, repo, coop, w, s, next, d, u);
          DoneFirst(z, last.threads[u].task, w, d, rest);
        }
      }
    }
  }

  lemma FirstCompletes(z: Setting, repo: RepoConfig, coop: set<Tid>, w: Legs.World, s: State, next: State, d: WorldDeed,
                       u: Tid)
    requires Completed(z, s, next, u) && u in coop && next.threads[u].task.leg.repo == repo
    requires forall tid :: tid in coop && Completed(z, s, next, tid) && next.threads[tid].task.leg.repo == repo ==>
      var task := next.threads[tid].task;
      d.toB == task.leg.toTarget && WholeDeed(z, task, EndsIn(w, d.toB), d.deed)
    ensures ItsDeed(z, next.threads[u].task, w, d)
  {
    hide WholeDeed, Overridden;
  }
}
