/** What the whole service keeps true in every state of every run. */
module Runs {
  import opened Config
  import opened Events
  import opened Gates
  import opened Git
  import opened Graph
  import opened History
  import opened Invariant
  import opened Porcelain
  import opened Protocol
  import opened Refs
  import opened Routing

  // ---- the parts of the invariant ---------------------------------------------------------

  function Mine(ws: seq<Write>, tid: Tid): seq<Write> {
    if ws == [] then [] else Mine(ws[..|ws| - 1], tid) + (if ws[|ws| - 1].tid == tid then [ws[|ws| - 1]] else [])
  }

  function Recorded(log: seq<Entry>, tid: Tid): seq<Event> {
    if log == [] then []
    else Recorded(log[..|log| - 1], tid) + (if log[|log| - 1].caller == Some(tid) then [log[|log| - 1].ev] else [])
  }

  /** A call's own view: the cache counts only while the call holds its repo's lock. */
  function ViewOf(s: State, tid: Tid): View
    requires tid in s.threads
  {
    var t := s.threads[tid];
    View(t, if HoldsLock(t.pc) then CacheAt(s, t.task.leg) else None, Mine(s.writes, tid), Recorded(s.log, tid))
  }

  ghost predicate RemotesOK(z: Setting, s: State) {
    && s.seen.Keys == s.remotes.Keys
    && (forall p :: IsPlace(z, p) ==> p in s.remotes)
    && (forall p :: p in s.remotes ==> ValidStore(z.g, s.remotes[p]) && s.remotes[p].objs <= s.seen[p])
  }

  /** A repo's lock is held exactly by the one call of that repo between its first step and
      its return. */
  predicate LocksOK(s: State) {
    && (forall tid :: tid in s.threads && HoldsLock(s.threads[tid].pc) ==>
          s.threads[tid].task.leg.repo.name in s.locks && s.locks[s.threads[tid].task.leg.repo.name] == tid)
    && (forall repo :: repo in s.locks ==>
          && s.locks[repo] in s.threads && HoldsLock(s.threads[s.locks[repo]].pc)
          && s.threads[s.locks[repo]].task.leg.repo.name == repo)
  }

  ghost predicate ThreadsOK(z: Setting, s: State) {
    forall tid :: tid in s.threads ==> ViewOK(z, ViewOf(s, tid))
  }

  ghost predicate WritesOK(z: Setting, s: State) {
    forall w :: w in s.writes ==>
      && WriteOK(z, w) && w.tid in s.threads && s.threads[w.tid].task == w.task
      && FromPlace(w.task.leg) in s.seen && w.known <= s.seen[FromPlace(w.task.leg)]
  }

  predicate CallersKnown(s: State) {
    forall e :: e in s.log && e.caller.Some? ==> e.caller.value in s.threads
  }

  /** What the history already showed when a console request was let through: the held ref
      a force overwrites, or the delete a restore undoes. */
  predicate Evidence(z: Setting, evs: seq<Event>, task: Task) {
    match task
    case MirrorTask(leg, meta) =>
      meta.force && meta.source == SourceConsole ==>
        meta.ref.Some? &&
        exists ev :: ev in evs && ev.repo == leg.repo.name && NamesDestination(z.cfg.providers, leg, ev.to)
                     && IsHoldOf(ev, ev.to, meta.ref.value, meta.forceLease)
    case RestoreTask(leg, ref, sha, _) =>
      exists ev :: ev in evs && ev.repo == leg.repo.name && NamesDestination(z.cfg.providers, leg, ev.to)
                   && IsDeleteOf(ev, ev.to, ref, sha)
    case DeleteTask(_, _, _) => true
  }

  ghost predicate EvidenceOK(z: Setting, s: State) {
    forall tid :: tid in s.threads ==> Evidence(z, LoggedEvents(s.log), s.threads[tid].task)
  }

  ghost predicate Inv(z: Setting, s: State) {
    && ValidConfig(z.cfg, z.legalPattern) && Sane(z)
    && RemotesOK(z, s) && CachesHeld(z, s) && LocksOK(s) && ThreadsOK(z, s)
    && WritesOK(z, s) && CallersKnown(s) && EvidenceOK(z, s)
  }

  // ---- bookkeeping -------------------------------------------------------------------------

  lemma {:induction false} MineConcat(a: seq<Write>, b: seq<Write>, tid: Tid)
    ensures Mine(a + b, tid) == Mine(a, tid) + Mine(b, tid)
  {
    if b == [] {
      assert a + b == a;
    } else {
      var n := |b| - 1;
      assert (a + b)[..|a| + n] == a + b[..n];
      MineConcat(a, b[..n], tid);
    }
  }

  lemma {:induction false} MineMeaning(ws: seq<Write>, tid: Tid)
    ensures forall w :: w in Mine(ws, tid) <==> w in ws && w.tid == tid
    ensures Mine(ws, tid) == [] <==> forall w :: w in ws ==> w.tid != tid
  {
    if ws != [] {
      MineMeaning(ws[..|ws| - 1], tid);
      assert ws == ws[..|ws| - 1] + [ws[|ws| - 1]];
    }
  }

  lemma {:induction false} RecordedMeaning(log: seq<Entry>, tid: Tid)
    ensures forall ev :: ev in Recorded(log, tid) <==> Entry(Some(tid), ev) in log
    ensures Recorded(log, tid) == [] <==> forall e :: e in log ==> e.caller != Some(tid)
  {
    if log != [] {
      RecordedMeaning(log[..|log| - 1], tid);
      assert log == log[..|log| - 1] + [log[|log| - 1]];
    }
  }

  lemma RecordedSnoc(log: seq<Entry>, more: seq<Entry>, tid: Tid)
    requires |more| <= 1
    ensures Recorded(log + more, tid) ==
      Recorded(log, tid) + (if |more| == 1 && more[0].caller == Some(tid) then [more[0].ev] else [])
  {
    if more == [] {
      assert log + more == log;
    } else {
      assert (log + more)[..|log|] == log;
    }
  }

  /** Cache names are only shared by the same leg. */
  lemma OneLegPerCache(z: Setting, a: Leg, b: Leg)
    requires ValidConfig(z.cfg, z.legalPattern) && a.repo in z.cfg.repos && b.repo in z.cfg.repos
    requires CacheOf(a) == CacheOf(b)
    ensures a == b
  {
    SameNameSameRepo(z.cfg.repos, a.repo, b.repo);
    assert ValidRepo(a.repo, z.cfg.providers, z.legalPattern);
  }

  lemma SameNameSameRepo(repos: seq<RepoConfig>, a: RepoConfig, b: RepoConfig)
    requires Distinct(Names(repos)) && a in repos && b in repos && a.name == b.name
    ensures a == b
  {
    var i :| 0 <= i < |repos| && repos[i] == a;
    var j :| 0 <= j < |repos| && repos[j] == b;
    assert Names(repos)[i] == Names(repos)[j];
  }

  // ---- a step of one call, seen by the others ------------------------------------------------

  /** What a step does to the service's own state. */
  lemma StepEffect(z: Setting, s: State, tid: Tid, act: Act)
    requires tid in s.threads && Wired(s, s.threads[tid].task.leg)
    ensures var t := s.threads[tid];
      var s' := Apply(z, s, tid, act);
      && s'.threads == s.threads[tid := t.(pc := act.pc)]
      && s'.locks == LocksAfter(s.locks, tid, t.task.leg.repo.name, act.pc)
      && s'.writes == s.writes + WritesOf(tid, t.task, Look(s, t.task.leg), act)
      && s'.log == s.log + EntriesOf(tid, act)
      && CacheAt(s', t.task.leg) == act.cache
      && (forall leg :: CacheOf(leg) != CacheOf(t.task.leg) ==> CacheAt(s', leg) == CacheAt(s, leg))
  {
    hide Written;
  }

  /** And to the remotes: at most the destination of its own leg changes. */
  lemma StepRemoteEffect(z: Setting, s: State, tid: Tid, act: Act)
    requires tid in s.threads && Wired(s, s.threads[tid].task.leg)
    ensures var at := ToPlace(s.threads[tid].task.leg);
      var s' := Apply(z, s, tid, act);
      && s'.remotes.Keys == s.remotes.Keys && s'.seen.Keys == s.seen.Keys
      && (forall p :: p in s.seen ==> s.seen[p] <= s'.seen[p])
      && (forall p :: p in s.remotes && p != at ==> s'.remotes[p] == s.remotes[p])
      && (act.write.None? ==> s'.remotes[at] == s.remotes[at])
      && (act.write.Some? ==>
          s'.remotes[at] == Written(z.g, s.remotes[at], act.write.value) && s'.remotes[at].objs <= s'.seen[at])
  {
    hide Written, LocksAfter, EntriesOf, WritesOf;
  }

  lemma StepLocks(z: Setting, s: State, tid: Tid, act: Act)
    requires LocksOK(s) && tid in s.threads && Wired(s, s.threads[tid].task.leg)
    requires !HoldsLock(s.threads[tid].pc) && HoldsLock(act.pc) ==> s.threads[tid].task.leg.repo.name !in s.locks
    ensures LocksOK(Apply(z, s, tid, act))
  {
    StepEffect(z, s, tid, act);
    hide Apply, CacheAt, WritesOf, EntriesOf;
  }

  lemma WhoseWrites(tid: Tid, task: Task, v: Sight, act: Act, u: Tid)
    ensures Mine(WritesOf(tid, task, v, act), u) == if u == tid then WritesOf(tid, task, v, act) else []
  {
    var ws := WritesOf(tid, task, v, act);
    assert ws != [] ==> ws[..0] == [];
  }

  /** A call holding its lock has its cache to itself, so nobody else's view changes. */
  lemma StepOthers(z: Setting, s: State, tid: Tid, act: Act, u: Tid)
    requires ValidConfig(z.cfg, z.legalPattern) && LocksOK(s) && tid in s.threads && u in s.threads && u != tid
    requires Wired(s, s.threads[tid].task.leg)
    requires s.threads[tid].task.leg.repo in z.cfg.repos && s.threads[u].task.leg.repo in z.cfg.repos
    requires HoldsLock(s.threads[tid].pc) || act.cache == CacheAt(s, s.threads[tid].task.leg)
    ensures ViewOf(Apply(z, s, tid, act), u) == ViewOf(s, u)
  {
    hide Apply, Mine, Recorded, Look, Wired, LocksAfter;
    var s', t, o := Apply(z, s, tid, act), s.threads[tid], s.threads[u];
    StepEffect(z, s, tid, act);
    MineConcat(s.writes, WritesOf(tid, t.task, Look(s, t.task.leg), act), u);
    RecordedSnoc(s.log, EntriesOf(tid, act), u);
    WhoseWrites(tid, t.task, Look(s, t.task.leg), act, u);
    if CacheOf(o.task.leg) == CacheOf(t.task.leg) { OneLegPerCache(z, o.task.leg, t.task.leg); }
    hide ValidConfig, WritesOf;
    assert CacheOf(o.task.leg) == CacheOf(t.task.leg) && HoldsLock(o.pc) ==> !HoldsLock(t.pc);
  }

  lemma StepOwnView(z: Setting, s: State, tid: Tid, act: Act)
    requires tid in s.threads && Wired(s, s.threads[tid].task.leg)
    ensures var t := s.threads[tid];
      ViewOf(Apply(z, s, tid, act), tid) ==
      View(t.(pc := act.pc), if HoldsLock(act.pc) then act.cache else None,
           Mine(s.writes, tid) + WritesOf(tid, t.task, Look(s, t.task.leg), act),
           Recorded(s.log, tid) + (if act.pc.Done? then [act.pc.ev] else []))
  {
    hide Apply, Mine, Recorded, WritesOf, CacheAt, LocksAfter, Look;
    var t := s.threads[tid];
    StepEffect(z, s, tid, act);
    MineConcat(s.writes, WritesOf(tid, t.task, Look(s, t.task.leg), act), tid);
    WhoseWrites(tid, t.task, Look(s, t.task.leg), act, tid);
    RecordedSnoc(s.log, EntriesOf(tid, act), tid);
  }

  /** The view's cache matters only while the lock is held. */
  lemma UnlockedIgnoresCache(z: Setting, task: Task, cache: Option<Store>, pc: PC, mine: seq<Write>)
    ensures PlaceOK(z, task, cache, pc, mine) ==> PlaceOK(z, task, if HoldsLock(pc) then cache else None, pc, mine)
  {
    hide Planned, Told, MirrorTruth, Truthful, Wants;
  }

  lemma StepOwn(z: Setting, s: State, tid: Tid, act: Act)
    requires tid in s.threads && Wired(s, s.threads[tid].task.leg) && !s.threads[tid].pc.Done?
    requires ViewOK(z, ViewOf(s, tid))
    requires StepOK(z, tid, s.threads[tid], Look(s, s.threads[tid].task.leg), Mine(s.writes, tid), act)
    ensures ViewOK(z, ViewOf(Apply(z, s, tid, act), tid))
  {
    hide Apply, Mine, Recorded, PlaceOK, Shaped, WriteOK, CleanAct, WritesOf, Look, CacheAt;
    var t, v := s.threads[tid], Look(s, s.threads[tid].task.leg);
    StepOwnView(z, s, tid, act);
    UnlockedIgnoresCache(z, t.task, act.cache, act.pc, Mine(s.writes, tid) + WritesOf(tid, t.task, v, act));
  }

  lemma StepThreads(z: Setting, s: State, tid: Tid, act: Act)
    requires ValidConfig(z.cfg, z.legalPattern) && LocksOK(s) && ThreadsOK(z, s)
    requires tid in s.threads && Wired(s, s.threads[tid].task.leg) && !s.threads[tid].pc.Done?
    requires StepOK(z, tid, s.threads[tid], Look(s, s.threads[tid].task.leg), Mine(s.writes, tid), act)
    ensures ThreadsOK(z, Apply(z, s, tid, act))
  {
    hide Apply, Mine, Recorded, PlaceOK, WriteOK, CleanAct, WritesOf, LocksOK;
    var s' := Apply(z, s, tid, act);
    StepEffect(z, s, tid, act);
    StepOwn(z, s, tid, act);
    forall u | u in s'.threads && u != tid ensures ViewOK(z, ViewOf(s', u)) {
      assert ViewOK(z, ViewOf(s, u)) && ViewOK(z, ViewOf(s, tid));
      StepOthers(z, s, tid, act, u);
    }
    hide ViewOK, ViewOf, StepOK;
  }

  lemma WrittenIsValid(g: ObjectGraph, cache: Option<Store>, remote: Store, w: RefWrite)
    requires ValidStore(g, remote) && (cache.Some? ==> Closed(g, cache.value.objs))
    requires w.newTip != NO_OBJECT ==> cache.Some? && w.newTip in cache.value.objs && LegalRef(w.ref)
    ensures ValidStore(g, Written(g, remote, w))
  {
    if w.newTip != NO_OBJECT { PushKeepsValid(g, remote, w.ref, w.newTip, cache.value.objs); }
  }

  lemma StepRemotes(z: Setting, s: State, tid: Tid, act: Act)
    requires RemotesOK(z, s) && tid in s.threads && Wired(s, s.threads[tid].task.leg)
    requires var v := Look(s, s.threads[tid].task.leg);
      ValidSight(z, v) && CleanAct(z, v, act)
    ensures RemotesOK(z, Apply(z, s, tid, act))
  {
    hide Apply, Written, IsPlace, Closed, LegalRef;
    var v := Look(s, s.threads[tid].task.leg);
    StepRemoteEffect(z, s, tid, act);
    if act.write.Some? { WrittenIsValid(z.g, v.cache, v.to, act.write.value); }
    hide ValidStore, CacheAt;
  }

  lemma StepCaches(z: Setting, s: State, tid: Tid, act: Act)
    requires ValidConfig(z.cfg, z.legalPattern) && RemotesOK(z, s) && CachesHeld(z, s)
    requires tid in s.threads && Wired(s, s.threads[tid].task.leg) && s.threads[tid].task.leg.repo in z.cfg.repos
    requires CleanAct(z, Look(s, s.threads[tid].task.leg), act)
    ensures CachesHeld(z, Apply(z, s, tid, act))
  {
    var s', own := Apply(z, s, tid, act), s.threads[tid].task.leg;
    StepEffect(z, s, tid, act);
    StepRemoteEffect(z, s, tid, act);
    hide Apply, ValidConfig, ValidStore, Written, IsPlace, WritesOf, LocksAfter, EntriesOf;
    forall leg: Leg | leg.repo in z.cfg.repos && CacheOf(leg) in s'.caches
      ensures ValidStore(z.g, s'.caches[CacheOf(leg)])
      ensures FromPlace(leg) in s'.seen && s'.caches[CacheOf(leg)].objs <= s'.seen[FromPlace(leg)]
    {
      assert CacheAt(s', leg) == Some(s'.caches[CacheOf(leg)]);
      if CacheOf(leg) == CacheOf(own) {
        OneLegPerCache(z, leg, own);
        assert s.remotes[FromPlace(own)].objs <= s.seen[FromPlace(own)] <= s'.seen[FromPlace(own)];
      } else {
        assert CacheAt(s, leg) == CacheAt(s', leg);
      }
    }
  }

  lemma StepWrites(z: Setting, s: State, tid: Tid, act: Act)
    requires CachesHeld(z, s) && WritesOK(z, s) && tid in s.threads && Wired(s, s.threads[tid].task.leg)
    requires s.threads[tid].task.leg.repo in z.cfg.repos
    requires forall w :: w in WritesOf(tid, s.threads[tid].task, Look(s, s.threads[tid].task.leg), act) ==>
      WriteOK(z, w)
    ensures WritesOK(z, Apply(z, s, tid, act))
  {
    StepEffect(z, s, tid, act);
    StepRemoteEffect(z, s, tid, act);
    hide Apply, WriteOK, ValidStore, Written, LocksAfter, EntriesOf;
  }

  lemma LogGrows(z: Setting, log: seq<Entry>, more: seq<Entry>, task: Task)
    requires Evidence(z, LoggedEvents(log), task)
    ensures Evidence(z, LoggedEvents(log + more), task)
  {
    assert LoggedEvents(log + more) == LoggedEvents(log) + LoggedEvents(more);
    hide NamesDestination, IsHoldOf, IsDeleteOf, LoggedEvents;
  }

  lemma StepHistory(z: Setting, s: State, tid: Tid, act: Act)
    requires CallersKnown(s) && EvidenceOK(z, s) && tid in s.threads && Wired(s, s.threads[tid].task.leg)
    ensures CallersKnown(Apply(z, s, tid, act)) && EvidenceOK(z, Apply(z, s, tid, act))
  {
    var s' := Apply(z, s, tid, act);
    StepEffect(z, s, tid, act);
    forall u | u in s'.threads ensures Evidence(z, LoggedEvents(s'.log), s'.threads[u].task) {
      LogGrows(z, s.log, EntriesOf(tid, act), s.threads[u].task);
    }
    hide Apply, Evidence, WritesOf, LocksAfter, CacheAt;
  }

  lemma ThreadStepKeeps(z: Setting, s: State, tid: Tid, c: Choice)
    requires Inv(z, s) && CanStep(z, s, tid, c)
    ensures Inv(z, ThreadStep(z, s, tid, c))
  {
    var t, v := s.threads[tid], Look(s, s.threads[tid].task.leg);
    var act := StepOf(z, t, v, c);
    assert ViewOK(z, ViewOf(s, tid));
    assert ValidSight(z, v);
    hide StepOf, ValidConfig, ValidStore;
    StepKeeps(z, tid, t, v, Mine(s.writes, tid), c);
    hide PlaceOK, WriteOK, Honest, Ready, CleanAct, Apply, ViewOK, Mine, Evidence;
    StepLocks(z, s, tid, act);
    StepThreads(z, s, tid, act);
    StepRemotes(z, s, tid, act);
    StepCaches(z, s, tid, act);
    StepWrites(z, s, tid, act);
    StepHistory(z, s, tid, act);
  }

  // ---- arrivals and outside moves ----------------------------------------------------------------

  lemma RunsAuthorised(z: Setting, r: Request)
    ensures RouteOf(z, r).Run? ==> Authorised(z.cfg.repos, RouteOf(z, r).leg)
    ensures RouteOf(z, r).Run? && r.WebhookDelete? ==> !RouteOf(z, r).leg.Blocks(r.ref.ShortName(), z.glob)
    ensures RouteOf(z, r).Run? && r.QueueDelete? ==> !RouteOf(z, r).leg.Blocks(r.ref.ShortName(), z.glob)
    ensures RouteOf(z, r).Run? && r.RestoreRequested? ==>
      && !RouteOf(z, r).leg.Blocks(r.restore.ref.ShortName(), z.glob)
      && NamesDestination(z.cfg.providers, RouteOf(z, r).leg, r.restore.to)
      && RouteOf(z, r).leg.repo.name == r.restore.repo
    ensures RouteOf(z, r).Run? && r.ForceRequested? ==>
      NamesDestination(z.cfg.providers, RouteOf(z, r).leg, r.force.to) && RouteOf(z, r).leg.repo.name == r.force.repo
  {
    hide Sync, SyncByTarget, SyncDelete, SyncDeleteByTarget, Retry, ForcePush, RestoreRef, Authorised, NamesDestination;
    match r
    case WebhookPush(key, path, _) => SyncByTargetAuthorised(z.cfg.providers, z.cfg.repos, key, path);
    case WebhookDelete(key, path, ref) =>
      SyncDeleteByTargetAuthorised(z.cfg.providers, z.cfg.repos, key, path, ref.ShortName(), z.glob);
    case QueuePush(repo, _) => SyncAuthorised(z.cfg.repos, repo);
    case QueueDelete(repo, ref) => SyncDeleteAuthorised(z.cfg.repos, repo, ref.ShortName(), z.glob);
    case RetryRequested(call) => RetryAuthorised(z.cfg.repos, call.repo, call.direction);
    case ForceRequested(_, force, _) => ForceAuthorised(z.cfg.providers, z.cfg.repos, force.repo, force.to);
    case RestoreRequested(_, restore, _) =>
      RestoreAuthorised(z.cfg.providers, z.cfg.repos, restore.repo, restore.to, restore.ref.ShortName(), z.glob);
  }

  lemma StartsShaped(z: Setting, s: State, r: Request)
    requires Admitted(s, r) && RouteOf(z, r).Run?
    ensures Shaped(z, TaskOf(r, RouteOf(z, r).leg)) && TaskOf(r, RouteOf(z, r).leg).leg == RouteOf(z, r).leg
  {
    hide RouteOf, Authorised, WasRing, MatchingHoldExists, MatchingDeleteExists;
    RunsAuthorised(z, r);
  }

  /** A gate only ever answers from the history. */
  lemma GateAnswersFromLog(ring: seq<Event>, log: seq<Entry>, repo: string, ev: Event)
    requires WasRing(ring, log) && ev in Recent(ring, GateQuery(repo)) && repo != ""
    ensures ev in LoggedEvents(log) && ev.repo == repo
  {
    RecentMembers(ring, GateQuery(repo));
    hide Recent, LoggedEvents;
    var n: nat :| n <= |log| && IsSuffix(ring, LoggedEvents(log)[..n]);
    var past := LoggedEvents(log)[..n];
    var i :| 0 <= i < |ring| && ring[i] == ev;
    assert ring == past[|past| - |ring|..];
    assert ev == past[|past| - |ring| + i] == LoggedEvents(log)[|past| - |ring| + i];
  }

  lemma StartsWithEvidence(z: Setting, s: State, r: Request)
    requires ValidConfig(z.cfg, z.legalPattern) && Admitted(s, r) && RouteOf(z, r).Run?
    ensures Evidence(z, LoggedEvents(s.log), TaskOf(r, RouteOf(z, r).leg))
  {
    hide RouteOf, WasRing, Recent, NamesDestination, IsHoldOf, IsDeleteOf, LoggedEvents;
    RunsAuthorised(z, r);
    var leg := RouteOf(z, r).leg;
    assert ValidRepo(leg.repo, z.cfg.providers, z.legalPattern);
    if r.ForceRequested? {
      var q := r.force;
      var ev :| ev in Recent(r.ring, GateQuery(q.repo)) && IsHoldOf(ev, q.to, q.ref, q.dest);
      GateAnswersFromLog(r.ring, s.log, q.repo, ev);
      assert ev.to == q.to by { HoldNames(ev, q.to, q.ref, q.dest); }
    } else if r.RestoreRequested? {
      var q := r.restore;
      var ev :| ev in Recent(r.ring, GateQuery(q.repo)) && IsDeleteOf(ev, q.to, q.ref, q.sha);
      GateAnswersFromLog(r.ring, s.log, q.repo, ev);
      assert ev.to == q.to by { DeleteNames(ev, q.to, q.ref, q.sha); }
    }
  }

  lemma HoldNames(ev: Event, to: string, ref: Ref, dest: Oid)
    requires IsHoldOf(ev, to, ref, dest)
    ensures ev.to == to
  {
  }

  lemma DeleteNames(ev: Event, to: string, ref: Ref, sha: Oid)
    requires IsDeleteOf(ev, to, ref, sha)
    ensures ev.to == to
  {
  }

  /** A thread nobody knew has written and recorded nothing. */
  lemma NewcomerIsClean(z: Setting, s: State, tid: Tid)
    requires WritesOK(z, s) && CallersKnown(s) && tid !in s.threads
    ensures Mine(s.writes, tid) == [] && Recorded(s.log, tid) == []
  {
    MineMeaning(s.writes, tid);
    RecordedMeaning(s.log, tid);
    hide Mine, Recorded, WriteOK;
  }

  lemma WaitingIsOK(z: Setting, task: Task)
    requires Shaped(z, task)
    ensures ViewOK(z, View(Thread(task, Waiting), None, [], []))
  {
    hide Authorised;
  }

  lemma SameViews(s: State, s': State)
    requires s'.caches == s.caches && s'.writes == s.writes && s'.log == s.log
    requires forall u :: u in s.threads ==> u in s'.threads && s'.threads[u] == s.threads[u]
    ensures forall u :: u in s.threads ==> ViewOf(s', u) == ViewOf(s, u)
  {
    hide Mine, Recorded;
  }

  lemma SameStores(z: Setting, s: State, s': State)
    requires s'.remotes == s.remotes && s'.caches == s.caches && s'.seen == s.seen && RemotesOK(z, s)
    requires CachesHeld(z, s)
    ensures RemotesOK(z, s') && CachesHeld(z, s')
  {
    hide ValidStore, IsPlace;
  }

  lemma StartKeepsInv(z: Setting, s: State, tid: Tid, r: Request)
    requires Inv(z, s) && tid !in s.threads && Admitted(s, r) && RouteOf(z, r).Run?
    ensures Inv(z, Arrive(z, s, tid, r))
  {
    hide ValidConfig, RouteOf, TaskOf, Admitted, Mine, Recorded, ViewOK, Shaped, WriteOK, Evidence, RemotesOK;
    hide CachesHeld;
    var s', task := Arrive(z, s, tid, r), TaskOf(r, RouteOf(z, r).leg);
    StartsShaped(z, s, r);
    StartsWithEvidence(z, s, r);
    NewcomerIsClean(z, s, tid);
    WaitingIsOK(z, task);
    assert s'.remotes == s.remotes && s'.caches == s.caches && s'.seen == s.seen;
    SameStores(z, s, s');
    SameViews(s, s');
    hide ViewOf;
  }

  lemma RefusalKeepsInv(z: Setting, s: State, more: seq<Entry>)
    requires Inv(z, s) && |more| <= 1 && forall e :: e in more ==> e.caller.None?
    ensures Inv(z, s.(log := s.log + more))
  {
    hide ValidConfig, Mine, Recorded, ViewOK, Shaped, WriteOK, Evidence, ValidStore, LoggedEvents;
    var s' := s.(log := s.log + more);
    forall u | u in s.threads
      ensures ViewOf(s', u) == ViewOf(s, u) && Evidence(z, LoggedEvents(s'.log), s.threads[u].task)
    {
      RecordedSnoc(s.log, more, u);
      LogGrows(z, s.log, more, s.threads[u].task);
    }
    hide ViewOf;
  }

  lemma ArriveKeeps(z: Setting, s: State, tid: Tid, r: Request)
    requires Inv(z, s) && tid !in s.threads && Admitted(s, r)
    ensures Inv(z, Arrive(z, s, tid, r))
  {
    hide Inv, Admitted, RouteOf, RefusalDraft;
    match RouteOf(z, r)
    case Run(_) => StartKeepsInv(z, s, tid, r);
    case Silent =>
    case Refuse(e) => RefusalKeepsInv(z, s, RefusalEntries(z, r, e));
  }

  lemma MoveKeepsRemotes(z: Setting, s: State, at: Place, m: Move)
    requires RemotesOK(z, s) && at in s.remotes && at in s.seen
    ensures RemotesOK(z, SetRemote(s, at, ApplyMove(z.g, s.remotes[at], m)))
  {
    MoveIsValid(z.g, s.remotes[at], m);
    hide ValidStore, ApplyMove, IsPlace;
  }

  /** What a side has seen only grows, so what the caches hold was still seen. */
  lemma MoveKeepsCaches(z: Setting, s: State, at: Place, m: Move)
    requires CachesHeld(z, s) && at in s.remotes && at in s.seen
    ensures var s' := SetRemote(s, at, ApplyMove(z.g, s.remotes[at], m));
      CachesHeld(z, s') && forall p :: p in s.seen ==> p in s'.seen && s.seen[p] <= s'.seen[p]
  {
    hide ValidStore, ApplyMove;
  }

  lemma MoveKeeps(z: Setting, s: State, at: Place, m: Move)
    requires Inv(z, s) && at in s.remotes && at in s.seen
    ensures Inv(z, SetRemote(s, at, ApplyMove(z.g, s.remotes[at], m)))
  {
    hide ValidConfig, ApplyMove, ViewOf, ViewOK, WriteOK, Evidence, RemotesOK, CachesHeld;
    var s' := SetRemote(s, at, ApplyMove(z.g, s.remotes[at], m));
    MoveKeepsRemotes(z, s, at, m);
    MoveKeepsCaches(z, s, at, m);
    SameViews(s, s');
    assert s'.threads == s.threads && s'.locks == s.locks && s'.writes == s.writes && s'.log == s.log;
    hide SetRemote;
  }

  // ---- every state of every run ----------------------------------------------------------------------

  lemma NextKeeps(z: Setting, s: State, s': State)
    requires Inv(z, s) && Next(z, s, s')
    ensures Inv(z, s')
  {
    var st :| Can(z, s, st) && s' == Do(z, s, st);
    DoKeeps(z, s, st);
  }

  lemma DoKeeps(z: Setting, s: State, st: Step)
    requires Inv(z, s) && Can(z, s, st)
    ensures Inv(z, Do(z, s, st))
  {
    hide Inv, CanStep, ThreadStep, Admitted, Arrive, ApplyMove;
    match st
    case OutsideMove(at, m) => MoveKeeps(z, s, at, m);
    case Arrives(tid, r) => ArriveKeeps(z, s, tid, r);
    case Steps(tid, c) => ThreadStepKeeps(z, s, tid, c);
  }

  lemma RunStep(z: Setting, run: seq<State>, i: nat)
    requires IsRun(z, run) && i < |run|
    ensures i == 0 ==> run[i].threads == map[]
    ensures i > 0 ==> Next(z, run[i - 1], run[i])
  {
    hide Next;
    if i > 0 { assert Next(z, run[i - 1], run[i - 1 + 1]); }
  }

  lemma {:induction false} EveryStateOK(z: Setting, run: seq<State>, i: nat)
    requires IsRun(z, run) && i < |run|
    ensures Inv(z, run[i])
  {
    hide Next;
    if i == 0 {
      hide ValidConfig, CachesHeld, ValidStore;
    } else {
      EveryStateOK(z, run, i - 1);
      assert Next(z, run[i - 1], run[i - 1 + 1]);
      NextKeeps(z, run[i - 1], run[i]);
      hide Inv;
    }
  }

  /** Some run leads here. */
  ghost predicate Reachable(z: Setting, s: State) {
    exists run: seq<State> :: IsRun(z, run) && run[|run| - 1] == s
  }

  lemma ReachableIsOK(z: Setting, s: State)
    requires Reachable(z, s)
    ensures Inv(z, s)
  {
    var run: seq<State> :| IsRun(z, run) && run[|run| - 1] == s;
    EveryStateOK(z, run, |run| - 1);
    hide IsRun, Inv;
  }

  lemma RunGrows(z: Setting, run: seq<State>, s: State)
    requires IsRun(z, run) && Next(z, run[|run| - 1], s)
    ensures IsRun(z, run + [s])
  {
    hide Init, Next;
  }

  lemma DoIsNext(z: Setting, s: State, st: Step)
    requires Can(z, s, st)
    ensures Next(z, s, Do(z, s, st))
  {
    hide Can, Do;
  }

  /** What can happen in a reachable state leads to one. */
  lemma ReachableOn(z: Setting, s: State, st: Step)
    requires Reachable(z, s) && Can(z, s, st)
    ensures Reachable(z, Do(z, s, st))
  {
    hide Can, Do, Next, Init;
    DoIsNext(z, s, st);
    var run: seq<State> :| IsRun(z, run) && run[|run| - 1] == s;
    hide IsRun;
    RunGrows(z, run, Do(z, s, st));
    assert (run + [Do(z, s, st)])[|run|] == Do(z, s, st);
  }
}
