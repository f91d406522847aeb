/** From a request to what its call does: the entry it is answered by, the end it writes, and
 * nothing but what it asked for.
 */
module Requests {
  import opened Answers
  import opened Config
  import opened Dispatch
  import opened Events
  import opened Graph
  import opened Invariant
  import opened Protocol
  import opened Records
  import opened Refs
  import opened Routing
  import opened Runs
  import opened Safety
  import opened Text

  function SourceEnd(r: RepoConfig): Place { Place(r.source, r.sourcePath) }

  function TargetEnd(r: RepoConfig): Place { Place(r.target, r.targetPath) }

  /** The request names this entry: by one of its sides, by its source path, or by its name. */
  predicate Named(z: Setting, q: Request, e: RepoConfig) {
    match q
    case WebhookPush(key, path, _) => OnTarget(z.cfg.providers, e, key, path) || OnSource(z.cfg.providers, e, key, path)
    case WebhookDelete(key, path, _) =>
      OnTarget(z.cfg.providers, e, key, path) || OnSource(z.cfg.providers, e, key, path)
    case QueuePush(path, _) => e.sourcePath == path
    case QueueDelete(path, _) => e.sourcePath == path
    case RetryRequested(call) => e.name == call.repo
    case ForceRequested(_, force, _) => e.name == force.repo
    case RestoreRequested(_, restore, _) => e.name == restore.repo
  }

  /** The first such entry in document order stands at this index. */
  predicate FirstNamed(z: Setting, q: Request, i: nat): (first: bool)
    ensures first ==> i < |z.cfg.repos|
  {
    i < |z.cfg.repos| && Named(z, q, z.cfg.repos[i]) && forall j :: 0 <= j < i ==> !Named(z, q, z.cfg.repos[j])
  }

  /** The end of that entry which a call for the request is to write. */
  predicate EndToWrite(z: Setting, q: Request, r: RepoConfig, at: Place) {
    var ps := z.cfg.providers;
    match q
    case WebhookPush(key, path, _) => at == if OnTarget(ps, r, key, path) then SourceEnd(r) else TargetEnd(r)
    case WebhookDelete(key, path, _) => at == if OnTarget(ps, r, key, path) then SourceEnd(r) else TargetEnd(r)
    case QueuePush(_, _) => at == TargetEnd(r)
    case QueueDelete(_, _) => at == TargetEnd(r)
    case RetryRequested(call) =>
      && Asked(call.direction) in ["", "auto", SOURCE_TO_TARGET, TARGET_TO_SOURCE]
      && at == if AsksForTarget(r, Asked(call.direction)) then TargetEnd(r) else SourceEnd(r)
    case ForceRequested(_, force, _) => OnlyEnd(ps, r, force.to, at)
    case RestoreRequested(_, restore, _) => OnlyEnd(ps, r, restore.to, at)
  }

  /** A retry writes the target when it is asked to, or when it is asked nothing in particular and
      the entry's retry direction, else its one direction, says so. */
  predicate AsksForTarget(r: RepoConfig, asked: string) {
    if asked !in ["", "auto"] then asked == SOURCE_TO_TARGET
    else if r.retryDirection != "" then Lower(r.retryDirection) == SOURCE_TO_TARGET
    else Lower(r.direction) == SOURCE_TO_TARGET
  }

  /** The one end of the entry this text spells. */
  predicate OnlyEnd(providers: map<string, string>, r: RepoConfig, to: string, at: Place) {
    || (at == TargetEnd(r) && Spells(providers, r.target, r.targetPath, to) &&
        !Spells(providers, r.source, r.sourcePath, to))
    || (at == SourceEnd(r) && Spells(providers, r.source, r.sourcePath, to) &&
        !Spells(providers, r.target, r.targetPath, to))
  }

  /** What a call for the request may do to one ref. */
  predicate AskedFor(z: Setting, q: Request, w: Write) {
    match q
    case WebhookPush(_, _, pushed) => Pushes(z, pushed, None, w)
    case QueuePush(_, pushed) => Pushes(z, pushed, None, w)
    case RetryRequested(call) =>
      Pushes(z, call.meta.ref, if call.meta.force then Some(call.meta.forceLease) else None, w)
    case ForceRequested(_, force, _) => Pushes(z, Some(force.ref), Some(force.dest), w)
    case WebhookDelete(_, _, ref) => w.ref == ref && w.newTip == NO_OBJECT && w.oldTip != NO_OBJECT
    case QueueDelete(_, ref) => w.ref == ref && w.newTip == NO_OBJECT && w.oldTip != NO_OBJECT
    case RestoreRequested(_, restore, _) => w.ref == restore.ref && w.newTip == restore.sha && w.oldTip == NO_OBJECT
  }

  /** Moves the ref the event names, if it names one, to a commit of the pushing side: past the
      guard only from the tip the caller named, else only over what that side held and, where git
      could tell, never back to where the destination already was. */
  predicate Pushes(z: Setting, named: Option<Ref>, from: Option<Oid>, w: Write) {
    && (named.Some? ==> w.ref == named.value) && w.newTip in w.known
    && (from.Some? ==> w.oldTip == from.value)
    && (from.None? && w.oldTip != NO_OBJECT ==>
        w.oldTip in w.known && (w.answered ==> !IsAncestor(z.g, w.newTip, w.oldTip)))
  }

  // ---- routes answer requests --------------------------------------------------------------------------

  lemma FirstIndex(z: Setting, q: Request) returns (i: nat)
    requires exists r :: r in z.cfg.repos && Named(z, q, r)
    ensures FirstNamed(z, q, i)
  {
    hide Named;
    i := 0;
    while !Named(z, q, z.cfg.repos[i])
      invariant i < |z.cfg.repos| && forall j :: 0 <= j < i ==> !Named(z, q, z.cfg.repos[j])
      decreases |z.cfg.repos| - i
    {
      i := i + 1;
    }
  }

  /** The ref a request names for the overrides to judge, by its short name. */
  function ShortOf(q: Request): string {
    match q
    case WebhookDelete(_, _, ref) => ref.ShortName()
    case QueueDelete(_, ref) => ref.ShortName()
    case RestoreRequested(_, restore, _) => restore.ref.ShortName()
    case _ => ""
  }

  lemma NobodyNamed(z: Setting, q: Request)
    requires forall r :: r in z.cfg.repos ==> !Named(z, q, r)
    ensures RouteOf(z, q).Refuse?
    ensures q.RetryRequested? || q.ForceRequested? || q.RestoreRequested? ==> RouteOf(z, q).error == NotConfigured
  {
    var ps, repos := z.cfg.providers, z.cfg.repos;
    hide OnTarget, OnSource, Sync, SyncDelete, SyncByTarget, SyncDeleteByTarget, Retry, ForcePush, RestoreRef;
    match q
    case WebhookPush(key, path, _) => NoWebhookEntry(ps, repos, key, path, "", z.glob);
    case WebhookDelete(key, path, ref) => NoWebhookEntry(ps, repos, key, path, ref.ShortName(), z.glob);
    case QueuePush(path, _) => NoSourceEntry(repos, path, "", z.glob);
    case QueueDelete(path, ref) => NoSourceEntry(repos, path, ref.ShortName(), z.glob);
    case RetryRequested(call) => UnknownRepoExactly(ps, repos, call.repo, call.direction, "", z.glob);
    case ForceRequested(_, force, _) => UnknownRepoExactly(ps, repos, force.repo, force.to, "", z.glob);
    case RestoreRequested(_, restore, _) =>
      UnknownRepoExactly(ps, repos, restore.repo, restore.to, restore.ref.ShortName(), z.glob);
  }

  /** A routed request runs a leg of the first entry it names, to the end it is to write, which the
      entry's direction permits. */
  predicate Fits(z: Setting, q: Request, i: nat, leg: Leg)
    requires i < |z.cfg.repos|
  {
    var r := z.cfg.repos[i];
    && leg.repo == r && EndToWrite(z, q, r, ToPlace(leg))
    && (if leg.toTarget then ToPlace(leg) == TargetEnd(r) && MayWriteTarget(r)
        else ToPlace(leg) == SourceEnd(r) && MayWriteSource(r))
  }

  lemma EventFits(z: Setting, q: Request, i: nat)
    requires FirstNamed(z, q, i) && KnownProviders(z.cfg.providers, z.cfg.repos)
    requires q.WebhookPush? || q.WebhookDelete? || q.QueuePush? || q.QueueDelete?
    ensures RouteOf(z, q).Run? ==> Fits(z, q, i, RouteOf(z, q).leg)
  {
    var ps, repos := z.cfg.providers, z.cfg.repos;
    hide OnTarget, OnSource, Sync, SyncDelete, SyncByTarget, SyncDeleteByTarget, KeptFrom, KnownProviders, Lower;
    match q
    case WebhookPush(key, path, _) => WebhookEventExactly(ps, repos, key, path, i, "", z.glob);
    case WebhookDelete(key, path, ref) => WebhookEventExactly(ps, repos, key, path, i, ref.ShortName(), z.glob);
    case QueuePush(path, _) => SourceEventExactly(repos, path, i, "", z.glob);
    case QueueDelete(path, ref) => SourceEventExactly(repos, path, i, ref.ShortName(), z.glob);
  }

  /** The leg a retry runs. */
  lemma RetryLeg(z: Setting, q: Request, i: nat)
    requires FirstNamed(z, q, i) && q.RetryRequested? && ValidRepo(z.cfg.repos[i], z.cfg.providers, z.legalPattern)
    requires RouteOf(z, q).Run?
    ensures Asked(q.call.direction) in ["", "auto", SOURCE_TO_TARGET, TARGET_TO_SOURCE]
    ensures RouteOf(z, q).leg == Leg(z.cfg.repos[i], AsksForTarget(z.cfg.repos[i], Asked(q.call.direction)))
  {
    var direction := q.call.direction;
    LowerConstants();
    hide Retry, Asked, Lower, ValidOverrides, ValidSides, ValidRetryDirection;
    if Asked(direction) in ["", "auto"] {
      AutoRetryExactly(z.cfg.providers, z.cfg.repos, i, direction, z.legalPattern);
    } else {
      StatedRetryExactly(z.cfg.repos, i, direction);
    }
  }

  lemma RetryFits(z: Setting, q: Request, i: nat)
    requires FirstNamed(z, q, i) && q.RetryRequested? && ValidRepo(z.cfg.repos[i], z.cfg.providers, z.legalPattern)
    ensures RouteOf(z, q).Run? ==> Fits(z, q, i, RouteOf(z, q).leg)
  {
    hide Asked, ValidRepo, FirstNamed, AsksForTarget, Retry;
    if RouteOf(z, q).Run? {
      RetryLeg(z, q, i);
      RetryAuthorised(z.cfg.repos, q.call.repo, q.call.direction);
      hide RouteOf;
      PermittedEnd(RouteOf(z, q).leg);
    }
  }

  lemma PermittedEnd(leg: Leg)
    requires leg.Allowed()
    ensures if leg.toTarget then ToPlace(leg) == TargetEnd(leg.repo) && MayWriteTarget(leg.repo)
            else ToPlace(leg) == SourceEnd(leg.repo) && MayWriteSource(leg.repo)
  {
  }

  lemma NamedFits(z: Setting, q: Request, i: nat)
    requires FirstNamed(z, q, i) && (q.ForceRequested? || q.RestoreRequested?)
    requires ValidRepo(z.cfg.repos[i], z.cfg.providers, z.legalPattern)
    ensures RouteOf(z, q).Run? ==> Fits(z, q, i, RouteOf(z, q).leg)
  {
    hide Spells, ForcePush, RestoreRef, KeptFrom, Lower, ValidOverrides, ValidSides, ValidRetryDirection;
    var to := if q.ForceRequested? then q.force.to else q.restore.to;
    NamedSideExactly(z.cfg.providers, z.cfg.repos, i, to, ShortOf(q), z.glob);
  }

  lemma RouteFits(z: Setting, q: Request)
    requires ValidConfig(z.cfg, z.legalPattern) && RouteOf(z, q).Run?
    ensures exists i: nat :: FirstNamed(z, q, i) && Fits(z, q, i, RouteOf(z, q).leg)
  {
    hide RouteOf, Named, Fits, Distinct;
    if r :| r in z.cfg.repos && Named(z, q, r) {
      var i := FirstIndex(z, q);
      assert ValidRepo(z.cfg.repos[i], z.cfg.providers, z.legalPattern);
      hide FirstNamed, ValidRepo;
      match q
      case RetryRequested(_) => RetryFits(z, q, i);
      case ForceRequested(_, _, _) => NamedFits(z, q, i);
      case RestoreRequested(_, _, _) => NamedFits(z, q, i);
      case _ => EventFits(z, q, i) by { ProvidersAreKnown(z); }
    } else {
      NobodyNamed(z, q);
    }
  }

  lemma ProvidersAreKnown(z: Setting)
    requires ValidConfig(z.cfg, z.legalPattern)
    ensures KnownProviders(z.cfg.providers, z.cfg.repos)
  {
    forall r | r in z.cfg.repos ensures r.source in z.cfg.providers && r.target in z.cfg.providers {
      assert ValidRepo(r, z.cfg.providers, z.legalPattern);
    }
  }

  /** The entry that answers the request and, of its two ends, the one to write and the other. */
  predicate Goes(z: Setting, q: Request, e: nat, from: Place, at: Place) {
    && FirstNamed(z, q, e) && EndToWrite(z, q, z.cfg.repos[e], at)
    && var r := z.cfg.repos[e];
      || (at == TargetEnd(r) && from == SourceEnd(r) && MayWriteTarget(r))
      || (at == SourceEnd(r) && from == TargetEnd(r) && MayWriteSource(r))
  }

  /** And the ref it names is not pinned the other way, where the request is to delete or restore it. */
  predicate Serves(z: Setting, q: Request, e: nat, from: Place, at: Place) {
    && Goes(z, q, e, from, at)
    && (q.WebhookDelete? || q.QueueDelete? || q.RestoreRequested? ==>
          !KeptFrom(z.cfg.repos[e], ShortOf(q), z.glob, from.provider, at.provider))
  }

  lemma RoutedIsServed(z: Setting, q: Request) returns (e: nat)
    requires ValidConfig(z.cfg, z.legalPattern) && RouteOf(z, q).Run?
    ensures Serves(z, q, e, FromPlace(RouteOf(z, q).leg), ToPlace(RouteOf(z, q).leg))
    ensures RouteOf(z, q).leg.repo == z.cfg.repos[e]
  {
    hide RouteOf, EndToWrite, FirstNamed, ValidConfig;
    RouteFits(z, q);
    e :| FirstNamed(z, q, e) && Fits(z, q, e, RouteOf(z, q).leg);
    var leg := RouteOf(z, q).leg;
    assert Goes(z, q, e, FromPlace(leg), ToPlace(leg)) by { hide MayWriteTarget, MayWriteSource; }
    hide Goes, Fits;
    RunsAuthorised(z, q);
    BlocksExactly(leg, ShortOf(q), z.glob);
    hide KeptFrom;
  }

  lemma ServedIsRouted(z: Setting, q: Request, e: nat, from: Place, at: Place)
    requires ValidConfig(z.cfg, z.legalPattern) && Serves(z, q, e, from, at)
    ensures RouteOf(z, q).Run? && FromPlace(RouteOf(z, q).leg) == from && ToPlace(RouteOf(z, q).leg) == at
  {
    assert ValidRepo(z.cfg.repos[e], z.cfg.providers, z.legalPattern) by { EntryIsValid(z, q, e); }
    ProvidersAreKnown(z);
    hide ValidConfig;
    match q
    case RetryRequested(_) => RetryRuns(z, q, e, from, at);
    case ForceRequested(_, _, _) => NamedRuns(z, q, e, from, at);
    case RestoreRequested(_, _, _) => NamedRuns(z, q, e, from, at);
    case _ => EventRuns(z, q, e, from, at);
  }

  lemma EntryIsValid(z: Setting, q: Request, e: nat)
    requires ValidConfig(z.cfg, z.legalPattern) && FirstNamed(z, q, e)
    ensures ValidRepo(z.cfg.repos[e], z.cfg.providers, z.legalPattern)
  {
    hide ValidRepo, Distinct, Named;
  }

  lemma EventRuns(z: Setting, q: Request, e: nat, from: Place, at: Place)
    requires Serves(z, q, e, from, at) && KnownProviders(z.cfg.providers, z.cfg.repos)
    requires ValidRepo(z.cfg.repos[e], z.cfg.providers, z.legalPattern)
    requires q.WebhookPush? || q.WebhookDelete? || q.QueuePush? || q.QueueDelete?
    ensures RouteOf(z, q).Run? && FromPlace(RouteOf(z, q).leg) == from && ToPlace(RouteOf(z, q).leg) == at
  {
    var ps, repos := z.cfg.providers, z.cfg.repos;
    hide OnTarget, OnSource, Sync, SyncDelete, SyncByTarget, SyncDeleteByTarget, KeptFrom, KnownProviders;
    hide MayWriteTarget, MayWriteSource, ValidDirection, ValidOverrides, ValidRetryDirection;
    match q
    case WebhookPush(key, path, _) => WebhookEventExactly(ps, repos, key, path, e, "", z.glob);
    case WebhookDelete(key, path, ref) => WebhookEventExactly(ps, repos, key, path, e, ref.ShortName(), z.glob);
    case QueuePush(path, _) => SourceEventExactly(repos, path, e, "", z.glob);
    case QueueDelete(path, ref) => SourceEventExactly(repos, path, e, ref.ShortName(), z.glob);
  }

  lemma RetryRuns(z: Setting, q: Request, e: nat, from: Place, at: Place)
    requires Serves(z, q, e, from, at) && q.RetryRequested?
    requires ValidRepo(z.cfg.repos[e], z.cfg.providers, z.legalPattern)
    ensures RouteOf(z, q).Run? && FromPlace(RouteOf(z, q).leg) == from && ToPlace(RouteOf(z, q).leg) == at
  {
    var direction := q.call.direction;
    LowerConstants();
    hide Retry, Asked, Lower, ValidOverrides, ValidRetryDirection, KeptFrom;
    if Asked(direction) in ["", "auto"] {
      AutoRetryExactly(z.cfg.providers, z.cfg.repos, e, direction, z.legalPattern);
    } else {
      StatedRetryExactly(z.cfg.repos, e, direction);
    }
  }

  lemma NamedRuns(z: Setting, q: Request, e: nat, from: Place, at: Place)
    requires Serves(z, q, e, from, at) && (q.ForceRequested? || q.RestoreRequested?)
    requires ValidRepo(z.cfg.repos[e], z.cfg.providers, z.legalPattern)
    ensures RouteOf(z, q).Run? && FromPlace(RouteOf(z, q).leg) == from && ToPlace(RouteOf(z, q).leg) == at
  {
    hide Spells, ForcePush, RestoreRef, KeptFrom, Lower, ValidOverrides, ValidRetryDirection;
    var to := if q.ForceRequested? then q.force.to else q.restore.to;
    NamedSideExactly(z.cfg.providers, z.cfg.repos, e, to, ShortOf(q), z.glob);
  }

  /** A request starts a call exactly when some entry serves it, and then that entry's leg. */
  lemma StartsExactly(z: Setting, q: Request)
    requires ValidConfig(z.cfg, z.legalPattern)
    ensures RouteOf(z, q).Run? <==> exists e: nat, from: Place, at: Place :: Serves(z, q, e, from, at)
    ensures forall e: nat, from, at :: Serves(z, q, e, from, at) ==>
      FromPlace(RouteOf(z, q).leg) == from && ToPlace(RouteOf(z, q).leg) == at
  {
    hide RouteOf, Serves, ValidConfig;
    if RouteOf(z, q).Run? { var e := RoutedIsServed(z, q); }
    forall e: nat, from, at | Serves(z, q, e, from, at)
      ensures RouteOf(z, q).Run? && FromPlace(RouteOf(z, q).leg) == from && ToPlace(RouteOf(z, q).leg) == at
    {
      ServedIsRouted(z, q, e, from, at);
    }
  }

  // ---- what its call then does ----------------------------------------------------------------------------

  /** The request arrived here and started this call. */
  ghost predicate Starts(z: Setting, run: seq<State>, j: nat, tid: Tid, q: Request) {
    && j + 1 < |run| && Can(z, run[j], Arrives(tid, q)) && RouteOf(z, q).Run?
    && run[j + 1] == Do(z, run[j], Arrives(tid, q))
  }

  lemma {:induction false} TaskStays(z: Setting, run: seq<State>, j: nat, i: nat, tid: Tid)
    requires IsRun(z, run) && j <= i < |run| && tid in run[j].threads
    decreases i
    ensures tid in run[i].threads && run[i].threads[tid].task == run[j].threads[tid].task
  {
    hide IsRun, StepsHere;
    if j < i {
      TaskStays(z, run, j, i - 1, tid);
      StaysKnown(z, run, i - 1, tid);
      var c := CameFrom(z, run, i - 1, tid);
    }
  }

  lemma StartedTask(z: Setting, run: seq<State>, j: nat, tid: Tid, q: Request, i: nat)
    requires IsRun(z, run) && Starts(z, run, j, tid, q) && j < i < |run|
    ensures tid in run[i].threads && run[i].threads[tid].task == TaskOf(q, RouteOf(z, q).leg)
  {
    hide IsRun, RouteOf, TaskOf, Admitted;
    TaskStays(z, run, j + 1, i, tid);
  }

  /** Whatever a call writes is what its request asked for: at the end it names, of the first entry
      it names, where the direction permits and no override keeps the ref from; the named ref if it
      names one; a removal for a delete, a commit of the other end for a push, the named commit into
      a hole for a restore, and for a force only in place of the tip the caller was shown. */
  lemma CallsDoWhatWasAsked(z: Setting, run: seq<State>, j: nat, tid: Tid, q: Request, i: nat, w: Write)
    requires IsRun(z, run) && Starts(z, run, j, tid, q) && j < i < |run| && w in run[i].writes && w.tid == tid
    ensures AskedFor(z, q, w)
    ensures exists e: nat, from: Place ::
      && Goes(z, q, e, from, w.at)
      && !KeptFrom(z.cfg.repos[e], w.ref.ShortName(), z.glob, from.provider, w.at.provider)
  {
    hide IsRun, RouteOf, Shaped, Closed, IsAncestor, KeptFrom, Goes, Starts;
    StartedTask(z, run, j, tid, q, i);
    ChangeOK(z, run, i, w);
    var leg := w.task.leg;
    assert RouteOf(z, q).Run? && RouteOf(z, q).leg == leg by { RoutesToTask(z, run, j, tid, q); }
    assert ValidConfig(z.cfg, z.legalPattern) by { ConfigOK(z, run); }
    var e := RoutedIsServed(z, q);
    BlocksExactly(leg, w.ref.ShortName(), z.glob);
    hide ValidConfig;
  }

  lemma RoutesToTask(z: Setting, run: seq<State>, j: nat, tid: Tid, q: Request)
    requires Starts(z, run, j, tid, q)
    ensures RouteOf(z, q).Run? && TaskOf(q, RouteOf(z, q).leg).leg == RouteOf(z, q).leg
  {
    hide RouteOf, Can;
  }

  lemma ConfigOK(z: Setting, run: seq<State>)
    requires IsRun(z, run)
    ensures ValidConfig(z.cfg, z.legalPattern)
  {
    hide Next, CachesHeld;
  }

  /** What the event of the request's call says of its trigger, its ref and who asked. */
  predicate Credits(q: Request, ev: Event) {
    match q
    case WebhookPush(_, _, pushed) =>
      ev.action == ActionMirror && ev.source == SourceWebhook && ev.ref == pushed && ev.actor == ""
    case WebhookDelete(_, _, ref) =>
      ev.action == ActionDelete && ev.source == SourceWebhook && ev.ref == Some(ref) && ev.actor == ""
    case QueuePush(_, pushed) =>
      ev.action == ActionMirror && ev.source == SourceSQS && ev.ref == pushed && ev.actor == ""
    case QueueDelete(_, ref) =>
      ev.action == ActionDelete && ev.source == SourceSQS && ev.ref == Some(ref) && ev.actor == ""
    case RetryRequested(call) =>
      ev.action == ActionMirror && ev.source == call.meta.source && ev.ref == call.meta.ref &&
        ev.actor == call.meta.actor
    case ForceRequested(_, force, actor) =>
      ev.action == ActionMirror && ev.source == SourceConsole && ev.ref == Some(force.ref) && ev.actor == actor
    case RestoreRequested(_, restore, actor) =>
      ev.action == ActionRestore && ev.source == SourceConsole && ev.ref == Some(restore.ref) && ev.actor == actor
  }

  /** And what it records names the request: its trigger, its ref, who asked, the entry that
      answers it and the two ends, in the direction it was to go. */
  lemma EventsCreditTheirRequest(z: Setting, run: seq<State>, j: nat, tid: Tid, q: Request, i: nat)
    requires IsRun(z, run) && Starts(z, run, j, tid, q) && j < i < |run|
    ensures tid in run[i].threads
    ensures run[i].threads[tid].pc.Done? ==> Credits(q, run[i].threads[tid].pc.ev)
    ensures run[i].threads[tid].pc.Done? ==>
      exists e: nat, from: Place, at: Place ::
        && Goes(z, q, e, from, at)
        && var ev := run[i].threads[tid].pc.ev;
          && ev.repo == z.cfg.repos[e].name
          && ev.from == from.provider + "/" + from.path && ev.to == at.provider + "/" + at.path
  {
    hide IsRun, RouteOf, Goes, Starts, KeptFrom;
    StartedTask(z, run, j, tid, q, i);
    RoutesToTask(z, run, j, tid, q);
    ConfigOK(z, run);
    var e := RoutedIsServed(z, q);
    hide ValidConfig;
    if run[i].threads[tid].pc.Done? { EventsDescribeTheirCall(z, run, i, tid); }
  }

  // ---- refusals ----------------------------------------------------------------------------------------------

  /** Why a force or a restore of an entry is refused: the text spells neither end or both, the
      direction does not permit writing the end it spells, or an override pins the ref. */
  predicate Refused(z: Setting, r: RepoConfig, to: string, pinned: Option<Ref>, why: Reason, from: string,
                    end: string) {
    var target := Spells(z.cfg.providers, r.target, r.targetPath, to);
    var source := Spells(z.cfg.providers, r.source, r.sourcePath, to);
    var here, there := if target then TargetEnd(r) else SourceEnd(r), if target then SourceEnd(r) else TargetEnd(r);
    if target == source then why == ReasonUnknownSide && from == "" && end == to
    else
      && from == there.provider + "/" + there.path && end == here.provider + "/" + here.path
      && if !(if target then MayWriteTarget(r) else MayWriteSource(r)) then why == ReasonDirection
         else why == ReasonRefOverride && pinned.Some?
              && KeptFrom(r, pinned.value.ShortName(), z.glob, there.provider, here.provider)
  }

  function RepoNamed(q: Request): string
    requires q.ForceRequested? || q.RestoreRequested?
  {
    if q.ForceRequested? then q.force.repo else q.restore.repo
  }

  function EndNamed(q: Request): string
    requires q.ForceRequested? || q.RestoreRequested?
  {
    if q.ForceRequested? then q.force.to else q.restore.to
  }

  function RefNamed(q: Request): Ref
    requires q.ForceRequested? || q.RestoreRequested?
  {
    if q.ForceRequested? then q.force.ref else q.restore.ref
  }

  /** The one failure a refused force or restore records: on no call's account, for the entry, the
      ref and the person named, with nothing overwritten, withheld or removed. */
  ghost predicate RecordsRefusal(z: Setting, q: Request, x: Entry)
    requires q.ForceRequested? || q.RestoreRequested?
  {
    var action, pinned := if q.ForceRequested? then ActionMirror else ActionRestore,
      if q.RestoreRequested? then Some(RefNamed(q)) else None;
    && x.caller == None
    && x.ev == Event(RepoNamed(q), action, SourceConsole, x.ev.from, x.ev.to, Some(RefNamed(q)), ResultFail,
                     x.ev.reason, [], [], NO_OBJECT, NO_OBJECT, q.actor)
    && (forall e: nat :: FirstNamed(z, q, e) ==>
          Refused(z, z.cfg.repos[e], EndNamed(q), pinned, x.ev.reason, x.ev.from, x.ev.to))
    && ((forall e :: e in z.cfg.repos ==> !Named(z, q, e)) ==>
          x.ev.reason == ReasonUnknownRepo && x.ev.from == "" && x.ev.to == EndNamed(q))
  }

  /** A request that starts no call changes nothing, except that a refused force or restore is on
      record, once, with the reason. */
  lemma RefusalsOnRecord(z: Setting, s: State, tid: Tid, q: Request)
    requires ValidConfig(z.cfg, z.legalPattern) && !RouteOf(z, q).Run?
    ensures var s' := Arrive(z, s, tid, q);
      if q.ForceRequested? || q.RestoreRequested?
      then |s'.log| == |s.log| + 1 && s' == s.(log := s.log + [s'.log[|s.log|]]) &&
        RecordsRefusal(z, q, s'.log[|s.log|])
      else s' == s
  {
    hide ValidConfig, RouteOf;
    if q.ForceRequested? || q.RestoreRequested? {
      assert RouteOf(z, q).Refuse? by { NeverSilent(z, q); }
      RefusalIsRecorded(z, q);
      hide RecordsRefusal, RefusalDraft, RefusalReason;
    } else if RouteOf(z, q).Refuse? {
      assert s.log + [] == s.log;
    }
  }

  lemma NeverSilent(z: Setting, q: Request)
    requires q.ForceRequested? || q.RestoreRequested?
    ensures !RouteOf(z, q).Silent?
  {
    hide FindRepo, LegTo;
  }

  lemma RefusalIsRecorded(z: Setting, q: Request)
    requires ValidConfig(z.cfg, z.legalPattern) && RouteOf(z, q).Refuse? && (q.ForceRequested? || q.RestoreRequested?)
    ensures var es := RefusalEntries(z, q, RouteOf(z, q).error);
      |es| == 1 && RecordsRefusal(z, q, es[0])
  {
    hide RouteOf, FirstNamed, Named, Refused, ValidConfig, ValidRepo, Distinct, FindRepo, LegTo;
    forall e: nat | FirstNamed(z, q, e) ensures RefusedFor(z, q, z.cfg.repos[e], RouteOf(z, q).error) {
      assert ValidRepo(z.cfg.repos[e], z.cfg.providers, z.legalPattern) by { EntryIsValid(z, q, e); }
      RefusedEntry(z, q, e);
    }
    if forall e :: e in z.cfg.repos ==> !Named(z, q, e) {
      NobodyNamed(z, q);
    }
  }

  predicate RefusedFor(z: Setting, q: Request, r: RepoConfig, err: RouteError)
    requires q.ForceRequested? || q.RestoreRequested?
  {
    var draft := RefusalDraft(z, RepoNamed(q), EndNamed(q), ActionMirror, RefNamed(q), q.actor, err);
    Refused(z, r, EndNamed(q), if q.RestoreRequested? then Some(RefNamed(q)) else None, RefusalReason(err), draft.from,
            draft.to)
  }

  /** The leg a text names, by which of the two ends it spells. */
  lemma LegSpelled(ps: map<string, string>, r: RepoConfig, to: string)
    ensures var target, source := Spells(ps, r.target, r.targetPath, to), Spells(ps, r.source, r.sourcePath, to);
      LegTo(ps, r, to) == if target == source then None else Some(Leg(r, target))
  {
    SpelledExactly(ps, r.target, r.targetPath, to);
    SpelledExactly(ps, r.source, r.sourcePath, to);
    hide Spells, EndpointMatches;
  }

  /** The ends a refusal is recorded under. */
  lemma DraftEnds(z: Setting, q: Request, r: RepoConfig, err: RouteError)
    requires (q.ForceRequested? || q.RestoreRequested?) && FindRepo(z.cfg.repos, RepoNamed(q)) == Some(r)
    ensures var to := EndNamed(q);
      var draft := RefusalDraft(z, RepoNamed(q), to, ActionMirror, RefNamed(q), q.actor, err);
      var target, source := Spells(z.cfg.providers, r.target, r.targetPath, to),
        Spells(z.cfg.providers, r.source, r.sourcePath, to);
      var here, there := if target then TargetEnd(r) else SourceEnd(r), if target then SourceEnd(r) else TargetEnd(r);
      if target != source && (err.DirectionRefused? || err.RefOverridden?)
      then draft.from == there.provider + "/" + there.path && draft.to == here.provider + "/" + here.path
      else draft.from == "" && draft.to == to
  {
    LegSpelled(z.cfg.providers, r, EndNamed(q));
    hide Spells, LegTo, FindRepo;
  }

  /** Which error refuses it. */
  lemma ErrorFor(z: Setting, q: Request, e: nat)
    requires FirstNamed(z, q, e) && RouteOf(z, q).Refuse? && (q.ForceRequested? || q.RestoreRequested?)
    requires ValidRepo(z.cfg.repos[e], z.cfg.providers, z.legalPattern)
    ensures var r, err := z.cfg.repos[e], RouteOf(z, q).error;
      var target := Spells(z.cfg.providers, r.target, r.targetPath, EndNamed(q));
      var source := Spells(z.cfg.providers, r.source, r.sourcePath, EndNamed(q));
      if target == source then err == UnknownSide
      else if !(if target then MayWriteTarget(r) else MayWriteSource(r)) then err == DirectionRefused(r.name)
      else
        && q.RestoreRequested? && err == RefOverridden
        && KeptFrom(r, RefNamed(q).ShortName(), z.glob, if target then r.source else r.target,
                    if target then r.target else r.source)
  {
    NamedSideExactly(z.cfg.providers, z.cfg.repos, e, EndNamed(q), RefNamed(q).ShortName(), z.glob);
    hide Spells, ForcePush, RestoreRef, KeptFrom, MayWriteSource, MayWriteTarget, ValidRepo;
  }

  lemma RefusedEntry(z: Setting, q: Request, e: nat)
    requires FirstNamed(z, q, e) && RouteOf(z, q).Refuse? && (q.ForceRequested? || q.RestoreRequested?)
    requires ValidRepo(z.cfg.repos[e], z.cfg.providers, z.legalPattern)
    ensures RefusedFor(z, q, z.cfg.repos[e], RouteOf(z, q).error)
  {
    var r := z.cfg.repos[e];
    assert r.name == RepoNamed(q);
    FindRepoIsFirst(z.cfg.repos, r.name, e);
    ErrorFor(z, q, e);
    hide Spells, RouteOf, FindRepo, KeptFrom, MayWriteSource, MayWriteTarget, ValidRepo, RefusalDraft, FirstNamed;
    DraftEnds(z, q, r, RouteOf(z, q).error);
  }
}
