/** The service as a state machine: any number of requests at once, each a sequence of
 * separate steps under its repo's lock, while other people change the remotes between
 * any two of them.
 */
module Protocol {
  import opened Batch
  import opened Config
  import opened Events
  import opened Gates
  import opened Git
  import opened Graph
  import opened History
  import opened Loss
  import opened Plan
  import opened Porcelain
  import opened Refs
  import opened Routing

  // ---- what is fixed for a run -------------------------------------------------------

  datatype Setting = Setting(g: ObjectGraph, cfg: Configuration, legalPattern: string -> bool, glob: Glob,
                             content: Content, url: string)

  /** Object names are full ones and the address fits on a line. */
  predicate Sane(z: Setting) { FullNames(z.g) && OneLine(z.url) }

  /** A remote repository: a provider and a path on it. */
  datatype Place = Place(provider: string, path: string)

  /** A mirror cache belongs to one repo entry and one direction. */
  datatype CacheKey = CacheKey(repo: string, provider: string)

  function FromPlace(leg: Leg): Place { Place(leg.FromProvider(), leg.FromPath()) }

  function ToPlace(leg: Leg): Place { Place(leg.ToProvider(), leg.ToPath()) }

  function CacheOf(leg: Leg): CacheKey { CacheKey(leg.repo.name, leg.FromProvider()) }

  // ---- calls and where they stand -----------------------------------------------------

  datatype Task =
    | MirrorTask(leg: Leg, meta: EventMeta)
    | DeleteTask(leg: Leg, ref: Ref, source: Source)
    | RestoreTask(leg: Leg, ref: Ref, sha: Oid, actor: string)

  datatype PC =
    | Waiting
    | Locked
    // a mirror
    | Fetched
    | Resolved(want: seq<Ref>)
    | Pushing(plan: PushPlan, outcomes: seq<RefOutcome>)
    | Pushed(plan: PushPlan, outcomes: seq<RefOutcome>)
    // a delete
    | DeleteChecked(tip: Oid)
    // a restore
    | HoleSeen
    | ObjectReady
    // returned
    | Done(ev: Event, err: bool, alerted: bool)

  datatype Thread = Thread(task: Task, pc: PC)

  type Tid = nat

  /** One ref the service changed, with the objects the writing call's cache held then and
      whether git had answered the guard's ancestry question about it. */
  datatype Write = Write(tid: Tid, task: Task, at: Place, ref: Ref, oldTip: Oid, newTip: Oid, known: set<Oid>,
                         answered: bool)

  /** One recorded event and the call that recorded it, if it got that far. */
  datatype Entry = Entry(caller: Option<Tid>, ev: Event)

  /** `seen` is what each remote ever held; `writes` and `log` only grow. */
  datatype State = State(
    remotes: map<Place, Store>, caches: map<CacheKey, Store>, seen: map<Place, set<Oid>>,
    locks: map<string, Tid>, threads: map<Tid, Thread>, log: seq<Entry>, writes: seq<Write>)

  function LoggedEvents(log: seq<Entry>): (r: seq<Event>)
    ensures |r| == |log|
  {
    seq(|log|, i requires 0 <= i < |log| => log[i].ev)
  }

  predicate HoldsLock(pc: PC) { !pc.Waiting? && !pc.Done? }

  // ---- what one step of a call sees and does ---------------------------------------------

  /** What a call can look at: its own cache, the two remotes of its leg, and whether the
      repo's lock is taken. */
  datatype Sight = Sight(cache: Option<Store>, from: Store, to: Store, busy: bool)

  /** An empty `newTip` removes the ref. */
  datatype RefWrite = RefWrite(ref: Ref, newTip: Oid, answered: bool)

  /** What one step leaves behind: the call's cache, at most one change to the destination,
      and where the call stands now. */
  datatype Act = Act(cache: Option<Store>, write: Option<RefWrite>, pc: PC)

  /** Everything outside the program that one step depends on: whether its git command
      works, what a failed one leaves behind, the order git lists refs in, what the
      server's hooks say, which of the guard's questions go unanswered, and what the
      comparison of two tips finds. */
  datatype Choice = Choice(
    works: bool, clones: bool, loses: bool, keep: set<Oid>, listing: seq<Ref>,
    policy: Option<string>, dies: bool, lands: bool, unanswered: Unanswered, check: Check)

  function On(v: Sight, pc: PC): Act { Act(v.cache, None, pc) }

  function Fail(v: Sight, ev: Event, reason: Reason): Act {
    On(v, Done(ev.With(ResultFail, reason), true, false))
  }

  function Skip(v: Sight, ev: Event, reason: Reason): Act {
    On(v, Done(ev.With(ResultSkip, reason), false, false))
  }

  /** The descriptive half of a call's event. */
  function DraftOf(task: Task): Event {
    var leg := task.leg;
    var from, to := Endpoint(leg.FromProvider(), leg.FromPath()), Endpoint(leg.ToProvider(), leg.ToPath());
    match task
    case MirrorTask(_, meta) => Draft(leg.repo.name, ActionMirror, meta.source, from, to, meta.ref, meta.actor)
    case DeleteTask(_, ref, source) => Draft(leg.repo.name, ActionDelete, source, from, to, Some(ref), "")
    case RestoreTask(_, ref, _, actor) => Draft(leg.repo.name, ActionRestore, SourceConsole, from, to, Some(ref), actor)
  }

  predicate ProvidersKnown(z: Setting, leg: Leg) {
    leg.FromProvider() in z.cfg.providers && leg.ToProvider() in z.cfg.providers
  }

  // ---- doMirror ---------------------------------------------------------------------------

  /** Fetch into the cache, falling back to a clone; a failed swap can lose the cache. */
  function FetchStep(z: Setting, ev: Event, leg: Leg, v: Sight, c: Choice): Act {
    if !ProvidersKnown(z, leg) then Fail(v, ev, ReasonProvider)
    else if v.cache.Some? && c.works then
      On(v.(cache := Some(Collect(z.g, Fetch(z.g, v.cache.value, v.from), c.keep))), Fetched)
    else if c.clones then On(v.(cache := Some(Clone(z.g, v.from))), Fetched)
    else Fail(if c.loses then v.(cache := None) else v, ev, ReasonClone)
  }

  function ResolveStep(z: Setting, ev: Event, leg: Leg, meta: EventMeta, v: Sight, c: Choice): Act {
    var want := ResolveRefs(c.listing, leg, z.glob, meta.ref);
    if !c.works then Fail(v, ev, ReasonPush)
    else if want == [] then Skip(v, ev, ReasonNoRefsToPush)
    else On(v, Resolved(want))
  }

  function PlanStep(z: Setting, ev: Event, meta: EventMeta, want: seq<Ref>, v: Sight, c: Choice): Act
    requires v.cache.Some?
  {
    var plan := PlanFor(z.g, v.cache.value, v.to.refs, want, meta.force, meta.forceLease, c.unanswered);
    if !c.works then Fail(v, ev, ReasonPush)
    else if plan.specs == [] then
      Skip(v, ev.(held := plan.held), if plan.held != [] then ReasonDestinationAhead else ReasonAlreadyUpToDate)
    else On(v, Pushing(plan, []))
  }

  /** Where the git call of the last of `n` outcomes starts. */
  function BatchStart(n: nat): (start: nat)
    requires n > 0
    ensures start < n
  {
    n - 1 - (n - 1) % PUSH_BATCH_SIZE
  }

  /** The refs of the git call the last outcome belongs to. */
  function CurrentBatch(outcomes: seq<RefOutcome>): seq<RefOutcome>
    requires outcomes != []
  {
    outcomes[BatchStart(|outcomes|)..]
  }

  /** What the program reads in the report git prints for one call. */
  function ReadBatch(z: Setting, batch: seq<RefOutcome>): PushResult { Parsed(PrintReport(z.url, batch)) }

  /** git exits non-zero on any rejection; the program lets that pass when all it reads are
      failed leases. */
  predicate LetThrough(z: Setting, batch: seq<RefOutcome>) {
    (exists o :: o in batch && o.Rejected()) ==> AllStaleLease(ReadBatch(z, batch).rejected)
  }

  /** The results of all calls of a push, added up. */
  function ReadAll(z: Setting, outcomes: seq<RefOutcome>): PushResult {
    if outcomes == [] then NOTHING_PUSHED
    else
      var before, last := ReadAll(z, outcomes[..BatchStart(|outcomes|)]), ReadBatch(z, CurrentBatch(outcomes));
      PushResult(before.changed || last.changed, before.forced + last.forced, before.rejected + last.rejected)
  }

  /** What git answers for the next spec. */
  function NextOutcome(z: Setting, plan: PushPlan, outcomes: seq<RefOutcome>, v: Sight, c: Choice): RefOutcome
    requires v.cache.Some? && |outcomes| < |plan.specs| && plan.specs[|outcomes|].ref in v.cache.value.refs
  {
    var spec, cache := plan.specs[|outcomes|], v.cache.value;
    RefOutcome(spec.ref, PushStatus(z.g, cache.objs, v.to.refs, spec.ref, cache.refs[spec.ref], spec.lease, c.policy))
  }

  /** Where a push stands after one more outcome: at the end of a batch comes its verdict. */
  function AfterOutcome(z: Setting, ev: Event, plan: PushPlan, outcomes: seq<RefOutcome>): PC
    requires outcomes != []
  {
    if |outcomes| % PUSH_BATCH_SIZE != 0 && |outcomes| < |plan.specs| then Pushing(plan, outcomes)
    else if !LetThrough(z, CurrentBatch(outcomes)) then Done(ev.With(ResultFail, ReasonPush), true, false)
    else if |outcomes| < |plan.specs| then Pushing(plan, outcomes)
    else Pushed(plan, outcomes)
  }

  /** One leased write. The process may die before or after the server took it. */
  function PushStep(z: Setting, ev: Event, plan: PushPlan, outcomes: seq<RefOutcome>, v: Sight, c: Choice): Act
    requires v.cache.Some? && |outcomes| < |plan.specs| && plan.specs[|outcomes|].ref in v.cache.value.refs
  {
    var o := NextOutcome(z, plan, outcomes, v, c);
    var write :=
      if o.Moved() && (!c.dies || c.lands)
      then Some(RefWrite(o.ref, v.cache.value.refs[o.ref], o.ref !in plan.unanswered.ancestry))
      else None;
    var ev' := ev.(held := plan.held);
    Act(v.cache, write,
        if c.dies then Done(ev'.With(ResultFail, ReasonPush), true, false)
        else AfterOutcome(z, ev', plan, outcomes + [o]))
  }

  /** Classify what was overwritten, decide the alert, record. */
  function ReportStep(z: Setting, ev: Event, plan: PushPlan, outcomes: seq<RefOutcome>, v: Sight, c: Choice): Act {
    var res := ReadAll(z, outcomes);
    var ev' := ev.(held := plan.held);
    if !res.changed then Skip(v, ev', if res.rejected != [] then ReasonLeaseRejected else ReasonAlreadyUpToDate)
    else
      var forced := ClassifyAll(res.forced, c.check);
      var alerted := exists f :: f in forced && Interrupts(f);
      On(v, Done(ev'.(forced := forced).With(ResultOK, ForcedReason(forced)), false, alerted))
  }

  /** An event whose ref an override sends the other way. */
  predicate Overridden(z: Setting, leg: Leg, ref: Option<Ref>) {
    ref.Some? && leg.Blocks(ref.value.ShortName(), z.glob)
  }

  /** A mirror past its fetch has a cache, and a push in progress a next spec in it. */
  predicate MirrorReady(pc: PC, cache: Option<Store>) {
    && (pc.Fetched? || pc.Resolved? || pc.Pushing? || pc.Pushed? ==> cache.Some?)
    && (pc.Pushing? ==> |pc.outcomes| < |pc.plan.specs| && pc.plan.specs[|pc.outcomes|].ref in cache.value.refs)
  }

  function MirrorStep(z: Setting, task: Task, pc: PC, v: Sight, c: Choice): Act
    requires task.MirrorTask? && MirrorReady(pc, v.cache)
  {
    var leg, meta, ev := task.leg, task.meta, DraftOf(task);
    match pc
    case Waiting => if Overridden(z, leg, meta.ref) then Skip(v, ev, ReasonRefOverride) else On(v, Locked)
    case Locked => FetchStep(z, ev, leg, v, c)
    case Fetched => ResolveStep(z, ev, leg, meta, v, c)
    case Resolved(want) => PlanStep(z, ev, meta, want, v, c)
    case Pushing(plan, outcomes) => PushStep(z, ev, plan, outcomes, v, c)
    case Pushed(plan, outcomes) => ReportStep(z, ev, plan, outcomes, v, c)
    case _ => On(v, pc)
  }

  // ---- doDeleteRef --------------------------------------------------------------------------

  function DeleteCheckStep(z: Setting, ev: Event, leg: Leg, ref: Ref, v: Sight, c: Choice): Act {
    if !ProvidersKnown(z, leg) then Fail(v, ev, ReasonProvider)
    else if !c.works then Fail(v, ev, ReasonCheckRef)
    else if Tip(v.to.refs, ref) == NO_OBJECT then Skip(v, ev, ReasonAlreadyAbsent)
    else On(v, DeleteChecked(Tip(v.to.refs, ref)))
  }

  /** The delete carries no lease: it removes whatever the ref points at by now, and git
      fails it when the ref has gone. */
  function DeleteWriteStep(ev: Event, ref: Ref, tip: Oid, v: Sight, c: Choice): Act {
    var present := ref in v.to.refs;
    var write := if present && (c.works || c.lands) then Some(RefWrite(ref, NO_OBJECT, true)) else None;
    if present && c.works
    then Act(v.cache, write, Done(ev.(deletedTip := tip).With(ResultOK, ReasonNone), false, false))
    else Act(v.cache, write, Done(ev.With(ResultFail, ReasonDeleteRef), true, false))
  }

  function DeleteStep(z: Setting, task: Task, pc: PC, v: Sight, c: Choice): Act
    requires task.DeleteTask?
  {
    match pc
    case Waiting => On(v, Locked)
    case Locked => DeleteCheckStep(z, DraftOf(task), task.leg, task.ref, v, c)
    case DeleteChecked(tip) => DeleteWriteStep(DraftOf(task), task.ref, tip, v, c)
    case _ => On(v, pc)
  }

  // ---- doRestoreRef ---------------------------------------------------------------------------

  function RestoreCheckStep(z: Setting, ev: Event, leg: Leg, ref: Ref, sha: Oid, v: Sight, c: Choice): Act {
    var tip := Tip(v.to.refs, ref);
    if !ProvidersKnown(z, leg) then Fail(v, ev, ReasonProvider)
    else if !c.works then Fail(v, ev, ReasonCheckRef)
    else if tip == sha then Skip(v, ev, ReasonAlreadyUpToDate)
    else if tip != NO_OBJECT then Fail(v, ev, ReasonRefExists)
    else On(v, HoleSeen)
  }

  /** The commit comes from the cache, or from the other side's remote if that still serves it. */
  function RestoreObjectStep(z: Setting, ev: Event, sha: Oid, v: Sight, c: Choice): Act {
    var cache := if v.cache.Some? then v.cache.value else EMPTY_STORE;
    if !c.works then Fail(v, ev, ReasonClone)
    else if HasObject(cache, sha) then On(v, ObjectReady)
    else if c.clones && sha in v.from.objs then
      On(v.(cache := Some(Store(cache.refs, cache.objs + Ancestors(z.g, sha)))), ObjectReady)
    else Fail(v.(cache := Some(cache)), ev, ReasonObjectGone)
  }

  /** Creates the ref under an empty lease, if its name is one git accepts; git calls an
      existing ref at that commit up to date. */
  function RestoreWriteStep(ev: Event, ref: Ref, sha: Oid, v: Sight, c: Choice): Act {
    var creates := LeaseHolds(v.to.refs, ref, sha, NO_OBJECT) && c.policy.None? && LegalRef(ref);
    var write := if creates && (c.works || c.lands) then Some(RefWrite(ref, sha, true)) else None;
    if c.works && (creates || Tip(v.to.refs, ref) == sha)
    then Act(v.cache, write, Done(ev.(restoredTip := sha).With(ResultOK, ReasonNone), false, false))
    else Act(v.cache, write, Done(ev.With(ResultFail, ReasonCreateRef), true, false))
  }

  function RestoreStep(z: Setting, task: Task, pc: PC, v: Sight, c: Choice): Act
    requires task.RestoreTask?
  {
    var ev := DraftOf(task);
    match pc
    case Waiting => if v.busy then Fail(v, ev, ReasonRepoBusy) else On(v, Locked)
    case Locked => RestoreCheckStep(z, ev, task.leg, task.ref, task.sha, v, c)
    case HoleSeen => RestoreObjectStep(z, ev, task.sha, v, c)
    case ObjectReady => RestoreWriteStep(ev, task.ref, task.sha, v, c)
    case _ => On(v, pc)
  }

  // ---- one step of a call ------------------------------------------------------------------------

  predicate Ready(t: Thread, cache: Option<Store>) {
    t.task.MirrorTask? ==> MirrorReady(t.pc, cache)
  }

  function StepOf(z: Setting, t: Thread, v: Sight, c: Choice): Act
    requires Ready(t, v.cache)
  {
    match t.task
    case MirrorTask(_, _) => MirrorStep(z, t.task, t.pc, v, c)
    case DeleteTask(_, _, _) => DeleteStep(z, t.task, t.pc, v, c)
    case RestoreTask(_, _, _, _) => RestoreStep(z, t.task, t.pc, v, c)
  }

  /** Mirrors and deletes wait for the repo's lock; a restore gives up instead. */
  predicate Blocked(z: Setting, t: Thread, busy: bool) {
    t.pc.Waiting? && busy && !t.task.RestoreTask? && !(t.task.MirrorTask? && Overridden(z, t.task.leg, t.task.meta.ref))
  }

  /** The answers git gives during a step are answers about the step's own cache, and a
      refusal is one line. */
  ghost predicate Honest(z: Setting, t: Thread, v: Sight, c: Choice) {
    && (c.policy.Some? ==> OneLine(c.policy.value))
    && (t.task.MirrorTask? && v.cache.Some? ==>
          && (t.pc.Fetched? ==> Lists(c.listing, v.cache.value.refs))
          && (t.pc.Pushed? ==> AnswersFor(z.g, z.content, v.cache.value, c.check)))
  }

  // ---- the whole service ---------------------------------------------------------------------------

  /** A remote exists at both ends of the leg. */
  predicate Wired(s: State, leg: Leg) {
    && FromPlace(leg) in s.remotes && ToPlace(leg) in s.remotes
    && FromPlace(leg) in s.seen && ToPlace(leg) in s.seen
  }

  function CacheAt(s: State, leg: Leg): Option<Store> {
    if CacheOf(leg) in s.caches then Some(s.caches[CacheOf(leg)]) else None
  }

  function Look(s: State, leg: Leg): Sight
    requires Wired(s, leg)
  {
    Sight(CacheAt(s, leg), s.remotes[FromPlace(leg)], s.remotes[ToPlace(leg)], leg.repo.name in s.locks)
  }

  /** Replaces a remote; whatever it now holds has been seen there. */
  function SetRemote(s: State, at: Place, store: Store): State
    requires at in s.seen
  {
    s.(remotes := s.remotes[at := store], seen := s.seen[at := s.seen[at] + store.objs])
  }

  /** A remote after the service changed one of its refs. */
  function Written(g: ObjectGraph, remote: Store, w: RefWrite): Store {
    if w.newTip == NO_OBJECT then Store(remote.refs - {w.ref}, remote.objs)
    else Store(remote.refs[w.ref := w.newTip], remote.objs + Ancestors(g, w.newTip))
  }

  /** The changes a step makes, as the run records them. */
  function WritesOf(tid: Tid, task: Task, v: Sight, act: Act): seq<Write> {
    match act.write
    case None => []
    case Some(w) => [Write(tid, task, ToPlace(task.leg), w.ref, Tip(v.to.refs, w.ref), w.newTip,
                           if v.cache.Some? then v.cache.value.objs else {}, w.answered)]
  }

  function EntriesOf(tid: Tid, act: Act): seq<Entry> {
    if act.pc.Done? then [Entry(Some(tid), act.pc.ev)] else []
  }

  /** The lock is held exactly between the first step and the return. */
  function LocksAfter(locks: map<string, Tid>, tid: Tid, repo: string, pc: PC): map<string, Tid> {
    if HoldsLock(pc) then locks[repo := tid]
    else if repo in locks && locks[repo] == tid then locks - {repo}
    else locks
  }

  function Apply(z: Setting, s: State, tid: Tid, act: Act): State
    requires tid in s.threads && Wired(s, s.threads[tid].task.leg)
  {
    var t := s.threads[tid];
    var v, key, at := Look(s, t.task.leg), CacheOf(t.task.leg), ToPlace(t.task.leg);
    (if act.write.None? then s else SetRemote(s, at, Written(z.g, v.to, act.write.value))).(
      caches := if act.cache.Some? then s.caches[key := act.cache.value] else s.caches - {key},
      locks := LocksAfter(s.locks, tid, t.task.leg.repo.name, act.pc),
      threads := s.threads[tid := t.(pc := act.pc)],
      log := s.log + EntriesOf(tid, act),
      writes := s.writes + WritesOf(tid, t.task, v, act))
  }

  ghost predicate CanStep(z: Setting, s: State, tid: Tid, c: Choice) {
    && tid in s.threads && !s.threads[tid].pc.Done? && Wired(s, s.threads[tid].task.leg)
    && var t, v := s.threads[tid], Look(s, s.threads[tid].task.leg);
      Ready(t, v.cache) && !Blocked(z, t, v.busy) && Honest(z, t, v, c)
  }

  ghost function ThreadStep(z: Setting, s: State, tid: Tid, c: Choice): State
    requires CanStep(z, s, tid, c)
  {
    Apply(z, s, tid, StepOf(z, s.threads[tid], Look(s, s.threads[tid].task.leg), c))
  }

  // ---- requests -----------------------------------------------------------------------------------

  /** What can arrive. The console's force and restore carry the ring their gate read. */
  datatype Request =
    | WebhookPush(key: string, path: string, pushed: Option<Ref>)
    | WebhookDelete(key: string, path: string, ref: Ref)
    | QueuePush(repo: string, pushed: Option<Ref>)
    | QueueDelete(repo: string, ref: Ref)
    | RetryRequested(call: RetryCall)
    | ForceRequested(ring: seq<Event>, force: ForceRequest, actor: string)
    | RestoreRequested(ring: seq<Event>, restore: RestoreRequest, actor: string)

  /** A ring some moment of the history left in memory. */
  ghost predicate WasRing(ring: seq<Event>, log: seq<Entry>) {
    exists n: nat :: n <= |log| && IsSuffix(ring, LoggedEvents(log)[..n])
  }

  /** What the gates in front of the service have already established. */
  ghost predicate Admitted(s: State, r: Request) {
    match r
    case RetryRequested(call) => GatedMeta(call.meta) && (call.meta.force ==> call.meta.source == SourceRetryAPI)
    case ForceRequested(ring, force, _) => WasRing(ring, s.log) && ForceGate(ring, force)
    case RestoreRequested(ring, restore, _) => WasRing(ring, s.log) && RestoreGate(ring, restore)
    case _ => true
  }

  function RouteOf(z: Setting, r: Request): Route {
    match r
    case WebhookPush(key, path, _) => SyncByTarget(z.cfg.providers, z.cfg.repos, key, path)
    case WebhookDelete(key, path, ref) =>
      SyncDeleteByTarget(z.cfg.providers, z.cfg.repos, key, path, ref.ShortName(), z.glob)
    case QueuePush(repo, _) => Sync(z.cfg.repos, repo)
    case QueueDelete(repo, ref) => SyncDelete(z.cfg.repos, repo, ref.ShortName(), z.glob)
    case RetryRequested(call) => Retry(z.cfg.repos, call.repo, call.direction)
    case ForceRequested(_, force, _) => ForcePush(z.cfg.providers, z.cfg.repos, force.repo, force.to)
    case RestoreRequested(_, restore, _) =>
      RestoreRef(z.cfg.providers, z.cfg.repos, restore.repo, restore.to, restore.ref.ShortName(), z.glob)
  }

  function TaskOf(r: Request, leg: Leg): Task {
    match r
    case WebhookPush(_, _, ref) => MirrorTask(leg, EventMeta(ref, SourceWebhook, false, NO_OBJECT, ""))
    case WebhookDelete(_, _, ref) => DeleteTask(leg, ref, SourceWebhook)
    case QueuePush(_, ref) => MirrorTask(leg, EventMeta(ref, SourceSQS, false, NO_OBJECT, ""))
    case QueueDelete(_, ref) => DeleteTask(leg, ref, SourceSQS)
    case RetryRequested(call) => MirrorTask(leg, call.meta)
    case ForceRequested(_, force, actor) =>
      MirrorTask(leg, EventMeta(Some(force.ref), SourceConsole, true, force.dest, actor))
    case RestoreRequested(_, restore, actor) => RestoreTask(leg, restore.ref, restore.sha, actor)
  }

  function RefusalReason(e: RouteError): Reason {
    match e
    case DirectionRefused(_) => ReasonDirection
    case RefOverridden => ReasonRefOverride
    case UnknownSide => ReasonUnknownSide
    case _ => ReasonUnknownRepo
  }

  /** The ends a refusal is recorded under: the leg's once it is known, otherwise only what
      the caller named. */
  function RefusalDraft(z: Setting, repo: string, to: string, action: Action, ref: Ref, actor: string,
                        e: RouteError): Event {
    var found := FindRepo(z.cfg.repos, repo);
    var leg := if found.Some? then LegTo(z.cfg.providers, found.value, to) else None;
    if leg.Some? && (e.DirectionRefused? || e.RefOverridden?) then
      Draft(repo, action, SourceConsole, Endpoint(leg.value.FromProvider(), leg.value.FromPath()),
            Endpoint(leg.value.ToProvider(), leg.value.ToPath()), Some(ref), actor)
    else Draft(repo, action, SourceConsole, "", to, Some(ref), actor)
  }

  /** A refused force or restore leaves a failure in the history; other refusals are only
      returned to the caller. */
  function RefusalEntries(z: Setting, r: Request, e: RouteError): seq<Entry> {
    match r
    case ForceRequested(_, force, actor) =>
      var draft := RefusalDraft(z, force.repo, force.to, ActionMirror, force.ref, actor, e);
      [Entry(None, draft.With(ResultFail, RefusalReason(e)))]
    case RestoreRequested(_, restore, actor) =>
      var draft := RefusalDraft(z, restore.repo, restore.to, ActionRestore, restore.ref, actor, e);
      [Entry(None, draft.With(ResultFail, RefusalReason(e)))]
    case _ => []
  }

  function Arrive(z: Setting, s: State, tid: Tid, r: Request): State {
    match RouteOf(z, r)
    case Run(leg) => s.(threads := s.threads[tid := Thread(TaskOf(r, leg), Waiting)])
    case Silent => s
    case Refuse(e) => s.(log := s.log + RefusalEntries(z, r, e))
  }

  // ---- runs -----------------------------------------------------------------------------------------

  /** Anything that happens: someone changes a remote, a request arrives, a call steps. */
  datatype Step =
    | OutsideMove(at: Place, move: Move)
    | Arrives(tid: Tid, request: Request)
    | Steps(tid: Tid, choice: Choice)

  ghost predicate Can(z: Setting, s: State, st: Step) {
    match st
    case OutsideMove(at, _) => at in s.remotes && at in s.seen
    case Arrives(tid, r) => tid !in s.threads && Admitted(s, r)
    case Steps(tid, c) => CanStep(z, s, tid, c)
  }

  ghost function Do(z: Setting, s: State, st: Step): State
    requires Can(z, s, st)
  {
    match st
    case OutsideMove(at, m) => SetRemote(s, at, ApplyMove(z.g, s.remotes[at], m))
    case Arrives(tid, r) => Arrive(z, s, tid, r)
    case Steps(tid, c) => ThreadStep(z, s, tid, c)
  }

  ghost predicate Next(z: Setting, s: State, s': State) {
    exists st :: Can(z, s, st) && s' == Do(z, s, st)
  }

  /** Every endpoint of the configuration. */
  predicate IsPlace(z: Setting, p: Place) {
    exists r :: r in z.cfg.repos && (p == Place(r.source, r.sourcePath) || p == Place(r.target, r.targetPath))
  }

  /** Every cache is a store of objects its own side once held. */
  ghost predicate CachesHeld(z: Setting, s: State) {
    forall leg: Leg :: leg.repo in z.cfg.repos && CacheOf(leg) in s.caches ==>
      && ValidStore(z.g, s.caches[CacheOf(leg)])
      && FromPlace(leg) in s.seen && s.caches[CacheOf(leg)].objs <= s.seen[FromPlace(leg)]
  }

  /** A start of the service: the configuration passed validation and nothing runs. The
      caches and the history are whatever an earlier run left on the volume. */
  ghost predicate Init(z: Setting, s: State) {
    && ValidConfig(z.cfg, z.legalPattern) && Sane(z)
    && (forall p :: IsPlace(z, p) ==> p in s.remotes)
    && s.seen.Keys == s.remotes.Keys
    && (forall p :: p in s.remotes ==> ValidStore(z.g, s.remotes[p]) && s.remotes[p].objs <= s.seen[p])
    && CachesHeld(z, s) && (forall e :: e in s.log ==> e.caller.None?)
    && s.locks == map[] && s.threads == map[] && s.writes == []
  }

  ghost predicate IsRun(z: Setting, run: seq<State>) {
    && run != [] && Init(z, run[0])
    && forall i :: 0 <= i < |run| - 1 ==> Next(z, run[i], run[i + 1])
  }
}
