/** Git as the environment sees it: stores of refs and objects, and the few operations
 * the program relies on. Each one is a single atomic step.
 */
module Git {
  import opened Events
  import opened Graph
  import opened Porcelain
  import opened Refs

  type RefMap = map<Ref, Oid>

  /** A remote repository or a mirror cache. */
  datatype Store = Store(refs: RefMap, objs: set<Oid>)

  const EMPTY_STORE := Store(map[], {})

  /** A store holds everything its refs and its objects reach, under names git accepts. */
  predicate ValidStore(g: ObjectGraph, s: Store) {
    Closed(g, s.objs) && forall r :: r in s.refs ==> s.refs[r] in s.objs && LegalRef(r)
  }

  /** Every object has a full name. */
  predicate FullNames(g: ObjectGraph) { forall o :: o in g.parents ==> FullSha(o) }

  /** What `ls-remote` prints for one ref; empty when the ref does not exist. */
  function Tip(refs: RefMap, r: Ref): Oid {
    if r in refs then refs[r] else NO_OBJECT
  }

  lemma TipIsPresence(g: ObjectGraph, s: Store, r: Ref)
    requires ValidStore(g, s)
    ensures Tip(s.refs, r) != NO_OBJECT <==> r in s.refs
  {
  }

  // ---- filling a cache -----------------------------------------------------------

  /** A pruning fetch of every ref: the refs become the remote's, the objects only grow. */
  function Fetch(g: ObjectGraph, cache: Store, remote: Store): Store {
    Store(remote.refs, cache.objs + Closure(g, remote.refs.Values))
  }

  /** `clone --mirror`: nothing of an earlier cache survives. */
  function Clone(g: ObjectGraph, remote: Store): Store {
    Store(remote.refs, Closure(g, remote.refs.Values))
  }

  /** `gc`: keeps what the refs reach, and of the rest whatever `keep` happens to reach. */
  function Collect(g: ObjectGraph, s: Store, keep: set<Oid>): Store {
    Store(s.refs, Closure(g, s.refs.Values) + Closure(g, keep * s.objs))
  }

  lemma RefsAreReached(g: ObjectGraph, s: Store, t: Store)
    requires ValidStore(g, s) && t.refs == s.refs && Closure(g, s.refs.Values) <= t.objs && Closed(g, t.objs)
    ensures ValidStore(g, t)
  {
    ClosureIsClosed(g, s.refs.Values);
    forall r | r in t.refs ensures t.refs[r] in t.objs {
      assert s.refs[r] in s.refs.Values && s.refs[r] in g.parents;
    }
  }

  lemma FetchIsValid(g: ObjectGraph, cache: Store, remote: Store)
    requires ValidStore(g, remote) && Closed(g, cache.objs)
    ensures ValidStore(g, Fetch(g, cache, remote)) && ValidStore(g, Clone(g, remote))
    ensures Fetch(g, cache, remote).objs <= cache.objs + remote.objs && Clone(g, remote).objs <= remote.objs
  {
    var reached := Closure(g, remote.refs.Values);
    ClosureIsClosed(g, remote.refs.Values);
    ClosureIsLeast(g, remote.objs, remote.refs.Values);
    ClosedUnion(g, cache.objs, reached);
    hide Closure, Closed;
    RefsAreReached(g, remote, Fetch(g, cache, remote));
    RefsAreReached(g, remote, Clone(g, remote));
  }

  lemma CollectIsValid(g: ObjectGraph, s: Store, keep: set<Oid>)
    requires ValidStore(g, s)
    ensures ValidStore(g, Collect(g, s, keep)) && Collect(g, s, keep).objs <= s.objs
  {
    ClosureIsClosed(g, s.refs.Values);
    ClosureIsClosed(g, keep * s.objs);
    ClosureIsLeast(g, s.objs, s.refs.Values);
    ClosureIsLeast(g, s.objs, keep * s.objs);
    ClosedUnion(g, Closure(g, s.refs.Values), Closure(g, keep * s.objs));
    hide Closure, Closed;
    RefsAreReached(g, s, Collect(g, s, keep));
  }

  /** `cat-file -e o^{commit}`. */
  predicate HasObject(s: Store, o: Oid) { o in s.objs }

  // ---- writing to a remote ---------------------------------------------------------

  /** Whether a leased write of `newTip` lands: the ref is exactly at the lease, and not
      there already. An empty lease says the ref must not exist. */
  predicate LeaseHolds(refs: RefMap, ref: Ref, newTip: Oid, lease: Oid) {
    Tip(refs, ref) != newTip && Tip(refs, ref) == lease
  }

  function LeasedWrite(refs: RefMap, ref: Ref, newTip: Oid, lease: Oid): RefMap {
    if LeaseHolds(refs, ref, newTip, lease) then refs[ref := newTip] else refs
  }

  /** How git labels a write it performs: anything but a branch moving forward along
      history the pusher holds counts as forced. */
  function MoveStatus(g: ObjectGraph, cacheObjs: set<Oid>, ref: Ref, oldTip: Oid, newTip: Oid): Status {
    if oldTip == NO_OBJECT then Created(newTip)
    else if !ref.Tag? && oldTip in cacheObjs && IsAncestor(g, oldTip, newTip) then FastForward(oldTip, newTip)
    else Forced(oldTip, newTip)
  }

  /** The outcome of one leased ref. `policy` is what the server's hooks say about it. */
  function PushStatus(g: ObjectGraph, cacheObjs: set<Oid>, refs: RefMap, ref: Ref, newTip: Oid, lease: Oid,
                      policy: Option<string>): Status {
    if Tip(refs, ref) == newTip then UpToDate
    else if Tip(refs, ref) != lease then Stale
    else match policy
      case Some(why) => Refused(why)
      case None => MoveStatus(g, cacheObjs, ref, Tip(refs, ref), newTip)
  }

  function PushEffect(refs: RefMap, ref: Ref, newTip: Oid, lease: Oid, policy: Option<string>): RefMap {
    if policy.None? then LeasedWrite(refs, ref, newTip, lease) else refs
  }

  /** The report and the effect agree: a ref is reported moved exactly when it moved, and
      only from the lease to the pushed tip; stale when it is at some third tip, up to date when it
      is at the pushed one already, and refused when the server declined what would have landed. */
  lemma StatusTellsEffect(g: ObjectGraph, cacheObjs: set<Oid>, refs: RefMap, ref: Ref, newTip: Oid, lease: Oid,
                          policy: Option<string>)
    requires newTip != NO_OBJECT
    ensures var o := RefOutcome(ref, PushStatus(g, cacheObjs, refs, ref, newTip, lease, policy));
      var refs' := PushEffect(refs, ref, newTip, lease, policy);
      && (o.Moved() <==> refs' != refs)
      && (o.Moved() ==> refs' == refs[ref := newTip] && Tip(refs, ref) == lease != newTip)
      && (forall r :: r != ref ==> Tip(refs', r) == Tip(refs, r))
      && (o.status.Stale? <==> Tip(refs, ref) !in [newTip, lease])
      && (o.status.UpToDate? <==> Tip(refs, ref) == newTip)
      && (o.status.Refused? <==> Tip(refs, ref) == lease != newTip && policy.Some?)
  {
    var refs' := PushEffect(refs, ref, newTip, lease, policy);
    assert refs' != refs ==> Tip(refs', ref) == newTip != Tip(refs, ref);
    assert LeaseHolds(refs, ref, newTip, lease) ==> Tip(refs[ref := newTip], ref) == newTip;
  }

  /** What git says about a ref can be printed: its tips have full names. */
  lemma StatusIsLegal(g: ObjectGraph, cacheObjs: set<Oid>, refs: RefMap, ref: Ref, newTip: Oid, lease: Oid,
                      policy: Option<string>)
    requires FullSha(newTip) && (Tip(refs, ref) != NO_OBJECT ==> FullSha(Tip(refs, ref)))
    requires policy.Some? ==> OneLine(policy.value)
    ensures LegalStatus(PushStatus(g, cacheObjs, refs, ref, newTip, lease, policy))
  {
    hide FullSha, OneLine, Tip, IsAncestor;
  }

  lemma NamesAreFull(g: ObjectGraph, s: Store, r: Ref)
    requires ValidStore(g, s) && FullNames(g)
    ensures r in s.refs ==> LegalRef(r) && FullSha(s.refs[r])
    ensures Tip(s.refs, r) != NO_OBJECT ==> FullSha(Tip(s.refs, r))
  {
    hide FullSha, LegalRef;
  }

  // ---- what other people do ----------------------------------------------------------

  /** A move on a remote that this program did not make. */
  datatype Move = OutsidePush(ref: Ref, tip: Oid) | OutsideDelete(ref: Ref) | OutsideCollect(keep: set<Oid>)

  function ApplyMove(g: ObjectGraph, s: Store, m: Move): Store {
    match m
    case OutsidePush(ref, tip) =>
      if tip in g.parents && LegalRef(ref) then Store(s.refs[ref := tip], s.objs + Ancestors(g, tip)) else s
    case OutsideDelete(ref) => Store(s.refs - {ref}, s.objs)
    case OutsideCollect(keep) => Collect(g, s, keep)
  }

  lemma AncestorsClosed(g: ObjectGraph, o: Oid)
    ensures Closed(g, Ancestors(g, o))
  {
    forall b, a | b in Ancestors(g, o) && a in Ancestors(g, b) ensures a in Ancestors(g, o) {
      AncestorsTransitive(g, a, b, o);
    }
  }

  lemma MoveIsValid(g: ObjectGraph, s: Store, m: Move)
    requires ValidStore(g, s)
    ensures ValidStore(g, ApplyMove(g, s, m))
  {
    match m
    case OutsidePush(ref, tip) =>
      AncestorsClosed(g, tip);
      ClosedUnion(g, s.objs, Ancestors(g, tip));
    case OutsideDelete(_) =>
    case OutsideCollect(keep) => CollectIsValid(g, s, keep);
  }

  /** The effect of a push that carries the objects it needs. */
  lemma PushKeepsValid(g: ObjectGraph, remote: Store, ref: Ref, newTip: Oid, objs: set<Oid>)
    requires ValidStore(g, remote) && Closed(g, objs) && newTip in objs && LegalRef(ref)
    ensures ValidStore(g, Store(remote.refs[ref := newTip], remote.objs + Ancestors(g, newTip)))
    ensures Ancestors(g, newTip) <= objs
  {
    AncestorsClosed(g, newTip);
    ClosedUnion(g, remote.objs, Ancestors(g, newTip));
    assert newTip in Ancestors(g, newTip);
  }
}
