/** What an overwrite lost, and whether anyone is told. */
module Loss {
  import opened Config
  import opened Events
  import opened Git
  import opened Graph
  import opened Refs

  const MAX_CLASSIFY_COMMITS := 2000

  /** The contents the graph does not carry. `patch` holds the verbatim patch-id of every
      commit `git log -p --no-merges` prints one for; a commit with an empty diff has none. */
  datatype Content = Content(patch: map<Oid, string>, describe: Oid -> LostCommit)

  predicate IsMerge(g: ObjectGraph, c: Oid)
    requires c in g.parents
  {
    |g.parents[c]| >= 2
  }

  predicate HasPatch(g: ObjectGraph, content: Content, c: Oid)
    requires c in g.parents
  {
    !IsMerge(g, c) && c in content.patch
  }

  /** The commits `a` reaches and `b` does not. */
  function Side(g: ObjectGraph, a: Oid, b: Oid): (r: set<Oid>)
    ensures forall c :: c in r ==> c in g.parents
  {
    Ancestors(g, Peel(g, a)) - Ancestors(g, Peel(g, b))
  }

  /** `rev-list --branches`: what the branches of a cache reach. */
  function BranchReach(g: ObjectGraph, cache: Store): set<Oid> {
    set b, c | b in cache.refs && b.Branch? && c in Ancestors(g, Peel(g, cache.refs[b])) :: c
  }

  /** The patch-ids found on one side. */
  function PatchIds(g: ObjectGraph, content: Content, a: Oid, b: Oid): map<Oid, string> {
    map c | c in Side(g, a, b) && HasPatch(g, content, c) :: content.patch[c]
  }

  datatype Fate = Matched | Elsewhere | Gone

  /** What became of a commit that `discarded` reaches and `kept` does not. */
  function FateOf(g: ObjectGraph, content: Content, cache: Store, kept: Oid, discarded: Oid, c: Oid): Fate
    requires c in g.parents
  {
    if !IsMerge(g, c) && (c !in content.patch || content.patch[c] in PatchIds(g, content, kept, discarded).Values)
    then Matched
    else if c in BranchReach(g, cache) then Elsewhere
    else Gone
  }

  datatype UnmatchedReport = UnmatchedReport(lost: seq<LostCommit>, total: nat, elsewhere: nat)

  // ---- the code ------------------------------------------------------------------------

  /** `git log --right-only`: each commit of the side once, in the order git prints them. */
  ghost predicate ListsSide(g: ObjectGraph, listing: seq<Oid>, kept: Oid, discarded: Oid) {
    Distinct(listing) && forall c :: c in listing <==> c in Side(g, discarded, kept)
  }

  function WithFate(g: ObjectGraph, content: Content, cache: Store, kept: Oid, discarded: Oid, listing: seq<Oid>,
                    fate: Fate): seq<Oid>
    requires forall c :: c in listing ==> c in g.parents
  {
    if listing == [] then []
    else
      var n := |listing| - 1;
      WithFate(g, content, cache, kept, discarded, listing[..n], fate) +
      (if FateOf(g, content, cache, kept, discarded, listing[n]) == fate then [listing[n]] else [])
  }

  lemma WithFateSnoc(g: ObjectGraph, content: Content, cache: Store, kept: Oid, discarded: Oid, listing: seq<Oid>,
                     i: nat, fate: Fate)
    requires i < |listing| && forall c :: c in listing ==> c in g.parents
    ensures var before := WithFate(g, content, cache, kept, discarded, listing[..i], fate);
      WithFate(g, content, cache, kept, discarded, listing[..i + 1], fate) ==
      if FateOf(g, content, cache, kept, discarded, listing[i]) == fate then before + [listing[i]] else before
  {
    assert listing[..i + 1][..i] == listing[..i];
    hide FateOf;
  }

  function Described(content: Content, s: seq<Oid>): (r: seq<LostCommit>)
    ensures |r| == |s|
  {
    seq(|s|, i requires 0 <= i < |s| => content.describe(s[i]))
  }

  function Capped(s: seq<LostCommit>): seq<LostCommit> {
    if |s| <= MAX_LOST_COMMITS then s else s[..MAX_LOST_COMMITS]
  }

  /** What the loop over a listing adds up. */
  function Tally(g: ObjectGraph, content: Content, cache: Store, kept: Oid, discarded: Oid,
                 listing: seq<Oid>): UnmatchedReport
    requires forall c :: c in listing ==> c in g.parents
  {
    var gone := WithFate(g, content, cache, kept, discarded, listing, Gone);
    UnmatchedReport(Capped(Described(content, gone)), |gone|,
                    |WithFate(g, content, cache, kept, discarded, listing, Elsewhere)|)
  }

  /** The report, or None when nothing was judged: git failed (`runs` is false), a tip is
      missing from the cache, or the divergence is too long to compare. */
  function Report(g: ObjectGraph, content: Content, cache: Store, kept: Oid, discarded: Oid,
                  listing: seq<Oid>, runs: bool): Option<UnmatchedReport>
    requires forall c :: c in listing ==> c in g.parents
  {
    if !runs || kept !in cache.objs || discarded !in cache.objs
       || |Side(g, kept, discarded)| + |Side(g, discarded, kept)| > MAX_CLASSIFY_COMMITS then None
    else Some(Tally(g, content, cache, kept, discarded, listing))
  }

  method UnmatchedCommits(g: ObjectGraph, content: Content, cache: Store, kept: Oid, discarded: Oid,
                          listing: seq<Oid>, runs: bool) returns (rep: Option<UnmatchedReport>)
    requires ListsSide(g, listing, kept, discarded)
    ensures rep == Report(g, content, cache, kept, discarded, listing, runs)
  {
    if !runs || kept !in cache.objs || discarded !in cache.objs { return None; }
    if |Side(g, kept, discarded)| + |Side(g, discarded, kept)| > MAX_CLASSIFY_COMMITS { return None; }
    var keptIDs := PatchIds(g, content, kept, discarded);
    var discardedIDs := PatchIds(g, content, discarded, kept);
    var onNoBranch := Ancestors(g, Peel(g, discarded)) - BranchReach(g, cache);
    var present := keptIDs.Values;
    var lost: seq<LostCommit>, total: nat, elsewhere: nat := [], 0, 0;
    hide PatchIds, BranchReach, Distinct, FateOf, Side, IsMerge, Tally, Ancestors, Peel;
    NothingTallied(g, content, cache, kept, discarded, listing);
    for i := 0 to |listing|
      invariant UnmatchedReport(lost, total, elsewhere) == Tally(g, content, cache, kept, discarded, listing[..i])
    {
      var c := listing[i];
      TallySnoc(g, content, cache, kept, discarded, listing, i);
      assert c in listing && c in Side(g, discarded, kept);
      FateFromMaps(g, content, cache, kept, discarded, c);
      if !IsMerge(g, c) {
        if c !in discardedIDs || discardedIDs[c] in present { continue; }
      }
      if c !in onNoBranch {
        elsewhere := elsewhere + 1;
        continue;
      }
      total := total + 1;
      if |lost| < MAX_LOST_COMMITS { lost := lost + [content.describe(c)]; }
    }
    assert listing[..|listing|] == listing;
    rep := Some(UnmatchedReport(lost, total, elsewhere));
  }

  lemma NothingTallied(g: ObjectGraph, content: Content, cache: Store, kept: Oid, discarded: Oid, listing: seq<Oid>)
    ensures Tally(g, content, cache, kept, discarded, listing[..0]) == UnmatchedReport([], 0, 0)
  {
    NothingDescribed(content);
    hide FateOf;
  }

  lemma TallySnoc(g: ObjectGraph, content: Content, cache: Store, kept: Oid, discarded: Oid, listing: seq<Oid>, i: nat)
    requires i < |listing| && forall c :: c in listing ==> c in g.parents
    ensures var t := Tally(g, content, cache, kept, discarded, listing[..i]);
      Tally(g, content, cache, kept, discarded, listing[..i + 1]) ==
      match FateOf(g, content, cache, kept, discarded, listing[i])
      case Matched => t
      case Elsewhere => t.(elsewhere := t.elsewhere + 1)
      case Gone =>
        t.(total := t.total + 1,
           lost := if |t.lost| < MAX_LOST_COMMITS then t.lost + [content.describe(listing[i])] else t.lost)
  {
    WithFateSnoc(g, content, cache, kept, discarded, listing, i, Gone);
    WithFateSnoc(g, content, cache, kept, discarded, listing, i, Elsewhere);
    DescribedSnoc(content, WithFate(g, content, cache, kept, discarded, listing[..i], Gone), listing[i]);
    hide WithFate, FateOf, Capped, Described;
  }

  lemma NothingDescribed(content: Content)
    ensures Capped(Described(content, [])) == []
  {
  }

  lemma DescribedSnoc(content: Content, s: seq<Oid>, c: Oid)
    ensures var before := Capped(Described(content, s));
      Capped(Described(content, s + [c])) ==
      if |before| < MAX_LOST_COMMITS then before + [content.describe(c)] else before
  {
    assert Described(content, s + [c]) == Described(content, s) + [content.describe(c)];
  }

  /** The fate of a listed commit, read off the collections git's output was put into. */
  lemma FateFromMaps(g: ObjectGraph, content: Content, cache: Store, kept: Oid, discarded: Oid, c: Oid)
    requires c in Side(g, discarded, kept)
    ensures var keptIDs, discardedIDs := PatchIds(g, content, kept, discarded), PatchIds(g, content, discarded, kept);
      FateOf(g, content, cache, kept, discarded, c) ==
      if !IsMerge(g, c) && (c !in discardedIDs || discardedIDs[c] in keptIDs.Values) then Matched
      else if c in Ancestors(g, Peel(g, discarded)) - BranchReach(g, cache) then Gone
      else Elsewhere
  {
    SidePatch(g, content, discarded, kept, c);
    assert c in Ancestors(g, Peel(g, discarded));
    hide PatchIds, BranchReach, Side;
  }

  lemma SidePatch(g: ObjectGraph, content: Content, a: Oid, b: Oid, c: Oid)
    requires c in Side(g, a, b)
    ensures c in PatchIds(g, content, a, b) <==> HasPatch(g, content, c)
    ensures c in PatchIds(g, content, a, b) ==> PatchIds(g, content, a, b)[c] == content.patch[c]
  {
  }

  // ---- the report is an exact partition ---------------------------------------------------

  lemma {:induction false} WithFateMeaning(g: ObjectGraph, content: Content, cache: Store, kept: Oid, discarded: Oid,
                                           listing: seq<Oid>, fate: Fate)
    requires Distinct(listing) && forall c :: c in listing ==> c in g.parents
    ensures var r := WithFate(g, content, cache, kept, discarded, listing, fate);
      && Distinct(r)
      && forall c :: c in r <==> c in listing && FateOf(g, content, cache, kept, discarded, c) == fate
  {
    if listing != [] {
      var n := |listing| - 1;
      assert listing == listing[..n] + [listing[n]];
      DistinctSnoc(listing[..n], listing[n]);
      WithFateMeaning(g, content, cache, kept, discarded, listing[..n], fate);
      DistinctSnoc(WithFate(g, content, cache, kept, discarded, listing[..n], fate), listing[n]);
      hide Distinct, FateOf;
    }
  }

  lemma {:induction false} FatesAddUp(g: ObjectGraph, content: Content, cache: Store, kept: Oid, discarded: Oid,
                                      listing: seq<Oid>)
    requires forall c :: c in listing ==> c in g.parents
    ensures |listing| == |WithFate(g, content, cache, kept, discarded, listing, Matched)|
                         + |WithFate(g, content, cache, kept, discarded, listing, Elsewhere)|
                         + |WithFate(g, content, cache, kept, discarded, listing, Gone)|
  {
    hide FateOf;
    if listing != [] { FatesAddUp(g, content, cache, kept, discarded, listing[..|listing| - 1]); }
  }

  lemma {:induction false} DistinctCardinality<T>(s: seq<T>)
    requires Distinct(s)
    ensures |set x | x in s| == |s|
  {
    if s != [] {
      var n := |s| - 1;
      DistinctSnoc(s[..n], s[n]);
      assert s == s[..n] + [s[n]];
      DistinctCardinality(s[..n]);
      assert (set x | x in s) == (set x | x in s[..n]) + {s[n]};
    }
  }

  ghost function WhoseFate(g: ObjectGraph, content: Content, cache: Store, kept: Oid, discarded: Oid,
                           fate: Fate): set<Oid> {
    set c | c in Side(g, discarded, kept) && FateOf(g, content, cache, kept, discarded, c) == fate
  }

  lemma FateCount(g: ObjectGraph, content: Content, cache: Store, kept: Oid, discarded: Oid, listing: seq<Oid>,
                  fate: Fate)
    requires ListsSide(g, listing, kept, discarded)
    ensures |WithFate(g, content, cache, kept, discarded, listing, fate)| ==
      |WhoseFate(g, content, cache, kept, discarded, fate)|
  {
    var r := WithFate(g, content, cache, kept, discarded, listing, fate);
    WithFateMeaning(g, content, cache, kept, discarded, listing, fate);
    DistinctCardinality(r);
    hide FateOf, WithFate, Distinct, Side;
    assert (set x | x in r) == WhoseFate(g, content, cache, kept, discarded, fate);
  }

  /** The commits that left split into the matched, those another branch still holds and
      those gone; the counters are the sizes of the last two, nothing is counted twice or
      missed, and the list is the newest of the gone ones, at most ten. */
  lemma ReportIsPartition(g: ObjectGraph, content: Content, cache: Store, kept: Oid, discarded: Oid, listing: seq<Oid>)
    requires ListsSide(g, listing, kept, discarded)
    requires Report(g, content, cache, kept, discarded, listing, true).Some?
    ensures var rep := Report(g, content, cache, kept, discarded, listing, true).value;
      && rep.total == |WhoseFate(g, content, cache, kept, discarded, Gone)|
      && rep.elsewhere == |WhoseFate(g, content, cache, kept, discarded, Elsewhere)|
      && |WhoseFate(g, content, cache, kept, discarded, Matched)| + rep.elsewhere + rep.total ==
        |Side(g, discarded, kept)|
      && |rep.lost| == (if rep.total <= MAX_LOST_COMMITS then rep.total else MAX_LOST_COMMITS)
      && rep.lost <= Described(content, WithFate(g, content, cache, kept, discarded, listing, Gone))
  {
    hide FateOf, WithFate, Distinct, Side, WhoseFate, Described, Capped;
    FateCount(g, content, cache, kept, discarded, listing, Gone);
    FateCount(g, content, cache, kept, discarded, listing, Elsewhere);
    FateCount(g, content, cache, kept, discarded, listing, Matched);
    FatesAddUp(g, content, cache, kept, discarded, listing);
    DistinctCardinality(listing);
    CappedIsPrefix(Described(content, WithFate(g, content, cache, kept, discarded, listing, Gone)));
    assert (set c | c in listing) == Side(g, discarded, kept);
  }

  /** There is a report exactly when git ran, both tips are in the cache and the two sides together
      hold at most 2000 commits. */
  lemma JudgedExactly(g: ObjectGraph, content: Content, cache: Store, kept: Oid, discarded: Oid, listing: seq<Oid>,
                      runs: bool)
    requires ListsSide(g, listing, kept, discarded)
    ensures Report(g, content, cache, kept, discarded, listing, runs).Some? <==>
      && runs && kept in cache.objs && discarded in cache.objs
      && |(Ancestors(g, Peel(g, kept)) - Ancestors(g, Peel(g, discarded)))
          + (Ancestors(g, Peel(g, discarded)) - Ancestors(g, Peel(g, kept)))| <= 2000
  {
    assert Side(g, kept, discarded) !! Side(g, discarded, kept);
    hide Tally;
  }

  lemma CappedIsPrefix(s: seq<LostCommit>)
    ensures Capped(s) <= s && |Capped(s)| == if |s| <= MAX_LOST_COMMITS then |s| else MAX_LOST_COMMITS
  {
  }

  // ---- classification and the alert -----------------------------------------------------------

  /** The git runner's answer for a (kept, discarded) pair. */
  type Check = (Oid, Oid) -> Option<UnmatchedReport>

  /** A branch the check judged carries its verdict; a tag, or a failed check, nothing. */
  function ClassifyOne(f: ForcedRef, check: Check): ForcedRef {
    if !f.ref.Branch? || check(f.newTip, f.oldTip).None? then f
    else
      var rep := check(f.newTip, f.oldTip).value;
      f.(preserved := rep.total == 0 && rep.elsewhere == 0, lost := rep.lost,
         lostTotal := rep.total, elsewhere := rep.elsewhere)
  }

  function ClassifyAll(forced: seq<ForcedRef>, check: Check): (r: seq<ForcedRef>)
    ensures |r| == |forced|
  {
    seq(|forced|, i requires 0 <= i < |forced| => ClassifyOne(forced[i], check))
  }

  /** Which change an entry names stays; a branch the check answered for carries the whole
      answer, and one is preserved when none of its commits is gone or only elsewhere. */
  lemma ClassifiedTells(forced: seq<ForcedRef>, check: Check, i: nat)
    requires i < |forced|
    ensures var f, was := ClassifyAll(forced, check)[i], forced[i];
      && f.ref == was.ref && f.oldTip == was.oldTip && f.newTip == was.newTip
      && (was.ref.Branch? && check(was.newTip, was.oldTip).Some? ==>
            && UnmatchedReport(f.lost, f.lostTotal, f.elsewhere) == check(was.newTip, was.oldTip).value
            && (f.preserved <==> f.lostTotal == 0 && f.elsewhere == 0))
      && (!was.ref.Branch? || check(was.newTip, was.oldTip).None? ==> f == was)
  {
  }

  method ClassifyForced(forced: array<ForcedRef>, check: Check)
    modifies forced
    ensures forced[..] == ClassifyAll(old(forced[..]), check)
  {
    hide ClassifyOne;
    for i := 0 to forced.Length
      invariant forall k :: 0 <= k < i ==> forced[k] == ClassifyOne(old(forced[k]), check)
      invariant forall k :: i <= k < forced.Length ==> forced[k] == old(forced[k])
    {
      ClassifyInPlace(forced, i, check);
    }
  }

  /** One entry, written through as the loop's pointer does. */
  method ClassifyInPlace(forced: array<ForcedRef>, i: nat, check: Check)
    requires i < forced.Length
    modifies forced
    ensures forced[i] == ClassifyOne(old(forced[i]), check)
    ensures forall k :: 0 <= k < forced.Length && k != i ==> forced[k] == old(forced[k])
  {
    if !forced[i].ref.Branch? { return; }
    var rep := check(forced[i].newTip, forced[i].oldTip);
    if rep.None? { return; }
    forced[i] := forced[i].(preserved := rep.value.total == 0 && rep.value.elsewhere == 0);
    forced[i] := forced[i].(lost := rep.value.lost);
    forced[i] := forced[i].(lostTotal := rep.value.total);
    forced[i] := forced[i].(elsewhere := rep.value.elsewhere);
  }

  /** Whether an overwrite interrupts someone: a branch not shown to have lost nothing. */
  predicate Interrupts(f: ForcedRef) {
    f.ref.Branch? && !f.NothingLost()
  }

  method ReportForced(forced: seq<ForcedRef>) returns (alerted: bool)
    ensures alerted <==>
      exists f :: f in forced && f.ref.Branch? && !f.preserved && (f.lostTotal > 0 || f.elsewhere == 0)
  {
    var lossy: seq<ForcedRef>, preserved: seq<ForcedRef> := [], [];
    for i := 0 to |forced|
      invariant lossy == [] <==> forall k :: 0 <= k < i ==> !Interrupts(forced[k])
    {
      var f := forced[i];
      if !f.ref.Branch? { continue; }
      if f.NothingLost() {
        preserved := preserved + [f];
      } else {
        lossy := lossy + [f];
      }
    }
    if lossy == [] { return false; }
    return true;
  }

  // ---- silence --------------------------------------------------------------------------------

  /** The commit carried no content, or the same patch is among the commits only the new
      tip reaches, or a branch of the cache still reaches it. */
  ghost predicate Survives(g: ObjectGraph, content: Content, cache: Store, kept: Oid, discarded: Oid, c: Oid)
    requires c in g.parents
  {
    || (!IsMerge(g, c) && c !in content.patch)
    || (HasPatch(g, content, c) &&
        exists k :: k in Side(g, kept, discarded) && HasPatch(g, content, k) && content.patch[k] == content.patch[c])
    || (exists b :: b in cache.refs && b.Branch? && c in Ancestors(g, Peel(g, cache.refs[b])))
  }

  lemma GoneExactly(g: ObjectGraph, content: Content, cache: Store, kept: Oid, discarded: Oid, c: Oid)
    requires c in g.parents
    ensures FateOf(g, content, cache, kept, discarded, c) != Gone <==> Survives(g, content, cache, kept, discarded, c)
  {
    BranchReachMeaning(g, cache, c);
    PatchIdsMeaning(g, content, kept, discarded, if c in content.patch then content.patch[c] else "");
    hide PatchIds, BranchReach, Side, IsMerge;
  }

  lemma BranchReachMeaning(g: ObjectGraph, cache: Store, c: Oid)
    ensures c in BranchReach(g, cache) <==>
      exists b :: b in cache.refs && b.Branch? && c in Ancestors(g, Peel(g, cache.refs[b]))
  {
  }

  lemma PatchIdsMeaning(g: ObjectGraph, content: Content, a: Oid, b: Oid, id: string)
    ensures id in PatchIds(g, content, a, b).Values <==>
      exists k :: k in Side(g, a, b) && HasPatch(g, content, k) && content.patch[k] == id
  {
    var ids := PatchIds(g, content, a, b);
    if k :| k in Side(g, a, b) && HasPatch(g, content, k) && content.patch[k] == id { assert ids[k] in ids.Values; }
  }

  /** A check that answers for this cache: each answer is the report for some listing. */
  ghost predicate AnswersFor(g: ObjectGraph, content: Content, cache: Store, check: Check) {
    forall kept, discarded :: check(kept, discarded).Some? ==>
      exists listing :: ListsSide(g, listing, kept, discarded) &&
        check(kept, discarded) == Report(g, content, cache, kept, discarded, listing, true)
  }

  /** An overwritten branch is passed over in silence exactly when the check ran and every
      commit that left the branch survives. */
  lemma SilentExactly(g: ObjectGraph, content: Content, cache: Store, check: Check, ref: Ref, oldTip: Oid, newTip: Oid)
    requires AnswersFor(g, content, cache, check) && ref.Branch?
    ensures !Interrupts(ClassifyOne(Unclassified(ref, oldTip, newTip), check)) <==>
      check(newTip, oldTip).Some? &&
      forall c :: c in Side(g, oldTip, newTip) ==> Survives(g, content, cache, newTip, oldTip, c)
  {
    if check(newTip, oldTip).Some? {
      var listing :| ListsSide(g, listing, newTip, oldTip) &&
        check(newTip, oldTip) == Report(g, content, cache, newTip, oldTip, listing, true);
      WithFateMeaning(g, content, cache, newTip, oldTip, listing, Gone);
      forall c | c in Side(g, oldTip, newTip)
        ensures FateOf(g, content, cache, newTip, oldTip, c) != Gone <==> Survives(g, content, cache, newTip, oldTip, c)
      {
        GoneExactly(g, content, cache, newTip, oldTip, c);
      }
      hide FateOf, Survives, Side, Distinct, Described, Capped;
      var gone := WithFate(g, content, cache, newTip, oldTip, listing, Gone);
      assert gone != [] ==> gone[0] in gone;
      hide WithFate;
      assert check(newTip, oldTip).value.total == |gone|;
    }
  }

  /** If a push sends no data-loss alert, nothing that left any branch it overwrote is lost. */
  lemma SilenceIsSound(g: ObjectGraph, content: Content, cache: Store, check: Check, forced: seq<ForcedRef>,
                       f: ForcedRef)
    requires AnswersFor(g, content, cache, check)
    requires forall c :: c in ClassifyAll(forced, check) ==> !Interrupts(c)
    requires f in forced && f.ref.Branch? && f == Unclassified(f.ref, f.oldTip, f.newTip)
    ensures forall c :: c in Side(g, f.oldTip, f.newTip) ==> Survives(g, content, cache, f.newTip, f.oldTip, c)
  {
    var i :| 0 <= i < |forced| && forced[i] == f;
    assert ClassifyAll(forced, check)[i] == ClassifyOne(f, check);
    SilentExactly(g, content, cache, check, f.ref, f.oldTip, f.newTip);
    hide Survives, Side, Interrupts, ClassifyOne, AnswersFor;
  }
}
