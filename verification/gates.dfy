/** The checks a console click or a retry call passes before anything runs. */
module Gates {
  import Config
  import opened Events
  import opened Graph
  import opened History
  import opened Porcelain
  import opened Refs
  import opened Routing
  import opened Text

  const MAX_HISTORY_LIMIT := 500

  /** The window the restore and force gates check a request against. */
  function GateQuery(repo: string): Query {
    Query(MAX_HISTORY_LIMIT, false, repo, Some(SourceCron), false, None)
  }

  // ---- what the gates look for --------------------------------------------------

  predicate IsDeleteOf(ev: Event, to: string, ref: Ref, sha: Oid) {
    ev.action == ActionDelete && ev.result == ResultOK && ev.to == to && ev.ref == Some(ref) && ev.deletedTip == sha
  }

  predicate IsHoldOf(ev: Event, to: string, ref: Ref, dest: Oid) {
    ev.to == to && exists h :: h in ev.held && h.ref == ref && h.dest == dest
  }

  predicate MatchingDeleteExists(ring: seq<Event>, repo: string, to: string, ref: Ref, sha: Oid) {
    exists ev :: ev in Recent(ring, GateQuery(repo)) && IsDeleteOf(ev, to, ref, sha)
  }

  predicate MatchingHoldExists(ring: seq<Event>, repo: string, to: string, ref: Ref, dest: Oid) {
    exists ev :: ev in Recent(ring, GateQuery(repo)) && IsHoldOf(ev, to, ref, dest)
  }

  // ---- Recent only ever answers from the ring -------------------------------------

  lemma {:induction false} FilteredMembers(s: seq<Event>, q: Query)
    ensures forall ev :: ev in Filtered(s, q) <==> ev in s && Keeps(q, ev)
  {
    if s != [] { FilteredMembers(s[1..], q); }
  }

  lemma RecentMembers(ring: seq<Event>, q: Query)
    ensures forall ev :: ev in Recent(ring, q) ==> ev in ring && Keeps(q, ev)
  {
    FilteredMembers(Reversed(ring), q);
    forall ev | ev in Recent(ring, q) ensures ev in ring && Keeps(q, ev) {
      assert ev in Filtered(Reversed(ring), q);
    }
  }

  // ---- exactly what a window holds ---------------------------------------------------

  /** How many newer events than the one at `i` the query keeps. */
  function NewerKept(ring: seq<Event>, q: Query, i: nat): nat { |NewerKeptAt(ring, q, i)| }

  function NewerKeptAt(ring: seq<Event>, q: Query, i: nat): set<nat> {
    set j: nat | i < j < |ring| && Keeps(q, ring[j])
  }

  lemma {:induction false} NewerAreCounted(ring: seq<Event>, q: Query, i: nat)
    requires i < |ring|
    decreases |ring| - i
    ensures |Filtered(Reversed(ring[i + 1..]), q)| == NewerKept(ring, q, i)
  {
    hide Keeps;
    if i == |ring| - 1 {
      assert NewerKeptAt(ring, q, i) == {};
      assert Reversed(ring[i + 1..]) == [];
    } else {
      NewerAreCounted(ring, q, i + 1);
      RecentStep(ring, i + 1, q);
      assert NewerKeptAt(ring, q, i) == NewerKeptAt(ring, q, i + 1) + (if Keeps(q, ring[i + 1]) then {i + 1} else {});
    }
  }

  /** Where the k-th newest kept event stands in the ring. */
  lemma {:induction false} Located(ring: seq<Event>, q: Query, k: nat) returns (i: nat)
    requires k < |Filtered(Reversed(ring), q)|
    ensures i < |ring| && ring[i] == Filtered(Reversed(ring), q)[k] && Keeps(q, ring[i])
    ensures |Filtered(Reversed(ring[i + 1..]), q)| == k
  {
    hide Keeps;
    assert ring != [];
    assert ring[0..] == ring;
    RecentStep(ring, 0, q);
    if k < |Filtered(Reversed(ring[1..]), q)| {
      i := Located(ring[1..], q, k);
      assert ring[1..][i + 1..] == ring[i + 2..];
      i := i + 1;
    } else {
      i := 0;
    }
  }

  lemma KeptAt(ring: seq<Event>, q: Query, i: nat)
    requires i < |ring| && Keeps(q, ring[i])
    ensures var k := |Filtered(Reversed(ring[i + 1..]), q)|;
      k < |Filtered(Reversed(ring), q)| && Filtered(Reversed(ring), q)[k] == ring[i]
  {
    hide Keeps, Filtered;
    RecentStep(ring, i, q);
    assert Reversed(ring) == Reversed(ring[i..]) + Reversed(ring[..i]);
    FilteredConcat(Reversed(ring[i..]), Reversed(ring[..i]), q);
  }

  /** The answer to a query holds exactly the kept events with fewer kept newer ones than the
      limit. */
  lemma RecentExactly(ring: seq<Event>, q: Query, ev: Event)
    ensures ev in Recent(ring, q) <==>
      exists i: nat :: i < |ring| && ring[i] == ev && Keeps(q, ring[i]) && NewerKept(ring, q, i) < q.limit
  {
    hide Keeps, NewerKept, Filtered;
    if ev in Recent(ring, q) {
      var k: nat :| k < |Recent(ring, q)| && Recent(ring, q)[k] == ev;
      var i := Located(ring, q, k);
      NewerAreCounted(ring, q, i);
    }
    if i: nat :| i < |ring| && ring[i] == ev && Keeps(q, ring[i]) && NewerKept(ring, q, i) < q.limit {
      NewerAreCounted(ring, q, i);
      KeptAt(ring, q, i);
    }
  }

  // ---- exactly when the gates answer yes ----------------------------------------------

  /** The event at `i` is one of its repo, not an idle reconcile, with fewer than 500 such
      events after it. */
  predicate InWindow(ring: seq<Event>, repo: string, i: nat) {
    i < |ring| && Keeps(GateQuery(repo), ring[i]) && NewerKept(ring, GateQuery(repo), i) < MAX_HISTORY_LIMIT
  }

  lemma GatesExactly(ring: seq<Event>, repo: string, to: string, ref: Ref, tip: Oid)
    ensures MatchingDeleteExists(ring, repo, to, ref, tip) <==>
      exists i: nat :: InWindow(ring, repo, i) && IsDeleteOf(ring[i], to, ref, tip)
    ensures MatchingHoldExists(ring, repo, to, ref, tip) <==>
      exists i: nat :: InWindow(ring, repo, i) && IsHoldOf(ring[i], to, ref, tip)
  {
    hide Keeps, NewerKept, Recent, IsDeleteOf, IsHoldOf;
    forall ev
      ensures ev in Recent(ring, GateQuery(repo)) <==> exists i: nat :: InWindow(ring, repo, i) && ring[i] == ev
    {
      RecentExactly(ring, GateQuery(repo), ev);
      var q := GateQuery(repo);
      if i: nat :| i < |ring| && ring[i] == ev && Keeps(q, ring[i]) && NewerKept(ring, q, i) < MAX_HISTORY_LIMIT {
        assert InWindow(ring, repo, i);
      }
    }
    if i: nat :| InWindow(ring, repo, i) && IsDeleteOf(ring[i], to, ref, tip) {
      assert ring[i] in Recent(ring, GateQuery(repo));
    }
    if i: nat :| InWindow(ring, repo, i) && IsHoldOf(ring[i], to, ref, tip) {
      assert ring[i] in Recent(ring, GateQuery(repo));
    }
  }

  // ---- in the terms of the console ------------------------------------------------------

  /** What a page asks for: failures only, overwrites only, one repo, one trigger, and no
      reconcile of the routine source that found nothing to do. */
  predicate Asks(q: Query, ev: Event) {
    && (q.failuresOnly ==> ev.result == ResultFail)
    && (q.forcedOnly ==> |ev.forced| > 0)
    && q.repo in ["", ev.repo]
    && q.source in [None, Some(ev.source)]
    && (q.routineSource == Some(ev.source) && ev.result == ResultSkip ==> ev.reason != ReasonAlreadyUpToDate)
  }

  lemma KeepsExactly(q: Query, ev: Event)
    ensures Keeps(q, ev) <==> Asks(q, ev)
  {
  }

  /** The places of the kept events, newest first. */
  function Places(ring: seq<Event>, q: Query): seq<nat> {
    if ring == [] then []
    else
      var n := |ring| - 1;
      (if Keeps(q, ring[n]) then [n] else []) + Places(ring[..n], q)
  }

  lemma {:induction false} PlacesMeaning(ring: seq<Event>, q: Query)
    ensures forall i: nat :: i in Places(ring, q) <==> i < |ring| && Keeps(q, ring[i])
    ensures forall a, b :: 0 <= a < b < |Places(ring, q)| ==> Places(ring, q)[a] > Places(ring, q)[b]
  {
    hide Keeps;
    if ring != [] {
      var n := |ring| - 1;
      PlacesMeaning(ring[..n], q);
      var older := Places(ring[..n], q);
      assert forall b :: 0 <= b < |older| ==> older[b] in older;
    }
  }

  lemma {:induction false} PlacesAreFiltered(ring: seq<Event>, q: Query)
    ensures |Places(ring, q)| == |Filtered(Reversed(ring), q)|
    ensures forall k: nat :: k < |Places(ring, q)| ==>
      Places(ring, q)[k] < |ring| && Filtered(Reversed(ring), q)[k] == ring[Places(ring, q)[k]]
  {
    hide Keeps;
    if ring != [] {
      var n := |ring| - 1;
      PlacesAreFiltered(ring[..n], q);
      assert Reversed(ring)[1..] == Reversed(ring[..n]);
    }
  }

  function Elements(s: seq<nat>): set<nat> { set i | i in s }

  lemma {:induction false} DecreasingCount(s: seq<nat>)
    requires forall a, b :: 0 <= a < b < |s| ==> s[a] > s[b]
    ensures |Elements(s)| == |s|
  {
    if s == [] {
      assert Elements(s) == {};
    } else {
      var n := |s| - 1;
      DecreasingCount(s[..n]);
      assert s[n] !in s[..n];
      ElementsSnoc(s[..n], s[n]);
      assert s == s[..n] + [s[n]];
    }
  }

  lemma ElementsSnoc(s: seq<nat>, x: nat)
    ensures Elements(s + [x]) == Elements(s) + {x}
  {
  }

  /** The k-th newest kept event has k kept events after it. */
  lemma PlaceCount(ring: seq<Event>, q: Query, k: nat)
    requires k < |Places(ring, q)|
    ensures NewerKept(ring, q, Places(ring, q)[k]) == k
  {
    hide Keeps, Places;
    PlacesMeaning(ring, q);
    var s := Places(ring, q);
    DecreasingCount(s[..k]);
    forall j: nat ensures j in NewerKeptAt(ring, q, s[k]) <==> j in s[..k] {
      if j in s {
        var m :| 0 <= m < |s| && s[m] == j;
        assert m < k ==> s[..k][m] == j;
      }
    }
    assert NewerKeptAt(ring, q, s[k]) == Elements(s[..k]);
  }

  /** The newer events a page asks for too. */
  function NewerAsked(ring: seq<Event>, q: Query, i: nat): set<nat> {
    set j: nat | i < j < |ring| && Asks(q, ring[j])
  }

  lemma NewerAskedExactly(ring: seq<Event>, q: Query, i: nat)
    ensures NewerKeptAt(ring, q, i) == NewerAsked(ring, q, i)
  {
    forall ev { KeepsExactly(q, ev); }
    hide Keeps, Asks;
  }

  /** A page is the events it asks for, newest first, each as often as it was recorded, down to the
      limit: those with fewer newer ones than that. */
  lemma PageExactly(ring: seq<Event>, q: Query) returns (places: seq<nat>)
    ensures |places| == |Recent(ring, q)|
    ensures forall k: nat :: k < |places| ==> places[k] < |ring| && Recent(ring, q)[k] == ring[places[k]]
    ensures forall a, b :: 0 <= a < b < |places| ==> places[a] > places[b]
    ensures forall i: nat ::
      i in places <==> i < |ring| && Asks(q, ring[i]) && |NewerAsked(ring, q, i)| < q.limit
  {
    var all := Places(ring, q);
    PlacesMeaning(ring, q);
    PlacesAreFiltered(ring, q);
    places := Take(all, q.limit);
    forall ev { KeepsExactly(q, ev); }
    hide Keeps, Asks, Places, Filtered;
    forall k: nat | k < |all| ensures |NewerAsked(ring, q, all[k])| == k {
      PlaceCount(ring, q, k);
      NewerAskedExactly(ring, q, all[k]);
    }
    hide NewerAsked;
  }

  /** The newer events of the repo, but for reconciles that found nothing to do. */
  function NewerOf(ring: seq<Event>, repo: string, i: nat): set<nat> {
    set j: nat | i < j < |ring| && ring[j].repo == repo && !FoundNothing(ring[j])
  }

  predicate FoundNothing(ev: Event) {
    ev.source == SourceCron && ev.result == ResultSkip && ev.reason == ReasonAlreadyUpToDate
  }

  lemma WindowExactly(ring: seq<Event>, repo: string, i: nat)
    requires repo != ""
    ensures InWindow(ring, repo, i) <==>
      i < |ring| && ring[i].repo == repo && !FoundNothing(ring[i]) && |NewerOf(ring, repo, i)| < 500
  {
    forall ev ensures Keeps(GateQuery(repo), ev) <==> ev.repo == repo && !FoundNothing(ev) {}
    assert NewerKeptAt(ring, GateQuery(repo), i) == NewerOf(ring, repo, i) by { hide Keeps, FoundNothing; }
    hide Keeps, FoundNothing, NewerOf, NewerKeptAt;
  }

  /** The restore gate lets through exactly what some delete of the repo removed from that ref of
      that destination, and the force gate exactly what some event of the repo withheld there, as
      long as fewer than 500 events of the repo came after it, not counting idle reconciles. */
  lemma GatesTell(ring: seq<Event>, repo: string, to: string, ref: Ref, tip: Oid)
    requires repo != ""
    ensures MatchingDeleteExists(ring, repo, to, ref, tip) <==>
      exists i: nat :: i < |ring| && |NewerOf(ring, repo, i)| < 500
        && ring[i].repo == repo && ring[i].to == to && ring[i].action == ActionDelete && ring[i].result == ResultOK
        && ring[i].ref == Some(ref) && ring[i].deletedTip == tip
    ensures MatchingHoldExists(ring, repo, to, ref, tip) <==>
      exists i: nat, h :: i < |ring| && |NewerOf(ring, repo, i)| < 500
        && ring[i].repo == repo && ring[i].to == to && !FoundNothing(ring[i])
        && h in ring[i].held && h.ref == ref && h.dest == tip
  {
    GatesExactly(ring, repo, to, ref, tip);
    forall i: nat { WindowExactly(ring, repo, i); }
    hide InWindow, NewerOf, MatchingDeleteExists, MatchingHoldExists;
  }

  // ---- the gate's window against the page's ---------------------------------------------

  /** What the page can ask for: at most 500 rows, idle reconciles hidden or not, and any
      other filters. */
  predicate ConsolePage(page: Query) {
    1 <= page.limit <= MAX_HISTORY_LIMIT && (page.routineSource.None? || page.routineSource == Some(SourceCron))
  }

  /** A page drawn without a trigger, failure or overwrite filter, which shows this repo. */
  predicate PlainPage(page: Query, repo: string) {
    && ConsolePage(page) && !page.failuresOnly && !page.forcedOnly && page.source.None?
    && (page.repo == "" || page.repo == repo)
  }

  predicate Idle(ev: Event) { ev.source == SourceCron && IsRoutineNoop(ev) }

  /** Of what the gate keeps, a plain page hides nothing. */
  lemma PlainPageKeeps(page: Query, repo: string, ev: Event)
    requires PlainPage(page, repo) && repo != "" && Keeps(GateQuery(repo), ev)
    ensures Keeps(page, ev)
  {
  }

  /** Keeping less, a query has no more kept events in front of one. */
  lemma NewerMonotone(ring: seq<Event>, shown: Query, gate: Query, i: nat)
    requires forall e :: Keeps(gate, e) ==> Keeps(shown, e)
    ensures NewerKept(ring, gate, i) <= NewerKept(ring, shown, i)
  {
    hide Keeps;
    assert NewerKeptAt(ring, gate, i) <= NewerKeptAt(ring, shown, i);
    SubsetIsSmaller(NewerKeptAt(ring, gate, i), NewerKeptAt(ring, shown, i));
  }

  lemma SubsetIsSmaller<T>(a: set<T>, b: set<T>)
    requires a <= b
    ensures |a| <= |b|
  {
    assert b == a + (b - a);
  }

  /** Whatever the ring holds, every row of a repo a plain page shows, other than an idle
      reconcile, is inside the window the gates check. */
  lemma GateCoversPage(ring: seq<Event>, page: Query, repo: string, ev: Event)
    requires PlainPage(page, repo) && repo != ""
    requires ev in Recent(ring, page) && ev.repo == repo && !Idle(ev)
    ensures exists i: nat :: InWindow(ring, repo, i) && ring[i] == ev
  {
    RecentExactly(ring, page, ev);
    var i: nat :| i < |ring| && ring[i] == ev && Keeps(page, ring[i]) && NewerKept(ring, page, i) < page.limit;
    forall e | Keeps(GateQuery(repo), e) ensures Keeps(page, e) { PlainPageKeeps(page, repo, e); }
    assert Keeps(GateQuery(repo), ev);
    hide Keeps, NewerKept, Recent;
    NewerMonotone(ring, page, GateQuery(repo), i);
    assert InWindow(ring, repo, i);
  }

  /** A row the page shows, followed by 500 the gate counts and the page hides, is outside the
      window. */
  lemma HiddenRowsFillTheGate(first: Event, row: Event, page: Query, repo: string)
    requires page.limit >= 1 && Keeps(page, first) && !Keeps(page, row) && Keeps(GateQuery(repo), row)
    ensures var ring := [first] + seq(MAX_HISTORY_LIMIT, _ => row);
      first in Recent(ring, page) && forall i: nat :: InWindow(ring, repo, i) ==> ring[i] == row
  {
    var ring := [first] + seq(MAX_HISTORY_LIMIT, _ => row);
    hide Keeps, Recent;
    assert NewerKeptAt(ring, page, 0) == {};
    assert ring[0] == first && NewerKept(ring, page, 0) == 0;
    RecentExactly(ring, page, first);
    AllNewerKept(ring, GateQuery(repo), 0);
    hide NewerKept;
  }

  lemma {:induction false} AllNewerKept(ring: seq<Event>, q: Query, i: nat)
    requires i < |ring| && forall j :: i < j < |ring| ==> Keeps(q, ring[j])
    decreases |ring| - i
    ensures NewerKept(ring, q, i) == |ring| - 1 - i
  {
    hide Keeps;
    if i == |ring| - 1 {
      assert NewerKeptAt(ring, q, i) == {};
    } else {
      AllNewerKept(ring, q, i + 1);
      assert NewerKeptAt(ring, q, i) == NewerKeptAt(ring, q, i + 1) + {i + 1};
    }
  }

  // ---- exactly which pages draw only buttons that work --------------------------------------

  /** The triggers of a delete: nobody asks for one from the console, a retry or the cron. */
  predicate TriggersDelete(source: Source) { source == SourceWebhook || source == SourceSQS }

  /** What holds of every event the service records: only a mirror's success names overwrites,
      only a mirror holds refs back, only a delete names the tip it removed, and deletes come
      from events alone. */
  predicate Recordable(ev: Event) {
    && (if ev.result == ResultOK then ev.reason == ForcedReason(ev.forced) else ev.forced == [])
    && (ev.action != ActionMirror ==> ev.forced == [] && ev.held == [])
    && (if ev.action == ActionDelete then TriggersDelete(ev.source) else ev.deletedTip == NO_OBJECT)
  }

  predicate AllRecordable(evs: seq<Event>) { forall ev :: ev in evs ==> Recordable(ev) }

  /** The page shows this row of the repo, and its button asks to restore or to force this. */
  predicate DrawsRestore(ring: seq<Event>, page: Query, repo: string, ev: Event, ref: Ref, tip: Oid) {
    AllRecordable(ring) && ev in Recent(ring, page) && ev.repo == repo && IsDeleteOf(ev, ev.to, ref, tip)
  }

  predicate DrawsForce(ring: seq<Event>, page: Query, repo: string, ev: Event, ref: Ref, tip: Oid) {
    AllRecordable(ring) && ev in Recent(ring, page) && ev.repo == repo && IsHoldOf(ev, ev.to, ref, tip)
  }

  ghost predicate RestoresWork(page: Query, repo: string) {
    forall ring, ev, ref, tip :: DrawsRestore(ring, page, repo, ev, ref, tip) ==>
      MatchingDeleteExists(ring, repo, ev.to, ref, tip)
  }

  ghost predicate ForcesWork(page: Query, repo: string) {
    forall ring, ev, ref, tip :: DrawsForce(ring, page, repo, ev, ref, tip) ==>
      MatchingHoldExists(ring, repo, ev.to, ref, tip)
  }

  /** The page is one of another repo alone. */
  predicate Elsewhere(page: Query, repo: string) { page.repo != "" && page.repo != repo }

  lemma PageShows(ring: seq<Event>, page: Query, ev: Event)
    requires ev in Recent(ring, page)
    ensures Keeps(page, ev) && ev in ring
  {
    RecentExactly(ring, page, ev);
    hide Keeps, NewerKept, Recent;
  }

  /** No delete is ever on such a page. */
  predicate HidesDeletes(page: Query) {
    page.failuresOnly || page.forcedOnly || (page.source.Some? && !TriggersDelete(page.source.value))
  }

  lemma PlainRestoresWork(page: Query, repo: string, ring: seq<Event>, ev: Event, ref: Ref, tip: Oid)
    requires ConsolePage(page) && repo != "" && DrawsRestore(ring, page, repo, ev, ref, tip)
    requires Elsewhere(page, repo) || HidesDeletes(page) || page.source.None?
    ensures MatchingDeleteExists(ring, repo, ev.to, ref, tip)
  {
    PageShows(ring, page, ev);
    assert PlainPage(page, repo) && !Idle(ev);
    hide Keeps, Recent, MatchingDeleteExists;
    GateCoversPage(ring, page, repo, ev);
    GatesExactly(ring, repo, ev.to, ref, tip);
  }

  /** A page of the deletes of one trigger draws a button for one with 500 newer mirrors. */
  lemma FilteredRestoreFails(page: Query, repo: string) returns (ring: seq<Event>, ev: Event, ref: Ref, tip: Oid)
    requires ConsolePage(page) && repo != "" && !Elsewhere(page, repo) && !HidesDeletes(page) && page.source.Some?
    ensures DrawsRestore(ring, page, repo, ev, ref, tip) && !MatchingDeleteExists(ring, repo, ev.to, ref, tip)
  {
    ref, tip := Branch("main"), "1";
    ev := Event(repo, ActionDelete, page.source.value, "", "", Some(ref), ResultOK, ReasonNone,
                [], [], tip, NO_OBJECT, "");
    var row := ev.(action := ActionMirror, source := SourceCron, deletedTip := NO_OBJECT);
    ring := [ev] + seq(MAX_HISTORY_LIMIT, _ => row);
    HiddenRowsFillTheGate(ev, row, page, repo);
    GatesExactly(ring, repo, "", ref, tip);
    hide Recent, Keeps, NewerKept, InWindow, MatchingDeleteExists;
  }

  /** Every restore button of a page works, whatever the service recorded, exactly when the page
      is not narrowed to a trigger deletes come from, or hides every delete. */
  lemma RestoresWorkExactly(page: Query, repo: string)
    requires ConsolePage(page) && repo != ""
    ensures RestoresWork(page, repo) <==> Elsewhere(page, repo) || HidesDeletes(page) || page.source.None?
  {
    hide Recent, Keeps, DrawsRestore, MatchingDeleteExists;
    if Elsewhere(page, repo) || HidesDeletes(page) || page.source.None? {
      forall ring, ev, ref, tip | DrawsRestore(ring, page, repo, ev, ref, tip)
        ensures MatchingDeleteExists(ring, repo, ev.to, ref, tip)
      {
        PlainRestoresWork(page, repo, ring, ev, ref, tip);
      }
    } else {
      var ring, ev, ref, tip := FilteredRestoreFails(page, repo);
    }
  }

  lemma PlainForcesWork(page: Query, repo: string, ring: seq<Event>, ev: Event, ref: Ref, tip: Oid)
    requires ConsolePage(page) && repo != "" && DrawsForce(ring, page, repo, ev, ref, tip)
    requires Elsewhere(page, repo) || (page.failuresOnly && page.forcedOnly) ||
      (PlainPage(page, repo) && page.routineSource.Some?)
    ensures MatchingHoldExists(ring, repo, ev.to, ref, tip)
  {
    PageShows(ring, page, ev);
    assert PlainPage(page, repo) && !Idle(ev);
    hide Keeps, Recent, MatchingHoldExists, IsHoldOf;
    GateCoversPage(ring, page, repo, ev);
    GatesExactly(ring, repo, ev.to, ref, tip);
  }

  lemma FilteredForceFails(page: Query, repo: string) returns (ring: seq<Event>, ev: Event, ref: Ref, tip: Oid)
    requires ConsolePage(page) && repo != "" && !Elsewhere(page, repo)
    requires (page.failuresOnly || page.forcedOnly || page.source.Some?) && !(page.failuresOnly && page.forcedOnly)
    ensures DrawsForce(ring, page, repo, ev, ref, tip) && !MatchingHoldExists(ring, repo, ev.to, ref, tip)
  {
    ref, tip := Branch("main"), "1";
    var source := if page.source.Some? then page.source.value else SourceWebhook;
    var forced := if page.forcedOnly then [Unclassified(ref, "1", "2")] else [];
    var result := if page.failuresOnly then ResultFail else ResultOK;
    ev := Event(repo, ActionMirror, source, "", "", None, result, ForcedReason(forced),
                forced, [HeldRef(ref, HoldDestinationAhead, tip)], NO_OBJECT, NO_OBJECT, "");
    var other := if source == SourceCron then SourceSQS else SourceCron;
    var row := Event(repo, ActionMirror, other, "", "", None, ResultOK, ReasonNone,
                     [], [], NO_OBJECT, NO_OBJECT, "");
    ring := [ev] + seq(MAX_HISTORY_LIMIT, _ => row);
    HiddenRowsFillTheGate(ev, row, page, repo);
    GatesExactly(ring, repo, "", ref, tip);
    assert ev.held[0] in ev.held;
    hide Recent, Keeps, NewerKept, InWindow, MatchingHoldExists;
  }

  /** A page that shows idle reconciles draws a button for one that held a ref back. */
  lemma IdleForceFails(page: Query, repo: string) returns (ring: seq<Event>, ev: Event, ref: Ref, tip: Oid)
    requires PlainPage(page, repo) && repo != "" && page.routineSource.None?
    ensures DrawsForce(ring, page, repo, ev, ref, tip) && !MatchingHoldExists(ring, repo, ev.to, ref, tip)
  {
    ref, tip := Branch("main"), "1";
    ev := Event(repo, ActionMirror, SourceCron, "", "", None, ResultSkip, ReasonAlreadyUpToDate, [],
                [HeldRef(ref, HoldDestinationAhead, tip)], NO_OBJECT, NO_OBJECT, "");
    ring := [ev];
    assert Keeps(page, ring[0]) && NewerKeptAt(ring, page, 0) == {};
    RecentExactly(ring, page, ev);
    GatesExactly(ring, repo, "", ref, tip);
    assert ev.held[0] in ev.held;
    hide Recent, NewerKept, MatchingHoldExists;
  }

  /** Every force button of a page works, whatever the history holds, exactly when the page
      hides idle reconciles and nothing else, or can show no hold of the repo at all. */
  lemma ForcesWorkExactly(page: Query, repo: string)
    requires ConsolePage(page) && repo != ""
    ensures ForcesWork(page, repo) <==>
      || Elsewhere(page, repo) || (page.failuresOnly && page.forcedOnly)
      || (!page.failuresOnly && !page.forcedOnly && page.source.None? && page.routineSource.Some?)
  {
    hide Recent, Keeps, DrawsForce, MatchingHoldExists;
    if Elsewhere(page, repo) || (page.failuresOnly && page.forcedOnly) ||
      (PlainPage(page, repo) && page.routineSource.Some?) {
      forall ring, ev, ref, tip | DrawsForce(ring, page, repo, ev, ref, tip)
        ensures MatchingHoldExists(ring, repo, ev.to, ref, tip)
      {
        PlainForcesWork(page, repo, ring, ev, ref, tip);
      }
    } else if PlainPage(page, repo) {
      var ring, ev, ref, tip := IdleForceFails(page, repo);
    } else {
      var ring, ev, ref, tip := FilteredForceFails(page, repo);
    }
  }

  // ---- the console's force and restore requests --------------------------------------

  /** A console body: free text as it arrived. */
  datatype ConsoleRequest = ConsoleRequest(repo: string, to: string, ref: string, tip: string)

  datatype Decision<T> = Start(request: T) | BadRequest | Conflict

  /** A force the gate let through: the tip is what the push's lease will be. */
  datatype ForceRequest = ForceRequest(repo: string, to: string, ref: Ref, dest: Oid)

  /** A restore the gate let through. */
  datatype RestoreRequest = RestoreRequest(repo: string, to: string, ref: Ref, sha: Oid)

  method ForceHandler(ring: seq<Event>, req: ConsoleRequest) returns (d: Decision<ForceRequest>)
    ensures d.Start? <==>
      && TrimSpace(req.repo) != "" && TrimSpace(req.to) != "" && TrimSpace(req.ref) != "" && TrimSpace(req.tip) != ""
      && MatchingHoldExists(ring, TrimSpace(req.repo), TrimSpace(req.to), Parse(TrimSpace(req.ref)), TrimSpace(req.tip))
    ensures d.Start? ==>
      && ForceGate(ring, d.request)
      && d.request == ForceRequest(TrimSpace(req.repo), TrimSpace(req.to), Parse(TrimSpace(req.ref)),
                                   TrimSpace(req.tip))
  {
    var repo, to, ref, dest := TrimSpace(req.repo), TrimSpace(req.to), TrimSpace(req.ref), TrimSpace(req.tip);
    if repo == "" || to == "" || ref == "" || dest == "" { return BadRequest; }
    if !MatchingHoldExists(ring, repo, to, Parse(ref), dest) { return Conflict; }
    return Start(ForceRequest(repo, to, Parse(ref), dest));
  }

  /** What a started force is known to have passed. */
  predicate ForceGate(ring: seq<Event>, req: ForceRequest) {
    req.dest != NO_OBJECT && MatchingHoldExists(ring, req.repo, req.to, req.ref, req.dest)
  }

  method RestoreHandler(ring: seq<Event>, req: ConsoleRequest) returns (d: Decision<RestoreRequest>)
    ensures d.Start? <==>
      && TrimSpace(req.repo) != "" && TrimSpace(req.to) != "" && FullSha(Lower(TrimSpace(req.tip)))
      && !Parse(TrimSpace(req.ref)).Other? && Parse(TrimSpace(req.ref)).name != ""
      && MatchingDeleteExists(ring, TrimSpace(req.repo), TrimSpace(req.to), Parse(TrimSpace(req.ref)),
                              Lower(TrimSpace(req.tip)))
    ensures d.Start? ==>
      && RestoreGate(ring, d.request)
      && d.request == RestoreRequest(TrimSpace(req.repo), TrimSpace(req.to), Parse(TrimSpace(req.ref)),
                                     Lower(TrimSpace(req.tip)))
  {
    var repo, to, text, sha := TrimSpace(req.repo), TrimSpace(req.to), TrimSpace(req.ref), TrimSpace(req.tip);
    if repo == "" || to == "" { return BadRequest; }
    sha := Lower(sha);
    if !FullSha(sha) { return BadRequest; }
    var refType, refName := "", "";
    if HEADS <= text {
      refType, refName := "branch", text[|HEADS|..];
    } else if TAGS <= text {
      refType, refName := "tag", text[|TAGS|..];
    } else {
      return BadRequest;
    }
    if refName == "" { return BadRequest; }
    var ref := FromKind(refType, refName);
    assert ref == Parse(text);
    if !MatchingDeleteExists(ring, repo, to, ref, sha) { return Conflict; }
    return Start(RestoreRequest(repo, to, ref, sha));
  }

  predicate RestoreGate(ring: seq<Event>, req: RestoreRequest) {
    && !req.ref.Other? && FullSha(req.sha)
    && MatchingDeleteExists(ring, req.repo, req.to, req.ref, req.sha)
  }

  // ---- the retry endpoint --------------------------------------------------------------

  datatype RetryRequest = RetryRequest(
    repo: string, direction: string, ref: string, source: string, force: bool, dest: string, actor: string)

  /** What travels with a sync. `ref` is None for a full one. */
  datatype EventMeta = EventMeta(ref: Option<Ref>, source: Source, force: bool, forceLease: Oid, actor: string)

  datatype RetryCall = RetryCall(repo: string, direction: string, meta: EventMeta)

  predicate IsValidRetryDirection(d: string) {
    Lower(d) == "source-to-target" || Lower(d) == "target-to-source" || Lower(d) == "auto"
  }

  function ResolveRetrySource(hint: string): Option<Source> {
    var h := Lower(TrimSpace(hint));
    if h == "" then Some(SourceRetryAPI) else if h == "cron" then Some(SourceCron) else None
  }

  function RefOf(text: string): Option<Ref> {
    if text == "" then None else Some(Parse(text))
  }

  /** What every started sync satisfies: a force names one ref and the tip it overwrites,
      and never comes from the reconcile cron. */
  predicate GatedMeta(meta: EventMeta) {
    meta.force ==> meta.ref.Some? && meta.forceLease != NO_OBJECT && meta.source != SourceCron
  }

  lemma AutoIsValid()
    ensures IsValidRetryDirection("auto")
  {
    assert Lower("auto") == "auto";
  }

  lemma RetryWords(d: string)
    ensures IsValidRetryDirection(d) <==> Lower(d) in ["source-to-target", "target-to-source", "auto"]
  {
    hide Lower;
  }

  method RetryHandler(rr: RetryRequest) returns (d: Decision<RetryCall>)
    ensures d.Start? <==>
      && TrimSpace(rr.repo) != ""
      && (rr.direction == "" || Lower(rr.direction) in ["source-to-target", "target-to-source", "auto"])
      && Lower(TrimSpace(rr.source)) in ["", "cron"]
      && (rr.force ==> TrimSpace(rr.ref) != "" && TrimSpace(rr.dest) != "" && Lower(TrimSpace(rr.source)) == "")
    ensures d.Start? ==>
      && GatedMeta(d.request.meta)
      && d.request.repo == rr.repo && d.request.direction == (if rr.direction == "" then "auto" else rr.direction)
      && d.request.meta == EventMeta(if rr.ref == "" then None else Some(Parse(rr.ref)),
                                     if Lower(TrimSpace(rr.source)) == "" then SourceRetryAPI else SourceCron,
                                     rr.force, TrimSpace(rr.dest), rr.actor)
  {
    RetryWords(rr.direction);
    hide IsValidRetryDirection, Lower;
    if TrimSpace(rr.repo) == "" { return BadRequest; }
    var direction := rr.direction;
    if direction == "" { direction := "auto"; }
    AutoIsValid();
    if !IsValidRetryDirection(direction) { return BadRequest; }
    var source := ResolveRetrySource(rr.source);
    if source.None? { return BadRequest; }
    if rr.force && TrimSpace(rr.ref) == "" { return BadRequest; }
    if rr.force && TrimSpace(rr.dest) == "" { return BadRequest; }
    if rr.force && source.value == SourceCron { return BadRequest; }
    var meta := EventMeta(RefOf(rr.ref), source.value, rr.force, TrimSpace(rr.dest), rr.actor);
    return Start(RetryCall(rr.repo, direction, meta));
  }

  lemma ResolvedDirectionIsValid(providers: map<string, string>, repos: seq<Config.RepoConfig>, name: string,
                                 to: string)
    ensures var r := DirectionTo(providers, repos, name, to);
      r.Direction? ==> r.dir != "" && IsValidRetryDirection(r.dir)
  {
    hide FindRepo, LegTo, DirectionAllowed;
    assert Lower("source-to-target") == "source-to-target" && Lower("target-to-source") == "target-to-source";
  }

  /** The console's re-run button: the destination the row names decides the direction
      unless the caller states one, and neither can carry a force. */
  method ConsoleRetryHandler(providers: map<string, string>, repos: seq<Config.RepoConfig>,
                             repo: string, direction: string, to: string, ref: string) returns (d: Decision<RetryCall>)
    ensures d.Start? <==>
      && TrimSpace(repo) != ""
      && (if TrimSpace(direction) != ""
          then Lower(TrimSpace(direction)) in ["source-to-target", "target-to-source", "auto"]
          else TrimSpace(to) == "" || DirectionTo(providers, repos, TrimSpace(repo), TrimSpace(to)).Direction?)
    ensures d.Start? ==>
      && d.request.repo == TrimSpace(repo)
      && d.request.meta == EventMeta(if ref == "" then None else Some(Parse(ref)), SourceConsole, false, NO_OBJECT, "")
      && (if TrimSpace(direction) != "" then d.request.direction == TrimSpace(direction)
          else if TrimSpace(to) == "" then d.request.direction == "auto"
          else DirectionTo(providers, repos, TrimSpace(repo), TrimSpace(to)) == Direction(d.request.direction))
    ensures d.Conflict? <==>
      && TrimSpace(repo) != "" && TrimSpace(direction) == "" && TrimSpace(to) != ""
      && DirectionTo(providers, repos, TrimSpace(repo), TrimSpace(to)).NoDirection?
  {
    hide DirectionTo, IsValidRetryDirection;
    AutoIsValid();
    RetryWords(TrimSpace(direction));
    hide Lower, TrimSpace;
    var name, dir := TrimSpace(repo), TrimSpace(direction);
    if name == "" { return BadRequest; }
    if TrimSpace(to) != "" && dir == "" {
      var resolved := DirectionTo(providers, repos, name, TrimSpace(to));
      if resolved.NoDirection? { return Conflict; }
      ResolvedDirectionIsValid(providers, repos, name, TrimSpace(to));
      dir := resolved.dir;
    }
    if dir == "" { dir := "auto"; }
    if !IsValidRetryDirection(dir) { return BadRequest; }
    return Start(RetryCall(name, dir, EventMeta(RefOf(ref), SourceConsole, false, NO_OBJECT, "")));
  }
}
