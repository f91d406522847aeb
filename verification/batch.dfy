/** Pushing a plan: batches of leased refs against a remote other people write to. */
module Batch {
  import opened Events
  import opened Git
  import opened Graph
  import opened Plan
  import opened Porcelain

  const PUSH_BATCH_SIZE: nat := 500

  /** Everything that decides a push: the local tips and objects, the specs, the remote's
      address, what others do to its refs just before the i-th write, what the server's
      hooks say about it, and whether the git process dies before making it. */
  datatype Push = Push(
    g: ObjectGraph, cacheObjs: set<Oid>, tips: RefMap, specs: seq<PushSpec>, url: string,
    others: (nat, RefMap) -> RefMap, policy: nat -> Option<string>, dies: nat -> bool)
  {
    ghost predicate Valid() {
      forall s :: s in specs ==> s.ref in tips && tips[s.ref] != NO_OBJECT
    }
  }

  // ---- one compare-and-set per spec ----------------------------------------------------

  /** The remote's refs the i-th write meets. */
  function Before(p: Push, refs: RefMap, i: nat): RefMap
    requires p.Valid() && i <= |p.specs|
    decreases i, 1
  {
    p.others(i, After(p, refs, i))
  }

  /** The remote's refs once the first `i` specs were each sent, on their own and in order. */
  function After(p: Push, refs: RefMap, i: nat): RefMap
    requires p.Valid() && i <= |p.specs|
    decreases i, 0
  {
    if i == 0 then refs
    else
      var s := p.specs[i - 1];
      PushEffect(Before(p, refs, i - 1), s.ref, p.tips[s.ref], s.lease, p.policy(i - 1))
  }

  function OutcomeOf(p: Push, refs: RefMap, i: nat): RefOutcome
    requires p.Valid() && i < |p.specs|
  {
    var s := p.specs[i];
    RefOutcome(s.ref, PushStatus(p.g, p.cacheObjs, Before(p, refs, i), s.ref, p.tips[s.ref], s.lease, p.policy(i)))
  }

  function Outcomes(p: Push, refs: RefMap, from: nat, to: nat): (r: seq<RefOutcome>)
    requires p.Valid() && from <= to <= |p.specs|
    ensures |r| == to - from
  {
    seq(to - from, i requires 0 <= i < to - from => OutcomeOf(p, refs, from + i))
  }

  /** Git prints this push in lines that can be read back: legal ref names, full object
      names, one-line refusals. */
  ghost predicate Reportable(p: Push, refs: RefMap)
    requires p.Valid()
  {
    OneLine(p.url) && forall i :: 0 <= i < |p.specs| ==> Legal(OutcomeOf(p, refs, i))
  }

  /** The report of one ref and what happened to it agree. */
  lemma OutcomeTellsEffect(p: Push, refs: RefMap, i: nat)
    requires p.Valid() && i < |p.specs|
    ensures var o, s := OutcomeOf(p, refs, i), p.specs[i];
      && (o.Moved() <==> After(p, refs, i + 1) != Before(p, refs, i))
      && (o.Moved() ==>
          After(p, refs, i + 1) == Before(p, refs, i)[s.ref := p.tips[s.ref]] &&
            Tip(Before(p, refs, i), s.ref) == s.lease)
  {
    var s := p.specs[i];
    assert s in p.specs;
    StatusTellsEffect(p.g, p.cacheObjs, Before(p, refs, i), s.ref, p.tips[s.ref], s.lease, p.policy(i));
    hide PushStatus, PushEffect, Before;
  }

  // ---- batches ----------------------------------------------------------------------------

  /** git exits non-zero on any rejection; a push whose every rejection is a failed lease
      is nevertheless taken as the guard working. */
  predicate Benign(os: seq<RefOutcome>) {
    Summary(os).rejected == [] || AllStaleLease(Summary(os).rejected)
  }

  function BatchEnd(start: nat, n: nat): nat {
    if start + PUSH_BATCH_SIZE <= n then start + PUSH_BATCH_SIZE else n
  }

  /** Where the process dies inside a batch, if it does. */
  function DiesAt(p: Push, i: nat, end: nat): Option<nat>
    requires i <= end
    decreases end - i
  {
    if i == end then None else if p.dies(i) then Some(i) else DiesAt(p, i + 1, end)
  }

  /** How many specs were sent when the batch from `start` or a later one failed; None when
      every batch went through. */
  function FailsAfter(p: Push, refs: RefMap, start: nat): Option<nat>
    requires p.Valid() && start <= |p.specs|
    decreases |p.specs| - start
  {
    if start == |p.specs| then None
    else
      var end := BatchEnd(start, |p.specs|);
      if DiesAt(p, start, end).Some? then DiesAt(p, start, end)
      else if !Benign(Outcomes(p, refs, start, end)) then Some(end)
      else FailsAfter(p, refs, end)
  }

  lemma {:induction false} DiesWithin(p: Push, i: nat, end: nat)
    requires i <= end
    ensures DiesAt(p, i, end).Some? ==> i <= DiesAt(p, i, end).value < end && p.dies(DiesAt(p, i, end).value)
    ensures DiesAt(p, i, end).None? <==> forall k :: i <= k < end ==> !p.dies(k)
    decreases end - i
  {
    if i < end && !p.dies(i) { DiesWithin(p, i + 1, end); }
  }

  lemma {:induction false} FailsWithin(p: Push, refs: RefMap, start: nat)
    requires p.Valid() && start <= |p.specs|
    ensures FailsAfter(p, refs, start).Some? ==> start <= FailsAfter(p, refs, start).value <= |p.specs|
    decreases |p.specs| - start
  {
    if start < |p.specs| {
      var end := BatchEnd(start, |p.specs|);
      DiesWithin(p, start, end);
      FailsWithin(p, refs, end);
    }
  }

  // ---- the code --------------------------------------------------------------------------

  class Remote {
    var refs: RefMap

    /** The moment between two writes, in which anyone may have changed the refs. */
    method Interfere(p: Push, i: nat)
      modifies this
      ensures refs == p.others(i, old(refs))
    {
      refs := p.others(i, refs);
    }
  }

  /** One `git push` of the specs from `start` to `end`: the verdict is read off the report it
      prints. None is an error; `sent` says how far the process got. */
  method RunPush(p: Push, remote: Remote, ghost refs: RefMap, start: nat, end: nat)
    returns (res: Option<PushResult>, ghost sent: nat)
    requires p.Valid() && start <= end <= |p.specs| && Reportable(p, refs)
    requires remote.refs == After(p, refs, start)
    modifies remote
    ensures start <= sent <= end && remote.refs == After(p, refs, sent)
    ensures DiesAt(p, start, end).Some? ==> res == None && Some(sent) == DiesAt(p, start, end)
    ensures DiesAt(p, start, end).None? ==>
      sent == end &&
      res == if Benign(Outcomes(p, refs, start, end)) then Some(Summary(Outcomes(p, refs, start, end))) else None
  {
    hide PushEffect, PushStatus, Summary, Legal, Parsed, PrintReport, AllStaleLease;
    var reported: seq<RefOutcome> := [];
    sent := start;
    for i := start to end
      invariant sent == i && remote.refs == After(p, refs, i)
      invariant reported == Outcomes(p, refs, start, i)
      invariant DiesAt(p, start, end) == DiesAt(p, i, end)
    {
      if p.dies(i) { return None, i; }
      remote.Interfere(p, i);
      var s := p.specs[i];
      OutcomesSnoc(p, refs, start, i);
      var status := PushStatus(p.g, p.cacheObjs, remote.refs, s.ref, p.tips[s.ref], s.lease, p.policy(i));
      reported := reported + [RefOutcome(s.ref, status)];
      remote.refs := PushEffect(remote.refs, s.ref, p.tips[s.ref], s.lease, p.policy(i));
      sent := i + 1;
    }
    ReportRoundTrip(p.url, reported);
    SummaryMeaning(reported);
    var read := ParsePush(PrintReport(p.url, reported));
    var exitsNonZero := exists o :: o in reported && o.Rejected();
    if exitsNonZero && !AllStaleLease(read.rejected) { return None, sent; }
    res := Some(read);
  }

  lemma OutcomesSnoc(p: Push, refs: RefMap, a: nat, b: nat)
    requires p.Valid() && a <= b < |p.specs|
    ensures Outcomes(p, refs, a, b + 1) == Outcomes(p, refs, a, b) + [OutcomeOf(p, refs, b)]
  {
    hide OutcomeOf;
  }

  lemma OutcomesConcat(p: Push, refs: RefMap, a: nat, b: nat, c: nat)
    requires p.Valid() && a <= b <= c <= |p.specs|
    ensures Outcomes(p, refs, a, b) + Outcomes(p, refs, b, c) == Outcomes(p, refs, a, c)
  {
    hide OutcomeOf;
  }

  /** The batch loop refines sending each spec on its own, in order and exactly once: the
      remote ends where the sequential writes leave it, whatever others did in between;
      a completed push reports the sequential outcomes; and nothing follows a batch that
      fails. */
  method PushMirror(p: Push, remote: Remote) returns (res: Option<PushResult>)
    requires p.Valid() && Reportable(p, remote.refs)
    modifies remote
    ensures res.None? <==> FailsAfter(p, old(remote.refs), 0).Some?
    ensures FailsAfter(p, old(remote.refs), 0).Some? ==>
      FailsAfter(p, old(remote.refs), 0).value <= |p.specs| &&
      remote.refs == After(p, old(remote.refs), FailsAfter(p, old(remote.refs), 0).value)
    ensures res.Some? ==>
      && remote.refs == After(p, old(remote.refs), |p.specs|)
      && res.value == Summary(Outcomes(p, old(remote.refs), 0, |p.specs|))
  {
    ghost var refs := remote.refs;
    FailsWithin(p, refs, 0);
    assert Outcomes(p, refs, 0, 0) == [];
    var total := NOTHING_PUSHED;
    var start := 0;
    hide Summary, Benign, Outcomes, Reportable;
    assert Summary([]) == NOTHING_PUSHED by { SummaryOfNothing(); }
    while start < |p.specs|
      invariant start <= |p.specs| && remote.refs == After(p, refs, start)
      invariant FailsAfter(p, refs, 0) == FailsAfter(p, refs, start)
      invariant total == Summary(Outcomes(p, refs, 0, start))
    {
      var end := BatchEnd(start, |p.specs|);
      var batch, sent := RunPush(p, remote, refs, start, end);
      if batch.None? { return None; }
      OutcomesConcat(p, refs, 0, start, end);
      SummaryOfConcat(Outcomes(p, refs, 0, start), Outcomes(p, refs, start, end));
      total := PushResult(total.changed || batch.value.changed, total.forced + batch.value.forced,
                          total.rejected + batch.value.rejected);
      start := end;
    }
    res := Some(total);
  }

  lemma SummaryOfNothing()
    ensures Summary([]) == NOTHING_PUSHED
  {
  }

  // ---- what a failed push hides -------------------------------------------------------------

  /** A rejection that is no failed lease and quotes none. */
  predicate Refusal(o: RefOutcome) { o.Rejected() && !ReadsAsStale(o) }

  lemma NotBenignExactly(os: seq<RefOutcome>)
    requires forall o :: o in os ==> Legal(o)
    ensures !Benign(os) <==> exists o :: o in os && Refusal(o)
  {
    BenignExactly(os);
    SummaryMeaning(os);
    hide Summary, Legal, ReadsAsStale, AllStaleLease;
  }

  /** A push fails exactly when git dies at some ref or some ref is refused by anything but
      a failed lease. */
  lemma {:induction false} FailsExactly(p: Push, refs: RefMap, start: nat)
    requires p.Valid() && start <= |p.specs| && Reportable(p, refs)
    ensures FailsAfter(p, refs, start).Some? <==>
      exists k :: start <= k < |p.specs| && (p.dies(k) || Refusal(OutcomeOf(p, refs, k)))
    decreases |p.specs| - start
  {
    hide Legal, Refusal, Benign, OutcomeOf;
    if start < |p.specs| {
      var end := BatchEnd(start, |p.specs|);
      var os := Outcomes(p, refs, start, end);
      DiesWithin(p, start, end);
      NotBenignExactly(os);
      assert forall k :: start <= k < end ==> os[k - start] == OutcomeOf(p, refs, k) && os[k - start] in os;
      assert forall o :: o in os ==> exists k :: start <= k < end && o == OutcomeOf(p, refs, k);
      FailsExactly(p, refs, end);
    }
  }

  /** What a failing push had already overwritten stays overwritten, though the push returns
      no result to report it from: every forced ref before the point of failure, in its own
      batch or an earlier one. */
  lemma FailureHidesOverwrites(p: Push, refs: RefMap, i: nat)
    requires p.Valid() && Reportable(p, refs) && FailsAfter(p, refs, 0).Some?
    requires i < FailsAfter(p, refs, 0).value && i < |p.specs| && OutcomeOf(p, refs, i).status.Forced?
    ensures After(p, refs, i + 1) == Before(p, refs, i)[p.specs[i].ref := p.tips[p.specs[i].ref]] != Before(p, refs, i)
    ensures Tip(Before(p, refs, i), p.specs[i].ref) == p.specs[i].lease != NO_OBJECT
    ensures exists k :: 0 <= k < |p.specs| && (p.dies(k) || Refusal(OutcomeOf(p, refs, k)))
  {
    OutcomeTellsEffect(p, refs, i);
    FailsExactly(p, refs, 0);
    ForcedReplaces(p, refs, i);
    hide FailsAfter, Refusal, OutcomeOf, Reportable, Before;
  }

  lemma ForcedReplaces(p: Push, refs: RefMap, i: nat)
    requires p.Valid() && i < |p.specs| && OutcomeOf(p, refs, i).status.Forced?
    ensures OutcomeOf(p, refs, i).Moved() && p.specs[i].lease != NO_OBJECT
  {
    hide Before;
  }
}
