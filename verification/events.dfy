/** The vocabulary of the history: what one recorded mirror outcome says. */
module Events {
  import opened Graph
  import opened Refs

  datatype Option<+T> = None | Some(value: T)

  datatype Action = ActionMirror | ActionDelete | ActionRestore

  datatype Result = ResultOK | ResultSkip | ResultFail

  datatype Reason =
    | ReasonNone
    // skips
    | ReasonAlreadyUpToDate | ReasonRefOverride | ReasonNoRefsToPush
    | ReasonAlreadyAbsent | ReasonDestinationAhead | ReasonLeaseRejected
    // failures
    | ReasonClone | ReasonPush | ReasonCheckRef | ReasonDeleteRef | ReasonProvider
    | ReasonRefExists | ReasonObjectGone | ReasonCreateRef | ReasonDirection
    | ReasonUnknownSide | ReasonUnknownRepo | ReasonRepoBusy
    // narrowings of a success
    | ReasonForcedUpdate | ReasonRewritten

  datatype Source = SourceWebhook | SourceSQS | SourceRetryAPI | SourceConsole | SourceCron

  const MAX_LOST_COMMITS := 10

  datatype LostCommit = LostCommit(sha: Oid, author: string, subject: string)

  /** One ref a push overwrote non-fast-forward. */
  datatype ForcedRef = ForcedRef(
    ref: Ref, oldTip: Oid, newTip: Oid,
    preserved: bool, lost: seq<LostCommit>, lostTotal: nat, elsewhere: nat)
  {
    predicate NothingLost() {
      preserved || (lostTotal == 0 && elsewhere > 0)
    }
  }

  /** A forced ref as a push reports it, before anything was classified. */
  function Unclassified(ref: Ref, oldTip: Oid, newTip: Oid): ForcedRef {
    ForcedRef(ref, oldTip, newTip, false, [], 0, 0)
  }

  function ForcedReason(forced: seq<ForcedRef>): Reason {
    if forced == [] then ReasonNone
    else if forall f :: f in forced ==> f.NothingLost() then ReasonRewritten
    else ReasonForcedUpdate
  }

  datatype HoldReason = HoldDestinationAhead | HoldDestinationUnknown

  datatype HeldRef = HeldRef(ref: Ref, reason: HoldReason, dest: Oid)

  datatype Event = Event(
    repo: string, action: Action, source: Source, from: string, to: string,
    ref: Option<Ref>, result: Result, reason: Reason,
    forced: seq<ForcedRef>, held: seq<HeldRef>,
    deletedTip: Oid, restoredTip: Oid, actor: string)
  {
    predicate IsForced() { forced != [] }

    /** A copy stamped with an outcome. */
    function With(result: Result, reason: Reason): Event {
      this.(result := result, reason := reason)
    }
  }

  /** The descriptive half of an event, built before its outcome is known. */
  function Draft(repo: string, action: Action, source: Source, from: string, to: string,
                 ref: Option<Ref>, actor: string): Event {
    Event(repo, action, source, from, to, ref, ResultOK, ReasonNone, [], [], NO_OBJECT, NO_OBJECT, actor)
  }
}
