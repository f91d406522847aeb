# git-bridge: a verified model of the mirroring core

git-bridge keeps two git repositories in step. An event about a push or a delete on one
side runs a *leg*: fetch that side into a cache, decide per ref whether the other side may
be overwritten, push each ref under a lease, classify what was overwritten, record one
event. People push, rewrite and delete on both sides meanwhile, and operators can retry,
force or restore from a console that reads the recorded history.

The model covers that core: the guarded push and its loss classification, the history log
and the console gates that read it, the porcelain parser, and the routing and validation
that decide which leg an event may run. `dafny verify dfyconfig.toml` checks all of it.

## How it is built

| files | what they hold |
|---|---|
| `graph`, `git` | the commit graph all stores share, and git as an environment: fetch, clone, gc, a leased push per ref, what other people may do |
| `refs`, `text`, `events` | ref names, the string operations used, the vocabulary of the history |
| `porcelain` | a printer for the OUTPUT section of git-push(1) and the parser that reads it back |
| `config`, `routing`, `dispatch`, `answers` | validation, first-match routing, what validation makes of it, and what every entry point answers |
| `plan`, `batch`, `loss` | planning a push, sending it in batches, judging what it overwrote |
| `history`, `gates` | the ring and the rotating log, the console and retry gates |
| `protocol` | the whole service as a state machine: any number of calls, one lock per repo, every git operation its own step, outside writes between any two |
| `invariant`, `runs` | what one step of one call keeps, and what every state of every run satisfies |
| `safety`, `witness`, `failure` | what follows for whole runs, and what a failed call hides |
| `verdicts`, `records`, `requests` | what every step answers, what the recorded events therefore mean, and that a call does what its request asked for and no more |
| `progress` | calls get to their end, and the service never stands still |
| `legs` | turns between the two sides of a repo: convergence, rewrites |
| `section`, `serial` | a call under its lock does one turn or one removal, and a run in which nobody else touches the two ends of a repo is those of its calls one by one, whatever other repos' calls and arrivals come between |
| `settle`, `rewrites`, `traffic`, `echoes` | so what such runs settle to, what becomes of a rewrite, how often they write a ref, and when their echoes stop |

Loops and objects the program updates in place are methods and a class (`History.Writer`,
`Batch.Remote`, `Batch.PushMirror`, `Plan.PlanPush`, `Loss.UnmatchedCommits`,
`Loss.ClassifyForced`, `Config.Validate`, `Config.HostResolver` and the handlers in
`Gates`), each proved against a function whose meaning is proved beside it. `doMirror`,
`doDeleteRef` and `doRestoreRef` are sequences of atomic steps instead, because everything
claimed about them quantifies over what happens between two steps.

## What is false, and exactly when

- The parser tells a failed lease by its wording. A push is written off as benign exactly
  when something was rejected and every rejection is, or quotes, `stale info`, so a hook
  that quotes the marker is read as the guard working
  (`Porcelain.BenignExactly`, `Porcelain.HookQuotingTheMarkerReadsAsBenign`).
- A `merge-base` that fails is read as "not an ancestor", so a destination that is ahead is
  overwritten exactly when git failed to say so (`Safety.AheadIsSentExactly`); every claim
  about never winding back is made for writes whose question was answered.
- A failed push reports nothing, so the overwrites it made before failing are named in no
  event and alerted about by no one: an overwrite is in its call's event exactly when the
  call succeeded (`Failure.OverwriteReportedExactly`), and a call that wrote fails exactly
  when git died or a batch held a refusal that is no failed lease and quotes none
  (`Failure.WroteAndFailedExactly`, with a step of that kind in
  `Failure.DeclinedAfterOverwrite`). `Batch.FailureHidesOverwrites` says it of any push, in
  the failing batch or an earlier one.
- A delete carries no lease. The recorded tip is the one removed exactly when it is still
  the tip at the delete (`Safety.DeleteStepExactly`, `Safety.DeleteIsNotLeased`).
- Two annotations of one commit are ancestors of each other, so both directions withhold the
  tag for ever (`Legs.ReannotatedTagNeverAgrees`); `Legs.ConvergeExactly` says when two turns
  make the sides agree.
- A divergent rewrite is undone exactly when the other side's cache holds the new commit by
  the time it plans, for instance because another ref carried it there first
  (`Legs.UndoneExactly`, `Legs.CarriedRewriteIsUndone`, and as a run of two calls
  `Rewrites.RewriteCanBeUndone`).
- Two sides whose tips of a ref are in neither other side's cache keep each other out for as
  long as that holds (`Rewrites.DivergedStaysDiverged`).
- A pending delete followed by a pending push of one ref from one side chase each other for
  ever (`Echoes.MixedEventsNeverStop`); any other two events for a ref the sides agree on
  are through in four steps (`Echoes.TwoEventsNeverStopExactly`).
- Not every button the console draws passes its gate. A restore button works, whatever the
  service recorded, exactly on a page not narrowed to one of the two triggers deletes come
  from, or one that hides every delete; a force button exactly on a page that hides idle
  reconciles and filters by nothing else, or can show no hold (`Gates.RestoresWorkExactly`,
  `Gates.ForcesWorkExactly`). `Gates.GatesExactly` says for any one history when a gate
  answers yes.
- `Sync` matches on the source path alone; its answer is independent of the order of the
  repos exactly when one entry has that path (`Dispatch.SourceSideOrderExactly`). The
  two-sided dispatch is order-free exactly when one entry claims the event
  (`Dispatch.OrderIrrelevantExactly`), which validation guarantees for a key that is a
  provider name and no provider's type.
- A restart reads the last bytes of the live generation only. It restores the newest events
  exactly when those bytes hold enough of them, or all there are
  (`History.RestartIsCompleteExactly`, `History.Reopen`); right after the record that rotated
  the file it restores that one event (`History.RecordThenReopen`).

Where a comment and the code differ the model follows the code: the comment above `runPush`
speaks of a forced push, the command carries no `--force` and relies on the leases alone.

## Model

| member | source | states |
|---|---|---|
| Safety.GuardedMirrorDiscardsOnlySeen | internal/mirror/mirror.go:2346-2381 | in every run, an unforced mirror that replaces a tip discards only objects its own side once held, and, as long as git answered the ancestry question, never winds a ref back to an ancestor of the tip it replaces |
| Safety.EveryChangeIsAWrite | internal/mirror/mirror.go:455-483 | a service step changes a ref only by one recorded write on its own destination, with the tips before and after |
| Safety.OneCallPerRepo | internal/mirror/mirror.go:1931-1940 | two calls of one repo are never between first step and return at once |
| Safety.EveryWriteIsAuthorised | internal/mirror/mirror.go:2408-2416 | every write of every run is on the target of an entry whose direction is source-to-target or bidirectional, or on the source of one that is target-to-source or bidirectional, never on the side the first matching override keeps authoritative, and no other configured leg reaches that place |
| Safety.ForceIsPinned | internal/mirror/mirror.go:2351-2354 | a forced call changes at most one ref, the named one, only from exactly the named tip, and never comes from the reconcile cron |
| Safety.ConsoleForceWasShown | internal/server/console.go:464-479 | as long as a console force exists, the history holds an event of the same repo and destination that withheld the same ref at the named tip |
| Safety.RestoreOnlyFillsHoles | internal/mirror/mirror.go:1055-1063 | a restore only creates a ref that does not exist at that moment, at a tip a recorded delete of the same repo, destination and ref removed |
| Safety.DeleteStepExactly | internal/mirror/mirror.go:2018-2047 | a successful delete removes the ref and nothing else; the recorded tip is the removed one iff it was still the tip |
| Safety.DeleteIsNotLeased | internal/mirror/mirror.go:959-975 | a delete that checked any tip removes the ref at any other tip it has by then, and records the checked one |
| Safety.RestoreStepExactly | internal/mirror/mirror.go:1887-1915 | a successful restore leaves the ref at the requested commit, changes no other ref and never moved an existing one |
| Safety.DeleteThenRestoreIsIdentity | internal/mirror/mirror.go:1857-1915 | deleting and restoring with no other write in between gives back exactly the refs there were, and the two recorded tips are equal |
| Safety.HistoryTellsTruth | internal/mirror/mirror.go:2386-2607 | one event per returned call and none before; error iff failure; a skip changed nothing; a mirror's success moved something, names exactly its overwrites, carries the matching reason and alerts iff one of them lost something; a delete's success made exactly one change, the removal; a restore's names the requested commit; and in the state where either returned, the ref was gone, or at that commit |
| Safety.SuccessWasReal | internal/mirror/mirror.go:1887-1915 | a successful delete or restore left its ref gone, or at the requested commit, in the state its last step led to |
| Safety.RecordedIsRecordable | internal/mirror/mirror.go:1574-1629 | of an event a call records: only a mirror's success names overwrites, with the matching reason; only a mirror holds refs back; only a delete names a removed tip, and deletes come from the webhook and the queue alone |
| Safety.HistoryIsRecordable | internal/mirror/mirror.go:2386-2607 | the same of every event of the history, refusals included, if it holds of what an earlier run left |
| Safety.AheadIsSentExactly | internal/mirror/mirror.go:544-547 | at a mirror's plan step a destination that is ahead is sent over iff git failed to answer the ancestry question, and withheld with its tip otherwise |
| Safety.CompletedPush | internal/mirror/mirror.go:455-483 | a push that reaches its report sent every spec exactly once in order, every batch of 500 was let through, and the refs that changed are exactly the ones reported moved |
| Safety.RecordedRowsNeverInvert | internal/mirror/mirror.go:2086-2127 | acting on any recorded row, in either notation, runs the leg that recorded it or is refused, and is refused only when the destination names both sides |
| Safety.SilentMirrorLosesNothing | internal/mirror/mirror.go:2838-2859 | when a mirror returns without an error and without an alert, as decided from the report the program parses, every commit that left any branch it wrote had no content, has an equal patch among the commits only the new tip reaches, or is on a branch of the cache |
| Records.GuardInRuns | internal/mirror/mirror.go:2346-2381 | at a served unforced plan step of any run, a wanted ref both ends hold at different tips is withheld as unknown iff its tip there was never fetched (or git failed to look), as ahead iff git said so, and otherwise sent under exactly that tip; never two of these, never none |
| Records.HoldsStayOnRecord | internal/mirror/mirror.go:2500-2506 | what a plan withholds is on the event its call returns with, and nothing else is, whether the push completes, changes nothing or breaks |
| Records.HoldsWereDue | internal/mirror/mirror.go:2365-2372 | every hold on record was the guard's at the plan step of that call: the tip was on the destination, and unknown or ahead |
| Records.LabelsTellLosses | internal/history/history.go:308-318 | a successful mirror carries no label iff it overwrote nothing, forced-update iff some overwrite lost commits or could not be judged, rewritten otherwise; someone is alerted iff one of the former is of a branch |
| Records.AnswersWereTrue | internal/mirror/mirror.go:1866-1871 | a delete recorded as already absent, a restore recorded as up to date, refused for an existing ref or for a busy repo: in some earlier state of the run the destination, or the lock, was as it says |
| Records.LossesAreCounted | internal/mirror/mirror.go:2622-2639 | a branch on the event of a successful mirror counts exactly the commits that left it and are nowhere in the cache, and those only another branch has, names at most ten of the former, and is preserved iff there are none of either; or git could not judge it and it counts nothing |
| Records.EventsDescribeTheirCall | internal/mirror/mirror.go:2386-2416 | the event of a returned call names its repo, its two ends in the direction it ran, its trigger, its ref and who asked |
| Records.AnsweredIsMeant | internal/mirror/mirror.go:544-547 | a write is marked as answered iff git answered the ancestry question about that ref at the plan step, and carries the objects the cache held |
| Records.EveryStepAnswers | internal/mirror/mirror.go:2386-2607 | every step any call takes in any run answers as its kind of call should, read off the cache, the remotes and what git does: which reason, whether it fails, and what it goes on with (`MirrorVerdict`, `DeleteVerdict`, `RestoreVerdict`) |
| Verdicts.DeleteAnswers | internal/mirror/mirror.go:1945-2070 | a delete passes over a ref that is gone, fails when git does or the ref has gone since, and otherwise succeeds with the tip it read |
| Verdicts.RestoreAnswers | internal/mirror/mirror.go:1857-1915 | a restore fails on a busy repo, goes on iff the ref is missing, passes over it at the requested commit, and refuses it at any other tip; then it fails unless the commit is in the cache or served by the other end, and succeeds iff it creates the ref, still missing and accepted, or finds it at that commit |
| Verdicts.PlanAnswers | internal/mirror/mirror.go:2333-2383 | a plan step goes on with exactly the specs and holds the guard gives, past it with every wanted ref, or is skipped as ahead or up to date according to what it withholds |
| Verdicts.ReportAnswers | internal/mirror/mirror.go:2500-2607 | a push that got to its report succeeds iff some ref moved, with the label of its overwrites; otherwise it is skipped as rejected or up to date by whether any lease failed; what the plan withheld is on the event either way |
| Verdicts.UnknownProviderFails | internal/mirror/mirror.go:2418-2440 | a call of an entry with an unknown provider fails for that reason, whatever its kind |
| Requests.StartsExactly | internal/mirror/mirror.go:1366-1409 | a request of any kind starts a call iff the first entry it names permits writing the end it is to write and no override pins the ref of a delete or a restore the other way, and then that entry's leg, that way round |
| Requests.CallsDoWhatWasAsked | internal/mirror/mirror.go:2408-2416 | over whole runs, each write of a call is one its request asked for: at that end, where no override keeps the ref from; the named ref; a removal for a delete, a commit of the other end for a push, the named commit into a hole for a restore, and for a force only in place of the named tip |
| Requests.EventsCreditTheirRequest | internal/mirror/mirror.go:2386-2416 | and the event it records names its request's trigger, ref and actor, the entry and the two ends |
| Requests.RefusalsOnRecord | internal/mirror/mirror.go:1677-1740 | a request that starts nothing changes nothing, except that a refused force or restore adds one failure on no call's account, with the reason (unknown repo, unknown or ambiguous side, direction, override) and the ends as far as they were known |
| Failure.OverwriteReportedExactly | internal/mirror/mirror.go:2838-2859 | the event of a returned mirror names an overwrite the call made iff the call succeeded |
| Failure.PushReturnsExactly | internal/mirror/mirror.go:398-444 | in the middle of a push the call returns iff git dies or the batch just ended holds a refusal that neither is nor quotes a failed lease, and then fails without naming or alerting about any overwrite |
| Failure.WroteAndFailedExactly | internal/mirror/mirror.go:432-441 | a mirror that wrote returns a failure iff its push broke that way, and a success iff it got to its report |
| Failure.DeclinedAfterOverwrite | internal/mirror/mirror.go:432-441 | a step of that kind: one ref overwritten, the next declined by a hook, no overwrite named |
| Witness.ClaimedTipsWereReal | internal/mirror/mirror.go:2365-2372 | every tip recorded as withheld or deleted was really on that destination in an earlier state of the run |
| Runs.EveryStateOK | internal/mirror/mirror.go:2386-2607 | every state of every run satisfies the invariant: valid stores, caches of objects their side held, lock discipline, every call where its kind allows, every write justified |
| Runs.ThreadStepKeeps | internal/mirror/mirror.go:2386-2607 | any step of any call keeps that invariant for all calls |
| Runs.ArriveKeeps | internal/mirror/mirror.go:1366-1409 | so does any request the gates let through, routed or refused |
| Runs.StepOthers | internal/mirror/mirror.go:1931-1940 | a step of one call leaves every other call's cache, changes and events as they were |
| Runs.StartsWithEvidence | internal/server/console.go:435-479 | a console force or restore that starts has its held ref or its delete in the history |
| Runs.GateAnswersFromLog | internal/server/console.go:422-424 | what a gate finds was recorded, and for that repo |
| Invariant.StepKeeps | internal/mirror/mirror.go:2386-2607 | whatever a call sees and git answers, one step makes only changes its kind allows and leaves it where its kind may stand |
| Invariant.FetchKeeps | internal/mirror/mirror.go:2207-2260 | a fetch, clone, gc or lost cache leaves a closed store of objects the side holds, or fails |
| Invariant.PushKeeps | internal/mirror/mirror.go:398-483 | a leased push step keeps the outcomes equal to the changes made and every change guarded, also when git dies |
| Invariant.ForcedAreOverwrites | internal/mirror/mirror.go:848-875 | the forced entries of a report are exactly the overwrites among the changes made |
| Invariant.OutcomeTellsChange | internal/mirror/mirror.go:455-483 | an outcome says moved exactly for a change from the lease to the pushed tip |
| Invariant.ReadBatchIsSummary | internal/mirror/mirror.go:848-875 | what the program reads in the report of one git call is the summary of its outcomes |
| Invariant.ReadAllIsSummary | internal/mirror/mirror.go:455-483 | and what it adds up over the batches of a push is the summary of them all |
| Invariant.RestoreObjectKeeps | internal/mirror/mirror.go:1874-1900 | looking for the commit in the cache or on the other side leaves a closed cache that holds it, or fails |
| Section.SectionStep | internal/mirror/mirror.go:2386-2607 | one step of an unforced mirror of any scope or of a delete, under its lock and with nobody else writing, goes on towards exactly one turn of some refs or one removal, or returns having done it; with a git that serves it, of all the refs it covers |
| Serial.QuietStep | internal/mirror/mirror.go:1931-1940 | any step of anyone but outsiders at the two ends of a repo does at most one such deed to the repo |
| Serial.QuietRunIsSerial | internal/mirror/mirror.go:1931-1940 | a run in which nobody else touches the two ends leaves the repo where the deeds of its calls, one after the other, lead, with the whole deed of every completed call git served among them |
| Settle.FullSyncsConverge | internal/mirror/mirror.go:2275-2383 | in every such run from a reachable state that deletes nothing in the repo, once one full mirror each way completed, in either order and among any other mirrors, both sides are at the join of comparable tips, and no commit has left a ref |
| Settle.TwoSyncsCanConverge | internal/mirror/mirror.go:2275-2383 | from every reachable state with two waiting full mirrors, one each way, such a run exists and ends with both sides at the join |
| Rewrites.RewriteIsNeverUndoneInRuns | internal/mirror/mirror.go:2365-2379 | in every such run that does not delete the ref, with mirrors of any scope, repeated, failing or cut short, a divergent rewrite no other ref carries is never undone and the old tip never returns once it landed; the deeds it landed among include the whole deed of every completed call git served |
| Rewrites.CompletedMirrorLands | internal/mirror/mirror.go:2365-2379 | a mirror that covers the ref and completes with a git that serves it has its turn among those deeds, and lands the rewrite if the cache of that turn holds the old tip |
| Rewrites.RewriteWins | internal/mirror/mirror.go:2365-2379 | so when the old tip never leaves the cache on the way, the completion of one such mirror ends with both sides at the new tip |
| Rewrites.RewriteCanBeUndone | internal/mirror/mirror.go:2275-2295 | from every reachable state where another ref has the new commit and both mirrors wait, a run of these two calls alone ends with both sides at the old tip |
| Rewrites.DivergedStaysDiverged | internal/mirror/mirror.go:2794-2800 | while neither cache holds the other side's tip and no other ref carries either, no such run that does not delete the ref moves it on either side |
| Traffic.QuietBalanced | internal/mirror/mirror.go:2357-2364 | every step of such a run conserves the writes of a ref plus the disagreement about it unless a delete of it runs, and plus the ends that have it unless a mirror of it runs |
| Traffic.PushEchoesStop | internal/mirror/mirror.go:2357-2364 | however many syncs of a ref arrive and whatever their git does, without a delete of it the service writes it at most once, exactly when the sides come to agree, and never where they agree |
| Traffic.DeleteEchoesStop | internal/mirror/mirror.go:2011-2022 | without a mirror of the ref the service writes it exactly as often as an end loses it, at most twice |
| Traffic.LaterMirrorsWriteNothing | internal/mirror/mirror.go:2361-2364 | after two full syncs have converged, no later mirror writes the ref |
| Progress.CallAdvances | internal/mirror/mirror.go:2386-2607 | each step of any call takes it strictly nearer its return, whatever git answers, and nobody else's step moves it |
| Progress.EveryCallReturns | internal/mirror/mirror.go:2386-2607 | so in every endless run a call that keeps getting its turn returns |
| Progress.NeverStuck | internal/mirror/mirror.go:1931-1940 | while a call has not returned, it or the holder of its repo's lock can step |
| Progress.WaitsExactly | internal/mirror/mirror.go:1931-1940 | a call about to start cannot step iff its repo's lock is taken, unless it is a restore, which gives up, or an event for a ref pinned the other way |
| Progress.CompletesQuietly | internal/mirror/mirror.go:2386-2607 | a call that holds its lock or finds it free can be taken to its return by its own steps alone, and leaves the lock free |
| Legs.LandIsTurn | internal/mirror/mirror.go:2333-2383 | planning and sending every spec to an unmoved remote changes exactly the refs the guard sends |
| Legs.ConvergeExactly | internal/mirror/mirror.go:2355-2379 | two opposite full turns make the sides agree iff for every common ref the tips were equal or one turn could replace the other's |
| Legs.Convergence | internal/mirror/mirror.go:2355-2379 | with comparable commits, one full turn each way in either order leaves both sides at the pointwise descendant join |
| Legs.NoCommitLeaves | internal/mirror/mirror.go:2333-2343 | on the way no commit leaves any ref of either side |
| Legs.AgreedForever | internal/mirror/mirror.go:2361-2364 | once both sides agree on a ref, no later turn writes it |
| Legs.ReannotatedTagNeverAgrees | internal/mirror/mirror.go:2371-2372 | two annotations of one commit are withheld both ways for ever |
| Legs.RewriteIsNeverUndone | internal/mirror/mirror.go:2365-2379 | over any turns in any order (every completed mirror is one), as long as none carries the new commit over under another name first, a divergent rewrite is not undone, the first turn that finds the old tip in the cache lands it, and the old tip never returns |
| Legs.UndoneExactly | internal/mirror/mirror.go:2365-2379 | the turn back undoes a pending rewrite iff its cache holds the new commit |
| Legs.CarriedRewriteIsUndone | internal/mirror/mirror.go:2275-2295 | an event for another ref at the new commit, handled first, gets the rewrite undone |
| Echoes.DrainPushes | internal/mirror/mirror.go:2357-2364 | handled by whole calls, pending pushes of one ref drain in any order with as many writes as the disagreement falls by, at most one, in as many steps as events plus writes |
| Echoes.DrainDeletes | internal/mirror/mirror.go:2011-2022 | handled by whole calls, pending deletes of one ref drain in any order with at most two writes; each takes the ref off the other side, and one write takes it off both |
| Echoes.HandledIsDeed | internal/mirror/mirror.go:2275-2295 | handling one event is what a completed call for it does: the turn of the named ref, or its removal from the other side |
| Echoes.MixedEventsCycle | internal/mirror/mirror.go:2011-2022 | a pending delete and push of one ref return in two steps to the same state with the sides swapped |
| Echoes.MixedEventsNeverStop | internal/mirror/mirror.go:2011-2022 | so after any number of steps events are pending, and after every even number both sides are back where they began |
| Echoes.TwoEventsNeverStopExactly | internal/mirror/mirror.go:2011-2022 | two events of an agreed ref never stop iff they are a delete and then a push from one side |
| Plan.BuildFullRefspecs | internal/mirror/mirror.go:785-795 | the loop computes the refs no override sends the other way |
| Plan.UnblockedMeaning | internal/mirror/mirror.go:785-795 | those are exactly the listed refs not blocked, each once |
| Plan.ResolvedRefs | internal/mirror/mirror.go:2275-2295 | an event's sync pushes at most the named ref; a full one exactly the unblocked refs |
| Plan.PlanPush | internal/mirror/mirror.go:2333-2383 | the planning loop computes the plan function |
| Plan.PlanMeaning | internal/mirror/mirror.go:2346-2381 | a ref is sent under that lease, or held for that reason at that tip, iff it is wanted and the guard judges it so |
| Plan.GuardTells | internal/mirror/mirror.go:2346-2381 | an unforced plan, read off cache and destination: a ref the destination lacks goes out under an empty lease, one at the same tip not at all, one at another tip under that tip iff it is in the cache and not known to be ahead; the rest is withheld, as unknown or as ahead, at exactly that tip |
| Plan.ForceTells | internal/mirror/mirror.go:2351-2354 | a forced plan sends every wanted ref of the cache under the caller's lease and withholds none |
| Plan.PlanIsDistinct | internal/mirror/mirror.go:2346-2381 | no plan pushes a ref twice |
| Plan.PlannedWritesAreGuarded | internal/mirror/mirror.go:2351-2379 | an unforced lease is empty or a tip the cache holds and, if git answered, the pushed tip is no ancestor of; a forced lease is the caller's |
| Batch.RunPush | internal/mirror/mirror.go:398-444 | one git call sends its specs in order until it dies, then its printed report is parsed, and the verdict is what was read, or an error unless every rejection reads as a failed lease |
| Batch.PushMirror | internal/mirror/mirror.go:455-483 | with outside writes between any two refs, the batch loop leaves the remote as sequential leased writes do, aggregates their outcomes, and sends nothing after a failing batch |
| Batch.OutcomeTellsEffect | internal/mirror/mirror.go:455-483 | within a push with outside writes in between, a ref is reported moved iff it changed, and only from its lease |
| Batch.NotBenignExactly | internal/mirror/mirror.go:886-896 | a batch is an error iff it holds a rejection that neither is nor quotes a failed lease |
| Batch.FailsExactly | internal/mirror/mirror.go:455-483 | a push fails iff git dies at some ref or some ref is refused that way |
| Batch.FailureHidesOverwrites | internal/mirror/mirror.go:432-441 | whatever a failing push overwrote before the failure, in its batch or an earlier one, stays overwritten, and the push returns nothing to report it from |
| Loss.UnmatchedCommits | internal/mirror/mirror.go:595-659 | the loop over maps and counters computes the report function |
| Loss.ReportIsPartition | internal/mirror/mirror.go:626-658 | the commits that left split exactly into matched, elsewhere and lost; the counters are the sizes; the list is the first min(total, 10) lost |
| Loss.JudgedExactly | internal/mirror/mirror.go:595-625 | an overwrite is judged iff git ran, both tips are in the cache and the two sides differ by at most 2000 commits |
| Loss.ClassifyForced | internal/mirror/mirror.go:2622-2639 | the in-place loop classifies every entry of the array |
| Loss.ClassifiedTells | internal/mirror/mirror.go:2622-2639 | an entry keeps its ref and tips; a judged branch carries the whole answer of the check and is preserved iff both counts are zero; a tag or an unjudged branch stays as it was |
| Loss.ReportForced | internal/mirror/mirror.go:2838-2859 | an alert goes out iff some overwritten branch is not shown to have lost nothing |
| Loss.SilentExactly | internal/mirror/mirror.go:2622-2639 | an overwritten branch stays silent iff the check ran and every commit that left it survives |
| Loss.SilenceIsSound | internal/history/history.go:158-160 | no alert means nothing that left any overwritten branch is lost |
| Porcelain.ParsePush | internal/mirror/mirror.go:848-875 | the loop over lines computes the parse function |
| Porcelain.ReportRoundTrip | internal/mirror/mirror.go:848-875 | parsing the printed report of any legal outcomes gives back their summary |
| Porcelain.MalformedLines | internal/mirror/mirror.go:905-945 | a refusal line without a ref field is kept whole, and an overwrite line without its tips, like any line of another flag, only says that something moved |
| Porcelain.SummaryMeaning | internal/mirror/mirror.go:848-875 | changed iff a ref moved, forced exactly the forced outcomes with both tips, rejected empty iff nothing was refused |
| Porcelain.SummaryOfConcat | internal/mirror/mirror.go:474-481 | summaries of batches add up |
| Porcelain.BenignExactly | internal/mirror/mirror.go:886-896 | a push is benign iff something was rejected and every rejection is, or quotes, a failed lease |
| Porcelain.HookQuotingTheMarkerReadsAsBenign | internal/mirror/mirror.go:886-896 | a hook refusal quoting the marker is taken for a failed lease |
| Git.StatusTellsEffect | internal/mirror/mirror.go:455-483 | a leased ref is reported moved iff it moved, and only from the lease to the pushed tip; stale iff at a third tip, up to date iff at the pushed one, refused iff the server declined what would have landed |
| Git.FetchIsValid | internal/mirror/mirror.go:354-392 | a fetch or clone leaves a closed cache of nothing but old cache and remote objects |
| Git.CollectIsValid | internal/mirror/mirror.go:1212-1237 | gc keeps a cache closed and every ref's history in it |
| Refs.ParseFullName | internal/mirror/mirror.go:37-42 | splitting a full ref name loses nothing |
| Refs.FullNameParse | internal/mirror/mirror.go:103-112 | printing a split name gives the name back |
| Refs.FullNameInjective | internal/mirror/mirror.go:103-112 | different refs have different full names |
| Text.TrimSpaceExactly | internal/server/console.go:487-560 | trimming a field takes blanks off both ends, and all of them |
| Text.LowerExactly | internal/mirror/mirror.go:1539-1543 | lower-casing moves each capital 32 places on and changes nothing else |
| Config.Validate | internal/config/config.go:305-414 | startup accepts exactly the configurations with valid entries, distinct names and distinct endpoints |
| Config.ClaimEndpoints | internal/config/config.go:356-365 | an entry is let in iff the dispatch keys up to and including its own are distinct |
| Config.ValidateOverrides | internal/config/config.go:384-414 | overrides are accepted iff each pins a permitted leg under its own pattern |
| Config.EntryExactly | internal/config/config.go:305-414 | what a valid entry is, in the words of the configuration: set and distinct known providers, one of three directions, a retry direction the direction permits, overrides with distinct legal patterns that each pin a permitted leg |
| Config.EndpointsExactly | internal/config/config.go:356-365 | the dispatch keys are distinct iff no two ends of the configuration read alike as provider/path |
| Config.MatchRefOverride | internal/config/config.go:175-182 | the match is an override whose pattern matches, absent iff none does |
| Config.MatchIsFirst | internal/config/config.go:175-182 | nothing before the match matches |
| Config.HostResolver | internal/config/config.go:100-118 | under every map order a host is indexed iff exactly one provider claims it, to that provider |
| Config.HostIndexUnique | internal/config/config.go:100-118 | so two walks of the map give the same index |
| Routing.SyncAuthorised | internal/mirror/mirror.go:1366-1380 | a source event only runs a permitted leg of a configured repo |
| Routing.SyncByTargetAuthorised | internal/mirror/mirror.go:1382-1409 | the same for an event of either side |
| Routing.SyncDeleteAuthorised | internal/mirror/mirror.go:1574-1600 | the same for deletes, and never of a ref pinned the other way |
| Routing.SyncDeleteByTargetAuthorised | internal/mirror/mirror.go:1602-1629 | the same for deletes of either side |
| Routing.RetryAuthorised | internal/mirror/mirror.go:1435-1472 | a retry only runs a direction the repo permits, whatever case or default it was given in |
| Routing.ForceAuthorised | internal/mirror/mirror.go:1759-1797 | a force runs only the permitted leg to the named destination |
| Routing.RestoreAuthorised | internal/mirror/mirror.go:1677-1740 | a restore runs only the permitted, unpinned leg to the named destination |
| Answers.SourceEventExactly | internal/mirror/mirror.go:1574-1600 | a push or delete on the source side is answered by the first entry with that path: it runs to that entry's target iff the direction permits, else is refused; a delete of a ref pinned the other way is passed over before the direction is looked at |
| Answers.NoSourceEntry | internal/mirror/mirror.go:1366-1380 | without such an entry both are refused as not configured |
| Answers.WebhookEventExactly | internal/mirror/mirror.go:1602-1629 | a webhook event is answered by the first entry it is a side of, target looked at first: it runs to the other side iff the direction permits, else is refused; a permitted delete of a pinned ref is passed over |
| Answers.UnknownTargetIsPassedOver | internal/mirror/mirror.go:1382-1409 | were an entry's target provider unknown, a push event would pass the entry over whichever side it names, and be answered by the first other one |
| Answers.NoWebhookEntry | internal/mirror/mirror.go:1382-1409 | without such an entry both are refused |
| Answers.AutoRetryExactly | internal/mirror/mirror.go:1521-1524 | a retry without a direction always runs on a valid entry: the pinned retry direction, else the one a one-way repo has, else target to source |
| Answers.StatedRetryExactly | internal/mirror/mirror.go:1435-1472 | a stated direction runs that leg iff the entry permits it; any other word is refused |
| Answers.NamedSideExactly | internal/mirror/mirror.go:1677-1797 | force, restore and the re-run button take the end a row names, by provider name or type, as the one to write; they refuse a text that names neither end or both, an end the direction keeps from being written, and a restore of a ref pinned the other way |
| Answers.UnknownRepoExactly | internal/mirror/mirror.go:1435-1440 | all four refuse a repo nobody configured |
| Answers.PinnedRefHasOneLeg | internal/config/config.go:384-414 | validation guarantees that a ref some override matches travels exactly one way round, and that the direction permits that way |
| Dispatch.RowNeverInverts | internal/mirror/mirror.go:1488-1515 | a destination recorded by a leg, in either notation, is accepted by the three endpoint-taking calls iff unambiguous and permitted, and then selects that leg and the direction of the retry button |
| Dispatch.CurrentNotationAmbiguity | internal/mirror/mirror.go:2124-2127 | a current-notation row is ambiguous iff the other side's type spells it |
| Dispatch.OrderIrrelevantExactly | internal/mirror/mirror.go:1382-1409 | an event's leg is the same under every order of the repos iff one entry claims it |
| Dispatch.UniqueClaimIgnoresOrder | internal/mirror/mirror.go:1602-1629 | a uniquely claimed event or delete is answered alike under every order |
| Dispatch.ValidatedDispatchIgnoresOrder | internal/config/config.go:329-365 | on a validated configuration a key that is a provider name and no type is dispatched alike under every order |
| Dispatch.SourceSideOrderExactly | internal/mirror/mirror.go:1366-1380 | source-path dispatch ignores the order iff one entry has the path |
| History.Writer.Record | internal/history/history.go:460-500 | the ring stays the last ringSize of everything recorded; while I/O works the two generations stay a suffix of the lines, rotated when a line would cross the limit, and within it if they started so and no line is longer |
| History.Writer.Push | internal/history/history.go:525-531 | shifting in place appends and drops the oldest |
| History.Writer.Rotate | internal/history/history.go:502-520 | the live file becomes the older generation, as far as each file operation succeeds |
| History.Writer.Query | internal/history/history.go:538-566 | a query is the first limit elements of the reversed, filtered ring |
| History.Writer.constructor | internal/history/history.go:430-455 | opening any files restores the ring from the live one |
| History.Tail | internal/history/history.go:644-687 | the scan computes the last n readable events of the last bytes |
| History.RestartRingIsLogSuffix | internal/history/history.go:644-687 | a restart's ring is a suffix of the recorded log |
| History.RestartIsCompleteExactly | internal/history/history.go:644-687 | a restart restores the newest n events of the files iff the bytes it reads hold n events, or all there are |
| History.Reopen | internal/history/history.go:430-455 | while I/O worked, a restart restores the ring iff those bytes hold as many events as the ring |
| History.ReadableExactly | internal/history/history.go:644-687 | what a restart reads is the longest run of whole last lines of the live file of at most 4 MiB |
| History.RecordThenReopen | internal/history/history.go:502-520 | straight after the record that rotated the file a restart restores that one event |
| Gates.RecentExactly | internal/history/history.go:538-566 | an event is in the answer to a query iff the query keeps it and fewer newer ones than its limit |
| Gates.PageExactly | internal/history/history.go:538-590 | a page is the events it asks for (failures only, overwrites only, one repo, one trigger, no reconcile that found nothing to do), newest first, each as often as it was recorded, cut at the limit |
| Gates.GatesTell | internal/server/console.go:435-479 | the restore gate passes iff a successful delete of that ref at that destination of the repo removed that tip, the force gate iff an event of the repo withheld that ref there at that tip, with fewer than 500 later events of the repo, not counting idle reconciles |
| Gates.GatesExactly | internal/server/console.go:435-479 | a restore or force passes iff a matching event of the repo, no idle reconcile, has fewer than 500 such events after it |
| Gates.GateCoversPage | internal/server/console.go:410-424 | any row of a repo a plain page shows, idle reconciles aside, is in the window its gate checks |
| Gates.HiddenRowsFillTheGate | internal/server/console.go:410-424 | a row a page shows, followed by 500 the gate counts and the page hides, is outside the gate's window |
| Gates.RestoresWorkExactly | internal/server/console.go:410-424 | every restore button of a page works, for all histories of recordable events, iff the page is not narrowed to the webhook or the queue as trigger, or hides every delete of the repo |
| Gates.ForcesWorkExactly | internal/server/console.go:410-424 | every force button of a page works, for all histories of recordable events, iff the page hides idle reconciles and nothing else, or shows no hold of the repo |
| Gates.ForceHandler | internal/server/console.go:487-560 | a force starts iff all fields are set and a matching hold is in the window, with exactly the fields given |
| Gates.RestoreHandler | internal/server/console.go:604-700 | a restore starts iff the ref and the full commit name are well formed and a matching delete is in the window |
| Gates.RetryHandler | internal/consumer/retry.go:91-190 | a retry starts iff its fields are valid; a force needs a ref and a tip and is refused to the cron |
| Gates.ConsoleRetryHandler | internal/server/console.go:302-408 | a re-run starts iff its repo is set and the stated direction is valid, or without one the destination the row names decides a permitted one, or nothing is named; it can never force |

## Left out

- Safety.HistoryTellsTruth: durations, timestamps and error texts of an event are not modelled.
- Serial.QuietRunIsSerial: git answers the ancestry questions of the repo's own calls, and none of them is forced or a restore; such calls are only bounded by the run theorems of `Safety`.
- Rewrites.RewriteIsNeverUndoneInRuns: the start asks that no other ref of the rewritten side reaches the new commit; `Legs.RewriteIsNeverUndone` and `Legs.UndoneExactly` say what happens when one does, turn by turn.
- Echoes.DrainPushes: the order of pending events is arbitrary; their redelivery by the queue is not modelled, and `Traffic` bounds the writes of any number of them.
- Progress.EveryCallReturns: that a waiting call keeps getting its turn is the scheduler's part.
- Gates.RestoreHandler: blank trimming and lower-casing are those of ASCII text.
- Loss.UnmatchedCommits: patch-ids and the listing order are what git returns; a malformed listing is the failed check.
- `doMirror`, `doDeleteRef` and `doRestoreRef` as methods of an object holding the locks: they are step functions over values, so aliasing inside one step is not modelled.
- A git process killed after printing nothing but lease rejections: modelled as an error, where the code would take the partial report as benign.
- A lease or tip given in abbreviated form, which git would resolve: tips are full names.
- Objects of a failed fetch: a fetch that fails leaves the cache unchanged.
- Tag objects of anything but commits, and refs outside branches and tags (never listed for a push).
- `path.Match` and patch-id computation: an opaque predicate and an optional value per commit.
- Cache directory names: assumed distinct per repo and side, though `repo-provider.git` is not injective.
- Processes, credentials, askpass, cache scrubbing, pack housekeeping, the directory swap of a clone: only "objects stay closed" remains.
- Timeouts, contexts, task draining and shutdown: real time and library behaviour.
- Slack texts, console pages, JSON, HTTP statuses, HMAC and token checks: only the decisions remain.
- Validation of ports, body sizes, webhooks and consumers, and host normalisation: nothing else here depends on them.
- Queue polling and webhook decoding: events arrive in any order, any number of times.
- A partially written history line: a failed write leaves the file as it was.
