/** What every entry point answers, in the terms of the configuration: which entry, which way
 * round, and when it refuses.
 */
module Answers {
  import opened Config
  import opened Dispatch
  import opened Events
  import opened Routing
  import opened Text

  predicate MayWriteTarget(r: RepoConfig) { Lower(r.direction) in [SOURCE_TO_TARGET, BIDIRECTIONAL] }

  predicate MayWriteSource(r: RepoConfig) { Lower(r.direction) in [TARGET_TO_SOURCE, BIDIRECTIONAL] }

  /** The first matching override keeps this ref from being written on the named side. */
  predicate KeptFrom(r: RepoConfig, refName: string, glob: Glob, from: string, to: string) {
    exists i: nat :: i < |r.refOverrides| && glob(r.refOverrides[i].pattern, refName)
      && (forall j :: 0 <= j < i ==> !glob(r.refOverrides[j].pattern, refName))
      && !(r.refOverrides[i].from == from && r.refOverrides[i].to == to)
  }

  lemma BlocksExactly(leg: Leg, refName: string, glob: Glob)
    ensures leg.Blocks(refName, glob) <==>
      KeptFrom(leg.repo, refName, glob, leg.FromProvider(), leg.ToProvider())
  {
    var ovs := leg.repo.refOverrides;
    if MatchRefOverride(ovs, refName, glob).Some? {
      MatchIsFirst(ovs, refName, glob);
      var i: nat :| i < |ovs| && MatchRefOverride(ovs, refName, glob) == Some(ovs[i])
        && forall j :: 0 <= j < i ==> !glob(ovs[j].pattern, refName);
      hide MatchRefOverride;
      assert leg.Blocks(refName, glob) <==> !(ovs[i].from == leg.FromProvider() && ovs[i].to == leg.ToProvider());
      OneFirstMatch(ovs, refName, glob, i);
    }
  }

  lemma OneFirstMatch(ovs: seq<RefOverride>, refName: string, glob: Glob, i: nat)
    requires i < |ovs| && glob(ovs[i].pattern, refName) && forall j :: 0 <= j < i ==> !glob(ovs[j].pattern, refName)
    ensures forall k: nat ::
      k < |ovs| && glob(ovs[k].pattern, refName) && (forall j :: 0 <= j < k ==> !glob(ovs[j].pattern, refName)) ==>
        k == i
  {
  }

  // ---- events --------------------------------------------------------------------------------------

  /** A push or a delete on the source side is answered by the first entry with its path: it goes
      to that entry's target if the direction permits; a delete of a ref pinned the other way is
      passed over in silence, before the direction is looked at. */
  lemma {:induction false} SourceEventExactly(repos: seq<RepoConfig>, path: string, i: nat, refName: string, glob: Glob)
    requires i < |repos| && repos[i].sourcePath == path && forall j :: 0 <= j < i ==> repos[j].sourcePath != path
    ensures var r := repos[i];
      var written := if MayWriteTarget(r) then Run(Leg(r, true)) else Refuse(DirectionRefused(r.name));
      && Sync(repos, path) == written
      && SyncDelete(repos, path, refName, glob) ==
           if KeptFrom(r, refName, glob, r.source, r.target) then Silent else written
  {
    if i == 0 {
      BlocksExactly(Leg(repos[0], true), refName, glob);
      hide KeptFrom, Lower;
    } else {
      hide KeptFrom, Lower;
      assert repos[0].sourcePath != path;
      SourceEventExactly(repos[1..], path, i - 1, refName, glob);
    }
  }

  lemma {:induction false} NoSourceEntry(repos: seq<RepoConfig>, path: string, refName: string, glob: Glob)
    requires forall r :: r in repos ==> r.sourcePath != path
    ensures Sync(repos, path) == Refuse(NotConfigured)
    ensures SyncDelete(repos, path, refName, glob) == Refuse(NotConfigured)
  {
    if repos != [] {
      assert repos[0] in repos;
      NoSourceEntry(repos[1..], path, refName, glob);
    }
  }

  /** The key is the provider's name or its type, and the path is its path. */
  predicate IsSide(providers: map<string, string>, provider: string, path: string, key: string, repoPath: string) {
    provider in providers && (key == provider || key == providers[provider]) && repoPath == path
  }

  predicate OnTarget(providers: map<string, string>, r: RepoConfig, key: string, repoPath: string) {
    IsSide(providers, r.target, r.targetPath, key, repoPath)
  }

  predicate OnSource(providers: map<string, string>, r: RepoConfig, key: string, repoPath: string) {
    IsSide(providers, r.source, r.sourcePath, key, repoPath)
  }

  /** A webhook event is answered by the first entry it is a side of, its target looked at first:
      it goes to the other side if the direction permits; a delete of a ref pinned the other way
      is then passed over in silence. */
  lemma {:induction false} WebhookEventExactly(providers: map<string, string>, repos: seq<RepoConfig>, key: string,
                                               path: string, i: nat, refName: string, glob: Glob)
    requires KnownProviders(providers, repos) && i < |repos|
    requires OnTarget(providers, repos[i], key, path) || OnSource(providers, repos[i], key, path)
    requires forall j :: 0 <= j < i ==>
      !OnTarget(providers, repos[j], key, path) && !OnSource(providers, repos[j], key, path)
    ensures var r := repos[i];
      var toTarget := !OnTarget(providers, r, key, path);
      var permitted := if toTarget then MayWriteTarget(r) else MayWriteSource(r);
      var kept := if toTarget then KeptFrom(r, refName, glob, r.source, r.target)
                  else KeptFrom(r, refName, glob, r.target, r.source);
      && SyncByTarget(providers, repos, key, path) ==
           (if permitted then Run(Leg(r, toTarget)) else Refuse(DirectionRefused(r.name)))
      && SyncDeleteByTarget(providers, repos, key, path, refName, glob) ==
           (if !permitted then Refuse(DirectionRefused(r.name)) else if kept then Silent else Run(Leg(r, toTarget)))
  {
    if i == 0 {
      BlocksExactly(Leg(repos[0], true), refName, glob);
      BlocksExactly(Leg(repos[0], false), refName, glob);
      hide KeptFrom, Lower;
    } else {
      hide KeptFrom, Lower;
      assert !OnTarget(providers, repos[0], key, path) && !OnSource(providers, repos[0], key, path);
      WebhookEventExactly(providers, repos[1..], key, path, i - 1, refName, glob);
    }
  }

  /** Were an entry's target provider unknown, a push would pass it over whichever side it is from. */
  lemma {:induction false} UnknownTargetIsPassedOver(providers: map<string, string>, repos: seq<RepoConfig>,
                                                     key: string, path: string, i: nat)
    requires i < |repos| && repos[i].target in providers
    requires OnTarget(providers, repos[i], key, path) || OnSource(providers, repos[i], key, path)
    requires forall j :: 0 <= j < i && repos[j].target in providers ==>
      !OnTarget(providers, repos[j], key, path) && !OnSource(providers, repos[j], key, path)
    ensures var r := repos[i];
      var toTarget := !OnTarget(providers, r, key, path);
      SyncByTarget(providers, repos, key, path) ==
      if (if toTarget then MayWriteTarget(r) else MayWriteSource(r)) then Run(Leg(r, toTarget))
      else Refuse(DirectionRefused(r.name))
  {
    hide Lower;
    if i > 0 { UnknownTargetIsPassedOver(providers, repos[1..], key, path, i - 1); }
  }

  lemma {:induction false} NoWebhookEntry(providers: map<string, string>, repos: seq<RepoConfig>, key: string,
                                          path: string, refName: string, glob: Glob)
    requires forall r :: r in repos ==> !OnTarget(providers, r, key, path) && !OnSource(providers, r, key, path)
    ensures SyncByTarget(providers, repos, key, path) == Refuse(NoMatchingRepo)
    ensures SyncDeleteByTarget(providers, repos, key, path, refName, glob) == Refuse(NoMatchingRepo)
  {
    if repos != [] {
      assert repos[0] in repos;
      NoWebhookEntry(providers, repos[1..], key, path, refName, glob);
    }
  }

  // ---- requests that name a repo ------------------------------------------------------------------------

  lemma {:induction false} FindRepoIsFirst(repos: seq<RepoConfig>, name: string, i: nat)
    requires i < |repos| && repos[i].name == name && forall j :: 0 <= j < i ==> repos[j].name != name
    ensures FindRepo(repos, name) == Some(repos[i])
  {
    if i > 0 {
      assert repos[0].name != name;
      FindRepoIsFirst(repos[1..], name, i - 1);
    }
  }

  /** What a retry asks for: nothing in particular, one way, or something else. */
  function Asked(direction: string): string { Lower(TrimSpace(direction)) }

  /** Without a direction, or with `auto`, a retry of a valid entry always runs: the pinned retry
      direction, else the one a one-way repo has, else target to source. */
  lemma AutoRetryExactly(providers: map<string, string>, repos: seq<RepoConfig>, i: nat, direction: string,
                         legalPattern: string -> bool)
    requires i < |repos| && forall j :: 0 <= j < i ==> repos[j].name != repos[i].name
    requires ValidRepo(repos[i], providers, legalPattern) && Asked(direction) in ["", "auto"]
    ensures var r := repos[i];
      Retry(repos, r.name, direction) ==
      Run(Leg(r, if r.retryDirection != "" then Lower(r.retryDirection) == SOURCE_TO_TARGET
                 else Lower(r.direction) == SOURCE_TO_TARGET))
  {
    var r := repos[i];
    FindRepoIsFirst(repos, r.name, i);
    LowerIdempotent(r.retryDirection);
    LowerConstants();
    hide TrimSpace, Lower, ValidOverrides, FindRepo;
  }

  /** A stated direction runs that leg if the entry permits it; anything else is refused. */
  lemma StatedRetryExactly(repos: seq<RepoConfig>, i: nat, direction: string)
    requires i < |repos| && forall j :: 0 <= j < i ==> repos[j].name != repos[i].name
    requires ValidDirection(Lower(repos[i].direction)) && Asked(direction) !in ["", "auto"]
    ensures var r, asked := repos[i], Asked(direction);
      var route := Retry(repos, r.name, direction);
      && (asked == SOURCE_TO_TARGET ==>
            route == if MayWriteTarget(r) then Run(Leg(r, true)) else Refuse(DirectionRefused(r.name)))
      && (asked == TARGET_TO_SOURCE ==>
            route == if MayWriteSource(r) then Run(Leg(r, false)) else Refuse(DirectionRefused(r.name)))
      && (asked !in [SOURCE_TO_TARGET, TARGET_TO_SOURCE] ==> route.Refuse?)
  {
    FindRepoIsFirst(repos, repos[i].name, i);
    LowerIdempotent(TrimSpace(direction));
    LowerConstants();
    hide TrimSpace, Lower, FindRepo;
  }

  /** The text is this end of the entry, under its provider's name or, as older rows have it,
      under its type. */
  predicate Spells(providers: map<string, string>, provider: string, path: string, text: string) {
    text == provider + "/" + path || (provider in providers && text == providers[provider] + "/" + path)
  }

  /** A force, a restore and the direction of a re-run button take the side a row names as the one
      to write, and refuse when it names neither or both. */
  lemma NamedSideExactly(providers: map<string, string>, repos: seq<RepoConfig>, i: nat, to: string, refName: string,
                         glob: Glob)
    requires i < |repos| && forall j :: 0 <= j < i ==> repos[j].name != repos[i].name
    requires ValidDirection(Lower(repos[i].direction))
    ensures var r := repos[i];
      var target, source := Spells(providers, r.target, r.targetPath, to),
        Spells(providers, r.source, r.sourcePath, to);
      var permitted := if target then MayWriteTarget(r) else MayWriteSource(r);
      var kept := if target then KeptFrom(r, refName, glob, r.source, r.target)
                  else KeptFrom(r, refName, glob, r.target, r.source);
      && ForcePush(providers, repos, r.name, to) ==
           (if target == source then Refuse(UnknownSide)
            else if permitted then Run(Leg(r, target)) else Refuse(DirectionRefused(r.name)))
      && RestoreRef(providers, repos, r.name, to, refName, glob) ==
           (if target == source then Refuse(UnknownSide)
            else if !permitted then Refuse(DirectionRefused(r.name))
            else if kept then Refuse(RefOverridden) else Run(Leg(r, target)))
      && DirectionTo(providers, repos, r.name, to) ==
           (if target == source then NoDirection(UnknownSide)
            else if permitted then Direction(if target then SOURCE_TO_TARGET else TARGET_TO_SOURCE)
            else NoDirection(DirectionRefused(r.name)))
  {
    var r := repos[i];
    FindRepoIsFirst(repos, r.name, i);
    BlocksExactly(Leg(r, true), refName, glob);
    BlocksExactly(Leg(r, false), refName, glob);
    LowerConstants();
    hide KeptFrom, Lower, FindRepo;
    SpelledExactly(providers, r.target, r.targetPath, to);
    SpelledExactly(providers, r.source, r.sourcePath, to);
    hide EndpointMatches, Spells;
  }

  lemma SpelledExactly(providers: map<string, string>, provider: string, path: string, text: string)
    ensures EndpointMatches(providers, provider, path, text) <==> Spells(providers, provider, path, text)
  {
  }

  lemma UnknownRepoExactly(providers: map<string, string>, repos: seq<RepoConfig>, name: string, text: string,
                           refName: string, glob: Glob)
    requires forall r :: r in repos ==> r.name != name
    ensures Retry(repos, name, text) == Refuse(NotConfigured)
    ensures ForcePush(providers, repos, name, text) == Refuse(NotConfigured)
    ensures RestoreRef(providers, repos, name, text, refName, glob) == Refuse(NotConfigured)
    ensures DirectionTo(providers, repos, name, text) == NoDirection(NotConfigured)
  {
    FindRepoFinds(repos, name);
    hide TrimSpace, Lower, FindRepo;
  }

  // ---- what validation is for ------------------------------------------------------------------------------

  /** A ref an override pins can travel exactly one way round, and that way is permitted. */
  lemma PinnedRefHasOneLeg(r: RepoConfig, providers: map<string, string>, legalPattern: string -> bool, refName: string,
                           glob: Glob)
    requires ValidRepo(r, providers, legalPattern) && exists ov :: ov in r.refOverrides && glob(ov.pattern, refName)
    ensures KeptFrom(r, refName, glob, r.source, r.target) <==> !KeptFrom(r, refName, glob, r.target, r.source)
    ensures if KeptFrom(r, refName, glob, r.source, r.target) then MayWriteSource(r) else MayWriteTarget(r)
  {
    var ov := MatchRefOverride(r.refOverrides, refName, glob);
    BlocksExactly(Leg(r, true), refName, glob);
    BlocksExactly(Leg(r, false), refName, glob);
    hide KeptFrom, Lower, ValidRetryDirection, Distinct, MatchRefOverride;
    assert ValidOverride(r, ov.value, legalPattern);
  }
}
