/** First-match dispatch is well defined: which leg an event or a recorded row selects
 * does not depend on the order of the configuration, and a row never selects the leg
 * opposite to the one that wrote it.
 */
module Dispatch {
  import opened Config
  import opened Events
  import opened Routing
  import opened Text

  // ---- a row names the leg that wrote it -------------------------------------------

  lemma {:induction false} FindRepoByMember(repos: seq<RepoConfig>, r: RepoConfig)
    requires r in repos && Distinct(Names(repos))
    ensures FindRepo(repos, r.name) == Some(r)
  {
    if repos[0].name == r.name {
      var i :| 0 <= i < |repos| && repos[i] == r;
      assert Names(repos)[0] == Names(repos)[i];
    } else {
      forall i, j | 0 <= i < j < |repos| - 1 ensures Names(repos[1..])[i] != Names(repos[1..])[j] {
        assert Names(repos)[i + 1] != Names(repos)[j + 1];
      }
      FindRepoByMember(repos[1..], r);
    }
  }

  /** Acting on a recorded destination, in either notation, either runs exactly the leg
      that recorded it or refuses; it is accepted precisely when the destination does
      not also name the other side and the leg is permitted. */
  lemma RowNeverInverts(providers: map<string, string>, repos: seq<RepoConfig>, leg: Leg, to: string,
                        refName: string, glob: Glob)
    requires leg.repo in repos && Distinct(Names(repos)) && leg.repo.source != leg.repo.target
    requires ValidDirection(Lower(leg.repo.direction))
    requires to == Endpoint(leg.ToProvider(), leg.ToPath()) ||
             to == LegacyEndpoint(providers, leg.ToProvider(), leg.ToPath())
    ensures var name, ambiguous := leg.repo.name, EndpointAmbiguous(providers, leg.repo, to);
      && ForcePush(providers, repos, name, to) ==
           (if ambiguous then Refuse(UnknownSide)
            else if leg.Allowed() then Run(leg) else Refuse(DirectionRefused(name)))
      && RestoreRef(providers, repos, name, to, refName, glob) ==
           (if ambiguous then Refuse(UnknownSide)
            else if !leg.Allowed() then Refuse(DirectionRefused(name))
            else if leg.Blocks(refName, glob) then Refuse(RefOverridden)
            else Run(leg))
      && (DirectionTo(providers, repos, name, to).Direction? <==> !ambiguous && leg.Allowed())
      && (DirectionTo(providers, repos, name, to).Direction? ==>
            var dir := DirectionTo(providers, repos, name, to).dir;
            dir == RetryDirectionFor(leg.repo, leg.FromProvider(), leg.ToProvider())
            && Retry(repos, name, dir) == Run(leg))
  {
    FindRepoByMember(repos, leg.repo);
    LowerConstants();
    hide Distinct, FindRepo, Lower, TrimSpace, LegacyEndpoint, Endpoint;
  }

  lemma LowerConstants()
    ensures Lower(SOURCE_TO_TARGET) == SOURCE_TO_TARGET && TrimSpace(SOURCE_TO_TARGET) == SOURCE_TO_TARGET
    ensures Lower(TARGET_TO_SOURCE) == TARGET_TO_SOURCE && TrimSpace(TARGET_TO_SOURCE) == TARGET_TO_SOURCE
    ensures SOURCE_TO_TARGET != TARGET_TO_SOURCE && SOURCE_TO_TARGET != "auto" && TARGET_TO_SOURCE != "auto"
    ensures SOURCE_TO_TARGET != "" && TARGET_TO_SOURCE != "" && BIDIRECTIONAL !in [SOURCE_TO_TARGET, TARGET_TO_SOURCE]
  {
    assert SOURCE_TO_TARGET[0] == 's' && TARGET_TO_SOURCE[0] == 't' && BIDIRECTIONAL[0] == 'b';
    TrimSpaceIdentity(SOURCE_TO_TARGET);
    TrimSpaceIdentity(TARGET_TO_SOURCE);
  }

  lemma {:induction false} KeyPositions(repos: seq<RepoConfig>, r: RepoConfig) returns (i: nat)
    requires r in repos
    ensures i < |repos| && repos[i] == r
    ensures EndpointKeys(repos)[2 * i] == SourceKey(r) && EndpointKeys(repos)[2 * i + 1] == TargetKey(r)
  {
    i :| 0 <= i < |repos| && repos[i] == r;
  }

  /** A row in the current notation is ambiguous only when the other side's *type* spells
      this side's name over the same path; validation rules out every other collision. */
  lemma CurrentNotationAmbiguity(providers: map<string, string>, repos: seq<RepoConfig>, leg: Leg)
    requires leg.repo in repos && Distinct(EndpointKeys(repos))
    ensures var other := Leg(leg.repo, !leg.toTarget);
      EndpointAmbiguous(providers, leg.repo, Endpoint(leg.ToProvider(), leg.ToPath())) <==>
      LegacyEndpoint(providers, other.ToProvider(), other.ToPath()) == Endpoint(leg.ToProvider(), leg.ToPath())
  {
    var i := KeyPositions(repos, leg.repo);
    assert EndpointKeys(repos)[2 * i] != EndpointKeys(repos)[2 * i + 1];
  }

  // ---- the order of the repo list --------------------------------------------------

  /** Whether an event with this key and path is answered by this entry. */
  predicate Claims(providers: map<string, string>, r: RepoConfig, key: string, repoPath: string) {
    MatchesTarget(providers, r, key, repoPath) || MatchesSource(providers, r, key, repoPath)
  }

  /** What the entry answers, target side first. */
  function Answer(providers: map<string, string>, r: RepoConfig, key: string, repoPath: string): Route {
    RunIfAllowed(Leg(r, !MatchesTarget(providers, r, key, repoPath)))
  }

  function DeleteAnswer(providers: map<string, string>, r: RepoConfig, key: string, repoPath: string,
                        refName: string, glob: Glob): Route {
    DeleteIfAllowed(Leg(r, !MatchesTarget(providers, r, key, repoPath)), refName, glob)
  }

  predicate KnownProviders(providers: map<string, string>, repos: seq<RepoConfig>) {
    forall r :: r in repos ==> r.source in providers && r.target in providers
  }

  ghost predicate UniqueClaim(providers: map<string, string>, repos: seq<RepoConfig>, key: string, repoPath: string) {
    forall r, s ::
      r in repos && s in repos && Claims(providers, r, key, repoPath) && Claims(providers, s, key, repoPath) ==> r == s
  }

  lemma {:induction false} UniqueClaimAnswers(providers: map<string, string>, repos: seq<RepoConfig>, key: string,
                                              repoPath: string, r: RepoConfig, refName: string, glob: Glob)
    requires KnownProviders(providers, repos) && UniqueClaim(providers, repos, key, repoPath)
    requires r in repos && Claims(providers, r, key, repoPath)
    ensures SyncByTarget(providers, repos, key, repoPath) == Answer(providers, r, key, repoPath)
    ensures SyncDeleteByTarget(providers, repos, key, repoPath, refName, glob) ==
      DeleteAnswer(providers, r, key, repoPath, refName, glob)
  {
    hide SideMatches, RunIfAllowed, DeleteIfAllowed;
    if Claims(providers, repos[0], key, repoPath) {
      assert repos[0] in repos;
    } else {
      assert repos[0] in repos;
      UniqueClaimAnswers(providers, repos[1..], key, repoPath, r, refName, glob);
    }
  }

  lemma {:induction false} NoClaimAnswers(providers: map<string, string>, repos: seq<RepoConfig>, key: string,
                                          repoPath: string, refName: string, glob: Glob)
    requires KnownProviders(providers, repos)
    requires forall r :: r in repos ==> !Claims(providers, r, key, repoPath)
    ensures SyncByTarget(providers, repos, key, repoPath) == Refuse(NoMatchingRepo)
    ensures SyncDeleteByTarget(providers, repos, key, repoPath, refName, glob) == Refuse(NoMatchingRepo)
  {
    hide SideMatches, RunIfAllowed, DeleteIfAllowed;
    if repos != [] {
      assert repos[0] in repos;
      NoClaimAnswers(providers, repos[1..], key, repoPath, refName, glob);
    }
  }

  lemma SameMembers<T>(a: seq<T>, b: seq<T>)
    requires multiset(a) == multiset(b)
    ensures forall x :: x in a <==> x in b
  {
    forall x ensures x in a <==> x in b {
      assert x in a <==> x in multiset(a);
      assert x in b <==> x in multiset(b);
    }
  }

  lemma UniqueClaimIgnoresOrder(providers: map<string, string>, repos: seq<RepoConfig>, p: seq<RepoConfig>,
                                key: string, repoPath: string, refName: string, glob: Glob)
    requires KnownProviders(providers, repos) && UniqueClaim(providers, repos, key, repoPath)
    requires multiset(p) == multiset(repos)
    ensures SyncByTarget(providers, p, key, repoPath) == SyncByTarget(providers, repos, key, repoPath)
    ensures SyncDeleteByTarget(providers, p, key, repoPath, refName, glob) ==
            SyncDeleteByTarget(providers, repos, key, repoPath, refName, glob)
  {
    SameMembers(p, repos);
    if r :| r in repos && Claims(providers, r, key, repoPath) {
      UniqueClaimAnswers(providers, repos, key, repoPath, r, refName, glob);
      UniqueClaimAnswers(providers, p, key, repoPath, r, refName, glob);
    } else {
      NoClaimAnswers(providers, repos, key, repoPath, refName, glob);
      NoClaimAnswers(providers, p, key, repoPath, refName, glob);
    }
  }

  /** Reorders a list so that the element at `i` comes first. */
  function ToFront<T>(s: seq<T>, i: nat): (r: seq<T>)
    requires i < |s|
    ensures multiset(r) == multiset(s) && r[0] == s[i]
  {
    assert s == s[..i] + [s[i]] + s[i + 1..];
    [s[i]] + s[..i] + s[i + 1..]
  }

  /** Two entries claiming one event are answered differently by two orders of the list. */
  lemma TwoClaimsTwoAnswers(providers: map<string, string>, repos: seq<RepoConfig>, key: string, repoPath: string,
                            r: RepoConfig, s: RepoConfig) returns (front: seq<RepoConfig>, back: seq<RepoConfig>)
    requires KnownProviders(providers, repos) && Distinct(Names(repos)) && r in repos && s in repos && r != s
    requires Claims(providers, r, key, repoPath) && Claims(providers, s, key, repoPath)
    ensures multiset(front) == multiset(back) == multiset(repos)
    ensures SyncByTarget(providers, front, key, repoPath) != SyncByTarget(providers, back, key, repoPath)
  {
    var i :| 0 <= i < |repos| && repos[i] == r;
    var j :| 0 <= j < |repos| && repos[j] == s;
    assert Names(repos)[i] != Names(repos)[j];
    hide Distinct, Claims;
    front, back := ToFront(repos, i), ToFront(repos, j);
    assert SyncByTarget(providers, front, key, repoPath) == Answer(providers, r, key, repoPath);
    assert SyncByTarget(providers, back, key, repoPath) == Answer(providers, s, key, repoPath);
  }

  /** Dispatch ignores the order of the repo list exactly when no two entries answer the
      same event. */
  lemma OrderIrrelevantExactly(providers: map<string, string>, repos: seq<RepoConfig>, key: string, repoPath: string)
    requires KnownProviders(providers, repos) && Distinct(Names(repos))
    ensures UniqueClaim(providers, repos, key, repoPath) <==>
      forall p: seq<RepoConfig> :: multiset(p) == multiset(repos) ==>
        SyncByTarget(providers, p, key, repoPath) == SyncByTarget(providers, repos, key, repoPath)
  {
    hide Claims, SyncByTarget, KnownProviders, Distinct;
    if UniqueClaim(providers, repos, key, repoPath) {
      var glob: Glob := (a, b) => false;
      forall p: seq<RepoConfig> | multiset(p) == multiset(repos)
        ensures SyncByTarget(providers, p, key, repoPath) == SyncByTarget(providers, repos, key, repoPath)
      {
        UniqueClaimIgnoresOrder(providers, repos, p, key, repoPath, "", glob);
      }
    } else {
      var r, s :| r in repos && s in repos && Claims(providers, r, key, repoPath) &&
        Claims(providers, s, key, repoPath) && r != s;
      var front, back := TwoClaimsTwoAnswers(providers, repos, key, repoPath, r, s);
    }
  }

  lemma DistinctPositions<T>(s: seq<T>, a: nat, b: nat)
    requires Distinct(s) && a < |s| && b < |s| && s[a] == s[b]
    ensures a == b
  {
  }

  /** An entry answering a provider-name key does so under one of its own dispatch keys. */
  lemma ClaimedKey(providers: map<string, string>, repos: seq<RepoConfig>, r: RepoConfig, key: string, repoPath: string)
    returns (a: nat)
    requires r in repos && Claims(providers, r, key, repoPath)
    requires forall p :: p in providers ==> providers[p] != key
    ensures a < 2 * |repos| && repos[a / 2] == r && EndpointKeys(repos)[a] == key + "/" + repoPath
  {
    var i := KeyPositions(repos, r);
    hide EndpointKeys;
    a := if MatchesTarget(providers, r, key, repoPath) then 2 * i + 1 else 2 * i;
  }

  /** The claim two entries would share is a dispatch key validation gives to one side of
      one entry, as long as the event's key is a provider name and no provider's type. */
  lemma ProviderNameClaimsOnce(providers: map<string, string>, repos: seq<RepoConfig>, key: string, repoPath: string)
    requires Distinct(EndpointKeys(repos))
    requires forall p :: p in providers ==> providers[p] != key
    ensures UniqueClaim(providers, repos, key, repoPath)
  {
    forall r, s | r in repos && s in repos && Claims(providers, r, key, repoPath) && Claims(providers, s, key, repoPath)
      ensures r == s
    {
      hide Claims, Distinct;
      var a := ClaimedKey(providers, repos, r, key, repoPath);
      var b := ClaimedKey(providers, repos, s, key, repoPath);
      DistinctPositions(EndpointKeys(repos), a, b);
    }
  }

  /** On a validated configuration an event keyed by provider name selects the same leg
      whatever order the repos are listed in. */
  lemma ValidatedDispatchIgnoresOrder(cfg: Configuration, p: seq<RepoConfig>, key: string, repoPath: string,
                                      legalPattern: string -> bool, refName: string, glob: Glob)
    requires ValidConfig(cfg, legalPattern) && multiset(p) == multiset(cfg.repos)
    requires key in cfg.providers && forall q :: q in cfg.providers ==> cfg.providers[q] != key
    ensures SyncByTarget(cfg.providers, p, key, repoPath) == SyncByTarget(cfg.providers, cfg.repos, key, repoPath)
    ensures SyncDeleteByTarget(cfg.providers, p, key, repoPath, refName, glob) ==
            SyncDeleteByTarget(cfg.providers, cfg.repos, key, repoPath, refName, glob)
  {
    hide ValidRetryDirection, ValidOverrides, ValidDirection, EndpointKeys, Names, Distinct;
    ProviderNameClaimsOnce(cfg.providers, cfg.repos, key, repoPath);
    UniqueClaimIgnoresOrder(cfg.providers, cfg.repos, p, key, repoPath, refName, glob);
  }

  // ---- source-side events match on the path alone ------------------------------------

  ghost predicate UniqueSourcePath(repos: seq<RepoConfig>, path: string) {
    forall r, s :: r in repos && s in repos && r.sourcePath == path && s.sourcePath == path ==> r == s
  }

  lemma {:induction false} SourcePathAnswers(repos: seq<RepoConfig>, path: string, r: RepoConfig)
    requires UniqueSourcePath(repos, path) && r in repos && r.sourcePath == path
    ensures Sync(repos, path) == RunIfAllowed(Leg(r, true))
  {
    assert repos[0] in repos;
    if repos[0].sourcePath != path { SourcePathAnswers(repos[1..], path, r); }
  }

  lemma {:induction false} NoSourcePathAnswers(repos: seq<RepoConfig>, path: string)
    requires forall r :: r in repos ==> r.sourcePath != path
    ensures Sync(repos, path) == Refuse(NotConfigured)
  {
    if repos != [] {
      assert repos[0] in repos;
      NoSourcePathAnswers(repos[1..], path);
    }
  }

  lemma UniqueSourcePathIgnoresOrder(repos: seq<RepoConfig>, p: seq<RepoConfig>, path: string)
    requires UniqueSourcePath(repos, path) && multiset(p) == multiset(repos)
    ensures Sync(p, path) == Sync(repos, path)
  {
    SameMembers(p, repos);
    if r :| r in repos && r.sourcePath == path {
      SourcePathAnswers(repos, path, r);
      SourcePathAnswers(p, path, r);
    } else {
      NoSourcePathAnswers(repos, path);
      NoSourcePathAnswers(p, path);
    }
  }

  /** Validation does not make source paths distinct, so a source-side event is dispatched
      independently of the list's order exactly when one entry carries its path. */
  lemma SourceSideOrderExactly(repos: seq<RepoConfig>, path: string)
    requires Distinct(Names(repos))
    ensures UniqueSourcePath(repos, path) <==>
      forall p: seq<RepoConfig> :: multiset(p) == multiset(repos) ==> Sync(p, path) == Sync(repos, path)
  {
    if UniqueSourcePath(repos, path) {
      forall p: seq<RepoConfig> | multiset(p) == multiset(repos) ensures Sync(p, path) == Sync(repos, path) {
        UniqueSourcePathIgnoresOrder(repos, p, path);
      }
    } else {
      var r, s :| r in repos && s in repos && r.sourcePath == path && s.sourcePath == path && r != s;
      var i :| 0 <= i < |repos| && repos[i] == r;
      var j :| 0 <= j < |repos| && repos[j] == s;
      assert Names(repos)[i] != Names(repos)[j];
      hide Distinct, UniqueSourcePath;
      var front, back := ToFront(repos, i), ToFront(repos, j);
      AnswersDiffer(r, s);
      assert Sync(front, path) == RunIfAllowed(Leg(r, true));
      assert Sync(back, path) == RunIfAllowed(Leg(s, true));
    }
  }

  lemma AnswersDiffer(r: RepoConfig, s: RepoConfig)
    requires r.name != s.name
    ensures RunIfAllowed(Leg(r, true)) != RunIfAllowed(Leg(s, true))
  {
    hide AllowsSourceToTarget;
  }
}
