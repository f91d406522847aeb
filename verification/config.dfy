/** The configuration: what a repo entry says, and what validation guarantees about it. */
module Config {
  import opened Events
  import opened Text

  const SOURCE_TO_TARGET := "source-to-target"
  const TARGET_TO_SOURCE := "target-to-source"
  const BIDIRECTIONAL := "bidirectional"

  /** `path.Match(pattern, name)` returning true without an error. */
  type Glob = (string, string) -> bool

  datatype RefOverride = RefOverride(pattern: string, from: string, to: string)

  datatype RepoConfig = RepoConfig(
    name: string, source: string, target: string, sourcePath: string, targetPath: string,
    direction: string, retryDirection: string, refOverrides: seq<RefOverride>)

  /** `providers` maps a provider's name to its type. */
  datatype Configuration = Configuration(providers: map<string, string>, repos: seq<RepoConfig>)

  /** The first override whose pattern matches the short ref name. */
  function MatchRefOverride(ovs: seq<RefOverride>, refName: string, glob: Glob): (r: Option<RefOverride>)
    ensures r.Some? ==> r.value in ovs && glob(r.value.pattern, refName)
    ensures r.None? <==> forall ov :: ov in ovs ==> !glob(ov.pattern, refName)
  {
    if ovs == [] then None
    else if glob(ovs[0].pattern, refName) then Some(ovs[0])
    else MatchRefOverride(ovs[1..], refName, glob)
  }

  /** The match is the earliest one: nothing before it in the document matches. */
  lemma {:induction false} MatchIsFirst(ovs: seq<RefOverride>, refName: string, glob: Glob)
    requires MatchRefOverride(ovs, refName, glob).Some?
    ensures exists i :: 0 <= i < |ovs| && MatchRefOverride(ovs, refName, glob) == Some(ovs[i]) &&
                        forall j :: 0 <= j < i ==> !glob(ovs[j].pattern, refName)
  {
    if glob(ovs[0].pattern, refName) {
    } else {
      MatchIsFirst(ovs[1..], refName, glob);
      var i :| 0 <= i < |ovs| - 1 && MatchRefOverride(ovs[1..], refName, glob) == Some(ovs[1..][i]) &&
               forall j :: 0 <= j < i ==> !glob(ovs[1..][j].pattern, refName);
      assert ovs[1..][i] == ovs[i + 1];
      forall j | 0 <= j < i + 1 ensures !glob(ovs[j].pattern, refName) {
        if j > 0 { assert ovs[j] == ovs[1..][j - 1]; }
      }
    }
  }

  // ---- what a valid configuration is ------------------------------------------

  predicate Distinct<T(==)>(s: seq<T>) {
    forall i, j :: 0 <= i < j < |s| ==> s[i] != s[j]
  }

  function SourceKey(r: RepoConfig): string { r.source + "/" + r.sourcePath }

  function TargetKey(r: RepoConfig): string { r.target + "/" + r.targetPath }

  /** Every (provider, path) dispatch key in document order, source before target. */
  function EndpointKeys(repos: seq<RepoConfig>): (r: seq<string>)
    ensures |r| == 2 * |repos|
    ensures forall i :: 0 <= i < |repos| ==> r[2 * i] == SourceKey(repos[i]) && r[2 * i + 1] == TargetKey(repos[i])
  {
    if repos == [] then []
    else
      var n := |repos| - 1;
      EndpointKeys(repos[..n]) + [SourceKey(repos[n]), TargetKey(repos[n])]
  }

  predicate ValidDirection(d: string) {
    d == SOURCE_TO_TARGET || d == TARGET_TO_SOURCE || d == BIDIRECTIONAL
  }

  predicate ValidRetryDirection(r: RepoConfig) {
    r.retryDirection == "" ||
    (var rd := Lower(r.retryDirection);
     && (rd == SOURCE_TO_TARGET || rd == TARGET_TO_SOURCE)
     && (Lower(r.direction) != BIDIRECTIONAL ==> rd == Lower(r.direction)))
  }

  /** An override pins one of the two legs, and one the repo's direction permits. */
  predicate ValidOverride(r: RepoConfig, ov: RefOverride, legalPattern: string -> bool) {
    && ov.pattern != "" && legalPattern(ov.pattern)
    && ov.from != "" && ov.to != "" && ov.from != ov.to
    && ((ov.from == r.source && ov.to == r.target) || (ov.from == r.target && ov.to == r.source))
    && (Lower(r.direction) == SOURCE_TO_TARGET ==> ov.from == r.source && ov.to == r.target)
    && (Lower(r.direction) == TARGET_TO_SOURCE ==> ov.from == r.target && ov.to == r.source)
  }

  function Patterns(ovs: seq<RefOverride>): (r: seq<string>)
    ensures |r| == |ovs|
  {
    seq(|ovs|, i requires 0 <= i < |ovs| => ovs[i].pattern)
  }

  function Names(repos: seq<RepoConfig>): (r: seq<string>)
    ensures |r| == |repos|
  {
    seq(|repos|, i requires 0 <= i < |repos| => repos[i].name)
  }

  predicate ValidSides(r: RepoConfig, providers: map<string, string>) {
    && r.name != "" && r.source != "" && r.target != ""
    && r.source in providers && r.target in providers && r.source != r.target
  }

  predicate ValidOverrides(r: RepoConfig, legalPattern: string -> bool) {
    && (forall ov :: ov in r.refOverrides ==> ValidOverride(r, ov, legalPattern))
    && Distinct(Patterns(r.refOverrides))
  }

  predicate ValidRepo(r: RepoConfig, providers: map<string, string>, legalPattern: string -> bool) {
    && ValidSides(r, providers) && ValidDirection(Lower(r.direction))
    && ValidRetryDirection(r) && ValidOverrides(r, legalPattern)
  }

  /** One end of an entry as a row names it. */
  function EndText(r: RepoConfig, target: bool): string {
    if target then r.target + "/" + r.targetPath else r.source + "/" + r.sourcePath
  }

  function EndIndex(i: nat, target: bool): nat { if target then 2 * i + 1 else 2 * i }

  lemma EndKey(repos: seq<RepoConfig>, i: nat, target: bool)
    requires i < |repos|
    ensures EndpointKeys(repos)[EndIndex(i, target)] == EndText(repos[i], target)
  {
    assert EndpointKeys(repos)[2 * i] == SourceKey(repos[i]) && EndpointKeys(repos)[2 * i + 1] == TargetKey(repos[i]);
  }

  lemma EndOf(k: nat) returns (i: nat, target: bool)
    ensures k == EndIndex(i, target)
  {
    i, target := k / 2, k % 2 == 1;
  }

  predicate EndsDiffer(repos: seq<RepoConfig>) {
    forall i: nat, j: nat, a: bool, b: bool ::
      i < |repos| && j < |repos| && (i != j || a != b) ==> EndText(repos[i], a) != EndText(repos[j], b)
  }

  /** The dispatch keys are distinct exactly when no two ends of the configuration read alike. */
  lemma EndpointsExactly(repos: seq<RepoConfig>)
    ensures Distinct(EndpointKeys(repos)) <==> EndsDiffer(repos)
  {
    var keys := EndpointKeys(repos);
    hide EndpointKeys, EndText;
    if Distinct(keys) {
      forall i: nat, j: nat, a: bool, b: bool | i < |repos| && j < |repos| && (i != j || a != b)
        ensures EndText(repos[i], a) != EndText(repos[j], b)
      {
        EndKey(repos, i, a);
        EndKey(repos, j, b);
        assert EndIndex(i, a) != EndIndex(j, b);
      }
    } else {
      var m, n :| 0 <= m < n < |keys| && keys[m] == keys[n];
      var i, a := EndOf(m);
      var j, b := EndOf(n);
      EndKey(repos, i, a);
      EndKey(repos, j, b);
    }
  }

  /** What an entry must be, spelled out. */
  lemma EntryExactly(r: RepoConfig, providers: map<string, string>, legalPattern: string -> bool)
    ensures ValidRepo(r, providers, legalPattern) <==>
      && r.name != "" && r.source != "" && r.target != "" && r.source != r.target
      && r.source in providers && r.target in providers
      && Lower(r.direction) in ["source-to-target", "target-to-source", "bidirectional"]
      && (r.retryDirection != "" ==>
            && Lower(r.retryDirection) in ["source-to-target", "target-to-source"]
            && Lower(r.direction) in ["bidirectional", Lower(r.retryDirection)])
      && (forall i, j :: 0 <= i < j < |r.refOverrides| ==> r.refOverrides[i].pattern != r.refOverrides[j].pattern)
      && (forall ov :: ov in r.refOverrides ==>
            && ov.pattern != "" && legalPattern(ov.pattern)
            && ((ov.from == r.source && ov.to == r.target && Lower(r.direction) != "target-to-source") ||
                (ov.from == r.target && ov.to == r.source && Lower(r.direction) != "source-to-target")))
  {
    hide Lower;
    forall i, j | 0 <= i < j < |r.refOverrides|
      ensures r.refOverrides[i].pattern != r.refOverrides[j].pattern <==>
              Patterns(r.refOverrides)[i] != Patterns(r.refOverrides)[j]
    {}
  }

  predicate ValidConfig(cfg: Configuration, legalPattern: string -> bool) {
    && cfg.repos != []
    && (forall r :: r in cfg.repos ==> ValidRepo(r, cfg.providers, legalPattern))
    && Distinct(Names(cfg.repos))
    && Distinct(EndpointKeys(cfg.repos))
  }

  // ---- validation -------------------------------------------------------------

  /** `path.Match(pattern, "x")` not failing is what `legalPattern` stands for. */
  method ValidateOverrides(r: RepoConfig, legalPattern: string -> bool) returns (ok: bool)
    requires ValidDirection(Lower(r.direction))
    ensures ok <==> ValidOverrides(r, legalPattern)
  {
    var dir := Lower(r.direction);
    var seenPatterns: set<string> := {};
    for j := 0 to |r.refOverrides|
      invariant forall k :: 0 <= k < j ==> ValidOverride(r, r.refOverrides[k], legalPattern)
      invariant Distinct(Patterns(r.refOverrides)[..j])
      invariant forall p :: p in seenPatterns <==> p in Patterns(r.refOverrides)[..j]
    {
      var ov := r.refOverrides[j];
      assert ov in r.refOverrides;
      assert Patterns(r.refOverrides)[j] == ov.pattern;
      if ov.pattern == "" { return false; }
      if ov.pattern in seenPatterns {
        var k :| 0 <= k < j && Patterns(r.refOverrides)[..j][k] == ov.pattern;
        assert Patterns(r.refOverrides)[k] == Patterns(r.refOverrides)[j];
        return false;
      }
      seenPatterns := seenPatterns + {ov.pattern};
      if !legalPattern(ov.pattern) { return false; }
      if ov.from == "" || ov.to == "" { return false; }
      if ov.from == ov.to { return false; }
      var isSrcToTgt := ov.from == r.source && ov.to == r.target;
      var isTgtToSrc := ov.from == r.target && ov.to == r.source;
      if !isSrcToTgt && !isTgtToSrc { return false; }
      if dir == SOURCE_TO_TARGET && !isSrcToTgt { return false; }
      if dir == TARGET_TO_SOURCE && !isTgtToSrc { return false; }
      assert Patterns(r.refOverrides)[..j + 1] == Patterns(r.refOverrides)[..j] + [ov.pattern];
    }
    assert Patterns(r.refOverrides)[..|r.refOverrides|] == Patterns(r.refOverrides);
    return true;
  }

  method ValidateRetryDirection(r: RepoConfig) returns (ok: bool)
    ensures ok <==> ValidRetryDirection(r)
  {
    if r.retryDirection == "" { return true; }
    var rd := Lower(r.retryDirection);
    if rd != SOURCE_TO_TARGET && rd != TARGET_TO_SOURCE { return false; }
    if Lower(r.direction) != BIDIRECTIONAL && rd != Lower(r.direction) { return false; }
    return true;
  }

  lemma KeysGrow(repos: seq<RepoConfig>, i: nat)
    requires i < |repos|
    ensures EndpointKeys(repos[..i + 1]) == EndpointKeys(repos[..i]) + [SourceKey(repos[i]), TargetKey(repos[i])]
  {
    assert repos[..i + 1][..i] == repos[..i];
  }

  lemma {:induction false} KeysPrefix(repos: seq<RepoConfig>, i: nat)
    requires i <= |repos|
    ensures EndpointKeys(repos[..i]) == EndpointKeys(repos)[..2 * i]
  {
    assert forall k :: 0 <= k < i ==> repos[..i][k] == repos[k];
    forall k | 0 <= k < 2 * i ensures EndpointKeys(repos[..i])[k] == EndpointKeys(repos)[k] {
      var h := k / 2;
      assert 0 <= h < i && (k == 2 * h || k == 2 * h + 1);
      assert EndpointKeys(repos[..i])[2 * h] == SourceKey(repos[..i][h]) == EndpointKeys(repos)[2 * h];
      assert EndpointKeys(repos[..i])[2 * h + 1] == TargetKey(repos[..i][h]) == EndpointKeys(repos)[2 * h + 1];
    }
  }

  lemma DistinctSnoc<T>(s: seq<T>, x: T)
    ensures Distinct(s + [x]) <==> Distinct(s) && x !in s
  {
    if Distinct(s + [x]) {
      forall i, j | 0 <= i < j < |s| ensures s[i] != s[j] {
        assert (s + [x])[i] == s[i] && (s + [x])[j] == s[j];
      }
      forall i | 0 <= i < |s| ensures s[i] != x { assert (s + [x])[i] == s[i] && (s + [x])[|s|] == x; }
    }
  }

  lemma RepeatedKeysStay(repos: seq<RepoConfig>, i: nat)
    requires i <= |repos|
    ensures Distinct(EndpointKeys(repos)) ==> Distinct(EndpointKeys(repos[..i]))
  {
    KeysPrefix(repos, i);
    hide EndpointKeys;
  }

  /** Claims the two dispatch keys of entry `i`, refusing a second claimant of either. */
  method ClaimEndpoints(repos: seq<RepoConfig>, i: nat, seen: set<string>) returns (ok: bool, seen': set<string>)
    requires i < |repos| && Distinct(EndpointKeys(repos[..i]))
    requires forall k :: k in seen <==> k in EndpointKeys(repos[..i])
    ensures ok <==> Distinct(EndpointKeys(repos[..i + 1]))
    ensures ok ==> forall k :: k in seen' <==> k in EndpointKeys(repos[..i + 1])
  {
    var keys, source, target := EndpointKeys(repos[..i]), SourceKey(repos[i]), TargetKey(repos[i]);
    KeysGrow(repos, i);
    DistinctSnoc(keys, source);
    DistinctSnoc(keys + [source], target);
    assert keys + [source] + [target] == EndpointKeys(repos[..i + 1]);
    hide EndpointKeys, SourceKey, TargetKey, Distinct;
    seen' := seen;
    if source in seen' { return false, seen'; }
    seen' := seen' + {source};
    if target in seen' { return false, seen'; }
    seen' := seen' + {target};
    ok := true;
  }

  /** One repo entry on its own: everything but its name and its endpoints. */
  method ValidateOne(r: RepoConfig, providers: map<string, string>, legalPattern: string -> bool) returns (ok: bool)
    ensures ok <==> ValidRepo(r, providers, legalPattern)
  {
    hide ValidRetryDirection, ValidOverrides, Lower;
    if r.name == "" { return false; }
    if r.source == "" || r.target == "" { return false; }
    if r.source !in providers { return false; }
    if r.target !in providers { return false; }
    if r.source == r.target { return false; }
    if !ValidDirection(Lower(r.direction)) { return false; }
    ok := ValidateRetryDirection(r);
    if !ok { return; }
    ok := ValidateOverrides(r, legalPattern);
  }

  lemma NamesGrow(repos: seq<RepoConfig>, i: nat)
    requires i < |repos|
    ensures Names(repos)[..i + 1] == Names(repos)[..i] + [repos[i].name]
    ensures repos[i].name in Names(repos)[..i] ==> !Distinct(Names(repos))
    ensures Distinct(Names(repos)[..i]) && repos[i].name !in Names(repos)[..i] ==> Distinct(Names(repos)[..i + 1])
  {
    DistinctSnoc(Names(repos)[..i], repos[i].name);
  }

  /** The repo, endpoint and override part of startup validation, entry by entry. The program
      interleaves the checks of one entry a little differently; the verdict is the same. */
  method Validate(cfg: Configuration, legalPattern: string -> bool) returns (ok: bool)
    ensures ok <==> ValidConfig(cfg, legalPattern)
  {
    hide ValidRepo, EndpointKeys, Names, Distinct;
    if cfg.repos == [] { return false; }
    var repoNames: set<string> := {};
    var seenEndpoints: set<string> := {};
    NoKeys(cfg.repos);
    for i := 0 to |cfg.repos|
      invariant forall k :: 0 <= k < i ==> ValidRepo(cfg.repos[k], cfg.providers, legalPattern)
      invariant Distinct(Names(cfg.repos)[..i])
      invariant forall n :: n in repoNames <==> n in Names(cfg.repos)[..i]
      invariant Distinct(EndpointKeys(cfg.repos[..i]))
      invariant forall k :: k in seenEndpoints <==> k in EndpointKeys(cfg.repos[..i])
    {
      var r := cfg.repos[i];
      assert r in cfg.repos;
      NamesGrow(cfg.repos, i);
      RepeatedKeysStay(cfg.repos, i + 1);
      if r.name in repoNames { return false; }
      repoNames := repoNames + {r.name};
      ok, seenEndpoints := ClaimEndpoints(cfg.repos, i, seenEndpoints);
      if !ok { return false; }
      ok := ValidateOne(r, cfg.providers, legalPattern);
      if !ok { return false; }
    }
    assert Names(cfg.repos)[..|cfg.repos|] == Names(cfg.repos);
    assert cfg.repos[..|cfg.repos|] == cfg.repos;
    return true;
  }

  lemma NoKeys(repos: seq<RepoConfig>)
    ensures EndpointKeys(repos[..0]) == [] && Distinct(EndpointKeys(repos[..0]))
    ensures Distinct(Names(repos)[..0])
  {
  }

  // ---- directions -------------------------------------------------------------

  predicate AllowsSourceToTarget(direction: string) {
    Lower(direction) == SOURCE_TO_TARGET || Lower(direction) == BIDIRECTIONAL
  }

  predicate AllowsTargetToSource(direction: string) {
    Lower(direction) == TARGET_TO_SOURCE || Lower(direction) == BIDIRECTIONAL
  }

  // ---- the host index ---------------------------------------------------------

  /** The providers whose base URL has this host; `hosts` holds normalised hosts and ""
      for a provider without one. */
  function Claimants(hosts: map<string, string>, host: string): set<string> {
    set p | p in hosts && hosts[p] == host
  }

  /** The index of hosts to provider names, whatever order the map is walked in: a host
      is indexed exactly when one provider claims it, and maps to that provider. */
  method HostResolver(hosts: map<string, string>) returns (index: map<string, string>)
    ensures forall h :: h in index <==> h != "" && exists p :: Claimants(hosts, h) == {p}
    ensures forall h :: h in index ==> Claimants(hosts, h) == {index[h]}
  {
    index := map[];
    var ambiguous: set<string> := {};
    var todo := hosts.Keys;
    ghost var done: set<string> := {};
    while todo != {}
      invariant done + todo == hosts.Keys && done !! todo
      invariant forall h :: h in index <==> h != "" && exists p :: p in done && hosts[p] == h
      invariant forall h :: h in index ==> index[h] in done && hosts[index[h]] == h
      invariant forall h :: h in ambiguous ==> h in index && exists p :: p in done && hosts[p] == h && p != index[h]
      invariant forall h, p :: h in index && h !in ambiguous && p in done && hosts[p] == h ==> p == index[h]
    {
      var name :| name in todo;
      todo := todo - {name};
      done := done + {name};
      var host := hosts[name];
      if host == "" { continue; }
      if host in index {
        ambiguous := ambiguous + {host};
        continue;
      }
      index := index[host := name];
    }
    ghost var full := index;
    index := map h | h in index && h !in ambiguous :: index[h];
    forall h | h in index ensures Claimants(hosts, h) == {index[h]} {
      assert index[h] in Claimants(hosts, h);
    }
    forall h | h != "" && exists p :: Claimants(hosts, h) == {p} ensures h in index {
      var p :| Claimants(hosts, h) == {p};
      assert p in Claimants(hosts, h) && h in full;
      assert full[h] in Claimants(hosts, h);
      assert forall q :: q in done && hosts[q] == h ==> q in Claimants(hosts, h);
    }
  }

  /** Which host an event resolves to does not depend on the order of the walk. */
  lemma HostIndexUnique(hosts: map<string, string>, a: map<string, string>, b: map<string, string>)
    requires forall h :: h in a <==> h != "" && exists p :: Claimants(hosts, h) == {p}
    requires forall h :: h in a ==> Claimants(hosts, h) == {a[h]}
    requires forall h :: h in b <==> h != "" && exists p :: Claimants(hosts, h) == {p}
    requires forall h :: h in b ==> Claimants(hosts, h) == {b[h]}
    ensures a == b
  {
    forall h | h in a ensures a[h] == b[h] {
      assert h in b && a[h] in Claimants(hosts, h) && b[h] in Claimants(hosts, h);
    }
  }
}
