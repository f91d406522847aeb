/** From a request to the leg it runs: which repo, which direction, or a refusal. */
module Routing {
  import opened Config
  import opened Events
  import opened Text

  /** One direction of one repo entry. */
  datatype Leg = Leg(repo: RepoConfig, toTarget: bool) {
    function FromProvider(): string { if toTarget then repo.source else repo.target }
    function FromPath(): string { if toTarget then repo.sourcePath else repo.targetPath }
    function ToProvider(): string { if toTarget then repo.target else repo.source }
    function ToPath(): string { if toTarget then repo.targetPath else repo.sourcePath }

    /** Whether the repo's direction permits this leg. */
    predicate Allowed() {
      if toTarget then AllowsSourceToTarget(repo.direction) else AllowsTargetToSource(repo.direction)
    }

    /** Whether the first matching override sends this ref the other way. */
    predicate Blocks(refName: string, glob: Glob) {
      var ov := MatchRefOverride(repo.refOverrides, refName, glob);
      ov.Some? && (ov.value.from != FromProvider() || ov.value.to != ToProvider())
    }
  }

  datatype RouteError =
    | NotConfigured | DirectionRefused(repo: string) | NoMatchingRepo
    | UnknownDirection | UnknownSide | RefOverridden

  /** `Silent` is the nil a blocked delete returns: nothing runs and nothing fails. */
  datatype Route = Run(leg: Leg) | Silent | Refuse(error: RouteError)

  function RunIfAllowed(leg: Leg): Route {
    if leg.Allowed() then Run(leg) else Refuse(DirectionRefused(leg.repo.name))
  }

  // ---- event-driven entry points ------------------------------------------------

  function Sync(repos: seq<RepoConfig>, repoName: string): Route {
    if repos == [] then Refuse(NotConfigured)
    else if repos[0].sourcePath == repoName then RunIfAllowed(Leg(repos[0], true))
    else Sync(repos[1..], repoName)
  }

  predicate ProviderMatches(configuredName: string, providerType: string, key: string) {
    configuredName == key || providerType == key
  }

  /** Whether the key and path name this side of the entry. */
  predicate SideMatches(providers: map<string, string>, provider: string, path: string, key: string, repoPath: string) {
    provider in providers && ProviderMatches(provider, providers[provider], key) && path == repoPath
  }

  predicate MatchesTarget(providers: map<string, string>, r: RepoConfig, key: string, repoPath: string) {
    SideMatches(providers, r.target, r.targetPath, key, repoPath)
  }

  predicate MatchesSource(providers: map<string, string>, r: RepoConfig, key: string, repoPath: string) {
    SideMatches(providers, r.source, r.sourcePath, key, repoPath)
  }

  /** An event on the target side runs target to source, and the other way round. An
      entry whose target provider is unknown is passed over altogether. */
  function SyncByTarget(providers: map<string, string>, repos: seq<RepoConfig>, key: string, repoPath: string): Route {
    if repos == [] then Refuse(NoMatchingRepo)
    else
      var r := repos[0];
      if r.target !in providers then SyncByTarget(providers, repos[1..], key, repoPath)
      else if MatchesTarget(providers, r, key, repoPath) then RunIfAllowed(Leg(r, false))
      else if MatchesSource(providers, r, key, repoPath) then RunIfAllowed(Leg(r, true))
      else SyncByTarget(providers, repos[1..], key, repoPath)
  }

  function SyncDelete(repos: seq<RepoConfig>, repoName: string, refName: string, glob: Glob): Route {
    if repos == [] then Refuse(NotConfigured)
    else if repos[0].sourcePath == repoName then
      var leg := Leg(repos[0], true);
      if leg.Blocks(refName, glob) then Silent else RunIfAllowed(leg)
    else SyncDelete(repos[1..], repoName, refName, glob)
  }

  function DeleteIfAllowed(leg: Leg, refName: string, glob: Glob): Route {
    if !leg.Allowed() then Refuse(DirectionRefused(leg.repo.name))
    else if leg.Blocks(refName, glob) then Silent
    else Run(leg)
  }

  function SyncDeleteByTarget(providers: map<string, string>, repos: seq<RepoConfig>, key: string, repoPath: string,
                              refName: string, glob: Glob): Route {
    if repos == [] then Refuse(NoMatchingRepo)
    else
      var r := repos[0];
      if MatchesTarget(providers, r, key, repoPath) then DeleteIfAllowed(Leg(r, false), refName, glob)
      else if MatchesSource(providers, r, key, repoPath) then DeleteIfAllowed(Leg(r, true), refName, glob)
      else SyncDeleteByTarget(providers, repos[1..], key, repoPath, refName, glob)
  }

  // ---- requests that name a repo --------------------------------------------------

  function FindRepo(repos: seq<RepoConfig>, name: string): Option<RepoConfig> {
    if repos == [] then None
    else if repos[0].name == name then Some(repos[0])
    else FindRepo(repos[1..], name)
  }

  function ResolveAutoDirection(direction: string): string {
    if Lower(direction) == SOURCE_TO_TARGET then SOURCE_TO_TARGET else TARGET_TO_SOURCE
  }

  predicate DirectionAllowed(direction: string, retryDirection: string) {
    Lower(direction) == BIDIRECTIONAL || Lower(direction) == Lower(retryDirection)
  }

  function Retry(repos: seq<RepoConfig>, name: string, direction: string): Route {
    match FindRepo(repos, name)
    case None => Refuse(NotConfigured)
    case Some(r) =>
      var asked := Lower(TrimSpace(direction));
      var dir :=
        if asked == "" || asked == "auto" then
          (if r.retryDirection != "" then Lower(r.retryDirection) else ResolveAutoDirection(r.direction))
        else asked;
      if !DirectionAllowed(r.direction, dir) then Refuse(DirectionRefused(r.name))
      else if dir == SOURCE_TO_TARGET then Run(Leg(r, true))
      else if dir == TARGET_TO_SOURCE then Run(Leg(r, false))
      else Refuse(UnknownDirection)
  }

  // ---- endpoints a recorded row names ---------------------------------------------

  function Endpoint(provider: string, path: string): string { provider + "/" + path }

  /** The older notation, built from the provider's type. */
  function LegacyEndpoint(providers: map<string, string>, provider: string, path: string): string {
    (if provider in providers then providers[provider] else provider) + "/" + path
  }

  predicate EndpointMatches(providers: map<string, string>, provider: string, path: string, candidate: string) {
    candidate == Endpoint(provider, path) || candidate == LegacyEndpoint(providers, provider, path)
  }

  predicate NamesDestination(providers: map<string, string>, leg: Leg, candidate: string) {
    EndpointMatches(providers, leg.ToProvider(), leg.ToPath(), candidate)
  }

  predicate EndpointAmbiguous(providers: map<string, string>, r: RepoConfig, candidate: string) {
    NamesDestination(providers, Leg(r, true), candidate) && NamesDestination(providers, Leg(r, false), candidate)
  }

  /** The leg that writes the side a row names, before any gate. */
  function LegTo(providers: map<string, string>, r: RepoConfig, candidate: string): Option<Leg> {
    if EndpointAmbiguous(providers, r, candidate) then None
    else if NamesDestination(providers, Leg(r, true), candidate) then Some(Leg(r, true))
    else if NamesDestination(providers, Leg(r, false), candidate) then Some(Leg(r, false))
    else None
  }

  datatype DirectionResult = Direction(dir: string) | NoDirection(error: RouteError)

  function DirectionTo(providers: map<string, string>, repos: seq<RepoConfig>, name: string,
                       candidate: string): DirectionResult {
    match FindRepo(repos, name)
    case None => NoDirection(NotConfigured)
    case Some(r) =>
      match LegTo(providers, r, candidate)
      case None => NoDirection(UnknownSide)
      case Some(leg) =>
        var dir := if leg.toTarget then SOURCE_TO_TARGET else TARGET_TO_SOURCE;
        if DirectionAllowed(r.direction, dir) then Direction(dir) else NoDirection(DirectionRefused(r.name))
  }

  function ForcePush(providers: map<string, string>, repos: seq<RepoConfig>, name: string, candidate: string): Route {
    match FindRepo(repos, name)
    case None => Refuse(NotConfigured)
    case Some(r) =>
      match LegTo(providers, r, candidate)
      case None => Refuse(UnknownSide)
      case Some(leg) => RunIfAllowed(leg)
  }

  function RestoreRef(providers: map<string, string>, repos: seq<RepoConfig>, name: string, candidate: string,
                      refName: string, glob: Glob): Route {
    match FindRepo(repos, name)
    case None => Refuse(NotConfigured)
    case Some(r) =>
      match LegTo(providers, r, candidate)
      case None => Refuse(UnknownSide)
      case Some(leg) =>
        if !leg.Allowed() then Refuse(DirectionRefused(r.name))
        else if leg.Blocks(refName, glob) then Refuse(RefOverridden)
        else Run(leg)
  }

  /** The retry API's name for a leg; "" when the providers name neither direction. */
  function RetryDirectionFor(r: RepoConfig, fromProvider: string, toProvider: string): string {
    if fromProvider == r.source && toProvider == r.target then SOURCE_TO_TARGET
    else if fromProvider == r.target && toProvider == r.source then TARGET_TO_SOURCE
    else ""
  }

  // ---- every route runs an allowed leg of a configured repo ------------------------

  predicate Authorised(repos: seq<RepoConfig>, leg: Leg) {
    leg.repo in repos && leg.Allowed()
  }

  lemma {:induction false} FindRepoFinds(repos: seq<RepoConfig>, name: string)
    ensures FindRepo(repos, name).Some? ==>
      FindRepo(repos, name).value in repos && FindRepo(repos, name).value.name == name
    ensures FindRepo(repos, name).None? ==> forall r :: r in repos ==> r.name != name
  {
    if repos != [] && repos[0].name != name { FindRepoFinds(repos[1..], name); }
  }

  lemma {:induction false} SyncAuthorised(repos: seq<RepoConfig>, repoName: string)
    ensures Sync(repos, repoName).Run? ==> Authorised(repos, Sync(repos, repoName).leg)
  {
    if repos != [] && repos[0].sourcePath != repoName { SyncAuthorised(repos[1..], repoName); }
  }

  lemma {:induction false} SyncByTargetAuthorised(providers: map<string, string>, repos: seq<RepoConfig>, key: string,
                                                  repoPath: string)
    ensures var route := SyncByTarget(providers, repos, key, repoPath);
      route.Run? ==> Authorised(repos, route.leg)
  {
    if repos != [] { SyncByTargetAuthorised(providers, repos[1..], key, repoPath); }
  }

  lemma {:induction false} SyncDeleteAuthorised(repos: seq<RepoConfig>, repoName: string, refName: string, glob: Glob)
    ensures var route := SyncDelete(repos, repoName, refName, glob);
      route.Run? ==> Authorised(repos, route.leg) && !route.leg.Blocks(refName, glob)
  {
    if repos != [] && repos[0].sourcePath != repoName { SyncDeleteAuthorised(repos[1..], repoName, refName, glob); }
  }

  lemma {:induction false} SyncDeleteByTargetAuthorised(providers: map<string, string>, repos: seq<RepoConfig>,
                                                        key: string, repoPath: string, refName: string, glob: Glob)
    ensures var route := SyncDeleteByTarget(providers, repos, key, repoPath, refName, glob);
      route.Run? ==> Authorised(repos, route.leg) && !route.leg.Blocks(refName, glob)
  {
    if repos != [] { SyncDeleteByTargetAuthorised(providers, repos[1..], key, repoPath, refName, glob); }
  }

  lemma RetryAuthorised(repos: seq<RepoConfig>, name: string, direction: string)
    ensures Retry(repos, name, direction).Run? ==> Authorised(repos, Retry(repos, name, direction).leg)
  {
    FindRepoFinds(repos, name);
    hide TrimSpace;
    var r := FindRepo(repos, name);
    if r.Some? {
      LowerIdempotent(r.value.retryDirection);
      LowerIdempotent(TrimSpace(direction));
      assert Lower(SOURCE_TO_TARGET) == SOURCE_TO_TARGET && Lower(TARGET_TO_SOURCE) == TARGET_TO_SOURCE;
    }
  }

  lemma ForceAuthorised(providers: map<string, string>, repos: seq<RepoConfig>, name: string, candidate: string)
    ensures var route := ForcePush(providers, repos, name, candidate);
      route.Run? ==> Authorised(repos, route.leg) && NamesDestination(providers, route.leg, candidate)
                     && route.leg.repo.name == name
  {
    FindRepoFinds(repos, name);
  }

  lemma RestoreAuthorised(providers: map<string, string>, repos: seq<RepoConfig>, name: string, candidate: string,
                          refName: string, glob: Glob)
    ensures var route := RestoreRef(providers, repos, name, candidate, refName, glob);
      route.Run? ==> Authorised(repos, route.leg) && !route.leg.Blocks(refName, glob)
                     && NamesDestination(providers, route.leg, candidate) && route.leg.repo.name == name
  {
    FindRepoFinds(repos, name);
  }
}
