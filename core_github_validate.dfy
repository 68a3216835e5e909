/**
 * `State::validate` of clowarden-core's GitHub service: the cross-checks a
 * desired state must pass before it is reconciled. Every failed check
 * pushes one error into a `MultiError` with the context "invalid github
 * service configuration"; validation fails iff at least one was pushed.
 *
 * The organization members come from the service (`list_org_members`),
 * whose result is a parameter here.
 */
module CoreGithubValidate {
  import opened Common
  import opened Errors
  import opened Collections
  import opened CoreMultiError
  import CD = CoreDirectory
  import opened CoreGithubState

  const ValidateContext := "invalid github service configuration"

  // ------------------------------------------------------ Maintainers

  /** "team[t]: u must be an organization member to be a maintainer". */
  function MaintainerError(team: string, user: string): Error {
    Message("team[" + team + "]: " + user + " must be an organization member to be a maintainer")
  }

  /** The errors for the maintainers `users` of team `team`, in list order. */
  function UserErrors(team: string, users: seq<string>, members: seq<string>): seq<Error> {
    if users == [] then []
    else
      var n := |users| - 1;
      UserErrors(team, users[..n], members) + (if users[n] in members then [] else [MaintainerError(team, users[n])])
  }

  /** The errors for the maintainers of `teams`, team by team. */
  function TeamErrors(teams: seq<CD.Team>, members: seq<string>): seq<Error> {
    if teams == [] then []
    else
      var n := |teams| - 1;
      TeamErrors(teams[..n], members) + UserErrors(teams[n].name, teams[n].maintainers, members)
  }

  /** Every maintainer of every team is an organization member. */
  ghost predicate MaintainersOk(teams: seq<CD.Team>, members: seq<string>) {
    forall i, j :: 0 <= i < |teams| && 0 <= j < |teams[i].maintainers| ==> teams[i].maintainers[j] in members
  }

  lemma {:induction false} UserErrorsEmpty(team: string, users: seq<string>, members: seq<string>)
    ensures UserErrors(team, users, members) == [] <==> forall j :: 0 <= j < |users| ==> users[j] in members
  {
    if users != [] {
      var n := |users| - 1;
      UserErrorsEmpty(team, users[..n], members);
      assert forall j :: 0 <= j < n ==> users[..n][j] == users[j];
    }
  }

  /** No maintainer error is reported iff every maintainer is an organization member. */
  lemma {:induction false} TeamErrorsEmpty(teams: seq<CD.Team>, members: seq<string>)
    ensures TeamErrors(teams, members) == [] <==> MaintainersOk(teams, members)
  {
    if teams != [] {
      var n := |teams| - 1;
      TeamErrorsEmpty(teams[..n], members);
      UserErrorsEmpty(teams[n].name, teams[n].maintainers, members);
      MaintainersOkStep(teams, members);
      var rest, last := TeamErrors(teams[..n], members), UserErrors(teams[n].name, teams[n].maintainers, members);
      assert |rest + last| == |rest| + |last|;
    }
  }

  lemma MaintainersOkStep(teams: seq<CD.Team>, members: seq<string>)
    requires teams != []
    ensures var n := |teams| - 1;
      MaintainersOk(teams, members) <==>
        MaintainersOk(teams[..n], members) && forall j :: 0 <= j < |teams[n].maintainers| ==> teams[n].maintainers[j] in members
  {
    var n := |teams| - 1;
    assert forall i :: 0 <= i < n ==> teams[..n][i] == teams[i];
  }

  /** The maintainers check, team by team and maintainer by maintainer. */
  method CheckMaintainers(teams: seq<CD.Team>, members: seq<string>) returns (errs: seq<Error>)
    ensures errs == TeamErrors(teams, members)
    ensures errs == [] <==> MaintainersOk(teams, members)
  {
    errs := [];
    for i := 0 to |teams|
      invariant errs == TeamErrors(teams[..i], members)
    {
      var teamErrs := CheckTeamMaintainers(teams[i].name, teams[i].maintainers, members);
      assert teams[..i + 1][..i] == teams[..i];
      errs := errs + teamErrs;
    }
    assert teams[..|teams|] == teams;
    TeamErrorsEmpty(teams, members);
  }

  /** The maintainers check of one team, maintainer by maintainer. */
  method CheckTeamMaintainers(team: string, users: seq<string>, members: seq<string>) returns (errs: seq<Error>)
    ensures errs == UserErrors(team, users, members)
    ensures errs == [] <==> forall j :: 0 <= j < |users| ==> users[j] in members
  {
    errs := [];
    for j := 0 to |users|
      invariant errs == UserErrors(team, users[..j], members)
    {
      assert users[..j + 1][..j] == users[..j];
      if users[j] !in members {
        errs := errs + [MaintainerError(team, users[j])];
      }
    }
    assert users[..|users|] == users;
    UserErrorsEmpty(team, users, members);
  }

  // ------------------------------------------------------ Repository teams

  /** "repo[id]: team t does not exist in directory". */
  function MissingTeamError(id: string, team: string): Error {
    Message("repo[" + id + "]: team " + team + " does not exist in directory")
  }

  function TeamNameOf(t: CD.Team): string { t.name }

  /** The names of the directory's teams (`teams_in_directory`). */
  function DirectoryTeamNames(dir: CD.Directory): (names: seq<string>)
    ensures forall t :: t in names <==> exists i :: 0 <= i < |dir.teams| && dir.teams[i].name == t
  {
    var names := Map(dir.teams, TeamNameOf);
    assert forall i :: 0 <= i < |dir.teams| ==> names[i] == dir.teams[i].name;
    names
  }

  /** Every team a repository grants access to is a team of the directory. */
  ghost predicate TeamsExist(dir: CD.Directory, repo: Repository) {
    forall t :: t in TeamsOf(repo) ==> t in DirectoryTeamNames(dir)
  }

  /** The teams of a repository missing from the directory. */
  ghost function MissingTeams(dir: CD.Directory, repo: Repository): set<string> {
    set t | t in TeamsOf(repo) && t !in DirectoryTeamNames(dir)
  }

  /**
   * The missing-team check over the repository's teams, in map order: one
   * error per team missing from the directory, none otherwise.
   */
  method CheckRepoTeams(dir: CD.Directory, repo: Repository, id: string) returns (errs: seq<Error>, ghost missing: seq<string>)
    ensures NoDup(missing) && Elems(missing) == MissingTeams(dir, repo)
    ensures |errs| == |missing|
    ensures forall k :: 0 <= k < |errs| ==> errs[k] == MissingTeamError(id, missing[k])
    ensures errs == MissingErrors(id, missing)
    ensures errs == [] <==> TeamsExist(dir, repo)
  {
    var names := DirectoryTeamNames(dir);
    var keys := Enumerate(TeamsOf(repo).Keys);
    var absent := (t: string) => t !in names;
    errs, missing := MissingScan(id, keys, absent);
    MissingFacts(dir, repo, keys, absent, missing);
    MissingErrorsAt(id, missing);
  }

  /** The loop of the missing-team check: an error for each key `absent` holds of, in order. */
  method MissingScan(id: string, keys: seq<string>, absent: string -> bool) returns (errs: seq<Error>, ghost missing: seq<string>)
    ensures missing == Filter(keys, absent)
    ensures errs == MissingErrors(id, missing)
  {
    errs, missing := [], [];
    for j := 0 to |keys|
      invariant missing == Filter(keys[..j], absent)
      invariant errs == MissingErrors(id, missing)
    {
      assert keys[..j + 1] == keys[..j] + [keys[j]];
      FilterAppend(keys[..j], keys[j], absent);
      if absent(keys[j]) {
        assert (missing + [keys[j]])[..|missing|] == missing;
        errs, missing := errs + [MissingTeamError(id, keys[j])], missing + [keys[j]];
      }
    }
    assert keys[..|keys|] == keys;
  }

  /** One missing-team error per team, in order. */
  function MissingErrors(id: string, teams: seq<string>): (errs: seq<Error>)
    ensures |errs| == |teams|
  {
    if teams == [] then [] else MissingErrors(id, teams[..|teams| - 1]) + [MissingTeamError(id, teams[|teams| - 1])]
  }

  lemma {:induction false} MissingErrorsAt(id: string, teams: seq<string>)
    ensures forall k :: 0 <= k < |teams| ==> MissingErrors(id, teams)[k] == MissingTeamError(id, teams[k])
  {
    if teams != [] {
      MissingErrorsAt(id, teams[..|teams| - 1]);
    }
  }

  lemma MissingFacts(dir: CD.Directory, repo: Repository, keys: seq<string>, absent: string -> bool, missing: seq<string>)
    requires NoDup(keys) && Elems(keys) == TeamsOf(repo).Keys
    requires forall t :: absent(t) <==> t !in DirectoryTeamNames(dir)
    requires missing == Filter(keys, absent)
    ensures NoDup(missing) && Elems(missing) == MissingTeams(dir, repo)
    ensures missing == [] <==> TeamsExist(dir, repo)
  {
    FilterNoDup(keys, absent);
    FilterFacts(keys, absent);
    if !TeamsExist(dir, repo) {
      var t :| t in TeamsOf(repo) && t !in DirectoryTeamNames(dir);
      var k :| 0 <= k < |keys| && keys[k] == t;
    }
  }

  // ------------------------------------------------------ Collaborators

  /**
   * Team `t` of the repository gives user `u` its role there: the team is
   * in the directory (its first entry with that name) and lists `u` as a
   * maintainer or member.
   */
  predicate Qualifies(dir: CD.Directory, repo: Repository, t: string, u: string) {
    && t in TeamsOf(repo)
    && CD.GetTeam(dir, t).Some?
    && (u in CD.GetTeam(dir, t).value.maintainers || u in CD.GetTeam(dir, t).value.members)
  }

  /**
   * The scan of `get_highest_team_role` over `keys`: the first key whose
   * role is the highest among the keys satisfying `q`. A later key replaces
   * the current one only with a strictly higher role.
   */
  method HighestAmong(keys: seq<string>, m: map<string, Role>, q: string -> bool) returns (h: Option<(string, Role)>, ghost at: nat)
    requires forall j :: 0 <= j < |keys| ==> keys[j] in m
    ensures h.None? <==> forall j :: 0 <= j < |keys| ==> !q(keys[j])
    ensures h.Some? ==> at < |keys| && keys[at] == h.value.0 && q(h.value.0) && h.value.1 == m[h.value.0]
    ensures h.Some? ==> forall j :: 0 <= j < |keys| && q(keys[j]) ==> !RoleLt(h.value.1, m[keys[j]])
    ensures h.Some? ==> forall j :: 0 <= j < at && q(keys[j]) ==> RoleLt(m[keys[j]], h.value.1)
  {
    h, at := None, 0;
    for i := 0 to |keys|
      invariant h.None? <==> forall j :: 0 <= j < i ==> !q(keys[j])
      invariant h.Some? ==> at < i && keys[at] == h.value.0 && q(h.value.0) && h.value.1 == m[h.value.0]
      invariant h.Some? ==> forall j :: 0 <= j < i && q(keys[j]) ==> !RoleLt(h.value.1, m[keys[j]])
      invariant h.Some? ==> forall j :: 0 <= j < at && q(keys[j]) ==> RoleLt(m[keys[j]], h.value.1)
    {
      var t := keys[i];
      if q(t) && (h.None? || RoleLt(h.value.1, m[t])) {
        h, at := Some((t, m[t])), i;
      }
    }
  }

  /**
   * The helper `get_highest_team_role`: over the repository's teams in map
   * order, the team with the highest role among those that give `u` a role;
   * of several teams with the same highest role the first one found is
   * kept. `None` when no team gives `u` a role.
   */
  method HighestTeamRole(dir: CD.Directory, repo: Repository, u: string) returns (h: Option<(string, Role)>, ghost order: seq<string>)
    ensures NoDup(order) && Elems(order) == TeamsOf(repo).Keys
    ensures h.None? <==> forall t :: t in TeamsOf(repo) ==> !Qualifies(dir, repo, t, u)
    ensures h.Some? ==> Qualifies(dir, repo, h.value.0, u) && h.value.1 == TeamsOf(repo)[h.value.0]
    ensures h.Some? ==> forall t :: Qualifies(dir, repo, t, u) ==> !RoleLt(h.value.1, TeamsOf(repo)[t])
    ensures h.Some? ==> exists i :: 0 <= i < |order| && order[i] == h.value.0
                          && forall j :: 0 <= j < i && Qualifies(dir, repo, order[j], u) ==> RoleLt(TeamsOf(repo)[order[j]], h.value.1)
  {
    var m := TeamsOf(repo);
    var keys := Enumerate(m.Keys);
    order := keys;
    assert forall j :: 0 <= j < |keys| ==> keys[j] in Elems(keys);
    var q := (t: string) => Qualifies(dir, repo, t, u);
    ghost var at;
    h, at := HighestAmong(keys, m, q);
    forall t | t in m ensures exists j :: 0 <= j < |keys| && keys[j] == t {
      assert t in Elems(keys);
    }
  }

  /** Some team on the repository gives collaborator `u` a higher role than the one the repository grants it. */
  ghost predicate Overridden(dir: CD.Directory, repo: Repository, u: string) {
    u in CollaboratorsOf(repo) && exists t :: Qualifies(dir, repo, t, u) && RoleLt(CollaboratorsOf(repo)[u], TeamsOf(repo)[t])
  }

  /** No collaborator is granted less than a team of the repository already gives it. */
  ghost predicate CollaboratorsOk(dir: CD.Directory, repo: Repository) {
    forall u :: u in CollaboratorsOf(repo) ==> !Overridden(dir, repo, u)
  }

  /** Comparing with the highest team role decides whether a collaborator is overridden. */
  lemma OverriddenByHighest(dir: CD.Directory, repo: Repository, u: string, h: Option<(string, Role)>)
    requires u in CollaboratorsOf(repo)
    requires h.None? <==> forall t :: t in TeamsOf(repo) ==> !Qualifies(dir, repo, t, u)
    requires h.Some? ==> Qualifies(dir, repo, h.value.0, u) && h.value.1 == TeamsOf(repo)[h.value.0]
    requires h.Some? ==> forall t :: Qualifies(dir, repo, t, u) ==> !RoleLt(h.value.1, TeamsOf(repo)[t])
    ensures Overridden(dir, repo, u) <==> h.Some? && RoleLt(CollaboratorsOf(repo)[u], h.value.1)
  {
    if Overridden(dir, repo, u) {
      var t :| Qualifies(dir, repo, t, u) && RoleLt(CollaboratorsOf(repo)[u], TeamsOf(repo)[t]);
      assert h.Some?;
    }
  }

  /** "repo[id]: collaborator u already has r access from team t". */
  function CollaboratorError(id: string, u: string, team: string, role: Role): Error {
    Message(CollaboratorErrorPrefix(id, u) + (RoleText(role) + " access from team " + team))
  }

  function CollaboratorErrorPrefix(id: string, u: string): string {
    "repo[" + id + "]: collaborator " + u + " already has "
  }

  /** Team `t` gives `u` a role, and no team of the repository gives `u` a higher one. */
  ghost predicate HighestFor(dir: CD.Directory, repo: Repository, t: string, u: string) {
    && Qualifies(dir, repo, t, u)
    && forall t' :: Qualifies(dir, repo, t', u) ==> !RoleLt(TeamsOf(repo)[t], TeamsOf(repo)[t'])
  }

  /**
   * The check of one collaborator `u`: when some team gives `u` a higher
   * role than its own, an error naming a team with the highest such role
   * (`team`) and that role.
   */
  method CheckCollaborator(dir: CD.Directory, repo: Repository, id: string, u: string) returns (e: Option<Error>, ghost team: string)
    requires u in CollaboratorsOf(repo)
    ensures e.Some? <==> Overridden(dir, repo, u)
    ensures e.Some? ==> HighestFor(dir, repo, team, u) && e.value == CollaboratorError(id, u, team, TeamsOf(repo)[team])
  {
    var h, _ := HighestTeamRole(dir, repo, u);
    OverriddenByHighest(dir, repo, u, h);
    team := "";
    if h.Some? && RoleLt(CollaboratorsOf(repo)[u], h.value.1) {
      team := h.value.0;
      e := Some(CollaboratorError(id, u, h.value.0, h.value.1));
    } else {
      e := None;
    }
  }

  /**
   * `errs` are the collaborator errors of a repository: one for each
   * overridden collaborator `flagged[k]`, each once, naming the team
   * `teams[k]` with the highest role that collaborator gets from a team.
   */
  ghost predicate CollaboratorErrorsBy(dir: CD.Directory, repo: Repository, id: string, flagged: seq<string>, teams: seq<string>,
                                       errs: seq<Error>)
  {
    && NoDup(flagged) && Elems(flagged) == (set u | u in CollaboratorsOf(repo) && Overridden(dir, repo, u))
    && Reported(dir, repo, id, flagged, teams, errs)
  }

  /** `errs[k]` reports collaborator `flagged[k]` with the team `teams[k]` that gives it the highest role. */
  ghost predicate Reported(dir: CD.Directory, repo: Repository, id: string, flagged: seq<string>, teams: seq<string>, errs: seq<Error>) {
    && |errs| == |flagged| && |teams| == |flagged|
    && forall k :: 0 <= k < |errs| ==>
         HighestFor(dir, repo, teams[k], flagged[k]) && errs[k] == CollaboratorError(id, flagged[k], teams[k], TeamsOf(repo)[teams[k]])
  }

  lemma ReportedAppend(dir: CD.Directory, repo: Repository, id: string, flagged: seq<string>, teams: seq<string>, errs: seq<Error>,
                       u: string, t: string, e: Error)
    requires Reported(dir, repo, id, flagged, teams, errs)
    requires HighestFor(dir, repo, t, u) && e == CollaboratorError(id, u, t, TeamsOf(repo)[t])
    ensures Reported(dir, repo, id, flagged + [u], teams + [t], errs + [e])
  {
  }

  /**
   * The collaborators check over the repository's collaborators, in map
   * order: one error per collaborator that a team gives a higher role,
   * naming the highest such team role and that team.
   */
  method CheckCollaborators(dir: CD.Directory, repo: Repository, id: string)
    returns (errs: seq<Error>, ghost flagged: seq<string>, ghost teams: seq<string>)
    ensures CollaboratorErrorsBy(dir, repo, id, flagged, teams, errs)
    ensures errs == [] <==> CollaboratorsOk(dir, repo)
  {
    var users := Enumerate(CollaboratorsOf(repo).Keys);
    ghost var over := (u: string) => Overridden(dir, repo, u);
    errs, flagged, teams := CollaboratorScan(dir, repo, id, users, over);
    FilterNoDup(users, over);
    OverriddenFacts(dir, repo, users, over, flagged);
  }

  /** The loop of the collaborators check: an error for each user `over` holds of, in order. */
  method CollaboratorScan(dir: CD.Directory, repo: Repository, id: string, users: seq<string>, ghost over: string -> bool)
    returns (errs: seq<Error>, ghost flagged: seq<string>, ghost teams: seq<string>)
    requires Elems(users) == CollaboratorsOf(repo).Keys
    requires forall u :: over(u) <==> Overridden(dir, repo, u)
    ensures flagged == Filter(users, over)
    ensures Reported(dir, repo, id, flagged, teams, errs)
  {
    errs, flagged, teams := [], [], [];
    for j := 0 to |users|
      invariant flagged == Filter(users[..j], over)
      invariant Reported(dir, repo, id, flagged, teams, errs)
    {
      var u := users[j];
      assert u in Elems(users);
      var e, t := CheckCollaborator(dir, repo, id, u);
      FilterStep(users, j, over);
      if e.Some? {
        ReportedAppend(dir, repo, id, flagged, teams, errs, u, t, e.value);
        errs, flagged, teams := errs + [e.value], flagged + [u], teams + [t];
      }
    }
    assert users[..|users|] == users;
  }

  lemma OverriddenFacts(dir: CD.Directory, repo: Repository, users: seq<string>, over: string -> bool, flagged: seq<string>)
    requires Elems(users) == CollaboratorsOf(repo).Keys
    requires forall u :: over(u) <==> Overridden(dir, repo, u)
    requires flagged == Filter(users, over)
    ensures Elems(flagged) == set u | u in CollaboratorsOf(repo) && Overridden(dir, repo, u)
    ensures flagged == [] <==> CollaboratorsOk(dir, repo)
  {
    FilterFacts(users, over);
    if !CollaboratorsOk(dir, repo) {
      var u :| u in CollaboratorsOf(repo) && Overridden(dir, repo, u);
      var k :| 0 <= k < |users| && users[k] == u;
    }
  }

  /** What a repository's checks find, in the order they report it. */
  datatype Findings = Findings(missing: seq<string>, flagged: seq<string>, teams: seq<string>)

  /**
   * `errs` are a repository's errors: the missing-team errors of the teams
   * `f.missing` (each missing team once), then the collaborator errors of
   * `f.flagged` and `f.teams`.
   */
  ghost predicate RepoErrorsBy(dir: CD.Directory, repo: Repository, id: string, f: Findings, errs: seq<Error>) {
    && NoDup(f.missing) && Elems(f.missing) == MissingTeams(dir, repo)
    && |f.missing| <= |errs|
    && errs[..|f.missing|] == MissingErrors(id, f.missing)
    && CollaboratorErrorsBy(dir, repo, id, f.flagged, f.teams, errs[|f.missing|..])
  }

  /** Both checks of one repository, the missing teams first and then the collaborators. */
  method CheckRepository(dir: CD.Directory, repo: Repository, id: string) returns (errs: seq<Error>, ghost f: Findings)
    ensures RepoErrorsBy(dir, repo, id, f, errs)
    ensures errs == [] <==> TeamsExist(dir, repo) && CollaboratorsOk(dir, repo)
  {
    var teamErrs, missing := CheckRepoTeams(dir, repo, id);
    var collabErrs, flagged, teams := CheckCollaborators(dir, repo, id);
    errs := teamErrs + collabErrs;
    f := Findings(missing, flagged, teams);
    ConcatParts(teamErrs, collabErrs);
  }

  // ------------------------------------------------------ The whole check

  /** The first `n` repositories pass their checks. */
  ghost predicate ReposOk(s: State, n: nat) {
    forall k :: 0 <= k < n && k < |s.repositories| ==> TeamsExist(s.directory, s.repositories[k]) && CollaboratorsOk(s.directory, s.repositories[k])
  }

  /** Every check of `validate` passes. */
  ghost predicate StateValid(s: State, members: seq<string>) {
    && MaintainersOk(s.directory.teams, members)
    && ReposOk(s, |s.repositories|)
  }

  /**
   * `errs` are the errors of every repository, `parts[i]` those of the
   * i-th one (found as `fs[i]` says), concatenated in list order.
   */
  ghost predicate RepositoriesErrorsBy(s: State, fs: seq<Findings>, parts: seq<seq<Error>>, errs: seq<Error>) {
    && |fs| == |s.repositories| && |parts| == |s.repositories|
    && errs == Concat(parts)
    && EachRepo(s, fs, parts)
  }

  /** `parts[i]` are the errors of the i-th repository, found as `fs[i]` says. */
  ghost predicate EachRepo(s: State, fs: seq<Findings>, parts: seq<seq<Error>>) {
    && |fs| == |parts| && |parts| <= |s.repositories|
    && forall i :: 0 <= i < |parts| ==>
         RepoErrorsBy(s.directory, s.repositories[i], RepoId(s.repositories[i], i), fs[i], parts[i])
  }

  lemma EachRepoAppend(s: State, fs: seq<Findings>, parts: seq<seq<Error>>, f: Findings, errs: seq<Error>)
    requires EachRepo(s, fs, parts) && |parts| < |s.repositories|
    requires RepoErrorsBy(s.directory, s.repositories[|parts|], RepoId(s.repositories[|parts|], |parts|), f, errs)
    ensures EachRepo(s, fs + [f], parts + [errs])
  {
  }

  lemma ReposOkStep(s: State, i: nat)
    requires i < |s.repositories|
    ensures ReposOk(s, i + 1) <==>
      ReposOk(s, i) && TeamsExist(s.directory, s.repositories[i]) && CollaboratorsOk(s.directory, s.repositories[i])
  {
  }

  /** The checks of every repository, in list order. */
  method CheckRepositories(s: State) returns (errs: seq<Error>, ghost fs: seq<Findings>, ghost parts: seq<seq<Error>>)
    ensures RepositoriesErrorsBy(s, fs, parts, errs)
    ensures errs == [] <==> ReposOk(s, |s.repositories|)
  {
    errs, fs, parts := [], [], [];
    for i := 0 to |s.repositories|
      invariant |parts| == i
      invariant errs == Concat(parts)
      invariant EachRepo(s, fs, parts)
      invariant errs == [] <==> ReposOk(s, i)
    {
      var repo := s.repositories[i];
      var repoErrs, f := CheckRepository(s.directory, repo, RepoId(repo, i));
      ConcatAppend(parts, repoErrs);
      EachRepoAppend(s, fs, parts, f, repoErrs);
      ReposOkStep(s, i);
      assert errs + repoErrs == [] <==> errs == [] && repoErrs == [] by {
        assert |errs + repoErrs| == |errs| + |repoErrs|;
      }
      errs, fs, parts := errs + repoErrs, fs + [f], parts + [repoErrs];
    }
  }

  /**
   * `State::validate`. `orgMembers` is the result of listing the
   * organization's members; a failure there is returned as is. Otherwise
   * validation succeeds iff every check passes, and fails with all the
   * errors collected under the validation context: the maintainer errors
   * first, then each repository's missing-team and collaborator errors, in
   * list order (`fs` and `parts` say what each repository contributes).
   */
  method Validate(s: State, orgMembers: Result<seq<string>, Error>)
    returns (r: Result<(), Error>, ghost fs: seq<Findings>, ghost parts: seq<seq<Error>>)
    ensures orgMembers.Err? ==> r == Err(orgMembers.error)
    ensures orgMembers.Ok? ==> (r.Ok? <==> StateValid(s, orgMembers.value))
    ensures orgMembers.Ok? ==> RepositoriesErrorsBy(s, fs, parts, Concat(parts))
    ensures orgMembers.Ok? && r.Err? ==>
      r.error == Multi(Some(ValidateContext), TeamErrors(s.directory.teams, orgMembers.value) + Concat(parts))
  {
    var merr := new MultiError(Some(ValidateContext));
    fs, parts := [], [];
    if orgMembers.Err? {
      return Err(orgMembers.error), fs, parts;
    }
    var members := orgMembers.value;
    var maint := CheckMaintainers(s.directory.teams, members);
    merr.Extend(maint);
    assert merr.errors == maint;
    var rest;
    rest, fs, parts := CheckRepositories(s);
    merr.Extend(rest);
    assert merr.errors == maint + rest;
    if merr.ContainsErrors() {
      var e := merr.ToError();
      assert e.context == Some(ValidateContext) && e.errors == maint + rest;
      return Err(e), fs, parts;
    }
    return Ok(()), fs, parts;
  }
}
