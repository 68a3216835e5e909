/**
 * `State::new_from_config`: the desired state of the GitHub service, built
 * from the legacy configuration and adjusted to how GitHub itself treats
 * organization admins and archived repositories.
 */
module CoreGithubLoad {
  import opened Common
  import opened Errors
  import Collections
  import opened CoreCfg
  import opened CoreGithub
  import CDL = CoreDirectoryLegacy
  import CD = CoreDirectory
  import opened CoreGithubState
  import opened CoreGithubValidate
  import opened CoreGithubLegacy
  import opened CoreGithubService

  // ------------------------------------------------------ Admins to maintainers

  /** The users of `users` that are organization admins, in order. */
  function AdminsIn(users: seq<string>, admins: seq<string>): (r: seq<string>)
    ensures forall u :: u in r <==> u in users && u in admins
    ensures |r| <= |users|
  {
    if users == [] then []
    else
      var n := |users| - 1;
      AdminsIn(users[..n], admins) + (if users[n] in admins then [users[n]] else [])
  }

  /** `users` without those in `excluded`, in order (`Vec::retain`). */
  function Without(users: seq<string>, excluded: seq<string>): (r: seq<string>)
    ensures forall u :: u in r <==> u in users && u !in excluded
    ensures |r| <= |users|
  {
    if users == [] then []
    else
      var n := |users| - 1;
      Without(users[..n], excluded) + (if users[n] in excluded then [] else [users[n]])
  }

  /** Whether an element is excluded depends only on membership, so two lists that agree on `users` exclude the same. */
  lemma {:induction false} WithoutAgree(users: seq<string>, a: seq<string>, b: seq<string>)
    requires forall i :: 0 <= i < |users| ==> (users[i] in a <==> users[i] in b)
    ensures Without(users, a) == Without(users, b)
  {
    if users != [] {
      var n := |users| - 1;
      WithoutAgree(users[..n], a, b);
    }
  }

  /**
   * A team as GitHub sees it: members that are organization admins are
   * maintainers there, so they move from the members to the end of the
   * maintainers, in member order.
   */
  function PromoteTeam(t: CD.Team, admins: seq<string>): (r: CD.Team)
    ensures r.name == t.name && r.displayName == t.displayName && r.annotations == t.annotations
    ensures forall u :: u in r.maintainers <==> u in t.maintainers || (u in t.members && u in admins)
    ensures forall u :: u in r.members <==> u in t.members && u !in admins
    ensures |t.maintainers| <= |r.maintainers| && r.maintainers[..|t.maintainers|] == t.maintainers
  {
    t.(maintainers := t.maintainers + AdminsIn(t.members, admins), members := Without(t.members, admins))
  }

  /** Nobody joins or leaves a team by being promoted. */
  lemma PromoteTeamKeepsUsers(t: CD.Team, admins: seq<string>)
    ensures var r := PromoteTeam(t, admins);
      forall u :: (u in r.maintainers || u in r.members) <==> (u in t.maintainers || u in t.members)
  {
  }

  lemma {:induction false} AdminsInNone(users: seq<string>, admins: seq<string>)
    requires forall i :: 0 <= i < |users| ==> users[i] !in admins
    ensures AdminsIn(users, admins) == []
  {
    if users != [] {
      var n := |users| - 1;
      AdminsInNone(users[..n], admins);
    }
  }

  lemma {:induction false} WithoutNone(users: seq<string>, excluded: seq<string>)
    requires forall i :: 0 <= i < |users| ==> users[i] !in excluded
    ensures Without(users, excluded) == users
  {
    if users != [] {
      var n := |users| - 1;
      WithoutNone(users[..n], excluded);
      Collections.FrontLast(users);
    }
  }

  /** Promoting again changes nothing: no admin is left among the members. */
  lemma PromoteTeamIdempotent(t: CD.Team, admins: seq<string>)
    ensures PromoteTeam(PromoteTeam(t, admins), admins) == PromoteTeam(t, admins)
  {
    var r := PromoteTeam(t, admins);
    AdminsInNone(r.members, admins);
    WithoutNone(r.members, admins);
  }

  /** The promotion of one team, as the source's loop over its members does it. */
  method PromoteTeamAdmins(team: CD.Team, admins: seq<string>) returns (t: CD.Team)
    ensures t == PromoteTeam(team, admins)
  {
    t := team;
    var adminMembers: seq<string> := [];
    var members := team.members;
    for j := 0 to |members|
      invariant adminMembers == AdminsIn(members[..j], admins)
      invariant t == team.(maintainers := team.maintainers + adminMembers)
    {
      assert members[..j + 1][..j] == members[..j];
      if members[j] in admins {
        adminMembers := adminMembers + [members[j]];
        t := t.(maintainers := t.maintainers + [members[j]]);
      }
    }
    assert members[..|members|] == members;
    WithoutAgree(members, adminMembers, admins);
    t := t.(members := Without(t.members, adminMembers));
  }

  /** The admin promotion applied to every team of the directory, in place. */
  method PromoteAdmins(teams: seq<CD.Team>, admins: seq<string>) returns (r: seq<CD.Team>)
    ensures |r| == |teams|
    ensures forall k :: 0 <= k < |teams| ==> r[k] == PromoteTeam(teams[k], admins)
  {
    r := teams;
    for k := 0 to |teams|
      invariant |r| == |teams|
      invariant forall i :: 0 <= i < k ==> r[i] == PromoteTeam(teams[i], admins)
      invariant forall i :: k <= i < |teams| ==> r[i] == teams[i]
    {
      var t := PromoteTeamAdmins(r[k], admins);
      r := r[k := t];
    }
  }

  /** The directory with every team promoted. */
  function PromotedTeams(teams: seq<CD.Team>, admins: seq<string>): (r: seq<CD.Team>)
    ensures |r| == |teams|
    ensures forall k :: 0 <= k < |teams| ==> r[k] == PromoteTeam(teams[k], admins)
  {
    if teams == [] then [] else [PromoteTeam(teams[0], admins)] + PromotedTeams(teams[1..], admins)
  }

  // ------------------------------------------------------ Repositories

  /** `is_repository_archived`: the flag of the first service repository with that name; `false` when there is none. */
  function IsRepositoryArchived(inService: seq<ServiceRepository>, name: string): (b: bool)
    ensures (forall i :: 0 <= i < |inService| ==> inService[i].name != name) ==> !b
    ensures forall i :: (0 <= i < |inService| && inService[i].name == name
      && (forall j :: 0 <= j < i ==> inService[j].name != name)) ==> (b <==> inService[i].archived)
  {
    if inService == [] then false
    else if inService[0].name == name then inService[0].archived
    else
      var b := IsRepositoryArchived(inService[1..], name);
      assert forall i :: 1 <= i < |inService| ==> inService[i] == inService[1..][i - 1];
      b
  }

  /**
   * A configured repository as it is compared with GitHub: a missing
   * visibility becomes the default one, and organization admins are not
   * listed as collaborators (they have access to every repository anyway).
   */
  function PrepareRepository(r: Repository, admins: seq<string>): (p: Repository)
    ensures p.name == r.name && p.teams == r.teams
    ensures p.visibility.Some?
    ensures r.visibility.Some? ==> p.visibility == r.visibility
    ensures r.visibility.None? ==> p.visibility == Some(DefaultVisibility)
    ensures p.collaborators.Some? <==> r.collaborators.Some?
    ensures p.collaborators.Some? ==>
      && (forall u :: u in p.collaborators.value <==> u in r.collaborators.value && u !in admins)
      && (forall u :: u in p.collaborators.value ==> p.collaborators.value[u] == r.collaborators.value[u])
  {
    var visibility := if r.visibility.None? then Some(DefaultVisibility) else r.visibility;
    var collaborators :=
      match r.collaborators
      case None => None
      case Some(c) => Some(map u | u in c && u !in admins :: c[u]);
    r.(visibility := visibility, collaborators := collaborators)
  }

  /** Preparing twice is preparing once. */
  lemma PrepareRepositoryIdempotent(r: Repository, admins: seq<string>)
    ensures PrepareRepository(PrepareRepository(r, admins), admins) == PrepareRepository(r, admins)
  {
    var p := PrepareRepository(r, admins);
    var q := PrepareRepository(p, admins);
    if p.collaborators.Some? {
      assert q.collaborators.value == p.collaborators.value;
    }
  }

  /** The configured repositories that are not archived, prepared, in configuration order. */
  function DesiredRepositories(repos: seq<Repository>, inService: seq<ServiceRepository>, admins: seq<string>): (r: seq<Repository>)
    ensures |r| <= |repos|
    ensures forall j :: 0 <= j < |repos| && !IsRepositoryArchived(inService, repos[j].name) ==>
      PrepareRepository(repos[j], admins) in r
    ensures (forall j :: 0 <= j < |repos| ==> !IsRepositoryArchived(inService, repos[j].name)) ==> |r| == |repos|
  {
    if repos == [] then []
    else
      var rest := DesiredRepositories(repos[1..], inService, admins);
      assert forall j :: 1 <= j < |repos| ==> repos[j] == repos[1..][j - 1];
      (if IsRepositoryArchived(inService, repos[0].name) then [] else [PrepareRepository(repos[0], admins)]) + rest
  }

  /** `x` is the preparation of a configured repository that is not archived. */
  ghost predicate PreparedFrom(x: Repository, repos: seq<Repository>, inService: seq<ServiceRepository>, admins: seq<string>) {
    exists j :: 0 <= j < |repos| && !IsRepositoryArchived(inService, repos[j].name) && x == PrepareRepository(repos[j], admins)
  }

  /** Every desired repository is the preparation of a configured one that is not archived. */
  lemma {:induction false} DesiredRepositoriesFrom(repos: seq<Repository>, inService: seq<ServiceRepository>, admins: seq<string>)
    ensures forall x :: x in DesiredRepositories(repos, inService, admins) ==> PreparedFrom(x, repos, inService, admins)
  {
    if repos != [] {
      DesiredRepositoriesFrom(repos[1..], inService, admins);
      var rest := DesiredRepositories(repos[1..], inService, admins);
      forall x | x in DesiredRepositories(repos, inService, admins)
        ensures PreparedFrom(x, repos, inService, admins)
      {
        if x in rest {
          assert PreparedFrom(x, repos[1..], inService, admins);
          var j :| 0 <= j < |repos[1..]| && !IsRepositoryArchived(inService, repos[1..][j].name)
            && x == PrepareRepository(repos[1..][j], admins);
          assert repos[j + 1] == repos[1..][j];
        } else {
          assert x == PrepareRepository(repos[0], admins) && !IsRepositoryArchived(inService, repos[0].name);
        }
      }
    }
  }

  /** Every desired repository has a visibility and lists no organization admin as a collaborator. */
  lemma DesiredRepositoriesPrepared(repos: seq<Repository>, inService: seq<ServiceRepository>, admins: seq<string>)
    ensures var r := DesiredRepositories(repos, inService, admins);
      forall x :: x in r ==> x.visibility.Some? && (x.collaborators.Some? ==> forall u :: u in x.collaborators.value ==> u !in admins)
  {
    DesiredRepositoriesFrom(repos, inService, admins);
    forall x | x in DesiredRepositories(repos, inService, admins)
      ensures x.visibility.Some? && (x.collaborators.Some? ==> forall u :: u in x.collaborators.value ==> u !in admins)
    {
      assert PreparedFrom(x, repos, inService, admins);
    }
  }

  // ------------------------------------------------------ Loading

  /** The state `new_from_config` loads, or `None` when it fails. */
  ghost function DesiredState(gh: Gh, parsers: CDL.Parsers, parseRepos: string -> Result<seq<Repository>, Error>,
                              svc: Svc, legacy: Legacy, src: Source): Option<State>
  {
    if !legacy.enabled || svc.listOrgAdmins.Err? || svc.listRepositories.Err? then None
    else
      var admins := svc.listOrgAdmins.value;
      var dir := CD.DirectoryFromConfig(gh, parsers, legacy, src);
      var cfg := RepoCfg(gh, parseRepos, src, legacy.sheriffPermissionsPath);
      if dir.Err? || cfg.None? then None
      else
        var s := State(dir.value.(teams := PromotedTeams(dir.value.teams, admins)),
                       DesiredRepositories(cfg.value, svc.listRepositories.value, admins));
        if svc.listOrgMembers.Ok? && StateValid(s, svc.listOrgMembers.value) then Some(s) else None
  }

  /**
   * `State::new_from_config`: only the legacy format is supported; the
   * admins and the repositories on the service, the directory and the
   * repositories configuration must all load, in that order, and the
   * result must pass validation.
   */
  method NewFromConfig(gh: Gh, parsers: CDL.Parsers, parseRepos: string -> Result<seq<Repository>, Error>,
                       svc: Svc, legacy: Legacy, src: Source) returns (r: Result<State, Error>)
    ensures r.Ok? <==> DesiredState(gh, parsers, parseRepos, svc, legacy, src).Some?
    ensures r.Ok? ==> r.value == DesiredState(gh, parsers, parseRepos, svc, legacy, src).value
    ensures !legacy.enabled ==> r == Err(Message(CD.OnlyLegacyText))
    ensures legacy.enabled && svc.listOrgAdmins.Err? ==> r == Err(svc.listOrgAdmins.error)
    ensures legacy.enabled && svc.listOrgAdmins.Ok? && svc.listRepositories.Err? ==> r == Err(svc.listRepositories.error)
    ensures legacy.enabled && svc.listOrgAdmins.Ok? && svc.listRepositories.Ok? ==>
      var dir := CD.DirectoryFromConfig(gh, parsers, legacy, src);
      && (dir.Err? ==> r == Err(dir.error))
      && (dir.Ok? && RepoCfg(gh, parseRepos, src, legacy.sheriffPermissionsPath).None? ==>
            r.Err? && r.error.Context? && r.error.ctx == RepoConfigInvalid)
  {
    if !legacy.enabled {
      return Err(Message(CD.OnlyLegacyText));
    }
    if svc.listOrgAdmins.Err? {
      return Err(svc.listOrgAdmins.error);
    }
    var admins := svc.listOrgAdmins.value;
    if svc.listRepositories.Err? {
      return Err(svc.listRepositories.error);
    }
    var inService := svc.listRepositories.value;

    var directory := CD.NewFromConfig(gh, parsers, legacy, src);
    if directory.Err? {
      return Err(directory.error);
    }
    var teams := PromoteAdmins(directory.value.teams, admins);

    var cfg;
    ghost var orders;
    cfg, orders := GetRepos(gh, parseRepos, src, legacy.sheriffPermissionsPath);
    if cfg.Err? {
      return Err(Context(RepoConfigInvalid, cfg.error));
    }
    var repositories := DesiredRepositories(cfg.value, inService, admins);

    assert teams == PromotedTeams(directory.value.teams, admins);
    r := Checked(State(directory.value.(teams := teams), repositories), svc.listOrgMembers);
  }

  /** `state.validate(svc, ctx)?; Ok(state)`. */
  method Checked(state: State, members: Result<seq<string>, Error>) returns (r: Result<State, Error>)
    ensures r.Ok? <==> members.Ok? && StateValid(state, members.value)
    ensures r.Ok? ==> r.value == state
    ensures members.Err? ==> r == Err(members.error)
  {
    var v, _, _ := Validate(state, members);
    if v.Err? {
      return Err(v.error);
    }
    return Ok(state);
  }
}
