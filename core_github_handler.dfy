/**
 * The GitHub service handler of clowarden-core: the summary of the
 * repository changes a pull request proposes, and the reconcile that
 * applies the changes between GitHub's actual state and the desired one,
 * one service call per change.
 */
module CoreGithubHandler {
  import opened Common
  import opened Errors
  import opened Collections
  import opened CoreMultiError
  import opened CoreCfg
  import opened CoreGithub
  import CDL = CoreDirectoryLegacy
  import CD = CoreDirectory
  import opened CoreServices
  import opened CoreGithubState
  import opened CoreGithubService
  import opened CoreGithubLoad

  const ActualStateContext := "error getting actual state from service"
  const DesiredStateContext := "error getting desired state from configuration"

  /** A change a reconcile applied: a directory change or a repository change. */
  datatype AppliedChange = OfDirectory(dirChange: CD.DirectoryChange) | OfRepository(repoChange: RepositoryChange)

  // ------------------------------------------------------ Invitations

  /** The id of the first invitation sent to `user`, if any. */
  function FirstInvitation(invitations: seq<Invitation>, user: string): (r: Option<int>)
    ensures r.None? <==> forall i :: 0 <= i < |invitations| ==> invitations[i].invitee != Some(user)
    ensures r.Some? ==>
      exists i :: 0 <= i < |invitations| && invitations[i].invitee == Some(user)
        && invitations[i].id == r.value && (forall j :: 0 <= j < i ==> invitations[j].invitee != Some(user))
  {
    if invitations == [] then None
    else if invitations[0].invitee == Some(user) then Some(invitations[0].id)
    else
      var r := FirstInvitation(invitations[1..], user);
      assert forall i :: 1 <= i < |invitations| ==> invitations[i] == invitations[1..][i - 1];
      if r.Some? then
        var i :| 0 <= i < |invitations[1..]| && invitations[1..][i].invitee == Some(user)
          && invitations[1..][i].id == r.value && (forall j :: 0 <= j < i ==> invitations[1..][j].invitee != Some(user));
        assert invitations[i + 1] == invitations[1..][i];
        r
      else r
  }

  /** `get_repository_invitation`: the invitations of the repository must be listed; then the first one sent to the user. */
  function GetRepositoryInvitation(svc: Svc, repoName: string, user: string): (r: Result<Option<int>, Error>)
    ensures svc.listRepositoryInvitations(repoName).Err? ==> r == Err(svc.listRepositoryInvitations(repoName).error)
    ensures svc.listRepositoryInvitations(repoName).Ok? ==>
      var invitations := svc.listRepositoryInvitations(repoName).value;
      && r.Ok?
      && (r.value.None? <==> forall i :: 0 <= i < |invitations| ==> invitations[i].invitee != Some(user))
      && (r.value.Some? ==> exists i :: 0 <= i < |invitations| && invitations[i].invitee == Some(user) && invitations[i].id == r.value.value)
  {
    match svc.listRepositoryInvitations(repoName)
    case Err(e) => Err(e)
    case Ok(invitations) => Ok(FirstInvitation(invitations, user))
  }

  // ------------------------------------------------------ Dispatch

  /** The service call for a directory change; user changes have none (GitHub keeps no user profiles). */
  function DirCall(c: CD.DirectoryChange): (r: Option<SvcCall>)
    ensures r.Some? <==> IsTeamChange(c)
  {
    match c
    case TeamAdded(team) => Some(AddTeam(team))
    case TeamRemoved(t) => Some(RemoveTeam(t))
    case TeamMaintainerAdded(t, u) => Some(AddTeamMaintainer(t, u))
    case TeamMaintainerRemoved(t, u) => Some(RemoveTeamMaintainer(t, u))
    case TeamMemberAdded(t, u) => Some(AddTeamMember(t, u))
    case TeamMemberRemoved(t, u) => Some(RemoveTeamMember(t, u))
    case UserAdded(_) => None
    case UserRemoved(_) => None
    case UserUpdated(_) => None
  }

  /** Different team changes make different calls. */
  lemma DirCallInjective(a: CD.DirectoryChange, b: CD.DirectoryChange)
    requires DirCall(a).Some? && DirCall(a) == DirCall(b)
    ensures a == b
  {
  }

  /**
   * The service call for a repository change. Removing a collaborator, or
   * changing the role, acts on a pending invitation to the user when there
   * is one and on the collaborator otherwise; listing the invitations can
   * fail, and then there is no call.
   */
  function RepoCall(svc: Svc, c: RepositoryChange): (r: Result<SvcCall, Error>)
    ensures r.Err? <==> (c.CollaboratorRemoved? || c.CollaboratorRoleUpdated?) && svc.listRepositoryInvitations(c.repoName).Err?
    ensures r.Err? ==> r.error == svc.listRepositoryInvitations(c.repoName).error
  {
    match c
    case RepositoryAdded(repo) => Ok(AddRepository(repo))
    case TeamAdded(rn, t, role) => Ok(AddRepositoryTeam(rn, t, role))
    case TeamRemoved(rn, t) => Ok(RemoveRepositoryTeam(rn, t))
    case TeamRoleUpdated(rn, t, role) => Ok(UpdateRepositoryTeamRole(rn, t, role))
    case CollaboratorAdded(rn, u, role) => Ok(AddRepositoryCollaborator(rn, u, role))
    case CollaboratorRemoved(rn, u) =>
      var inv := GetRepositoryInvitation(svc, rn, u);
      if inv.Err? then Err(inv.error)
      else if inv.value.Some? then Ok(RemoveRepositoryInvitation(rn, inv.value.value))
      else Ok(RemoveRepositoryCollaborator(rn, u))
    case CollaboratorRoleUpdated(rn, u, role) =>
      var inv := GetRepositoryInvitation(svc, rn, u);
      if inv.Err? then Err(inv.error)
      else if inv.value.Some? then Ok(UpdateRepositoryInvitation(rn, inv.value.value, role))
      else Ok(UpdateRepositoryCollaboratorRole(rn, u, role))
    case VisibilityUpdated(rn, v) => Ok(UpdateRepositoryVisibility(rn, v))
  }

  /** A pending invitation to the user is preferred over the collaborator; without one the collaborator itself is acted on. */
  lemma InvitationPreferred(svc: Svc, rn: string, u: string, role: Role)
    requires svc.listRepositoryInvitations(rn).Ok?
    ensures var invitations := svc.listRepositoryInvitations(rn).value;
      var removed := RepoCall(svc, CollaboratorRemoved(rn, u));
      var updated := RepoCall(svc, CollaboratorRoleUpdated(rn, u, role));
      if exists i :: 0 <= i < |invitations| && invitations[i].invitee == Some(u) then
        removed.Ok? && removed.value.RemoveRepositoryInvitation? && removed.value.repoName == rn
        && updated.Ok? && updated.value.UpdateRepositoryInvitation? && updated.value.role == role
      else
        removed == Ok(RemoveRepositoryCollaborator(rn, u)) && updated == Ok(UpdateRepositoryCollaboratorRole(rn, u, role))
  {
  }

  /** Apart from the calls on invitations, different repository changes make different calls. */
  lemma RepoCallInjective(svc: Svc, a: RepositoryChange, b: RepositoryChange)
    requires RepoCall(svc, a).Ok? && RepoCall(svc, a) == RepoCall(svc, b)
    requires !RepoCall(svc, a).value.RemoveRepositoryInvitation? && !RepoCall(svc, a).value.UpdateRepositoryInvitation?
    ensures a == b
  {
  }

  /** `err.map(|e| e.to_string())`. */
  function Outcome(res: Result<(), Error>): (r: Option<string>)
    ensures r.Some? <==> res.Err?
    ensures res.Err? ==> r.value == Display(res.error)
  {
    if res.Err? then Some(Display(res.error)) else None
  }

  // ------------------------------------------------------ Applying changes

  /** The record of a directory change applied as the `k`-th applied change. */
  function DirRecord(svc: Svc, c: CD.DirectoryChange, now: nat -> Timestamp, k: nat): (r: ChangeApplied<AppliedChange>)
    requires IsTeamChange(c)
    ensures r.change == OfDirectory(c) && r.appliedAt == now(k)
    ensures r.error.Some? <==> svc.call(DirCall(c).value).Err?
  {
    ChangeApplied(OfDirectory(c), Outcome(svc.call(DirCall(c).value)), now(k))
  }

  /** The record of a repository change applied as the `k`-th applied change. */
  function RepoRecord(svc: Svc, c: RepositoryChange, now: nat -> Timestamp, k: nat): (r: ChangeApplied<AppliedChange>)
    requires RepoCall(svc, c).Ok?
    ensures r.change == OfRepository(c) && r.appliedAt == now(k)
    ensures r.error.Some? <==> svc.call(RepoCall(svc, c).value).Err?
  {
    ChangeApplied(OfRepository(c), Outcome(svc.call(RepoCall(svc, c).value)), now(k))
  }

  /** `applied` records the team changes `dir`, in order, numbered from 0. */
  ghost predicate DirApplied(svc: Svc, dir: seq<CD.DirectoryChange>, now: nat -> Timestamp, applied: seq<ChangeApplied<AppliedChange>>)
    requires forall i :: 0 <= i < |dir| ==> IsTeamChange(dir[i])
  {
    |applied| == |dir| && forall k :: 0 <= k < |applied| ==> applied[k] == DirRecord(svc, dir[k], now, k)
  }

  lemma DirAppliedSnoc(svc: Svc, dir: seq<CD.DirectoryChange>, c: CD.DirectoryChange, now: nat -> Timestamp,
                       applied: seq<ChangeApplied<AppliedChange>>)
    requires forall i :: 0 <= i < |dir| ==> IsTeamChange(dir[i])
    requires IsTeamChange(c) && DirApplied(svc, dir, now, applied)
    ensures DirApplied(svc, dir + [c], now, applied + [DirRecord(svc, c, now, |applied|)])
  {
  }

  /**
   * The directory half of the reconcile: one call per team change, in
   * order, each recorded with its outcome; user changes are skipped.
   */
  method ApplyDirectoryChanges(svc: Svc, changes: seq<CD.DirectoryChange>, now: nat -> Timestamp)
    returns (applied: seq<ChangeApplied<AppliedChange>>)
    ensures DirApplied(svc, Filter(changes, IsTeamChange), now, applied)
  {
    applied := [];
    ghost var kept: seq<CD.DirectoryChange> := [];
    for j := 0 to |changes|
      invariant kept == Filter(changes[..j], IsTeamChange)
      invariant DirApplied(svc, kept, now, applied)
    {
      var c := changes[j];
      FilterStep(changes, j, IsTeamChange);
      var call := DirCall(c);
      if call.None? {
        continue;
      }
      var err := svc.call(call.value);
      var record := ChangeApplied(OfDirectory(c), Outcome(err), now(|applied|));
      DirAppliedSnoc(svc, kept, c, now, applied);
      applied := applied + [record];
      kept := kept + [c];
    }
    assert changes[..|changes|] == changes;
  }

  /** Every repository change up to `n` has its call. */
  ghost predicate CallsOk(svc: Svc, changes: seq<RepositoryChange>, n: int) {
    forall k :: 0 <= k < n && k < |changes| ==> RepoCall(svc, changes[k]).Ok?
  }

  /**
   * The repository half of the reconcile: one call per change, in order,
   * each recorded with its outcome, the records numbered from `offset`. A
   * failed invitation lookup aborts with its error, dropping the records.
   */
  method ApplyRepositoryChanges(svc: Svc, changes: seq<RepositoryChange>, now: nat -> Timestamp, offset: nat)
    returns (r: Result<seq<ChangeApplied<AppliedChange>>, Error>)
    ensures r.Ok? <==> CallsOk(svc, changes, |changes|)
    ensures r.Err? ==>
      exists k :: 0 <= k < |changes| && CallsOk(svc, changes, k) && RepoCall(svc, changes[k]).Err?
        && r.error == RepoCall(svc, changes[k]).error
    ensures r.Ok? ==> RepoApplied(svc, changes, now, offset, r.value)
  {
    var applied: seq<ChangeApplied<AppliedChange>> := [];
    for j := 0 to |changes|
      invariant CallsOk(svc, changes, j)
      invariant |applied| == j
      invariant forall k :: 0 <= k < j ==> applied[k] == RepoRecord(svc, changes[k], now, offset + k)
    {
      var call := RepoCall(svc, changes[j]);
      if call.Err? {
        return Err(call.error);
      }
      var err := svc.call(call.value);
      applied := applied + [ChangeApplied(OfRepository(changes[j]), Outcome(err), now(offset + j))];
    }
    return Ok(applied);
  }

  /** `applied` records the repository changes `changes`, in order, numbered from `offset`. */
  ghost predicate RepoApplied(svc: Svc, changes: seq<RepositoryChange>, now: nat -> Timestamp, offset: nat,
                              applied: seq<ChangeApplied<AppliedChange>>)
    requires CallsOk(svc, changes, |changes|)
  {
    |applied| == |changes| && forall k :: 0 <= k < |changes| ==> applied[k] == RepoRecord(svc, changes[k], now, offset + k)
  }

  /** What a reconcile that got through applies: the team changes and then the repository changes, numbered in that order. */
  ghost predicate AppliedAll(svc: Svc, changes: Changes, now: nat -> Timestamp, applied: seq<ChangeApplied<AppliedChange>>)
    requires forall i :: 0 <= i < |changes.directory| ==> IsTeamChange(changes.directory[i])
    requires CallsOk(svc, changes.repositories, |changes.repositories|)
  {
    var d := |changes.directory|;
    && |applied| == d + |changes.repositories|
    && DirApplied(svc, changes.directory, now, applied[..d])
    && RepoApplied(svc, changes.repositories, now, d, applied[d..])
  }

  lemma AppliedAllConcat(svc: Svc, changes: Changes, now: nat -> Timestamp,
                         dirApplied: seq<ChangeApplied<AppliedChange>>, repoApplied: seq<ChangeApplied<AppliedChange>>)
    requires forall i :: 0 <= i < |changes.directory| ==> IsTeamChange(changes.directory[i])
    requires CallsOk(svc, changes.repositories, |changes.repositories|)
    requires DirApplied(svc, changes.directory, now, dirApplied)
    requires RepoApplied(svc, changes.repositories, now, |dirApplied|, repoApplied)
    ensures AppliedAll(svc, changes, now, dirApplied + repoApplied)
  {
    ConcatParts(dirApplied, repoApplied);
  }

  // ------------------------------------------------------ Handler

  /**
   * `reconcile`: the actual state from the service and the desired state
   * from the configuration in the organization's reference, then every
   * change between them, directory changes first.
   */
  method Reconcile(gh: Gh, parsers: CDL.Parsers, parseRepos: string -> Result<seq<Repository>, Error>,
                   svc: Svc, org: Organization, now: nat -> Timestamp)
    returns (r: Result<seq<ChangeApplied<AppliedChange>>, Error>, ghost changes: Changes)
    ensures svc.actualState.Err? ==> r == Err(Context(ActualStateContext, svc.actualState.error))
    ensures var desired := DesiredState(gh, parsers, parseRepos, svc, org.legacy, SourceFrom(org));
      && (svc.actualState.Ok? && desired.None? ==> r.Err? && r.error.Context? && r.error.ctx == DesiredStateContext)
      && (svc.actualState.Ok? && desired.Some? ==> ReconcileOutcome(svc, svc.actualState.value, desired.value, now, r, changes))
  {
    changes := Changes([], []);
    if svc.actualState.Err? {
      return Err(Context(ActualStateContext, svc.actualState.error)), changes;
    }
    var actual := svc.actualState.value;
    var desired := NewFromConfig(gh, parsers, parseRepos, svc, org.legacy, SourceFrom(org));
    if desired.Err? {
      return Err(Context(DesiredStateContext, desired.error)), changes;
    }
    var diff := StateDiff(actual, desired.value);
    changes := diff;
    r := ApplyChanges(svc, diff, now);
  }

  /** The outcome of a reconcile whose states both loaded. */
  ghost predicate ReconcileOutcome(svc: Svc, actual: State, desired: State, now: nat -> Timestamp,
                                   r: Result<seq<ChangeApplied<AppliedChange>>, Error>, changes: Changes)
  {
    && CD.Part(changes.directory, CD.KeyedOf(actual.directory, desired.directory), 0, 2)
    && (forall i :: 0 <= i < |changes.directory| ==> IsTeamChange(changes.directory[i]))
    && IsRepoDiff(actual.repositories, desired.repositories, changes.repositories)
    && (r.Ok? <==> CallsOk(svc, changes.repositories, |changes.repositories|))
    && (r.Ok? ==> AppliedAll(svc, changes, now, r.value))
  }

  /** Both halves of the apply step, for changes whose directory part holds only team changes. */
  method ApplyChanges(svc: Svc, changes: Changes, now: nat -> Timestamp)
    returns (r: Result<seq<ChangeApplied<AppliedChange>>, Error>)
    requires forall i :: 0 <= i < |changes.directory| ==> IsTeamChange(changes.directory[i])
    ensures r.Ok? <==> CallsOk(svc, changes.repositories, |changes.repositories|)
    ensures r.Ok? ==> AppliedAll(svc, changes, now, r.value)
  {
    var dirApplied := ApplyDirectoryChanges(svc, changes.directory, now);
    FilterPrefix(changes.directory, IsTeamChange, |changes.directory|);
    assert changes.directory[..|changes.directory|] == changes.directory;
    var repoApplied := ApplyRepositoryChanges(svc, changes.repositories, now, |dirApplied|);
    if repoApplied.Err? {
      return Err(repoApplied.error);
    }
    AppliedAllConcat(svc, changes, now, dirApplied, repoApplied.value);
    return Ok(dirApplied + repoApplied.value);
  }

  /**
   * `get_changes_summary`: the repository changes from the base to the
   * head configuration. A head configuration that does not load is an
   * error; a base one that does not load gives no changes and status
   * `Invalid`.
   */
  method GetChangesSummary(gh: Gh, parsers: CDL.Parsers, parseRepos: string -> Result<seq<Repository>, Error>,
                           svc: Svc, org: Organization, headSrc: Source)
    returns (r: Result<ChangesSummary<RepositoryChange>, Error>)
    ensures var head := DesiredState(gh, parsers, parseRepos, svc, org.legacy, headSrc);
      var base := DesiredState(gh, parsers, parseRepos, svc, org.legacy, SourceFrom(org));
      && (r.Err? <==> head.None?)
      && (!org.legacy.enabled ==> r == Err(Message(CD.OnlyLegacyText)))
      && (r.Ok? && base.None? ==> r.value.changes == [] && r.value.baseRefConfigStatus == Invalid)
      && (r.Ok? && base.Some? ==> r.value.baseRefConfigStatus == Valid)
      && (r.Ok? && base.Some? ==> IsRepoDiff(base.value.repositories, head.value.repositories, r.value.changes))
  {
    var head := NewFromConfig(gh, parsers, parseRepos, svc, org.legacy, headSrc);
    if head.Err? {
      return Err(head.error);
    }
    var base := NewFromConfig(gh, parsers, parseRepos, svc, org.legacy, SourceFrom(org));
    if base.Err? {
      return Ok(ChangesSummary([], Invalid));
    }
    var changes := StateDiff(base.value, head.value);
    return Ok(ChangesSummary(changes.repositories, Valid));
  }
}
