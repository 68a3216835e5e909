/**
 * The GitHub service as clowarden-core's GitHub handler sees it
 * (`service::Svc`): the queries the loading and apply steps make and one
 * entry point for the calls that change the organization. Every answer is
 * an input of the model; the calls' effects on GitHub are not modelled.
 */
module CoreGithubService {
  import opened Common
  import opened Errors
  import CD = CoreDirectory
  import opened CoreGithubState

  /** `MinimalRepository`: the fields the loading step reads. */
  datatype ServiceRepository = ServiceRepository(name: string, archived: bool)

  /** A pending repository invitation; `invitee` is the invited login, when GitHub reports one. */
  datatype Invitation = Invitation(id: int, invitee: Option<string>)

  /** The calls that change the organization, one per `Svc` method. */
  datatype SvcCall =
    | AddTeam(team: CD.Team)
    | RemoveTeam(teamName: string)
    | AddTeamMaintainer(teamName: string, userName: string)
    | RemoveTeamMaintainer(teamName: string, userName: string)
    | AddTeamMember(teamName: string, userName: string)
    | RemoveTeamMember(teamName: string, userName: string)
    | AddRepository(repo: Repository)
    | AddRepositoryTeam(repoName: string, teamName: string, role: Role)
    | RemoveRepositoryTeam(repoName: string, teamName: string)
    | UpdateRepositoryTeamRole(repoName: string, teamName: string, role: Role)
    | AddRepositoryCollaborator(repoName: string, userName: string, role: Role)
    | RemoveRepositoryCollaborator(repoName: string, userName: string)
    | RemoveRepositoryInvitation(repoName: string, invitationId: int)
    | UpdateRepositoryCollaboratorRole(repoName: string, userName: string, role: Role)
    | UpdateRepositoryInvitation(repoName: string, invitationId: int, role: Role)
    | UpdateRepositoryVisibility(repoName: string, visibility: Visibility)

  /**
   * The service of one organization. `actualState` stands for
   * `State::new_from_service`, which only reads GitHub.
   */
  datatype Svc = Svc(
    listOrgAdmins: Result<seq<string>, Error>,
    listOrgMembers: Result<seq<string>, Error>,
    listRepositories: Result<seq<ServiceRepository>, Error>,
    listRepositoryInvitations: string -> Result<seq<Invitation>, Error>,
    actualState: Result<State, Error>,
    call: SvcCall -> Result<(), Error>)
}
