/**
 * The first generation's GitHub service state (src/services/github/state.rs):
 * the team-only directory and the repositories of the Sheriff permissions
 * file, loaded only in the legacy format, and the changes between two
 * states.
 */
module OldGithubState {
  import opened Common
  import opened Errors
  import opened OldCfg
  import CD = CoreDirectory
  import OTD = OldTeamDirectory
  import OL = OldLegacy
  import OG = OldGithub
  import ORP = OldRepositories
  import OGL = OldGithubLegacy

  datatype State = State(directory: OTD.Directory, repositories: seq<ORP.Repository>)

  /** The changes between two states. */
  datatype Changes = Changes(directory: seq<OTD.Change>, repositories: seq<ORP.RepositoryChange>)

  /**
   * `State::changes` as written: the team changes of the directories and
   * the repository changes, whose role comparison never reports a role
   * update.
   */
  method ChangesOf(o: State, n: State) returns (r: Changes)
    ensures OTD.IsChanges(o.directory, n.directory, r.directory)
    ensures ORP.IsChanges(o.repositories, n.repositories, false, r.repositories)
    ensures forall c :: c in r.repositories ==> !c.TeamRoleUpdated? && !c.CollaboratorRoleUpdated?
  {
    var directory := OTD.Changes(o.directory, n.directory);
    var repositories := ORP.RepositoriesChanges(o.repositories, n.repositories);
    r := Changes(directory, repositories);
  }

  /** `State::changes` with the role comparison corrected to read the old role from the old state. */
  method ChangesOfFixed(o: State, n: State) returns (r: Changes)
    ensures OTD.IsChanges(o.directory, n.directory, r.directory)
    ensures ORP.IsChanges(o.repositories, n.repositories, true, r.repositories)
  {
    var directory := OTD.Changes(o.directory, n.directory);
    var repositories := ORP.RepositoriesChangesFixed(o.repositories, n.repositories);
    r := Changes(directory, repositories);
  }

  /** A state compared with itself has no changes, under either role comparison. */
  lemma SelfChangesEmpty(s: State, fixed: bool, r: Changes)
    requires OTD.IsChanges(s.directory, s.directory, r.directory)
    requires ORP.IsChanges(s.repositories, s.repositories, fixed, r.repositories)
    ensures r.directory == [] && r.repositories == []
  {
    OTD.SelfChangesEmpty(s.directory, r.directory);
    ORP.SelfChangesEmpty(s.repositories, fixed, r.repositories);
  }

  const ServiceConfigInvalid := "invalid github service configuration"

  /** What `State::new_from_config` yields. */
  ghost function StateFromConfig(cfg: Config, gh: OG.Gh, parsers: OL.Parsers,
                                 parseRepos: string -> Result<seq<ORP.Repository>, Error>, ref_: Option<string>)
    : Result<State, Error>
    requires LegacyEnabled(cfg) ==> HasLegacyPaths(cfg) && ServiceSheriffPathKey in cfg.strings
  {
    if !LegacyEnabled(cfg) then Err(Message(CD.OnlyLegacyText))
    else
      var d := OTD.DirectoryFromConfig(cfg, gh, parsers, ref_);
      if d.Err? then Err(d.error)
      else
        var repos := OGL.GetSpec(cfg, gh, parseRepos, ref_);
        if repos.Err? then Err(Context(ServiceConfigInvalid, repos.error))
        else Ok(State(d.value, repos.value))
  }

  /**
   * `State::new_from_config`: the directory first, then the repositories,
   * whose failure is reported under "invalid github service configuration";
   * it fails unless the legacy format is enabled.
   */
  method NewFromConfig(cfg: Config, gh: OG.Gh, parsers: OL.Parsers,
                       parseRepos: string -> Result<seq<ORP.Repository>, Error>, ref_: Option<string>)
    returns (r: Result<State, Error>)
    requires LegacyEnabled(cfg) ==> HasLegacyPaths(cfg) && ServiceSheriffPathKey in cfg.strings
    ensures r == StateFromConfig(cfg, gh, parsers, parseRepos, ref_)
    ensures !LegacyEnabled(cfg) ==> r == Err(Message(CD.OnlyLegacyText))
    ensures r.Ok? <==>
      LegacyEnabled(cfg) && OTD.DirectoryFromConfig(cfg, gh, parsers, ref_).Ok? && OGL.GetSpec(cfg, gh, parseRepos, ref_).Ok?
  {
    if LegacyEnabled(cfg) {
      var directory := OTD.New(cfg, gh, parsers, ref_);
      if directory.Err? {
        return Err(directory.error);
      }
      var repositories := OGL.Get(cfg, gh, parseRepos, ref_);
      if repositories.Err? {
        return Err(Context(ServiceConfigInvalid, repositories.error));
      }
      return Ok(State(directory.value, repositories.value));
    }
    return Err(Message(CD.OnlyLegacyText));
  }

  /** A directory that fails to load hides any problem of the repositories. */
  lemma DirectoryErrorFirst(cfg: Config, gh: OG.Gh, parsers: OL.Parsers,
                            parseRepos: string -> Result<seq<ORP.Repository>, Error>, ref_: Option<string>)
    requires LegacyEnabled(cfg) && HasLegacyPaths(cfg) && ServiceSheriffPathKey in cfg.strings
    requires OTD.DirectoryFromConfig(cfg, gh, parsers, ref_).Err?
    ensures StateFromConfig(cfg, gh, parsers, parseRepos, ref_) == Err(OTD.DirectoryFromConfig(cfg, gh, parsers, ref_).error)
  {
  }
}
