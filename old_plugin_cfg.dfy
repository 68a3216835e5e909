/**
 * The first generation's GitHub plugin configuration (src/plugins/github/cfg.rs):
 * the repositories of the Sheriff permissions file, loaded only in the
 * legacy format, and their changes, which follow the same algorithm as the
 * GitHub service state's (see `OldRepositories`).
 */
module OldPluginCfg {
  import opened Common
  import opened Errors
  import opened OldCfg
  import CD = CoreDirectory
  import OG = OldGithub
  import ORP = OldRepositories
  import OPL = OldPluginLegacy

  datatype Cfg = Cfg(repositories: seq<ORP.Repository>)

  /** `From<sheriff::Cfg>`: the repositories as they are. */
  function FromSheriff(repositories: seq<ORP.Repository>): (c: Cfg)
    ensures c.repositories == repositories
  {
    Cfg(repositories)
  }

  const PluginConfigInvalid := "invalid github plugin configuration"

  /** What `Cfg::get` yields. */
  ghost function CfgFromConfig(cfg: Config, gh: OG.Gh, parse: string -> Result<seq<ORP.Repository>, Error>, ref_: Option<string>)
    : Result<Cfg, Error>
    requires LegacyEnabled(cfg) ==> SheriffPathKey in cfg.strings
  {
    if !LegacyEnabled(cfg) then Err(Message(CD.OnlyLegacyText))
    else
      var s := OPL.GetSpec(cfg, gh, parse, ref_);
      if s.Err? then Err(Context(PluginConfigInvalid, s.error)) else Ok(FromSheriff(s.value))
  }

  /** `Cfg::get`: the Sheriff repositories, failures under "invalid github plugin configuration"; legacy format only. */
  method Get(cfg: Config, gh: OG.Gh, parse: string -> Result<seq<ORP.Repository>, Error>, ref_: Option<string>)
    returns (r: Result<Cfg, Error>)
    requires LegacyEnabled(cfg) ==> SheriffPathKey in cfg.strings
    ensures r == CfgFromConfig(cfg, gh, parse, ref_)
    ensures !LegacyEnabled(cfg) ==> r == Err(Message(CD.OnlyLegacyText))
    ensures r.Ok? <==> LegacyEnabled(cfg) && OPL.GetSpec(cfg, gh, parse, ref_).Ok?
  {
    if LegacyEnabled(cfg) {
      var sheriff := OPL.Get(cfg, gh, parse, ref_);
      if sheriff.Err? {
        return Err(Context(PluginConfigInvalid, sheriff.error));
      }
      return Ok(FromSheriff(sheriff.value));
    }
    return Err(Message(CD.OnlyLegacyText));
  }

  /** `Cfg::changes` as written: the repository changes, whose role comparison never reports a role update. */
  method Changes(o: Cfg, n: Cfg) returns (changes: seq<ORP.RepositoryChange>)
    ensures ORP.IsChanges(o.repositories, n.repositories, false, changes)
    ensures forall c :: c in changes ==> !c.TeamRoleUpdated? && !c.CollaboratorRoleUpdated?
  {
    changes := ORP.RepositoriesChanges(o.repositories, n.repositories);
  }

  /** `Cfg::changes` with the role comparison corrected to read the old role from the old configuration. */
  method ChangesFixed(o: Cfg, n: Cfg) returns (changes: seq<ORP.RepositoryChange>)
    ensures ORP.IsChanges(o.repositories, n.repositories, true, changes)
  {
    changes := ORP.RepositoriesChangesFixed(o.repositories, n.repositories);
  }
}
