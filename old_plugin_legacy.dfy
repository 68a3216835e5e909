/**
 * The first generation's GitHub plugin reading of the Sheriff permissions
 * file (src/plugins/github/legacy.rs). Its validator checks only that every
 * repository is named; repeated names pass. Like the other legacy loaders
 * of this generation it relies on a `MultiError` with a context and
 * `contains_errors`, modelled with clowarden-core's `MultiError`.
 */
module OldPluginLegacy {
  import opened Common
  import opened Errors
  import opened OldCfg
  import CM = CoreMultiError
  import CGL = CoreGithubLegacy
  import ORP = OldRepositories
  import OG = OldGithub

  const PluginConfigInvalid := "invalid github plugin configuration"

  /** The missing-name errors of the first `n` entries, each by its index. */
  function NameErrors(repos: seq<ORP.Repository>, n: nat): (errs: seq<Error>)
    requires n <= |repos|
    ensures |errs| <= n
  {
    if n == 0 then []
    else NameErrors(repos, n - 1) + (if repos[n - 1].name == "" then [CGL.RepoNameRequiredError(NatToString(n - 1))] else [])
  }

  /** No error iff every one of the first `n` entries is named. */
  lemma {:induction false} NameErrorsEmpty(repos: seq<ORP.Repository>, n: nat)
    requires n <= |repos|
    ensures NameErrors(repos, n) == [] <==> forall i :: 0 <= i < n ==> repos[i].name != ""
  {
    if n > 0 {
      NameErrorsEmpty(repos, n - 1);
    }
  }

  /** Every unnamed entry is reported, by its index. */
  lemma {:induction false} EmptyNameReported(repos: seq<ORP.Repository>, n: nat, i: nat)
    requires i < n <= |repos| && repos[i].name == ""
    ensures CGL.RepoNameRequiredError(NatToString(i)) in NameErrors(repos, n)
  {
    if i < n - 1 {
      EmptyNameReported(repos, n - 1, i);
    }
  }

  /** Repeated names are accepted: two entries with the same non-empty name add no error. */
  lemma DuplicatesAccepted(name: string)
    requires name != ""
    ensures NameErrors([ORP.Repository(name, None, None, None), ORP.Repository(name, None, None, None)], 2) == []
  {
    NameErrorsEmpty([ORP.Repository(name, None, None, None), ORP.Repository(name, None, None, None)], 2);
  }

  /** `sheriff::Cfg::validate`: every unnamed entry, in order, under "invalid github plugin configuration". */
  method Validate(repos: seq<ORP.Repository>) returns (r: Result<(), Error>)
    ensures r.Ok? <==> forall i :: 0 <= i < |repos| ==> repos[i].name != ""
    ensures r.Err? ==> r.error == Multi(Some(PluginConfigInvalid), NameErrors(repos, |repos|))
  {
    var merr := new CM.MultiError(Some(PluginConfigInvalid));
    for i := 0 to |repos|
      invariant merr.errors == NameErrors(repos, i)
      invariant merr.context == Some(PluginConfigInvalid)
    {
      var repo := repos[i];
      var id := if repo.name == "" then NatToString(i) else repo.name;
      if repo.name == "" {
        merr.Push(CGL.RepoNameRequiredError(id));
      }
    }
    NameErrorsEmpty(repos, |repos|);
    if merr.ContainsErrors() {
      return Err(merr.ToError());
    }
    return Ok(());
  }

  /** What `sheriff::Cfg::get` yields. */
  ghost function GetSpec(cfg: Config, gh: OG.Gh, parse: string -> Result<seq<ORP.Repository>, Error>, ref_: Option<string>)
    : Result<seq<ORP.Repository>, Error>
    requires SheriffPathKey in cfg.strings
  {
    var content := gh.getFileContent(cfg.strings[SheriffPathKey], ref_);
    if content.Err? then Err(Context("error getting sheriff permissions file", content.error))
    else
      var parsed := parse(content.value);
      if parsed.Err? then Err(Context("error parsing sheriff permissions file", parsed.error))
      else if forall i :: 0 <= i < |parsed.value| ==> parsed.value[i].name != "" then Ok(parsed.value)
      else Err(Multi(Some(PluginConfigInvalid), NameErrors(parsed.value, |parsed.value|)))
  }

  /** `sheriff::Cfg::get`: fetch the file, parse it, then validate. */
  method Get(cfg: Config, gh: OG.Gh, parse: string -> Result<seq<ORP.Repository>, Error>, ref_: Option<string>)
    returns (r: Result<seq<ORP.Repository>, Error>)
    requires SheriffPathKey in cfg.strings
    ensures r == GetSpec(cfg, gh, parse, ref_)
  {
    var content := gh.getFileContent(cfg.strings[SheriffPathKey], ref_);
    if content.Err? {
      return Err(Context("error getting sheriff permissions file", content.error));
    }
    var parsed := parse(content.value);
    if parsed.Err? {
      return Err(Context("error parsing sheriff permissions file", parsed.error));
    }
    var v := Validate(parsed.value);
    if v.Err? {
      return Err(v.error);
    }
    return Ok(parsed.value);
  }
}
