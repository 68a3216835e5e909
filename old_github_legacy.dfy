/**
 * The first generation's GitHub service reading of the Sheriff permissions
 * file (src/services/github/legacy.rs): the repositories list, whose
 * entries must be named and must not repeat a name. Reading the YAML is a
 * parameter; the file comes through the GitHub oracle. The validator builds
 * a `MultiError` with a context and asks `contains_errors`, which
 * src/multierror.rs does not offer; the model uses clowarden-core's
 * `MultiError`, which does.
 */
module OldGithubLegacy {
  import opened Common
  import opened Errors
  import opened Collections
  import opened OldCfg
  import CM = CoreMultiError
  import CGL = CoreGithubLegacy
  import ORP = OldRepositories
  import OG = OldGithub

  const ServiceConfigInvalid := "invalid github service configuration"

  /** The id an entry goes by in error messages: its name, or its index when the name is empty. */
  function RepoId(repo: ORP.Repository, i: nat): (id: string)
    ensures repo.name != "" ==> id == repo.name
    ensures repo.name == "" ==> id == NatToString(i)
  {
    if repo.name == "" then NatToString(i) else repo.name
  }

  /** The non-empty names of the first `i` entries: the `repos_seen` list. */
  ghost function SeenRepos(repos: seq<ORP.Repository>, i: nat): set<string>
    requires i <= |repos|
  {
    if i == 0 then {}
    else SeenRepos(repos, i - 1) + (if repos[i - 1].name != "" then {repos[i - 1].name} else {})
  }

  /** What entry `i` is reported for: a missing name, or a name seen before. */
  ghost function EntryErrors(repos: seq<ORP.Repository>, i: nat): seq<Error>
    requires i < |repos|
  {
    var r := repos[i];
    var id := RepoId(r, i);
    (if r.name == "" then [CGL.RepoNameRequiredError(id)] else [])
    + if r.name != "" && r.name in SeenRepos(repos, i) then [CGL.DuplicateRepoError(id, r.name)] else []
  }

  /** The errors of the first `n` entries, in order. */
  ghost function ErrorsUpTo(repos: seq<ORP.Repository>, n: nat): seq<Error>
    requires n <= |repos|
  {
    if n == 0 then [] else ErrorsUpTo(repos, n - 1) + EntryErrors(repos, n - 1)
  }

  /** An entry `validate` reports nothing about. */
  ghost predicate EntryValid(repos: seq<ORP.Repository>, i: nat)
  {
    i < |repos| && repos[i].name != "" && repos[i].name !in SeenRepos(repos, i)
  }

  /** No error among the first `n` entries iff none of them adds one. */
  lemma {:induction false} NoErrorsUpTo(repos: seq<ORP.Repository>, n: nat)
    requires n <= |repos|
    ensures ErrorsUpTo(repos, n) == [] <==> forall i :: 0 <= i < n ==> EntryErrors(repos, i) == []
  {
    if n > 0 {
      NoErrorsUpTo(repos, n - 1);
      var a, b := ErrorsUpTo(repos, n - 1), EntryErrors(repos, n - 1);
      assert |ErrorsUpTo(repos, n)| == |a| + |b|;
    }
  }

  /** No error among the first `n` entries iff each of them is valid. */
  lemma AllValidIff(repos: seq<ORP.Repository>, n: nat)
    requires n <= |repos|
    ensures ErrorsUpTo(repos, n) == [] <==> forall i :: 0 <= i < n ==> EntryValid(repos, i)
  {
    NoErrorsUpTo(repos, n);
    forall i | 0 <= i < n ensures EntryErrors(repos, i) == [] <==> EntryValid(repos, i) {
      EntryErrorsEmpty(repos, i);
    }
  }

  /** An entry adds no error exactly when it is valid. */
  lemma EntryErrorsEmpty(repos: seq<ORP.Repository>, i: nat)
    requires i < |repos|
    ensures EntryErrors(repos, i) == [] <==> EntryValid(repos, i)
  {
  }

  /** An entry is valid iff it is named and no earlier entry has its name. */
  lemma EntryValidIff(repos: seq<ORP.Repository>, i: nat)
    requires i < |repos|
    ensures EntryValid(repos, i) <==> repos[i].name != "" && forall j :: 0 <= j < i ==> repos[j].name != repos[i].name
  {
    SeenReposIff(repos, i, repos[i].name);
  }

  /** A name is seen before entry `i` iff it is non-empty and some earlier entry has it. */
  lemma {:induction false} SeenReposIff(repos: seq<ORP.Repository>, i: nat, name: string)
    requires i <= |repos|
    ensures name in SeenRepos(repos, i) <==> name != "" && exists j :: 0 <= j < i && repos[j].name == name
  {
    if i > 0 {
      SeenReposIff(repos, i - 1, name);
      if repos[i - 1].name == name && name != "" {
        assert name in SeenRepos(repos, i);
      }
    }
  }

  /** No error at all iff every entry is named and no name repeats. */
  lemma NoErrorsIff(repos: seq<ORP.Repository>)
    ensures ErrorsUpTo(repos, |repos|) == [] <==>
      (forall i :: 0 <= i < |repos| ==> repos[i].name != "")
      && (forall i, j :: 0 <= j < i < |repos| ==> repos[i].name != repos[j].name)
  {
    AllValidIff(repos, |repos|);
    forall i | 0 <= i < |repos| {
      EntryValidIff(repos, i);
    }
  }

  /** An entry with no name is reported by its index. */
  lemma EmptyNameReported(repos: seq<ORP.Repository>, i: nat)
    requires i < |repos| && repos[i].name == ""
    ensures EntryErrors(repos, i) == [CGL.RepoNameRequiredError(NatToString(i))]
  {
  }

  /** A repeated name is reported once, under its name. */
  lemma DuplicateReported(repos: seq<ORP.Repository>, i: nat, j: nat)
    requires j < i < |repos| && repos[i].name != "" && repos[j].name == repos[i].name
    ensures EntryErrors(repos, i) == [CGL.DuplicateRepoError(repos[i].name, repos[i].name)]
  {
    SeenReposIff(repos, i, repos[i].name);
  }

  /** One iteration of `validate`'s loop: the entry's errors go to `merr`, its name to the seen list. */
  method CheckEntry(merr: CM.MultiError, repos: seq<ORP.Repository>, i: nat, seen: seq<string>) returns (seenAfter: seq<string>)
    requires i < |repos| && Elems(seen) == SeenRepos(repos, i)
    modifies merr
    ensures merr.errors == old(merr.errors) + EntryErrors(repos, i)
    ensures merr.context == old(merr.context)
    ensures Elems(seenAfter) == SeenRepos(repos, i + 1)
  {
    var repo := repos[i];
    var id := RepoId(repo, i);
    seenAfter := seen;
    if repo.name == "" {
      merr.Push(CGL.RepoNameRequiredError(id));
    }
    if repo.name != "" {
      if repo.name in seen {
        merr.Push(CGL.DuplicateRepoError(id, repo.name));
        return;
      }
      seenAfter := seen + [repo.name];
    }
  }

  /**
   * `sheriff::Cfg::validate`: every missing name and every repeated name,
   * in entry order, under "invalid github service configuration"; `Ok`
   * when there is none.
   */
  method Validate(repos: seq<ORP.Repository>) returns (r: Result<(), Error>)
    ensures r.Ok? <==> forall i :: 0 <= i < |repos| ==> EntryValid(repos, i)
    ensures r.Err? ==> r.error == Multi(Some(ServiceConfigInvalid), ErrorsUpTo(repos, |repos|))
  {
    var merr := new CM.MultiError(Some(ServiceConfigInvalid));
    var seen: seq<string> := [];
    for i := 0 to |repos|
      invariant merr.errors == ErrorsUpTo(repos, i)
      invariant merr.context == Some(ServiceConfigInvalid)
      invariant Elems(seen) == SeenRepos(repos, i)
    {
      seen := CheckEntry(merr, repos, i, seen);
    }
    AllValidIff(repos, |repos|);
    if merr.ContainsErrors() {
      return Err(merr.ToError());
    }
    return Ok(());
  }

  /** What `sheriff::Cfg::get` yields. */
  ghost function GetSpec(cfg: Config, gh: OG.Gh, parse: string -> Result<seq<ORP.Repository>, Error>, ref_: Option<string>)
    : Result<seq<ORP.Repository>, Error>
    requires ServiceSheriffPathKey in cfg.strings
  {
    var content := gh.getFileContent(cfg.strings[ServiceSheriffPathKey], ref_);
    if content.Err? then Err(Context("error getting sheriff permissions file", content.error))
    else
      var parsed := parse(content.value);
      if parsed.Err? then Err(Context("error parsing sheriff permissions file", parsed.error))
      else if forall i :: 0 <= i < |parsed.value| ==> EntryValid(parsed.value, i) then Ok(parsed.value)
      else Err(Multi(Some(ServiceConfigInvalid), ErrorsUpTo(parsed.value, |parsed.value|)))
  }

  /** `sheriff::Cfg::get`: fetch the file, parse it, then validate; a fetch or parse failure returns before validation. */
  method Get(cfg: Config, gh: OG.Gh, parse: string -> Result<seq<ORP.Repository>, Error>, ref_: Option<string>)
    returns (r: Result<seq<ORP.Repository>, Error>)
    requires ServiceSheriffPathKey in cfg.strings
    ensures r == GetSpec(cfg, gh, parse, ref_)
    ensures r.Ok? <==> var content := gh.getFileContent(cfg.strings[ServiceSheriffPathKey], ref_);
      content.Ok? && parse(content.value).Ok? && ErrorsUpTo(parse(content.value).value, |parse(content.value).value|) == []
  {
    var content := gh.getFileContent(cfg.strings[ServiceSheriffPathKey], ref_);
    if content.Err? {
      return Err(Context("error getting sheriff permissions file", content.error));
    }
    var parsed := parse(content.value);
    if parsed.Err? {
      return Err(Context("error parsing sheriff permissions file", parsed.error));
    }
    var v := Validate(parsed.value);
    AllValidIff(parsed.value, |parsed.value|);
    if v.Err? {
      return Err(v.error);
    }
    return Ok(parsed.value);
  }
}
