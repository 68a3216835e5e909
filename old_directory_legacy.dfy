/**
 * The legacy loaders of the first generation's second directory layout
 * (src/directory/legacy.rs): Sheriff's teams and the CNCF people file are
 * each fetched, parsed and validated, and `get` runs both, collecting the
 * failure of either or both under "invalid directory configuration".
 * These loaders use a `MultiError` with a context and `contains_errors`,
 * an interface src/multierror.rs does not have; the model uses the
 * clowarden-core `MultiError`, which has exactly that interface.
 */
module OldDirectoryLegacy {
  import opened Common
  import opened Errors
  import opened Collections
  import opened OldCfg
  import CM = CoreMultiError
  import CDL = CoreDirectoryLegacy
  import OS = OldSheriff
  import OG = OldGithub

  /** The loaded configuration; the people file is always loaded, so `cncf` is present on success. */
  datatype Cfg = Cfg(sheriff: seq<OS.Team>, cncf: Option<seq<CDL.CncfUser>>)

  /** The file parsers (`serde_yaml`, `serde_json`). */
  datatype Parsers = Parsers(
    sheriff: string -> Result<seq<OS.Team>, Error>,
    cncf: string -> Result<seq<CDL.CncfUser>, Error>)

  // ------------------------------------------------------------- Sheriff

  /** `sheriff::Cfg::validate`: `Ok`, or every problem as one context-less multi-error. */
  method ValidateSheriff(teams: seq<OS.Team>) returns (r: Result<(), Error>)
    ensures r.Ok? <==> OS.AllValid(teams)
    ensures r.Err? ==> r.error == Multi(None, OS.ErrorsUpTo(teams, |teams|))
  {
    var merr := new CM.MultiError(None);
    CheckAll(merr, teams);
    OS.NoErrorsIff(teams);
    if merr.ContainsErrors() {
      return Err(merr.ToError());
    }
    return Ok(());
  }

  /** `validate`'s loop over the entries, remembering the names seen so far. */
  method CheckAll(merr: CM.MultiError, teams: seq<OS.Team>)
    modifies merr
    ensures merr.errors == old(merr.errors) + OS.ErrorsUpTo(teams, |teams|)
    ensures merr.context == old(merr.context)
  {
    var teamsSeen: seq<string> := [];
    for i := 0 to |teams|
      invariant merr.errors == old(merr.errors) + OS.ErrorsUpTo(teams, i)
      invariant merr.context == old(merr.context)
      invariant Elems(teamsSeen) == OS.SeenBefore(teams, i)
    {
      ghost var start, upto, entry := old(merr.errors), OS.ErrorsUpTo(teams, i), OS.EntryErrors(teams, i);
      OS.ErrorsUpToNext(teams, i);
      teamsSeen := CheckEntry(merr, teams, i, teamsSeen);
      ConcatAssoc(start, upto, entry);
    }
  }

  /** One iteration: the entry's errors go to `merr`, its name to the seen list. */
  method CheckEntry(merr: CM.MultiError, teams: seq<OS.Team>, i: nat, teamsSeen: seq<string>) returns (seen: seq<string>)
    requires i < |teams|
    requires Elems(teamsSeen) == OS.SeenBefore(teams, i)
    modifies merr
    ensures merr.errors == old(merr.errors) + OS.EntryErrors(teams, i)
    ensures merr.context == old(merr.context)
    ensures Elems(seen) == OS.SeenBefore(teams, i + 1)
  {
    var team := teams[i];
    var id := CDL.TeamId(team.name, i);
    seen := teamsSeen;
    if team.name == "" {
      merr.Push(CDL.NameRequiredError(id));
    }
    OS.SeenBeforeNext(teams, i);
    if team.name != "" {
      if team.name in teamsSeen {
        merr.Push(CDL.DuplicateTeamError(id, team.name));
        return;
      }
      seen := teamsSeen + [team.name];
    }
    CheckUsers(merr, team, id);
  }

  /** The user checks of a first occurrence. */
  method CheckUsers(merr: CM.MultiError, team: OS.Team, id: string)
    modifies merr
    ensures merr.errors == old(merr.errors) + OS.UserErrors(team, id)
    ensures merr.context == old(merr.context)
  {
    if |team.maintainers| == 0 {
      merr.Push(CDL.MaintainerRequiredError(id));
    }
    // the inner loop is the core's, over plain lists
    CDL.CheckMaintainers(merr, id, team.maintainers, team.members);
  }

  // ------------------------------------------------------------- Loading

  /** What `sheriff::Cfg::get` yields. */
  ghost function SheriffSpec(cfg: Config, gh: OG.Gh, parsers: Parsers, ref_: Option<string>): Result<seq<OS.Team>, Error>
    requires SheriffPathKey in cfg.strings
  {
    var content := gh.getFileContent(cfg.strings[SheriffPathKey], ref_);
    if content.Err? then Err(Context("error getting sheriff permissions file", content.error))
    else
      var parsed := parsers.sheriff(content.value);
      if parsed.Err? then Err(Context("error parsing sheriff permissions file", parsed.error))
      else if OS.AllValid(parsed.value) then Ok(parsed.value)
      else Err(Multi(None, OS.ErrorsUpTo(parsed.value, |parsed.value|)))
  }

  /** What `cncf::Cfg::get` yields. */
  ghost function CncfSpec(cfg: Config, gh: OG.Gh, parsers: Parsers, ref_: Option<string>): Result<seq<CDL.CncfUser>, Error>
    requires CncfPathKey in cfg.strings
  {
    var content := gh.getFileContent(cfg.strings[CncfPathKey], ref_);
    if content.Err? then Err(Context("error getting cncf people file", content.error))
    else
      var parsed := parsers.cncf(content.value);
      if parsed.Err? then Err(Context("error parsing cncf people file", parsed.error))
      else if forall i :: 0 <= i < |parsed.value| ==> parsed.value[i].name != "" then Ok(parsed.value)
      else Err(Multi(None, CDL.PeopleErrors(parsed.value, |parsed.value|)))
  }

  /** `sheriff::Cfg::get`: fetch, parse, then validate, each failure with its own context. */
  method SheriffGet(cfg: Config, gh: OG.Gh, parsers: Parsers, ref_: Option<string>) returns (r: Result<seq<OS.Team>, Error>)
    requires SheriffPathKey in cfg.strings
    ensures r == SheriffSpec(cfg, gh, parsers, ref_)
  {
    var content := gh.getFileContent(cfg.strings[SheriffPathKey], ref_);
    if content.Err? {
      return Err(Context("error getting sheriff permissions file", content.error));
    }
    var parsed := parsers.sheriff(content.value);
    if parsed.Err? {
      return Err(Context("error parsing sheriff permissions file", parsed.error));
    }
    var v := ValidateSheriff(parsed.value);
    if v.Err? {
      return Err(v.error);
    }
    return Ok(parsed.value);
  }

  /** `cncf::Cfg::get`: fetch, parse, then validate the people file. */
  method CncfGet(cfg: Config, gh: OG.Gh, parsers: Parsers, ref_: Option<string>) returns (r: Result<seq<CDL.CncfUser>, Error>)
    requires CncfPathKey in cfg.strings
    ensures r == CncfSpec(cfg, gh, parsers, ref_)
  {
    var content := gh.getFileContent(cfg.strings[CncfPathKey], ref_);
    if content.Err? {
      return Err(Context("error getting cncf people file", content.error));
    }
    var parsed := parsers.cncf(content.value);
    if parsed.Err? {
      return Err(Context("error parsing cncf people file", parsed.error));
    }
    var v := CDL.ValidatePeople(parsed.value);
    if v.Err? {
      return Err(v.error);
    }
    return Ok(parsed.value);
  }

  /** The failures among the two loads, Sheriff's first. */
  ghost function LoadErrors(sheriff: Result<seq<OS.Team>, Error>, cncf: Result<seq<CDL.CncfUser>, Error>): seq<Error> {
    (if sheriff.Err? then [sheriff.error] else []) + (if cncf.Err? then [cncf.error] else [])
  }

  /**
   * `Cfg::get`: both loaders run whatever the first one gives; the failure
   * of either or both is reported, Sheriff's first, under
   * "invalid directory configuration".
   */
  method Get(cfg: Config, gh: OG.Gh, parsers: Parsers, ref_: Option<string>) returns (r: Result<Cfg, Error>)
    requires HasLegacyPaths(cfg)
    ensures var s := SheriffSpec(cfg, gh, parsers, ref_);
      var c := CncfSpec(cfg, gh, parsers, ref_);
      && (r.Ok? <==> s.Ok? && c.Ok?)
      && (r.Ok? ==> r.value == Cfg(s.value, Some(c.value)))
      && (r.Err? ==> r.error == Multi(Some(CDL.DirectoryConfigInvalid), LoadErrors(s, c)))
  {
    var merr := new CM.MultiError(Some(CDL.DirectoryConfigInvalid));
    var sheriff := SheriffGet(cfg, gh, parsers, ref_);
    if sheriff.Err? {
      merr.Push(sheriff.error);
    }
    var cncf := CncfGet(cfg, gh, parsers, ref_);
    if cncf.Err? {
      merr.Push(cncf.error);
    }
    if merr.ContainsErrors() {
      return Err(merr.ToError());
    }
    return Ok(Cfg(sheriff.value, Some(cncf.value)));
  }

  /** The Sheriff loader succeeds iff the file is fetched and parsed and every entry is valid. */
  lemma SheriffOkIff(cfg: Config, gh: OG.Gh, parsers: Parsers, ref_: Option<string>)
    requires SheriffPathKey in cfg.strings
    ensures SheriffSpec(cfg, gh, parsers, ref_).Ok? <==>
      var content := gh.getFileContent(cfg.strings[SheriffPathKey], ref_);
      && content.Ok?
      && parsers.sheriff(content.value).Ok?
      && |OS.ErrorsUpTo(parsers.sheriff(content.value).value, |parsers.sheriff(content.value).value|)| == 0
  {
    var content := gh.getFileContent(cfg.strings[SheriffPathKey], ref_);
    if content.Ok? && parsers.sheriff(content.value).Ok? {
      OS.NoErrorsIff(parsers.sheriff(content.value).value);
    }
  }
}
