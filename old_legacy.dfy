/**
 * The first generation's legacy configuration (src/legacy.rs): Sheriff's
 * permissions file and the CNCF people file, each fetched, parsed and
 * validated. A fetch or parse failure ends loading with that one error;
 * validation problems of both files are joined and returned together.
 */
module OldLegacy {
  import opened Common
  import opened Errors
  import opened Collections
  import opened OldCfg
  import CDL = CoreDirectoryLegacy
  import OS = OldSheriff
  import OM = OldMultiError
  import OG = OldGithub

  /** A person of the CNCF people file; the list fields are plain lists in this generation. */
  datatype CncfUser = CncfUser(
    name: string,
    bio: Option<string>,
    company: Option<string>,
    pronouns: Option<string>,
    location: Option<string>,
    linkedin: Option<string>,
    twitter: Option<string>,
    github: Option<string>,
    wechat: Option<string>,
    website: Option<string>,
    youtube: Option<string>,
    languages: seq<string>,
    projects: seq<string>,
    category: seq<string>,
    email: Option<string>,
    slackId: Option<string>,
    image: Option<string>)

  /** The loaded legacy configuration: Sheriff's teams and the CNCF people. */
  datatype Cfg = Cfg(sheriff: seq<OS.Team>, cncf: seq<CncfUser>)

  /** The file parsers (`serde_yaml`, `serde_json`): a parsed file or the parser's error. */
  datatype Parsers = Parsers(
    sheriff: string -> Result<seq<OS.Team>, Error>,
    cncf: string -> Result<seq<CncfUser>, Error>)

  // ------------------------------------------------------------- Sheriff

  /** `sheriff::Cfg::validate`: every problem of every entry in a fresh `MultiError`, or `Ok`. */
  method ValidateSheriff(teams: seq<OS.Team>) returns (r: Result<(), OM.MultiError>)
    ensures r.Ok? <==> |OS.ErrorsUpTo(teams, |teams|)| == 0
    ensures r.Err? ==> fresh(r.error) && r.error.errors == OS.ErrorsUpTo(teams, |teams|)
  {
    var merr := new OM.MultiError();
    CheckAll(merr, teams);
    if merr.HasErrors() {
      return Err(merr);
    }
    return Ok(());
  }

  /** `validate`'s loop over the entries, remembering the names seen so far. */
  method CheckAll(merr: OM.MultiError, teams: seq<OS.Team>)
    modifies merr
    ensures merr.errors == old(merr.errors) + OS.ErrorsUpTo(teams, |teams|)
  {
    var teamsSeen: seq<string> := [];
    for i := 0 to |teams|
      invariant merr.errors == old(merr.errors) + OS.ErrorsUpTo(teams, i)
      invariant Elems(teamsSeen) == OS.SeenBefore(teams, i)
    {
      ghost var start, upto, entry := old(merr.errors), OS.ErrorsUpTo(teams, i), OS.EntryErrors(teams, i);
      OS.ErrorsUpToNext(teams, i);
      teamsSeen := CheckEntry(merr, teams, i, teamsSeen);
      ConcatAssoc(start, upto, entry);
    }
  }

  /** One iteration: the entry's errors go to `merr`, its name to the seen list. */
  method CheckEntry(merr: OM.MultiError, teams: seq<OS.Team>, i: nat, teamsSeen: seq<string>) returns (seen: seq<string>)
    requires i < |teams|
    requires Elems(teamsSeen) == OS.SeenBefore(teams, i)
    modifies merr
    ensures merr.errors == old(merr.errors) + OS.EntryErrors(teams, i)
    ensures Elems(seen) == OS.SeenBefore(teams, i + 1)
  {
    var team := teams[i];
    var id := CDL.TeamId(team.name, i);
    seen := teamsSeen;
    if team.name == "" {
      merr.Push(CDL.NameRequiredError(id));
    }
    OS.SeenBeforeNext(teams, i);
    if team.name != "" {
      if team.name in teamsSeen {
        merr.Push(CDL.DuplicateTeamError(id, team.name));
        return;
      }
      seen := teamsSeen + [team.name];
    }
    CheckUsers(merr, team, id);
  }

  /** The user checks of a first occurrence. */
  method CheckUsers(merr: OM.MultiError, team: OS.Team, id: string)
    modifies merr
    ensures merr.errors == old(merr.errors) + OS.UserErrors(team, id)
  {
    if |team.maintainers| == 0 {
      merr.Push(CDL.MaintainerRequiredError(id));
    }
    CheckMaintainers(merr, id, team.maintainers, team.members);
  }

  /** The inner loop: each maintainer also listed as a member is one error. */
  method CheckMaintainers(merr: OM.MultiError, id: string, maintainers: seq<string>, members: seq<string>)
    modifies merr
    ensures merr.errors == old(merr.errors) + CDL.BothErrors(id, maintainers, members)
  {
    for k := 0 to |maintainers|
      invariant merr.errors == old(merr.errors) + CDL.BothErrors(id, maintainers[..k], members)
    {
      assert maintainers[..k + 1][..k] == maintainers[..k];
      if maintainers[k] in members {
        merr.Push(CDL.MaintainerAndMemberError(id, maintainers[k]));
      }
    }
    assert maintainers[..|maintainers|] == maintainers;
  }

  // ---------------------------------------------------------------- CNCF

  /** Every person has a name. */
  predicate AllNamed(people: seq<CncfUser>) {
    forall i :: 0 <= i < |people| ==> people[i].name != ""
  }

  /** The errors for the first `n` people: one per empty name, by index. */
  function PeopleErrors(people: seq<CncfUser>, n: nat): (errs: seq<Error>)
    requires n <= |people|
    ensures |errs| == 0 <==> forall i :: 0 <= i < n ==> people[i].name != ""
  {
    if n == 0 then [] else PeopleErrors(people, n - 1) + (if people[n - 1].name == "" then [CDL.PersonError(n - 1)] else [])
  }

  /** The index test of the people loop: a person with an empty name. */
  function EmptyNameAt(people: seq<CncfUser>): nat -> bool {
    (i: nat) => i < |people| && people[i].name == ""
  }

  /** The people errors are the person errors picked at the indices with an empty name. */
  lemma {:induction false} PeopleErrorsPicked(people: seq<CncfUser>, n: nat)
    requires n <= |people|
    ensures PeopleErrors(people, n) == Picked(EmptyNameAt(people), CDL.PersonError, n)
  {
    if n > 0 {
      PeopleErrorsPicked(people, n - 1);
    }
  }

  /** Each error stands for a person with an empty name, and each such person has one. */
  lemma PeopleErrorsAreEmptyNames(people: seq<CncfUser>, n: nat)
    requires n <= |people|
    ensures Elems(PeopleErrors(people, n)) == set i | 0 <= i < n && people[i].name == "" :: CDL.PersonError(i)
  {
    PeopleErrorsPicked(people, n);
    PickedElems(EmptyNameAt(people), CDL.PersonError, n);
  }

  /** `cncf::Cfg::validate`: every person with an empty name, by index, or `Ok`. */
  method ValidateCncf(people: seq<CncfUser>) returns (r: Result<(), OM.MultiError>)
    ensures r.Ok? <==> AllNamed(people)
    ensures r.Err? ==> fresh(r.error) && r.error.errors == PeopleErrors(people, |people|)
  {
    var merr := new OM.MultiError();
    for i := 0 to |people|
      invariant merr.errors == PeopleErrors(people, i)
    {
      if people[i].name == "" {
        merr.Push(CDL.PersonError(i));
      }
    }
    if merr.HasErrors() {
      return Err(merr);
    }
    return Ok(());
  }

  // ------------------------------------------------------------- Loading

  /** The Sheriff permissions file fetched and parsed, or the failing step's error with its context. */
  function SheriffLoaded(cfg: Config, gh: OG.Gh, parsers: Parsers, ref_: Option<string>): Result<seq<OS.Team>, Error>
    requires SheriffPathKey in cfg.strings
  {
    var content := gh.getFileContent(cfg.strings[SheriffPathKey], ref_);
    if content.Err? then Err(Context("error getting sheriff permissions file", content.error))
    else
      var parsed := parsers.sheriff(content.value);
      if parsed.Err? then Err(Context("error parsing sheriff permissions file", parsed.error)) else Ok(parsed.value)
  }

  /** The cncf people file fetched and parsed, or the failing step's error with its context. */
  function CncfLoaded(cfg: Config, gh: OG.Gh, parsers: Parsers, ref_: Option<string>): Result<seq<CncfUser>, Error>
    requires CncfPathKey in cfg.strings
  {
    var content := gh.getFileContent(cfg.strings[CncfPathKey], ref_);
    if content.Err? then Err(Context("error getting cncf people file", content.error))
    else
      var parsed := parsers.cncf(content.value);
      if parsed.Err? then Err(Context("error parsing cncf people file", parsed.error)) else Ok(parsed.value)
  }

  /**
   * What `Cfg::get` yields: the configuration, or the errors of the
   * `MultiError` it fails with.
   */
  ghost function GetSpec(cfg: Config, gh: OG.Gh, parsers: Parsers, ref_: Option<string>): Result<Cfg, seq<Error>>
    requires HasLegacyPaths(cfg)
  {
    var sheriff := SheriffLoaded(cfg, gh, parsers, ref_);
    if sheriff.Err? then Err([sheriff.error])
    else
      var cncf := CncfLoaded(cfg, gh, parsers, ref_);
      if cncf.Err? then Err([cncf.error])
      else
        var errs := OS.ErrorsUpTo(sheriff.value, |sheriff.value|) + PeopleErrors(cncf.value, |cncf.value|);
        if |errs| > 0 then Err(errs) else Ok(Cfg(sheriff.value, cncf.value))
  }

  /**
   * `Cfg::get`: fetch and parse each file, aborting with its error (in a
   * `MultiError` of its own) on failure; join both files' validation
   * errors, Sheriff's first.
   */
  method Get(cfg: Config, gh: OG.Gh, parsers: Parsers, ref_: Option<string>) returns (r: Result<Cfg, OM.MultiError>)
    requires HasLegacyPaths(cfg)
    ensures var s := GetSpec(cfg, gh, parsers, ref_);
      && (r.Ok? <==> s.Ok?)
      && (r.Ok? ==> r.value == s.value)
      && (r.Err? ==> r.error.errors == s.error)
  {
    var merr := new OM.MultiError();

    // Sheriff
    var sheriff := SheriffLoaded(cfg, gh, parsers, ref_);
    if sheriff.Err? {
      var e := new OM.MultiError.FromError(sheriff.error);
      return Err(e);
    }
    var sv := ValidateSheriff(sheriff.value);
    if sv.Err? {
      merr.Join(sv.error);
    }
    assert merr.errors == OS.ErrorsUpTo(sheriff.value, |sheriff.value|);

    // CNCF
    var cncf := CncfLoaded(cfg, gh, parsers, ref_);
    if cncf.Err? {
      var e := new OM.MultiError.FromError(cncf.error);
      return Err(e);
    }
    var cv := ValidateCncf(cncf.value);
    if cv.Err? {
      merr.Join(cv.error);
    }
    assert merr.errors == OS.ErrorsUpTo(sheriff.value, |sheriff.value|) + PeopleErrors(cncf.value, |cncf.value|);

    if merr.HasErrors() {
      return Err(merr);
    }
    return Ok(Cfg(sheriff.value, cncf.value));
  }

  /**
   * A failure to fetch the people file ends loading with that error alone:
   * Sheriff's validation errors, collected before it, are dropped.
   */
  lemma CncfFetchFailureDropsSheriffErrors(cfg: Config, gh: OG.Gh, parsers: Parsers, ref_: Option<string>)
    requires HasLegacyPaths(cfg)
    requires gh.getFileContent(cfg.strings[SheriffPathKey], ref_).Ok?
    requires parsers.sheriff(gh.getFileContent(cfg.strings[SheriffPathKey], ref_).value).Ok?
    requires gh.getFileContent(cfg.strings[CncfPathKey], ref_).Err?
    ensures GetSpec(cfg, gh, parsers, ref_)
      == Err([Context("error getting cncf people file", gh.getFileContent(cfg.strings[CncfPathKey], ref_).error)])
  {
  }

  /**
   * When both files parse, loading succeeds iff both validate, and fails
   * with Sheriff's errors followed by the people file's.
   */
  lemma ParsedFilesValidated(cfg: Config, gh: OG.Gh, parsers: Parsers, ref_: Option<string>, teams: seq<OS.Team>, people: seq<CncfUser>)
    requires HasLegacyPaths(cfg)
    requires gh.getFileContent(cfg.strings[SheriffPathKey], ref_).Ok?
    requires parsers.sheriff(gh.getFileContent(cfg.strings[SheriffPathKey], ref_).value) == Ok(teams)
    requires gh.getFileContent(cfg.strings[CncfPathKey], ref_).Ok?
    requires parsers.cncf(gh.getFileContent(cfg.strings[CncfPathKey], ref_).value) == Ok(people)
    ensures var errs := OS.ErrorsUpTo(teams, |teams|) + PeopleErrors(people, |people|);
      GetSpec(cfg, gh, parsers, ref_) == if |errs| > 0 then Err(errs) else Ok(Cfg(teams, people))
    ensures GetSpec(cfg, gh, parsers, ref_).Ok? <==> OS.AllValid(teams) && AllNamed(people)
  {
    var se, pe := OS.ErrorsUpTo(teams, |teams|), PeopleErrors(people, |people|);
    assert GetSpec(cfg, gh, parsers, ref_) == if |se + pe| > 0 then Err(se + pe) else Ok(Cfg(teams, people));
    OS.NoErrorsIff(teams);
  }
}
