/**
 * The repositories half of the Sheriff permissions file, as clowarden-core's
 * GitHub service reads it: the list of repositories with their teams,
 * collaborators and visibility, and the checks `sheriff::Cfg::validate`
 * runs on it. Reading the YAML is a parameter (`parse`); the file comes
 * through the GitHub oracle.
 */
module CoreGithubLegacy {
  import opened Common
  import opened Errors
  import opened Collections
  import opened CoreMultiError
  import opened CoreGithub
  import CDL = CoreDirectoryLegacy
  import opened CoreGithubState

  const RepoConfigInvalid := "invalid github service configuration"

  /** "repo[id]: name must be provided". */
  function RepoNameRequiredError(id: string): Error {
    Message("repo[" + id + "]: name must be provided")
  }

  /** "repo[id]: duplicate config for repo name". */
  function DuplicateRepoError(id: string, name: string): Error {
    Message("repo[" + id + "]: duplicate config for repo " + name)
  }

  /** "repo[id]: team[t] name must be lowercase alphanumeric with dashes (team slug)". */
  function TeamSlugError(id: string, team: string): Error {
    Message("repo[" + id + "]: team[" + team + "] name must be lowercase alphanumeric with dashes (team slug)")
  }

  /** The slug errors for the team keys `keys`, in the order they are visited. */
  function SlugErrors(id: string, keys: seq<string>): seq<Error> {
    if keys == [] then []
    else
      var n := |keys| - 1;
      SlugErrors(id, keys[..n]) + (if CDL.IsValidTeamName(keys[n]) then [] else [TeamSlugError(id, keys[n])])
  }

  lemma {:induction false} SlugErrorsEmpty(id: string, keys: seq<string>)
    ensures SlugErrors(id, keys) == [] <==> forall j :: 0 <= j < |keys| ==> CDL.IsValidTeamName(keys[j])
  {
    if keys != [] {
      var n := |keys| - 1;
      SlugErrorsEmpty(id, keys[..n]);
      assert forall j :: 0 <= j < n ==> keys[..n][j] == keys[j];
    }
  }

  /** Every invalid team key gets its slug error. */
  lemma {:induction false} SlugErrorReported(id: string, keys: seq<string>, j: nat)
    requires j < |keys| && !CDL.IsValidTeamName(keys[j])
    ensures TeamSlugError(id, keys[j]) in SlugErrors(id, keys)
  {
    var n := |keys| - 1;
    if j < n {
      SlugErrorReported(id, keys[..n], j);
    }
  }

  /** The non-empty names of the first `i` entries: the `repos_seen` list. */
  ghost function SeenRepos(repos: seq<Repository>, i: nat): set<string>
    requires i <= |repos|
  {
    set j | 0 <= j < i && repos[j].name != "" :: repos[j].name
  }

  /** The errors entry `i` gets when its team keys are visited in the order `keys`. */
  ghost function RepoEntryErrors(repos: seq<Repository>, i: nat, keys: seq<string>): seq<Error>
    requires i < |repos|
  {
    var r := repos[i];
    var id := RepoId(r, i);
    (if r.name == "" then [RepoNameRequiredError(id)] else [])
    + if r.name != "" && r.name in SeenRepos(repos, i) then [DuplicateRepoError(id, r.name)] else SlugErrors(id, keys)
  }

  /** `orders[i]` is an order in which the team keys of entry `i` can be visited. */
  ghost predicate IsKeyOrder(repos: seq<Repository>, orders: seq<seq<string>>) {
    |orders| == |repos| && forall i :: 0 <= i < |repos| ==> NoDup(orders[i]) && Elems(orders[i]) == TeamsOf(repos[i]).Keys
  }

  /** The errors of the first `n` entries. */
  ghost function RepoErrorsUpTo(repos: seq<Repository>, orders: seq<seq<string>>, n: nat): seq<Error>
    requires n <= |repos| && n <= |orders|
  {
    if n == 0 then [] else RepoErrorsUpTo(repos, orders, n - 1) + RepoEntryErrors(repos, n - 1, orders[n - 1])
  }

  /** What `validate` returns when the team keys are visited in the orders `orders`. */
  ghost function RepoValidateSpec(repos: seq<Repository>, orders: seq<seq<string>>): Result<(), Error>
    requires |orders| == |repos|
  {
    var errs := RepoErrorsUpTo(repos, orders, |repos|);
    if errs == [] then Ok(()) else Err(Multi(Some(RepoConfigInvalid), errs))
  }

  /** An entry `validate` reports nothing about: a name not used before, and team keys that are slugs. */
  ghost predicate RepoEntryValid(repos: seq<Repository>, i: nat)
    requires i < |repos|
  {
    && repos[i].name != ""
    && repos[i].name !in SeenRepos(repos, i)
    && forall t :: t in TeamsOf(repos[i]) ==> CDL.IsValidTeamName(t)
  }

  lemma RepoEntryErrorsEmpty(repos: seq<Repository>, orders: seq<seq<string>>, i: nat)
    requires IsKeyOrder(repos, orders) && i < |repos|
    ensures RepoEntryErrors(repos, i, orders[i]) == [] <==> RepoEntryValid(repos, i)
  {
    var keys := orders[i];
    SlugErrorsEmpty(RepoId(repos[i], i), keys);
    if forall j :: 0 <= j < |keys| ==> CDL.IsValidTeamName(keys[j]) {
      forall t | t in TeamsOf(repos[i]) ensures CDL.IsValidTeamName(t) {
        assert t in Elems(keys);
        var j :| 0 <= j < |keys| && keys[j] == t;
      }
    }
    if forall t :: t in TeamsOf(repos[i]) ==> CDL.IsValidTeamName(t) {
      forall j | 0 <= j < |keys| ensures CDL.IsValidTeamName(keys[j]) {
        assert keys[j] in Elems(keys);
      }
    }
  }

  lemma {:induction false} RepoErrorsUpToEmpty(repos: seq<Repository>, orders: seq<seq<string>>, n: nat)
    requires n <= |repos| && n <= |orders|
    ensures RepoErrorsUpTo(repos, orders, n) == [] <==> forall i :: 0 <= i < n ==> RepoEntryErrors(repos, i, orders[i]) == []
  {
    if n > 0 {
      RepoErrorsUpToEmpty(repos, orders, n - 1);
    }
  }

  /**
   * `validate` succeeds iff every entry has a name, no earlier entry has the
   * same name, and every team key on it is a team slug.
   */
  lemma RepoValidateOkIff(repos: seq<Repository>, orders: seq<seq<string>>)
    requires IsKeyOrder(repos, orders)
    ensures RepoValidateSpec(repos, orders).Ok? <==> forall i :: 0 <= i < |repos| ==> RepoEntryValid(repos, i)
  {
    RepoErrorsUpToEmpty(repos, orders, |repos|);
    forall i | 0 <= i < |repos| ensures RepoEntryErrors(repos, i, orders[i]) == [] <==> RepoEntryValid(repos, i) {
      RepoEntryErrorsEmpty(repos, orders, i);
    }
  }

  /** An entry without name is reported first of all, by its index. */
  lemma EmptyRepoNameReported(repos: seq<Repository>, orders: seq<seq<string>>, i: nat)
    requires IsKeyOrder(repos, orders) && i < |repos| && repos[i].name == ""
    ensures RepoEntryErrors(repos, i, orders[i])[0] == RepoNameRequiredError(NatToString(i))
  {
  }

  /** A repeated name gets the duplicate error and its team keys are not checked. */
  lemma DuplicateRepoSkipsRest(repos: seq<Repository>, orders: seq<seq<string>>, i: nat, j: nat)
    requires IsKeyOrder(repos, orders) && j < i < |repos| && repos[i].name != "" && repos[j].name == repos[i].name
    ensures RepoEntryErrors(repos, i, orders[i]) == [DuplicateRepoError(repos[i].name, repos[i].name)]
  {
    assert repos[i].name in SeenRepos(repos, i);
  }

  /** On an entry that is not a duplicate, every team key that is not a slug gets its error. */
  lemma InvalidSlugReported(repos: seq<Repository>, orders: seq<seq<string>>, i: nat, t: string)
    requires IsKeyOrder(repos, orders) && i < |repos|
    requires repos[i].name == "" || repos[i].name !in SeenRepos(repos, i)
    requires t in TeamsOf(repos[i]) && !CDL.IsValidTeamName(t)
    ensures TeamSlugError(RepoId(repos[i], i), t) in RepoEntryErrors(repos, i, orders[i])
  {
    assert t in Elems(orders[i]);
    var j :| 0 <= j < |orders[i]| && orders[i][j] == t;
    SlugErrorReported(RepoId(repos[i], i), orders[i], j);
  }

  lemma SlugErrorsStep(id: string, keys: seq<string>, j: nat)
    requires j < |keys|
    ensures SlugErrors(id, keys[..j + 1]) == SlugErrors(id, keys[..j]) + (if CDL.IsValidTeamName(keys[j]) then [] else [TeamSlugError(id, keys[j])])
  {
    assert keys[..j + 1][..j] == keys[..j];
  }

  /** The slug check of one entry's team keys, in the order visited. */
  method CheckTeamSlugs(id: string, keys: seq<string>) returns (errs: seq<Error>)
    ensures errs == SlugErrors(id, keys)
    ensures errs == [] <==> forall j :: 0 <= j < |keys| ==> CDL.IsValidTeamName(keys[j])
  {
    errs := [];
    for j := 0 to |keys|
      invariant errs == SlugErrors(id, keys[..j])
    {
      SlugErrorsStep(id, keys, j);
      if !CDL.IsValidTeamName(keys[j]) {
        errs := errs + [TeamSlugError(id, keys[j])];
      }
    }
    assert keys[..|keys|] == keys;
    SlugErrorsEmpty(id, keys);
  }

  /** One iteration of `validate`'s loop: the entry's errors, and the seen list after it. */
  method CheckRepoEntry(repos: seq<Repository>, i: nat, seen: seq<string>) returns (errs: seq<Error>, seenAfter: seq<string>, ghost keys: seq<string>)
    requires i < |repos| && Elems(seen) == SeenRepos(repos, i)
    ensures NoDup(keys) && Elems(keys) == TeamsOf(repos[i]).Keys
    ensures errs == RepoEntryErrors(repos, i, keys)
    ensures Elems(seenAfter) == SeenRepos(repos, i + 1)
  {
    var repo := repos[i];
    var id := RepoId(repo, i);
    var order := Enumerate(TeamsOf(repo).Keys);
    keys := order;
    errs, seenAfter := [], seen;
    assert SeenRepos(repos, i + 1) == SeenRepos(repos, i) + (if repo.name != "" then {repo.name} else {});
    if repo.name == "" {
      errs := [RepoNameRequiredError(id)];
    }
    if repo.name != "" {
      if repo.name in seen {
        errs := errs + [DuplicateRepoError(id, repo.name)];
        return;
      }
      seenAfter := seen + [repo.name];
    }
    var slugErrs := CheckTeamSlugs(id, order);
    errs := errs + slugErrs;
  }

  /**
   * `sheriff::Cfg::validate` for the repositories: every problem of every
   * entry, in order, under the context "invalid github service
   * configuration"; `Ok` when there is none. The team keys of each entry
   * are visited in map order, returned as `orders`.
   */
  method ValidateRepos(repos: seq<Repository>) returns (r: Result<(), Error>, ghost orders: seq<seq<string>>)
    ensures IsKeyOrder(repos, orders)
    ensures r == RepoValidateSpec(repos, orders)
  {
    var merr := new MultiError(Some(RepoConfigInvalid));
    var seen: seq<string> := [];
    orders := [];
    for i := 0 to |repos|
      invariant |orders| == i
      invariant forall k :: 0 <= k < i ==> NoDup(orders[k]) && Elems(orders[k]) == TeamsOf(repos[k]).Keys
      invariant merr.errors == RepoErrorsUpTo(repos, orders, i)
      invariant merr.context == Some(RepoConfigInvalid)
      invariant Elems(seen) == SeenRepos(repos, i)
    {
      ghost var before := orders;
      var errs, seenAfter, keys := CheckRepoEntry(repos, i, seen);
      orders := orders + [keys];
      assert RepoErrorsUpTo(repos, orders, i) == RepoErrorsUpTo(repos, before, i) by {
        RepoErrorsUpToPrefix(repos, before, orders, i);
      }
      merr.Extend(errs);
      seen := seenAfter;
    }
    if merr.ContainsErrors() {
      return Err(merr.ToError()), orders;
    }
    return Ok(()), orders;
  }

  /** The errors of the first `n` entries depend only on the first `n` orders. */
  lemma {:induction false} RepoErrorsUpToPrefix(repos: seq<Repository>, a: seq<seq<string>>, b: seq<seq<string>>, n: nat)
    requires n <= |repos| && n <= |a| && n <= |b|
    requires forall k :: 0 <= k < n ==> a[k] == b[k]
    ensures RepoErrorsUpTo(repos, a, n) == RepoErrorsUpTo(repos, b, n)
  {
    if n > 0 {
      RepoErrorsUpToPrefix(repos, a, b, n - 1);
    }
  }

  /** The repositories `sheriff::Cfg::get` loads, or `None` when it fails; which error it fails with is left to `GetRepos`. */
  ghost function RepoCfg(gh: Gh, parse: string -> Result<seq<Repository>, Error>, src: Source, path: string): Option<seq<Repository>> {
    var content := gh.getFileContent(src, path);
    if content.Err? || parse(content.value).Err? then None
    else
      var repos := parse(content.value).value;
      if forall i :: 0 <= i < |repos| ==> RepoEntryValid(repos, i) then Some(repos) else None
  }

  /**
   * `sheriff::Cfg::get`: fetch the permissions file (failure under "error
   * getting sheriff permissions file"), parse it (failure under "error
   * parsing permissions file"), then validate the repositories.
   */
  method GetRepos(gh: Gh, parse: string -> Result<seq<Repository>, Error>, src: Source, path: string)
    returns (r: Result<seq<Repository>, Error>, ghost orders: seq<seq<string>>)
    ensures var content := gh.getFileContent(src, path);
      content.Err? ==> r == Err(Context("error getting sheriff permissions file", content.error))
    ensures var content := gh.getFileContent(src, path);
      content.Ok? && parse(content.value).Err? ==> r == Err(Context("error parsing permissions file", parse(content.value).error))
    ensures var content := gh.getFileContent(src, path);
      content.Ok? && parse(content.value).Ok? ==>
        var repos := parse(content.value).value;
        && IsKeyOrder(repos, orders)
        && (r.Ok? <==> RepoValidateSpec(repos, orders).Ok?)
        && (r.Ok? ==> r.value == repos)
        && (r.Err? ==> r.error == RepoValidateSpec(repos, orders).error)
    ensures r.Ok? <==> RepoCfg(gh, parse, src, path).Some?
    ensures r.Ok? ==> r.value == RepoCfg(gh, parse, src, path).value
  {
    orders := [];
    var content := gh.getFileContent(src, path);
    if content.Err? {
      return Err(Context("error getting sheriff permissions file", content.error)), orders;
    }
    var parsed := parse(content.value);
    if parsed.Err? {
      return Err(Context("error parsing permissions file", parsed.error)), orders;
    }
    var v;
    v, orders := ValidateRepos(parsed.value);
    RepoValidateOkIff(parsed.value, orders);
    if v.Err? {
      return Err(v.error), orders;
    }
    return Ok(parsed.value), orders;
  }
}
