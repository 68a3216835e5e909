/**
 * clowarden-core's legacy configuration: Sheriff's permissions file
 * (teams, optionally composed from other teams with `formation`) and the
 * CNCF people file. Loading a Sheriff file expands composite teams,
 * removes duplicate users and validates the result, collecting every
 * problem instead of stopping at the first.
 */
module CoreDirectoryLegacy {
  import opened Common
  import opened Errors
  import opened Collections
  import opened CoreMultiError
  import opened CoreCfg
  import opened CoreGithub

  // ---------------------------------------------------------------- Names

  predicate IsSlugChar(c: char) {
    ('a' <= c <= 'z') || ('0' <= c <= '9') || c == '-'
  }

  /** `VALID_TEAM_NAME`, the pattern `^[a-z0-9\-]+$`. */
  predicate IsValidTeamName(name: string) {
    |name| > 0 && forall i :: 0 <= i < |name| ==> IsSlugChar(name[i])
  }

  /** An empty name never matches the team-slug pattern. */
  lemma EmptyNameInvalid()
    ensures !IsValidTeamName("")
  {
  }

  // ---------------------------------------------------- Lexicographic order

  /** `String`'s `Ord`: lexicographic by character. */
  predicate StrLt(a: string, b: string)
    decreases |a|
  {
    if a == [] then b != []
    else if b == [] then false
    else a[0] < b[0] || (a[0] == b[0] && StrLt(a[1..], b[1..]))
  }

  lemma {:induction false} StrLtIrreflexive(a: string)
    ensures !StrLt(a, a)
    decreases |a|
  {
    if a != [] { StrLtIrreflexive(a[1..]); }
  }

  lemma {:induction false} StrLtTransitive(a: string, b: string, c: string)
    requires StrLt(a, b) && StrLt(b, c)
    ensures StrLt(a, c)
    decreases |a|
  {
    if a != [] && b != [] && c != [] && a[0] == b[0] && b[0] == c[0] {
      StrLtTransitive(a[1..], b[1..], c[1..]);
    }
  }

  lemma {:induction false} StrLtTotal(a: string, b: string)
    requires a != b
    ensures StrLt(a, b) || StrLt(b, a)
    decreases |a|
  {
    if a != [] && b != [] && a[0] == b[0] {
      assert a == [a[0]] + a[1..] && b == [b[0]] + b[1..];
      StrLtTotal(a[1..], b[1..]);
    }
  }

  lemma StrLtAsymmetric(a: string, b: string)
    requires StrLt(a, b)
    ensures !StrLt(b, a)
  {
    if StrLt(b, a) {
      StrLtTransitive(a, b, a);
      StrLtIrreflexive(a);
    }
  }

  ghost predicate StrictlySorted(s: seq<string>) {
    forall i, j :: 0 <= i < j < |s| ==> StrLt(s[i], s[j])
  }

  /** A strictly ascending list stays so with a smaller element in front. */
  lemma ConsSorted(y: string, rest: seq<string>)
    requires StrictlySorted(rest)
    requires forall k :: 0 <= k < |rest| ==> StrLt(y, rest[k])
    ensures StrictlySorted([y] + rest)
  {
    var r := [y] + rest;
    forall i, j | 0 <= i < j < |r| ensures StrLt(r[i], r[j]) {
      if i == 0 { assert r[j] == rest[j - 1]; } else { assert r[i] == rest[i - 1] && r[j] == rest[j - 1]; }
    }
  }

  /** Insert `x` into a strictly ascending list, unless it is already there. */
  function Insert(x: string, s: seq<string>): (r: seq<string>)
    requires StrictlySorted(s)
    ensures StrictlySorted(r)
    ensures Elems(r) == Elems(s) + {x}
    ensures r[0] == x || (s != [] && r[0] == s[0])
  {
    if s == [] then [x]
    else if x == s[0] then s
    else if StrLt(x, s[0]) then
      assert forall j :: 0 <= j < |s| ==> StrLt(x, s[j]) by {
        forall j | 0 < j < |s| ensures StrLt(x, s[j]) { StrLtTransitive(x, s[0], s[j]); }
      }
      ConsSorted(x, s);
      [x] + s
    else
      StrLtTotal(x, s[0]);
      var rest := Insert(x, s[1..]);
      assert forall k :: 0 <= k < |rest| ==> StrLt(s[0], rest[k]) by {
        forall k | 0 <= k < |rest| ensures StrLt(s[0], rest[k]) {
          assert rest[k] in Elems(s[1..]) + {x};
          if rest[k] != x {
            var j :| 0 <= j < |s[1..]| && s[1..][j] == rest[k];
            assert s[j + 1] == rest[k];
          }
        }
      }
      ConsSorted(s[0], rest);
      assert s == [s[0]] + s[1..];
      assert Elems([s[0]] + rest) == {s[0]} + Elems(rest);
      assert Elems(s) == {s[0]} + Elems(s[1..]);
      [s[0]] + rest
  }

  /** `v.sort(); v.dedup();`: the distinct elements in ascending order. */
  function SortDedup(s: seq<string>): (r: seq<string>)
    ensures StrictlySorted(r)
    ensures Elems(r) == Elems(s)
  {
    if s == [] then []
    else
      var r := Insert(s[0], SortDedup(s[1..]));
      assert Elems(s) == {s[0]} + Elems(s[1..]);
      r
  }

  /** Strictly ascending lists are determined by their elements, so `SortDedup` is THE sorted, duplicate-free form. */
  lemma {:induction false} StrictlySortedUnique(a: seq<string>, b: seq<string>)
    requires StrictlySorted(a) && StrictlySorted(b)
    requires Elems(a) == Elems(b)
    ensures a == b
    decreases |a|
  {
    if a != [] { assert a[0] in Elems(a); }
    if b != [] { assert b[0] in Elems(b); }
    if a != [] && b != [] {
      assert a[0] == b[0] by {
        if a[0] != b[0] {
          assert a[0] in Elems(b) && b[0] in Elems(a);
          var i :| 0 <= i < |b| && b[i] == a[0];
          var j :| 0 <= j < |a| && a[j] == b[0];
          assert i > 0 && j > 0;
          assert StrLt(b[0], a[0]) && StrLt(a[0], b[0]);
          StrLtAsymmetric(b[0], a[0]);
        }
      }
      forall x | x in Elems(a[1..]) ensures x in Elems(b[1..]) {
        assert x in a[1..];
        var i :| 0 <= i < |a[1..]| && a[1..][i] == x;
        assert a[i + 1] == x && x != a[0] by { StrLtIrreflexive(a[0]); }
        assert x in Elems(a);
        assert x in b;
        var j :| 0 <= j < |b| && b[j] == x;
        assert j > 0;
        assert b[1..][j - 1] == x;
      }
      forall x | x in Elems(b[1..]) ensures x in Elems(a[1..]) {
        assert x in b[1..];
        var i :| 0 <= i < |b[1..]| && b[1..][i] == x;
        assert b[i + 1] == x && x != b[0] by { StrLtIrreflexive(b[0]); }
        assert x in Elems(b);
        assert x in a;
        var j :| 0 <= j < |a| && a[j] == x;
        assert j > 0;
        assert a[1..][j - 1] == x;
      }
      StrictlySortedUnique(a[1..], b[1..]);
      assert a == [a[0]] + a[1..] && b == [b[0]] + b[1..];
    }
  }

  // ------------------------------------------------------------- Sheriff

  /** A team as written in the Sheriff permissions file. */
  datatype SheriffTeam = SheriffTeam(
    name: string,
    maintainers: Option<seq<string>>,
    members: Option<seq<string>>,
    formation: Option<seq<string>>)

  /** The first team of `ts` named `name` (`iter().find`). */
  function FindTeam(ts: seq<SheriffTeam>, name: string): (r: Option<SheriffTeam>)
    ensures r.None? <==> forall i :: 0 <= i < |ts| ==> ts[i].name != name
    ensures r.Some? ==> r.value.name == name && r.value in ts
    ensures r.Some? ==> exists i :: 0 <= i < |ts| && ts[i] == r.value && forall j :: 0 <= j < i ==> ts[j].name != name
  {
    if ts == [] then None
    else if ts[0].name == name then Some(ts[0])
    else
      var r := FindTeam(ts[1..], name);
      if r.Some? then
        ghost var i :| 0 <= i < |ts[1..]| && ts[1..][i] == r.value && forall j :: 0 <= j < i ==> ts[1..][j].name != name;
        assert ts[i + 1] == r.value;
        r
      else r
  }

  /** Extending an optional list: a present list grows by the other's users, an absent one takes the other's. */
  function ExtendOpt(own: Option<seq<string>>, other: Option<seq<string>>): (r: Option<seq<string>>)
    ensures own.Some? ==> r == Some(own.value + other.UnwrapOr([]))
    ensures own.None? ==> r == other
  {
    if own.Some? then Some(own.value + other.UnwrapOr([])) else other
  }

  /** One formation entry: the team takes the maintainers and members of `source`. */
  function ExtendFrom(team: SheriffTeam, source: SheriffTeam): (t: SheriffTeam)
    ensures t.name == team.name && t.formation == team.formation
  {
    team.(maintainers := ExtendOpt(team.maintainers, source.maintainers),
          members := ExtendOpt(team.members, source.members))
  }

  /** The formation entries `names` applied in order, looking sources up in `snapshot`. */
  function ComposeWith(team: SheriffTeam, names: seq<string>, snapshot: seq<SheriffTeam>): (t: SheriffTeam)
    ensures t.name == team.name && t.formation == team.formation
    decreases |names|
  {
    if names == [] then team
    else
      var before := ComposeWith(team, names[..|names| - 1], snapshot);
      var src := FindTeam(snapshot, names[|names| - 1]);
      if src.Some? then ExtendFrom(before, src.value) else before
  }

  /** A team after `process_composite_teams`. */
  function Compose(team: SheriffTeam, snapshot: seq<SheriffTeam>): (t: SheriffTeam)
    ensures t.name == team.name && t.formation == team.formation
  {
    if team.formation.Some? then ComposeWith(team, team.formation.value, snapshot) else team
  }

  ghost function OptElems(o: Option<seq<string>>): set<string> {
    if o.Some? then Elems(o.value) else {}
  }

  /** The users a field of the teams named in `names` (first match in `snapshot`) contribute. */
  ghost function Contributed(names: seq<string>, snapshot: seq<SheriffTeam>, maintainersField: bool): set<string>
    decreases |names|
  {
    if names == [] then {}
    else
      var src := FindTeam(snapshot, names[|names| - 1]);
      Contributed(names[..|names| - 1], snapshot, maintainersField)
      + (if src.None? then {} else if maintainersField then OptElems(src.value.maintainers) else OptElems(src.value.members))
  }

  /**
   * A composite team ends up with its own maintainers and members plus those
   * the named teams had BEFORE processing (one level deep); names that match
   * no team contribute nothing.
   */
  lemma {:induction false} ComposeWithUsers(team: SheriffTeam, names: seq<string>, snapshot: seq<SheriffTeam>)
    ensures OptElems(ComposeWith(team, names, snapshot).maintainers) == OptElems(team.maintainers) + Contributed(names, snapshot, true)
    ensures OptElems(ComposeWith(team, names, snapshot).members) == OptElems(team.members) + Contributed(names, snapshot, false)
    decreases |names|
  {
    if names != [] {
      var init := names[..|names| - 1];
      ComposeWithUsers(team, init, snapshot);
      var before := ComposeWith(team, init, snapshot);
      var src := FindTeam(snapshot, names[|names| - 1]);
      if src.Some? {
        var after := ExtendFrom(before, src.value);
        if before.maintainers.Some? {
          ElemsConcat(before.maintainers.value, src.value.maintainers.UnwrapOr([]));
        }
        if before.members.Some? {
          ElemsConcat(before.members.value, src.value.members.UnwrapOr([]));
        }
      }
    }
  }

  /** Names that match no team leave the team exactly as it was. */
  lemma {:induction false} ComposeUnknownIgnored(team: SheriffTeam, names: seq<string>, snapshot: seq<SheriffTeam>)
    requires forall i :: 0 <= i < |names| ==> FindTeam(snapshot, names[i]).None?
    ensures ComposeWith(team, names, snapshot) == team
    decreases |names|
  {
    if names != [] {
      ComposeUnknownIgnored(team, names[..|names| - 1], snapshot);
    }
  }

  /** A team's users after `remove_duplicates`. */
  function DedupOpt(o: Option<seq<string>>): (r: Option<seq<string>>)
    ensures r.Some? <==> o.Some?
    ensures r.Some? ==> StrictlySorted(r.value) && Elems(r.value) == Elems(o.value)
  {
    if o.Some? then Some(SortDedup(o.value)) else None
  }

  function DedupTeam(t: SheriffTeam): (r: SheriffTeam)
    ensures r.name == t.name && r.formation == t.formation
    ensures r.maintainers.Some? <==> t.maintainers.Some?
    ensures r.members.Some? <==> t.members.Some?
    ensures r.maintainers.Some? ==> StrictlySorted(r.maintainers.value) && Elems(r.maintainers.value) == Elems(t.maintainers.value)
    ensures r.members.Some? ==> StrictlySorted(r.members.value) && Elems(r.members.value) == Elems(t.members.value)
  {
    t.(maintainers := DedupOpt(t.maintainers), members := DedupOpt(t.members))
  }

  // Message texts; each error reads "team[<id>" followed by its text.
  const NameRequiredText := ": name must be provided"
  const NameInvalidText := "]: name must be lowercase alphanumeric with dashes (team slug)"
  const DuplicateText := "]: duplicate config for team "
  const MaintainerRequiredText := "]: must have at least one maintainer"
  const BothText := " must be either a maintainer or a member, but not both"

  /** "team[{id}: name must be provided" (the closing bracket is missing in the message itself). */
  function NameRequiredError(id: string): Error {
    Message("team[" + id + NameRequiredText)
  }

  function NameInvalidError(id: string): Error {
    Message("team[" + id + NameInvalidText)
  }

  function DuplicateTeamError(id: string, name: string): Error {
    Message("team[" + id + DuplicateText + name)
  }

  function MaintainerRequiredError(id: string): Error {
    Message("team[" + id + MaintainerRequiredText)
  }

  function MaintainerAndMemberError(id: string, user: string): Error {
    Message("team[" + id + "]: " + user + BothText)
  }

  /** The id in an entry's messages: its name, or its index when the name is empty. */
  function TeamId(name: string, i: nat): (id: string)
    ensures name != "" ==> id == name
    ensures name == "" ==> id == NatToString(i)
  {
    if name == "" then NatToString(i) else name
  }

  /** Names (non-empty) seen among the first `i` entries. */
  ghost function SeenBefore(teams: seq<SheriffTeam>, i: nat): set<string>
    requires i <= |teams|
  {
    set j | 0 <= j < i && teams[j].name != "" :: teams[j].name
  }

  /** The "maintainer also a member" errors for the maintainers `ms`, in order. */
  function BothErrors(id: string, ms: seq<string>, members: seq<string>): (errs: seq<Error>)
    ensures |errs| <= |ms|
    ensures (|errs| == 0) <==> forall k :: 0 <= k < |ms| ==> ms[k] !in members
    decreases |ms|
  {
    if ms == [] then []
    else
      var init := BothErrors(id, ms[..|ms| - 1], members);
      var m := ms[|ms| - 1];
      init + (if m in members then [MaintainerAndMemberError(id, m)] else [])
  }

  /** The name checks every entry goes through: missing name, then invalid slug. */
  function NameErrors(name: string, id: string): (errs: seq<Error>)
    ensures |errs| == 0 <==> IsValidTeamName(name)
  {
    (if name == "" then [NameRequiredError(id)] else [])
    + (if !IsValidTeamName(name) then [NameInvalidError(id)] else [])
  }

  /** The checks a first occurrence of a name goes through: at least one maintainer, none also a member. */
  function UserErrors(t: SheriffTeam, id: string): (errs: seq<Error>)
    ensures |errs| == 0 <==>
      (|t.maintainers.UnwrapOr([])| > 0
       && forall k :: 0 <= k < |t.maintainers.UnwrapOr([])| ==> t.maintainers.UnwrapOr([])[k] !in t.members.UnwrapOr([]))
  {
    (if |t.maintainers.UnwrapOr([])| == 0 then [MaintainerRequiredError(id)] else [])
    + BothErrors(id, t.maintainers.UnwrapOr([]), t.members.UnwrapOr([]))
  }

  /** The errors entry `i` gets, in the order `validate` pushes them. */
  ghost function EntryErrors(teams: seq<SheriffTeam>, i: nat): seq<Error>
    requires i < |teams|
  {
    var t := teams[i];
    var id := TeamId(t.name, i);
    NameErrors(t.name, id)
    + if t.name != "" && t.name in SeenBefore(teams, i) then [DuplicateTeamError(id, t.name)] else UserErrors(t, id)
  }

  lemma SeenBeforeNext(teams: seq<SheriffTeam>, i: nat)
    requires i < |teams|
    ensures SeenBefore(teams, i + 1) == SeenBefore(teams, i) + (if teams[i].name != "" then {teams[i].name} else {})
  {
  }

  /** Entry `i`'s errors, as a function of the index. */
  ghost function EntryErrorsAt(teams: seq<SheriffTeam>): nat -> seq<Error> {
    (i: nat) => if i < |teams| then EntryErrors(teams, i) else []
  }

  /** The errors of the first `n` entries, in entry order. */
  ghost function ErrorsUpTo(teams: seq<SheriffTeam>, n: nat): seq<Error>
    requires n <= |teams|
  {
    Flatten(EntryErrorsAt(teams), n)
  }

  /** One more entry adds its own errors at the end. */
  lemma ErrorsUpToNext(teams: seq<SheriffTeam>, i: nat)
    requires i < |teams|
    ensures ErrorsUpTo(teams, i + 1) == ErrorsUpTo(teams, i) + EntryErrors(teams, i)
  {
    assert EntryErrorsAt(teams)(i) == EntryErrors(teams, i);
  }

  /** What `validate` returns for a list of teams. */
  ghost function ValidateSpec(teams: seq<SheriffTeam>): Result<(), Error> {
    var errs := ErrorsUpTo(teams, |teams|);
    if |errs| == 0 then Ok(()) else Err(Multi(None, errs))
  }

  /** The configuration an entry must satisfy for `validate` to report nothing about it. */
  ghost predicate EntryValid(teams: seq<SheriffTeam>, i: nat)
    requires i < |teams|
  {
    var t := teams[i];
    && IsValidTeamName(t.name)
    && t.name !in SeenBefore(teams, i)
    && |t.maintainers.UnwrapOr([])| > 0
    && forall k :: 0 <= k < |t.maintainers.UnwrapOr([])| ==> t.maintainers.UnwrapOr([])[k] !in t.members.UnwrapOr([])
  }

  lemma EntryErrorsEmpty(teams: seq<SheriffTeam>, i: nat)
    requires i < |teams|
    ensures |EntryErrors(teams, i)| == 0 <==> EntryValid(teams, i)
  {
  }

  lemma ErrorsUpToEmpty(teams: seq<SheriffTeam>, n: nat)
    requires n <= |teams|
    ensures |ErrorsUpTo(teams, n)| == 0 <==> forall i :: 0 <= i < n ==> |EntryErrors(teams, i)| == 0
  {
    FlattenEmpty(EntryErrorsAt(teams), n);
    assert forall i :: 0 <= i < n ==> EntryErrorsAt(teams)(i) == EntryErrors(teams, i);
  }

  /**
   * `validate` succeeds iff every entry has a team-slug name not used by an
   * earlier entry, at least one maintainer, and no maintainer who is also a
   * member.
   */
  lemma ValidateOkIff(teams: seq<SheriffTeam>)
    ensures ValidateSpec(teams).Ok? <==> forall i :: 0 <= i < |teams| ==> EntryValid(teams, i)
  {
    ErrorsUpToEmpty(teams, |teams|);
    forall i | 0 <= i < |teams| ensures |EntryErrors(teams, i)| == 0 <==> EntryValid(teams, i) {
      EntryErrorsEmpty(teams, i);
    }
  }

  /** An entry with an empty name gets both the missing-name and the invalid-name error, identified by its index. */
  lemma EmptyNameErrors(teams: seq<SheriffTeam>, i: nat)
    requires i < |teams| && teams[i].name == ""
    ensures EntryErrors(teams, i)[..2] == [NameRequiredError(NatToString(i)), NameInvalidError(NatToString(i))]
  {
  }

  /** A repeated name gets the duplicate error and none of the later checks. */
  lemma DuplicateSkipsRest(teams: seq<SheriffTeam>, i: nat, j: nat)
    requires j < i < |teams| && teams[i].name != "" && teams[j].name == teams[i].name
    ensures var id := teams[i].name;
      EntryErrors(teams, i) ==
        (if IsValidTeamName(id) then [] else [NameInvalidError(id)]) + [DuplicateTeamError(id, id)]
  {
    assert teams[i].name in SeenBefore(teams, i);
  }

  /** A first occurrence with no maintainer gets the at-least-one-maintainer error. */
  lemma NoMaintainerReported(teams: seq<SheriffTeam>, i: nat)
    requires i < |teams| && teams[i].name !in SeenBefore(teams, i)
    requires |teams[i].maintainers.UnwrapOr([])| == 0
    ensures MaintainerRequiredError(TeamId(teams[i].name, i)) in EntryErrors(teams, i)
  {
  }

  /** The Sheriff configuration object, whose teams the loading steps change in place. */
  class SheriffCfg {
    var teams: seq<SheriffTeam>

    constructor (teams: seq<SheriffTeam>)
      ensures this.teams == teams
    {
      this.teams := teams;
    }

    /**
     * `process_composite_teams`: each team with a formation takes the users
     * of the teams it names, looked up in a copy taken before any change.
     */
    method ProcessCompositeTeams()
      modifies this
      ensures |teams| == |old(teams)|
      ensures forall k :: 0 <= k < |teams| ==> teams[k] == Compose(old(teams)[k], old(teams))
    {
      var snapshot := teams;
      var i := 0;
      while i < |teams|
        invariant 0 <= i <= |teams| == |snapshot|
        invariant forall k :: 0 <= k < i ==> teams[k] == Compose(snapshot[k], snapshot)
        invariant forall k :: i <= k < |teams| ==> teams[k] == snapshot[k]
      {
        var team := teams[i];
        if team.formation.Some? {
          var formation := team.formation.value;
          for j := 0 to |formation|
            invariant team == ComposeWith(snapshot[i], formation[..j], snapshot)
          {
            assert formation[..j + 1][..j] == formation[..j];
            var source := FindTeam(snapshot, formation[j]);
            if source.Some? {
              team := ExtendFrom(team, source.value);
            }
          }
          assert formation[..|formation|] == formation;
        }
        teams := teams[i := team];
        i := i + 1;
      }
    }

    /** `remove_duplicates`: every present maintainers and members list is sorted and deduplicated. */
    method RemoveDuplicates()
      modifies this
      ensures |teams| == |old(teams)|
      ensures forall k :: 0 <= k < |teams| ==> teams[k] == DedupTeam(old(teams)[k])
    {
      for i := 0 to |teams|
        invariant |teams| == |old(teams)|
        invariant forall k :: 0 <= k < i ==> teams[k] == DedupTeam(old(teams)[k])
        invariant forall k :: i <= k < |teams| ==> teams[k] == old(teams)[k]
      {
        teams := teams[i := DedupTeam(teams[i])];
      }
    }

    /** `validate`: every problem of every entry, collected in order, or `Ok`. */
    method Validate() returns (r: Result<(), Error>)
      ensures r == ValidateSpec(teams)
    {
      var merr := new MultiError(None);
      CheckAll(merr, teams);
      assert merr.errors == ErrorsUpTo(teams, |teams|);
      if merr.ContainsErrors() {
        return Err(merr.ToError());
      }
      return Ok(());
    }
  }

  /** `validate`'s loop over the entries, remembering the names seen so far. */
  method CheckAll(merr: MultiError, teams: seq<SheriffTeam>)
    modifies merr
    ensures merr.errors == old(merr.errors) + ErrorsUpTo(teams, |teams|)
    ensures merr.context == old(merr.context)
  {
    var teamsSeen: seq<string> := [];
    for i := 0 to |teams|
      invariant merr.errors == old(merr.errors) + ErrorsUpTo(teams, i)
      invariant merr.context == old(merr.context)
      invariant Elems(teamsSeen) == SeenBefore(teams, i)
    {
      ghost var start, upto, entry := old(merr.errors), ErrorsUpTo(teams, i), EntryErrors(teams, i);
      ErrorsUpToNext(teams, i);
      teamsSeen := CheckEntry(merr, teams, i, teamsSeen);
      ConcatAssoc(start, upto, entry);
    }
  }

  /** One iteration of `validate`'s loop: the entry's errors go to `merr`, its name to the seen list. */
  method CheckEntry(merr: MultiError, teams: seq<SheriffTeam>, i: nat, teamsSeen: seq<string>) returns (seen: seq<string>)
    requires i < |teams|
    requires Elems(teamsSeen) == SeenBefore(teams, i)
    modifies merr
    ensures merr.errors == old(merr.errors) + EntryErrors(teams, i)
    ensures merr.context == old(merr.context)
    ensures Elems(seen) == SeenBefore(teams, i + 1)
  {
    var team := teams[i];
    var id := if team.name == "" then NatToString(i) else team.name;
    seen := teamsSeen;
    CheckName(merr, team.name, id);
    SeenBeforeNext(teams, i);
    if team.name != "" {
      if team.name in teamsSeen {
        merr.Push(DuplicateTeamError(id, team.name));
        return;
      }
      seen := teamsSeen + [team.name];
    }
    CheckUsers(merr, team, id);
  }

  /** The name checks of an entry. */
  method CheckName(merr: MultiError, name: string, id: string)
    modifies merr
    ensures merr.errors == old(merr.errors) + NameErrors(name, id)
    ensures merr.context == old(merr.context)
  {
    if name == "" {
      merr.Push(NameRequiredError(id));
    }
    if !IsValidTeamName(name) {
      merr.Push(NameInvalidError(id));
    }
  }

  /** The user checks of a first occurrence. */
  method CheckUsers(merr: MultiError, team: SheriffTeam, id: string)
    modifies merr
    ensures merr.errors == old(merr.errors) + UserErrors(team, id)
    ensures merr.context == old(merr.context)
  {
    var maintainers := team.maintainers.UnwrapOr([]);
    var members := team.members.UnwrapOr([]);
    if |maintainers| == 0 {
      merr.Push(MaintainerRequiredError(id));
    }
    CheckMaintainers(merr, id, maintainers, members);
  }

  /** The inner loop: each maintainer also listed as a member is one error. */
  method CheckMaintainers(merr: MultiError, id: string, maintainers: seq<string>, members: seq<string>)
    modifies merr
    ensures merr.errors == old(merr.errors) + BothErrors(id, maintainers, members)
    ensures merr.context == old(merr.context)
  {
    for k := 0 to |maintainers|
      invariant merr.errors == old(merr.errors) + BothErrors(id, maintainers[..k], members)
      invariant merr.context == old(merr.context)
    {
      assert maintainers[..k + 1][..k] == maintainers[..k];
      if maintainers[k] in members {
        merr.Push(MaintainerAndMemberError(id, maintainers[k]));
      }
    }
    assert maintainers[..|maintainers|] == maintainers;
  }

  // ---------------------------------------------------------------- CNCF

  /** A person as listed in the CNCF people file. */
  datatype CncfUser = CncfUser(
    name: string,
    bio: Option<string>,
    company: Option<string>,
    pronouns: Option<string>,
    location: Option<string>,
    linkedin: Option<string>,
    twitter: Option<string>,
    github: Option<string>,
    wechat: Option<string>,
    website: Option<string>,
    youtube: Option<string>,
    languages: Option<seq<string>>,
    projects: Option<seq<string>>,
    category: Option<seq<string>>,
    email: Option<string>,
    slackId: Option<string>,
    image: Option<string>)

  /** The error `cncf::Cfg::validate` reports for the person at index `i`. */
  function PersonError(i: nat): Error {
    Message("user[" + NatToString(i) + "]: name must be provided")
  }

  /** The errors for the first `n` people. */
  function PeopleErrors(people: seq<CncfUser>, n: nat): (errs: seq<Error>)
    requires n <= |people|
    ensures |errs| == 0 <==> forall i :: 0 <= i < n ==> people[i].name != ""
  {
    if n == 0 then [] else PeopleErrors(people, n - 1) + (if people[n - 1].name == "" then [PersonError(n - 1)] else [])
  }

  /** Every person with an empty name is reported by index; `Ok` iff there is none. */
  method ValidatePeople(people: seq<CncfUser>) returns (r: Result<(), Error>)
    ensures r.Ok? <==> forall i :: 0 <= i < |people| ==> people[i].name != ""
    ensures r.Err? ==> r.error == Multi(None, PeopleErrors(people, |people|))
  {
    var merr := new MultiError(None);
    for i := 0 to |people|
      invariant merr.errors == PeopleErrors(people, i) && merr.context == None
    {
      if people[i].name == "" {
        merr.Push(PersonError(i));
      }
    }
    if merr.ContainsErrors() {
      return Err(merr.ToError());
    }
    return Ok(());
  }

  /** The index test of the people loop: a person with an empty name. */
  function EmptyNameAt(people: seq<CncfUser>): nat -> bool {
    (i: nat) => i < |people| && people[i].name == ""
  }

  /** The people errors are the person errors picked at the indices with an empty name. */
  lemma {:induction false} PeopleErrorsPicked(people: seq<CncfUser>, n: nat)
    requires n <= |people|
    ensures PeopleErrors(people, n) == Picked(EmptyNameAt(people), PersonError, n)
  {
    if n > 0 {
      PeopleErrorsPicked(people, n - 1);
    }
  }

  /** An error for each empty-named person, in index order. */
  lemma PeopleErrorsAreEmptyNames(people: seq<CncfUser>, n: nat)
    requires n <= |people|
    ensures Elems(PeopleErrors(people, n)) == set i | 0 <= i < n && people[i].name == "" :: PersonError(i)
  {
    PeopleErrorsPicked(people, n);
    PickedElems(EmptyNameAt(people), PersonError, n);
  }

  // ------------------------------------------------------------- Loading

  /** The file parsers (`serde_yaml`, `serde_json`): a parsed file or the parser's error. */
  datatype Parsers = Parsers(
    sheriff: string -> Result<seq<SheriffTeam>, Error>,
    cncf: string -> Result<seq<CncfUser>, Error>)

  /** The legacy configuration: Sheriff's teams and, when configured, the CNCF people. */
  datatype LegacyCfg = LegacyCfg(sheriff: seq<SheriffTeam>, cncf: Option<seq<CncfUser>>)

  /** The teams after composition and deduplication, the order `sheriff::Cfg::get` applies them in. */
  ghost function Normalized(raw: seq<SheriffTeam>): (ts: seq<SheriffTeam>)
    ensures |ts| == |raw|
  {
    seq(|raw|, k requires 0 <= k < |raw| => DedupTeam(Compose(raw[k], raw)))
  }

  /** What `sheriff::Cfg::get` yields. */
  ghost function SheriffSpec(gh: Gh, parsers: Parsers, src: Source, path: string): Result<seq<SheriffTeam>, Error> {
    var content := gh.getFileContent(src, path);
    if content.Err? then Err(Context("error getting permissions file", content.error))
    else
      var parsed := parsers.sheriff(content.value);
      if parsed.Err? then Err(Context("error parsing permissions file", parsed.error))
      else
        var ts := Normalized(parsed.value);
        if ValidateSpec(ts).Ok? then Ok(ts) else Err(ValidateSpec(ts).error)
  }

  /** What `cncf::Cfg::get` yields. */
  ghost function CncfSpec(gh: Gh, parsers: Parsers, src: Source, path: Option<string>): Result<Option<seq<CncfUser>>, Error> {
    if path.None? then Ok(None)
    else
      var content := gh.getFileContent(src, path.value);
      if content.Err? then Err(Context("error getting cncf people file", content.error))
      else
        var parsed := parsers.cncf(content.value);
        if parsed.Err? then Err(Context("error parsing cncf people file", parsed.error))
        else if forall i :: 0 <= i < |parsed.value| ==> parsed.value[i].name != "" then Ok(Some(parsed.value))
        else Err(Multi(None, PeopleErrors(parsed.value, |parsed.value|)))
  }

  /**
   * `sheriff::Cfg::get`: fetch and parse the file (each failure with its own
   * context), then compose, deduplicate and validate, in that order.
   */
  method GetSheriff(gh: Gh, parsers: Parsers, src: Source, path: string) returns (r: Result<seq<SheriffTeam>, Error>)
    ensures r == SheriffSpec(gh, parsers, src, path)
  {
    var content := gh.getFileContent(src, path);
    if content.Err? {
      return Err(Context("error getting permissions file", content.error));
    }
    var parsed := parsers.sheriff(content.value);
    if parsed.Err? {
      return Err(Context("error parsing permissions file", parsed.error));
    }
    var cfg := new SheriffCfg(parsed.value);
    cfg.ProcessCompositeTeams();
    cfg.RemoveDuplicates();
    assert cfg.teams == Normalized(parsed.value);
    var v := cfg.Validate();
    if v.Err? {
      return Err(v.error);
    }
    return Ok(cfg.teams);
  }

  /** `cncf::Cfg::get`: no path means no people file; otherwise fetch, parse and validate it. */
  method GetCncf(gh: Gh, parsers: Parsers, src: Source, path: Option<string>) returns (r: Result<Option<seq<CncfUser>>, Error>)
    ensures r == CncfSpec(gh, parsers, src, path)
  {
    if path.None? {
      return Ok(None);
    }
    var content := gh.getFileContent(src, path.value);
    if content.Err? {
      return Err(Context("error getting cncf people file", content.error));
    }
    var parsed := parsers.cncf(content.value);
    if parsed.Err? {
      return Err(Context("error parsing cncf people file", parsed.error));
    }
    var v := ValidatePeople(parsed.value);
    if v.Err? {
      return Err(v.error);
    }
    return Ok(Some(parsed.value));
  }

  const DirectoryConfigInvalid := "invalid directory configuration"

  /** The failures among the two loads, Sheriff's first. */
  ghost function LoadErrors(sheriff: Result<seq<SheriffTeam>, Error>, cncf: Result<Option<seq<CncfUser>>, Error>): seq<Error> {
    (if sheriff.Err? then [sheriff.error] else []) + (if cncf.Err? then [cncf.error] else [])
  }

  /**
   * `legacy::Cfg::get`: both files are loaded; the failures of either or
   * both are collected, Sheriff's first, under the context
   * "invalid directory configuration".
   */
  method Get(gh: Gh, parsers: Parsers, legacy: Legacy, src: Source) returns (r: Result<LegacyCfg, Error>)
    ensures var s := SheriffSpec(gh, parsers, src, legacy.sheriffPermissionsPath);
      var c := CncfSpec(gh, parsers, src, legacy.cncfPeoplePath);
      && (r.Ok? <==> s.Ok? && c.Ok?)
      && (r.Ok? ==> r.value == LegacyCfg(s.value, c.value))
      && (r.Err? ==> r.error == Multi(Some(DirectoryConfigInvalid), LoadErrors(s, c)))
  {
    var merr := new MultiError(Some(DirectoryConfigInvalid));
    var sheriff := GetSheriff(gh, parsers, src, legacy.sheriffPermissionsPath);
    if sheriff.Err? {
      merr.Push(sheriff.error);
    }
    var cncf := GetCncf(gh, parsers, src, legacy.cncfPeoplePath);
    if cncf.Err? {
      merr.Push(cncf.error);
    }
    if merr.ContainsErrors() {
      return Err(merr.ToError());
    }
    return Ok(LegacyCfg(sheriff.value, cncf.value));
  }
}
