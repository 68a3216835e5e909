/**
 * The first generation's Sheriff team rules, shared by the two loaders that
 * validate a teams list (src/legacy.rs and src/directory/legacy.rs): a
 * name is required, a repeated name is reported once and its entry is
 * skipped, a first occurrence needs at least one maintainer and no
 * maintainer may also be a member. There is no team-slug rule and no team
 * composition in this generation. The messages are those of
 * `CoreDirectoryLegacy`.
 */
module OldSheriff {
  import opened Common
  import opened Errors
  import opened Collections
  import CDL = CoreDirectoryLegacy

  /** A team of the Sheriff permissions file: both user lists are plain (possibly empty) lists. */
  datatype Team = Team(name: string, maintainers: seq<string>, members: seq<string>)

  /** Names (non-empty) of the first `i` entries. */
  ghost function SeenBefore(teams: seq<Team>, i: nat): set<string>
    requires i <= |teams|
  {
    set j | 0 <= j < i && teams[j].name != "" :: teams[j].name
  }

  lemma SeenBeforeNext(teams: seq<Team>, i: nat)
    requires i < |teams|
    ensures SeenBefore(teams, i + 1) == SeenBefore(teams, i) + (if teams[i].name != "" then {teams[i].name} else {})
  {
  }

  /** The checks of a first occurrence: at least one maintainer, then one error per maintainer also a member. */
  function UserErrors(t: Team, id: string): (errs: seq<Error>)
    ensures |errs| == 0 <==> |t.maintainers| > 0 && forall k :: 0 <= k < |t.maintainers| ==> t.maintainers[k] !in t.members
  {
    (if |t.maintainers| == 0 then [CDL.MaintainerRequiredError(id)] else [])
    + CDL.BothErrors(id, t.maintainers, t.members)
  }

  /** The errors entry `i` gets, in the order `validate` pushes them. */
  ghost function EntryErrors(teams: seq<Team>, i: nat): seq<Error>
    requires i < |teams|
  {
    var t := teams[i];
    var id := CDL.TeamId(t.name, i);
    (if t.name == "" then [CDL.NameRequiredError(id)] else [])
    + if t.name != "" && t.name in SeenBefore(teams, i) then [CDL.DuplicateTeamError(id, t.name)] else UserErrors(t, id)
  }

  /** Entry `i`'s errors, as a function of the index. */
  ghost function EntryErrorsAt(teams: seq<Team>): nat -> seq<Error> {
    (i: nat) => if i < |teams| then EntryErrors(teams, i) else []
  }

  /** The errors of the first `n` entries, in order. */
  ghost function ErrorsUpTo(teams: seq<Team>, n: nat): seq<Error>
    requires n <= |teams|
  {
    Flatten(EntryErrorsAt(teams), n)
  }

  /** One more entry adds its own errors at the end. */
  lemma ErrorsUpToNext(teams: seq<Team>, i: nat)
    requires i < |teams|
    ensures ErrorsUpTo(teams, i + 1) == ErrorsUpTo(teams, i) + EntryErrors(teams, i)
  {
    assert EntryErrorsAt(teams)(i) == EntryErrors(teams, i);
  }

  /** What an entry must satisfy for `validate` to say nothing about it. */
  ghost predicate EntryValid(teams: seq<Team>, i: nat)
    requires i < |teams|
  {
    var t := teams[i];
    && t.name != ""
    && t.name !in SeenBefore(teams, i)
    && |t.maintainers| > 0
    && forall k :: 0 <= k < |t.maintainers| ==> t.maintainers[k] !in t.members
  }

  /** Every entry is valid. */
  ghost predicate AllValid(teams: seq<Team>) {
    forall i :: 0 <= i < |teams| ==> EntryValid(teams, i)
  }

  lemma EntryErrorsEmpty(teams: seq<Team>, i: nat)
    requires i < |teams|
    ensures |EntryErrors(teams, i)| == 0 <==> EntryValid(teams, i)
  {
  }

  /** No error among the first `n` entries iff none of them adds one. */
  lemma ErrorsUpToEmpty(teams: seq<Team>, n: nat)
    requires n <= |teams|
    ensures |ErrorsUpTo(teams, n)| == 0 <==> forall i :: 0 <= i < n ==> |EntryErrors(teams, i)| == 0
  {
    FlattenEmpty(EntryErrorsAt(teams), n);
    assert forall i :: 0 <= i < n ==> EntryErrorsAt(teams)(i) == EntryErrors(teams, i);
  }

  /**
   * `validate` collects nothing iff every entry has a name not used by an
   * earlier entry, at least one maintainer, and no maintainer who is also
   * a member.
   */
  lemma NoErrorsIff(teams: seq<Team>)
    ensures |ErrorsUpTo(teams, |teams|)| == 0 <==> AllValid(teams)
  {
    ErrorsUpToEmpty(teams, |teams|);
    forall i | 0 <= i < |teams| ensures |EntryErrors(teams, i)| == 0 <==> EntryValid(teams, i) {
      EntryErrorsEmpty(teams, i);
    }
  }

  /** An entry with an empty name is reported by its index, and then goes through the user checks. */
  lemma EmptyNameReported(teams: seq<Team>, i: nat)
    requires i < |teams| && teams[i].name == ""
    ensures EntryErrors(teams, i) == [CDL.NameRequiredError(NatToString(i))] + UserErrors(teams[i], NatToString(i))
  {
  }

  /** A repeated name gets exactly the duplicate error: the rest of the entry is skipped. */
  lemma DuplicateSkipsRest(teams: seq<Team>, i: nat, j: nat)
    requires j < i < |teams| && teams[i].name != "" && teams[j].name == teams[i].name
    ensures EntryErrors(teams, i) == [CDL.DuplicateTeamError(teams[i].name, teams[i].name)]
  {
    assert teams[i].name in SeenBefore(teams, i);
  }

  /** A first occurrence with no maintainer gets the at-least-one-maintainer error. */
  lemma NoMaintainerReported(teams: seq<Team>, i: nat)
    requires i < |teams| && teams[i].name !in SeenBefore(teams, i)
    requires |teams[i].maintainers| == 0
    ensures CDL.MaintainerRequiredError(CDL.TeamId(teams[i].name, i)) in EntryErrors(teams, i)
  {
  }

  /** A first occurrence with a maintainer also listed as a member gets that maintainer's error. */
  lemma BothReported(teams: seq<Team>, i: nat, k: nat)
    requires i < |teams| && teams[i].name !in SeenBefore(teams, i)
    requires k < |teams[i].maintainers| && teams[i].maintainers[k] in teams[i].members
    ensures CDL.MaintainerAndMemberError(CDL.TeamId(teams[i].name, i), teams[i].maintainers[k]) in EntryErrors(teams, i)
  {
    BothErrorsHas(CDL.TeamId(teams[i].name, i), teams[i].maintainers, teams[i].members, k);
  }

  lemma {:induction false} BothErrorsHas(id: string, ms: seq<string>, members: seq<string>, k: nat)
    requires k < |ms| && ms[k] in members
    ensures CDL.MaintainerAndMemberError(id, ms[k]) in CDL.BothErrors(id, ms, members)
    decreases |ms|
  {
    if k < |ms| - 1 {
      assert ms[..|ms| - 1][k] == ms[k];
      BothErrorsHas(id, ms[..|ms| - 1], members, k);
    }
  }
}
