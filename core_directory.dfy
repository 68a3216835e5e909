/**
 * clowarden-core's directory: the teams and users a configuration declares,
 * and the changes between two directories.
 *
 * `Diff` follows `Directory::diff`: teams and users are first collected into
 * maps keyed by name (a repeated name keeps its last entry), and the changes
 * come out in fixed categories: removed teams, added teams, per common team
 * its membership changes, removed users, added users, updated users. Within
 * a category the order is the iteration order of a hash set, so the contract
 * says which changes occur (each once) and the order of the categories, and
 * nothing about the order inside one.
 */
module CoreDirectory {
  import opened Common
  import opened Errors
  import opened Collections
  import opened CoreCfg
  import opened CoreGithub
  import opened CoreServices
  import opened CoreDirectoryLegacy

  // ---------------------------------------------------------------- Entities

  datatype Team = Team(
    name: string,
    displayName: Option<string>,
    maintainers: seq<string>,
    members: seq<string>,
    annotations: map<string, string>)

  datatype User = User(
    fullName: string,
    userName: Option<string>,
    email: Option<string>,
    imageUrl: Option<string>,
    bio: Option<string>,
    website: Option<string>,
    company: Option<string>,
    pronouns: Option<string>,
    location: Option<string>,
    slackId: Option<string>,
    linkedinUrl: Option<string>,
    twitterUrl: Option<string>,
    githubUrl: Option<string>,
    wechatUrl: Option<string>,
    youtubeUrl: Option<string>,
    languages: Option<seq<string>>,
    annotations: map<string, string>)

  datatype Directory = Directory(teams: seq<Team>, users: seq<User>)

  datatype DirectoryChange =
    | TeamAdded(team: Team)
    | TeamRemoved(teamName: string)
    | TeamMaintainerAdded(teamName: string, userName: string)
    | TeamMaintainerRemoved(teamName: string, userName: string)
    | TeamMemberAdded(teamName: string, userName: string)
    | TeamMemberRemoved(teamName: string, userName: string)
    | UserAdded(fullName: string)
    | UserRemoved(fullName: string)
    | UserUpdated(fullName: string)

  function TeamNameOf(t: Team): string { t.name }

  function FullNameOf(u: User): string { u.fullName }

  /** `self.teams.iter().map(|t| (&t.name, t)).collect()`. */
  function TeamMap(d: Directory): (m: map<string, Team>)
    ensures m.Keys == set t | t in d.teams :: t.name
    ensures forall k :: k in m ==> m[k].name == k && m[k] in d.teams
  {
    LastWins(d.teams, TeamNameOf)
  }

  /** `self.users.iter().map(|u| (&u.full_name, u)).collect()`. */
  function UserMap(d: Directory): (m: map<string, User>)
    ensures m.Keys == set u | u in d.users :: u.fullName
    ensures forall k :: k in m ==> m[k].fullName == k && m[k] in d.users
  {
    LastWins(d.users, FullNameOf)
  }

  // ------------------------------------------------------- What a diff holds

  /** The four maps `diff` works on. */
  datatype Keyed = Keyed(
    teamsOld: map<string, Team>,
    teamsNew: map<string, Team>,
    usersOld: map<string, User>,
    usersNew: map<string, User>)

  function KeyedOf(o: Directory, n: Directory): (k: Keyed)
    ensures k.teamsOld == TeamMap(o) && k.teamsNew == TeamMap(n)
    ensures k.usersOld == UserMap(o) && k.usersNew == UserMap(n)
  {
    Keyed(TeamMap(o), TeamMap(n), UserMap(o), UserMap(n))
  }

  /** Each map entry sits under its own name, as `TeamMap` and `UserMap` build them. */
  ghost predicate Consistent(km: Keyed) {
    && (forall x :: x in km.teamsOld ==> km.teamsOld[x].name == x)
    && (forall x :: x in km.teamsNew ==> km.teamsNew[x].name == x)
  }

  /** A membership change of team `t` between its old and new records. */
  ghost predicate MemberChange(t: string, ot: Team, nt: Team, c: DirectoryChange) {
    match c
    case TeamMaintainerRemoved(tn, u) => tn == t && u in ot.maintainers && u !in nt.maintainers
    case TeamMemberRemoved(tn, u) => tn == t && u in ot.members && u !in nt.members
    case TeamMaintainerAdded(tn, u) => tn == t && u in nt.maintainers && u !in ot.maintainers
    case TeamMemberAdded(tn, u) => tn == t && u in nt.members && u !in ot.members
    case _ => false
  }

  /** The changes a diff over these maps must report, and no others. */
  ghost predicate Expected(km: Keyed, c: DirectoryChange) {
    match c
    case TeamRemoved(t) => t in km.teamsOld && t !in km.teamsNew
    case TeamAdded(team) => team.name in km.teamsNew && team.name !in km.teamsOld && km.teamsNew[team.name] == team
    case UserRemoved(f) => f in km.usersOld && f !in km.usersNew
    case UserAdded(f) => f in km.usersNew && f !in km.usersOld
    case UserUpdated(f) => f in km.usersOld && f in km.usersNew && km.usersOld[f] != km.usersNew[f]
    case _ =>
      c.teamName in km.teamsOld && c.teamName in km.teamsNew
      && MemberChange(c.teamName, km.teamsOld[c.teamName], km.teamsNew[c.teamName], c)
  }

  /** Category of a change, in the order `diff` emits them. */
  function Rank(c: DirectoryChange): (k: int)
    ensures 0 <= k <= 5
  {
    match c
    case TeamRemoved(_) => 0
    case TeamAdded(_) => 1
    case UserRemoved(_) => 3
    case UserAdded(_) => 4
    case UserUpdated(_) => 5
    case _ => 2
  }

  /** The team a membership change belongs to. */
  function TeamKey(c: DirectoryChange): (k: Option<string>)
    ensures k.Some? <==> Rank(c) == 2
  {
    match c
    case TeamMaintainerRemoved(t, _) => Some(t)
    case TeamMemberRemoved(t, _) => Some(t)
    case TeamMaintainerAdded(t, _) => Some(t)
    case TeamMemberAdded(t, _) => Some(t)
    case _ => None
  }

  /** Order of the membership changes within one team. */
  function Sub(c: DirectoryChange): int {
    match c
    case TeamMaintainerRemoved(_, _) => 0
    case TeamMemberRemoved(_, _) => 1
    case TeamMaintainerAdded(_, _) => 2
    case TeamMemberAdded(_, _) => 3
    case _ => 0
  }

  /** The user of a membership change. */
  function UserOf(c: DirectoryChange): string {
    match c
    case TeamMaintainerRemoved(_, u) => u
    case TeamMemberRemoved(_, u) => u
    case TeamMaintainerAdded(_, u) => u
    case TeamMemberAdded(_, u) => u
    case _ => ""
  }

  /** The name a change is about: the team's for team changes, the user's full name for user changes. */
  function NameOf(c: DirectoryChange): string {
    match c
    case TeamAdded(team) => team.name
    case TeamRemoved(t) => t
    case TeamMaintainerAdded(t, _) => t
    case TeamMaintainerRemoved(t, _) => t
    case TeamMemberAdded(t, _) => t
    case TeamMemberRemoved(t, _) => t
    case UserAdded(f) => f
    case UserRemoved(f) => f
    case UserUpdated(f) => f
  }

  /**
   * A valid result of `diff`: every expected change exactly once and nothing
   * else; categories in order; the membership changes of one team together,
   * maintainers removed, members removed, maintainers added, members added.
   */
  ghost predicate IsDiff(o: Directory, n: Directory, changes: seq<DirectoryChange>) {
    && NoDup(changes)
    && (forall c :: c in changes <==> Expected(KeyedOf(o, n), c))
    && SortedBy(changes, Rank)
    && Grouped(changes, TeamKey)
    && SortedWithin(changes, TeamKey, Sub)
  }

  /** The order facts of a stretch of a diff holding the categories `lo..hi`. */
  ghost predicate Shape(p: seq<DirectoryChange>, lo: int, hi: int) {
    && NoDup(p)
    && (forall i :: 0 <= i < |p| ==> lo <= Rank(p[i]) <= hi)
    && SortedBy(p, Rank)
    && Grouped(p, TeamKey)
    && SortedWithin(p, TeamKey, Sub)
  }

  /** A stretch holding exactly the expected changes of the categories `lo..hi`. */
  ghost predicate Part(p: seq<DirectoryChange>, km: Keyed, lo: int, hi: int) {
    && Shape(p, lo, hi)
    && (forall c :: c in p <==> lo <= Rank(c) <= hi && Expected(km, c))
  }

  // ------------------------------------------------------------ Part lemmas

  /** Outside the membership category, an expected change is determined by its category and name. */
  lemma ExpectedByName(km: Keyed, c: DirectoryChange, d: DirectoryChange)
    requires Rank(c) == Rank(d) != 2
    requires Expected(km, c) && Expected(km, d) && NameOf(c) == NameOf(d)
    ensures c == d
  {
  }

  /** A category other than membership, listed once per name. */
  lemma {:induction false} SinglePart(p: seq<DirectoryChange>, xs: seq<string>, km: Keyed, k: int, s: set<string>)
    requires k != 2
    requires NoDup(xs) && Elems(xs) == s
    requires |p| == |xs|
    requires forall j :: 0 <= j < |p| ==> NameOf(p[j]) == xs[j] && Rank(p[j]) == k && Expected(km, p[j])
    requires forall c :: Rank(c) == k && Expected(km, c) ==> NameOf(c) in s
    ensures Part(p, km, k, k)
  {
    forall i, j | 0 <= i < j < |p| ensures p[i] != p[j] {
      assert xs[i] != xs[j];
    }
    forall c | Rank(c) == k && Expected(km, c) ensures c in p {
      var j :| 0 <= j < |xs| && xs[j] == NameOf(c);
      ExpectedByName(km, c, p[j]);
    }
    assert forall i :: 0 <= i < |p| ==> TeamKey(p[i]).None?;
  }

  /** Two consecutive stretches make one. */
  lemma JoinShape(a: seq<DirectoryChange>, b: seq<DirectoryChange>, lo: int, mid: int, hi: int)
    requires lo <= mid < hi
    requires Shape(a, lo, mid) && Shape(b, mid + 1, hi)
    ensures Shape(a + b, lo, hi)
  {
    forall i, j | 0 <= i < |a| && 0 <= j < |b| ensures a[i] != b[j] && Rank(a[i]) <= Rank(b[j]) {
      assert Rank(a[i]) <= mid < Rank(b[j]);
    }
    NoDupConcat(a, b);
    SortedConcat(a, b, Rank);
    forall i, j | 0 <= i < |a| && 0 <= j < |b| && TeamKey(a[i]).Some? ensures TeamKey(a[i]) != TeamKey(b[j]) {
      assert Rank(a[i]) == 2 && Rank(b[j]) > 2;
    }
    GroupedConcat(a, b, TeamKey);
    SortedWithinConcat(a, b, TeamKey, Sub);
    var c := a + b;
    forall i | 0 <= i < |c| ensures lo <= Rank(c[i]) <= hi {
      if i < |a| { assert c[i] == a[i]; } else { assert c[i] == b[i - |a|]; }
    }
  }

  lemma Join(a: seq<DirectoryChange>, b: seq<DirectoryChange>, km: Keyed, lo: int, mid: int, hi: int)
    requires lo <= mid < hi
    requires Part(a, km, lo, mid) && Part(b, km, mid + 1, hi)
    ensures Part(a + b, km, lo, hi)
  {
    JoinShape(a, b, lo, mid, hi);
  }

  // ------------------------------------------------------------ Team changes

  function TeamRemovedOf(t: string): (c: DirectoryChange)
    ensures Rank(c) == 0 && NameOf(c) == t
  {
    TeamRemoved(t)
  }

  function UserRemovedOf(f: string): (c: DirectoryChange)
    ensures Rank(c) == 3 && NameOf(c) == f
  {
    UserRemoved(f)
  }

  function UserAddedOf(f: string): (c: DirectoryChange)
    ensures Rank(c) == 4 && NameOf(c) == f
  {
    UserAdded(f)
  }

  lemma TeamsRemovedPart(km: Keyed, xs: seq<string>)
    requires NoDup(xs) && Elems(xs) == km.teamsOld.Keys - km.teamsNew.Keys
    ensures Part(Map(xs, TeamRemovedOf), km, 0, 0)
  {
    var p := Map(xs, TeamRemovedOf);
    forall j | 0 <= j < |p| ensures NameOf(p[j]) == xs[j] && Rank(p[j]) == 0 && Expected(km, p[j]) {
      assert xs[j] in Elems(xs);
    }
    SinglePart(p, xs, km, 0, Elems(xs));
  }

  lemma TeamsAddedPart(km: Keyed, xs: seq<string>, p: seq<DirectoryChange>)
    requires Consistent(km)
    requires NoDup(xs) && Elems(xs) == km.teamsNew.Keys - km.teamsOld.Keys
    requires |p| == |xs|
    requires forall j :: 0 <= j < |xs| ==> xs[j] in km.teamsNew && p[j] == TeamAdded(km.teamsNew[xs[j]])
    ensures Part(p, km, 1, 1)
  {
    forall j | 0 <= j < |p| ensures NameOf(p[j]) == xs[j] && Rank(p[j]) == 1 && Expected(km, p[j]) {
      assert xs[j] in Elems(xs);
    }
    SinglePart(p, xs, km, 1, Elems(xs));
  }

  lemma UsersRemovedPart(km: Keyed, xs: seq<string>)
    requires NoDup(xs) && Elems(xs) == km.usersOld.Keys - km.usersNew.Keys
    ensures Part(Map(xs, UserRemovedOf), km, 3, 3)
  {
    var p := Map(xs, UserRemovedOf);
    forall j | 0 <= j < |p| ensures NameOf(p[j]) == xs[j] && Rank(p[j]) == 3 && Expected(km, p[j]) {
      assert xs[j] in Elems(xs);
    }
    SinglePart(p, xs, km, 3, Elems(xs));
  }

  lemma UsersAddedPart(km: Keyed, xs: seq<string>)
    requires NoDup(xs) && Elems(xs) == km.usersNew.Keys - km.usersOld.Keys
    ensures Part(Map(xs, UserAddedOf), km, 4, 4)
  {
    var p := Map(xs, UserAddedOf);
    forall j | 0 <= j < |p| ensures NameOf(p[j]) == xs[j] && Rank(p[j]) == 4 && Expected(km, p[j]) {
      assert xs[j] in Elems(xs);
    }
    SinglePart(p, xs, km, 4, Elems(xs));
  }

  lemma TeamChangesPart(km: Keyed, removed: seq<string>, added: seq<string>, p0: seq<DirectoryChange>, p: seq<DirectoryChange>)
    requires Consistent(km)
    requires NoDup(removed) && Elems(removed) == km.teamsOld.Keys - km.teamsNew.Keys
    requires NoDup(added) && Elems(added) == km.teamsNew.Keys - km.teamsOld.Keys
    requires |p0| == |removed|
    requires forall j :: 0 <= j < |removed| ==> p0[j] == TeamRemovedOf(removed[j])
    requires |p| == |p0| + |added|
    requires forall j :: 0 <= j < |p0| ==> p[j] == p0[j]
    requires forall j :: 0 <= j < |added| ==> added[j] in km.teamsNew && p[|p0| + j] == TeamAdded(km.teamsNew[added[j]])
    ensures Part(p, km, 0, 1)
  {
    var r, a := p[..|removed|], p[|removed|..];
    assert r == Map(removed, TeamRemovedOf);
    TeamsRemovedPart(km, removed);
    TeamsAddedPart(km, added, a);
    Join(r, a, km, 0, 0, 1);
    assert p == r + a;
  }

  /** The loop of `diff` pushing `TeamRemoved` for each name in `removed`. */
  method PushTeamsRemoved(removed: seq<string>) returns (r: seq<DirectoryChange>)
    ensures |r| == |removed|
    ensures forall j :: 0 <= j < |removed| ==> r[j] == TeamRemovedOf(removed[j])
  {
    r := [];
    for i := 0 to |removed|
      invariant |r| == i
      invariant forall j :: 0 <= j < i ==> r[j] == TeamRemovedOf(removed[j])
    {
      r := r + [TeamRemoved(removed[i])];
    }
  }

  /** The loop of `diff` pushing `TeamAdded` with the new record of each name in `added`. */
  method PushTeamsAdded(changes: seq<DirectoryChange>, teamsNew: map<string, Team>, added: seq<string>) returns (r: seq<DirectoryChange>)
    requires Elems(added) <= teamsNew.Keys
    ensures |r| == |changes| + |added|
    ensures forall j :: 0 <= j < |changes| ==> r[j] == changes[j]
    ensures forall j :: 0 <= j < |added| ==> added[j] in teamsNew && r[|changes| + j] == TeamAdded(teamsNew[added[j]])
  {
    r := changes;
    for i := 0 to |added|
      invariant |r| == |changes| + i
      invariant forall j :: 0 <= j < |changes| ==> r[j] == changes[j]
      invariant forall j :: 0 <= j < i ==> added[j] in teamsNew && r[|changes| + j] == TeamAdded(teamsNew[added[j]])
    {
      assert added[i] in Elems(added);
      r := r + [TeamAdded(teamsNew[added[i]])];
    }
  }

  /** `TeamRemoved` for names only in the old map, then `TeamAdded` for names only in the new one. */
  method TeamChanges(km: Keyed) returns (changes: seq<DirectoryChange>)
    requires Consistent(km)
    ensures Part(changes, km, 0, 1)
  {
    var teamsOld, teamsNew := km.teamsOld, km.teamsNew;
    var removed := Enumerate(teamsOld.Keys - teamsNew.Keys);
    var removedChanges := PushTeamsRemoved(removed);
    var added := Enumerate(teamsNew.Keys - teamsOld.Keys);
    changes := PushTeamsAdded(removedChanges, teamsNew, added);
    TeamChangesPart(km, removed, added, removedChanges, changes);
  }

  // ------------------------------------------------------ Membership changes

  /** The membership change of kind `kind` (0 to 3, in `Sub` order) for user `u` of team `t`. */
  function MkChange(kind: nat, t: string, u: string): (c: DirectoryChange)
    ensures kind < 4 ==> TeamKey(c) == Some(t) && Sub(c) == kind && UserOf(c) == u
  {
    if kind == 0 then TeamMaintainerRemoved(t, u)
    else if kind == 1 then TeamMemberRemoved(t, u)
    else if kind == 2 then TeamMaintainerAdded(t, u)
    else TeamMemberAdded(t, u)
  }

  /** A membership change is determined by its team, kind and user. */
  lemma MkChangeOf(c: DirectoryChange)
    requires TeamKey(c).Some?
    ensures c == MkChange(Sub(c), TeamKey(c).value, UserOf(c))
  {
  }

  /** The changes of kind `kind` of team `t` for the users `xs`, in order. */
  function KindChanges(kind: nat, t: string, xs: seq<string>): (p: seq<DirectoryChange>)
    ensures |p| == |xs|
    ensures forall j :: 0 <= j < |xs| ==> p[j] == MkChange(kind, t, xs[j])
  {
    if xs == [] then [] else [MkChange(kind, t, xs[0])] + KindChanges(kind, t, xs[1..])
  }

  /** One of the four membership loops of `diff`: a change of kind `kind` per user, in order. */
  method PushKind(block: seq<DirectoryChange>, kind: nat, t: string, xs: seq<string>) returns (r: seq<DirectoryChange>)
    ensures r == block + KindChanges(kind, t, xs)
  {
    r := block;
    for i := 0 to |xs|
      invariant |r| == |block| + i && r[..|block|] == block
      invariant forall j :: 0 <= j < i ==> r[|block| + j] == MkChange(kind, t, xs[j])
    {
      r := r + [MkChange(kind, t, xs[i])];
    }
  }

  /** The users one kind of membership change is about. */
  ghost function Moved(kind: int, ot: Team, nt: Team): set<string> {
    if kind == 0 then Elems(ot.maintainers) - Elems(nt.maintainers)
    else if kind == 1 then Elems(ot.members) - Elems(nt.members)
    else if kind == 2 then Elems(nt.maintainers) - Elems(ot.maintainers)
    else Elems(nt.members) - Elems(ot.members)
  }

  lemma MemberChangeMoved(t: string, ot: Team, nt: Team, c: DirectoryChange)
    ensures MemberChange(t, ot, nt, c) <==> TeamKey(c) == Some(t) && UserOf(c) in Moved(Sub(c), ot, nt)
  {
  }

  /** Membership changes of team `t`, each of a kind below `kind`, in kind order. */
  ghost predicate BlockSoFar(p: seq<DirectoryChange>, t: string, kind: int) {
    && NoDup(p)
    && AllKey(p, TeamKey, t)
    && SortedBy(p, Sub)
    && (forall i :: 0 <= i < |p| ==> Sub(p[i]) < kind)
  }

  lemma KindShape(xs: seq<string>, t: string, kind: nat)
    requires kind < 4 && NoDup(xs)
    ensures BlockSoFar(KindChanges(kind, t, xs), t, kind + 1)
    ensures forall i :: 0 <= i < |xs| ==> Sub(KindChanges(kind, t, xs)[i]) == kind
  {
    var p := KindChanges(kind, t, xs);
    forall i, j | 0 <= i < j < |p| ensures p[i] != p[j] {
      assert UserOf(p[i]) == xs[i] && UserOf(p[j]) == xs[j];
    }
  }

  lemma KindElems(xs: seq<string>, t: string, kind: nat, users: set<string>)
    requires kind < 4 && Elems(xs) == users
    ensures forall c :: c in KindChanges(kind, t, xs) <==> TeamKey(c) == Some(t) && Sub(c) == kind && UserOf(c) in users
  {
    var p := KindChanges(kind, t, xs);
    forall c | TeamKey(c) == Some(t) && Sub(c) == kind && UserOf(c) in users ensures c in p {
      MkChangeOf(c);
      var j :| 0 <= j < |xs| && xs[j] == UserOf(c);
      assert p[j] == c;
    }
    forall c | c in p ensures TeamKey(c) == Some(t) && Sub(c) == kind && UserOf(c) in users {
      var j :| 0 <= j < |p| && p[j] == c;
      assert xs[j] in Elems(xs);
    }
  }

  lemma AddKind(acc: seq<DirectoryChange>, p: seq<DirectoryChange>, t: string, kind: nat)
    requires BlockSoFar(acc, t, kind) && BlockSoFar(p, t, kind + 1)
    requires forall i :: 0 <= i < |p| ==> Sub(p[i]) == kind
    ensures BlockSoFar(acc + p, t, kind + 1)
  {
    forall i, j | 0 <= i < |acc| && 0 <= j < |p| ensures acc[i] != p[j] && Sub(acc[i]) <= Sub(p[j]) {
      assert Sub(acc[i]) < kind;
    }
    NoDupConcat(acc, p);
    SortedConcat(acc, p, Sub);
    var b := acc + p;
    forall i | 0 <= i < |b| ensures TeamKey(b[i]) == Some(t) && Sub(b[i]) <= kind {
      if i < |acc| { assert b[i] == acc[i]; } else { assert b[i] == p[i - |acc|]; }
    }
  }

  /** The membership changes of team `t` for the four lists of users, kind by kind. */
  ghost function Block(t: string, xs0: seq<string>, xs1: seq<string>, xs2: seq<string>, xs3: seq<string>): seq<DirectoryChange> {
    KindChanges(0, t, xs0) + KindChanges(1, t, xs1) + KindChanges(2, t, xs2) + KindChanges(3, t, xs3)
  }

  lemma BlockShape(t: string, xs0: seq<string>, xs1: seq<string>, xs2: seq<string>, xs3: seq<string>)
    requires NoDup(xs0) && NoDup(xs1) && NoDup(xs2) && NoDup(xs3)
    ensures BlockSoFar(Block(t, xs0, xs1, xs2, xs3), t, 4)
  {
    var p0, p1, p2, p3 := KindChanges(0, t, xs0), KindChanges(1, t, xs1), KindChanges(2, t, xs2), KindChanges(3, t, xs3);
    KindShape(xs0, t, 0);
    KindShape(xs1, t, 1);
    KindShape(xs2, t, 2);
    KindShape(xs3, t, 3);
    AddKind(p0, p1, t, 1);
    AddKind(p0 + p1, p2, t, 2);
    AddKind(p0 + p1 + p2, p3, t, 3);
  }

  lemma BlockElems(t: string, ot: Team, nt: Team, xs0: seq<string>, xs1: seq<string>, xs2: seq<string>, xs3: seq<string>)
    requires Elems(xs0) == Moved(0, ot, nt) && Elems(xs1) == Moved(1, ot, nt)
    requires Elems(xs2) == Moved(2, ot, nt) && Elems(xs3) == Moved(3, ot, nt)
    ensures forall c :: c in Block(t, xs0, xs1, xs2, xs3) <==> MemberChange(t, ot, nt, c)
  {
    var p0, p1, p2, p3 := KindChanges(0, t, xs0), KindChanges(1, t, xs1), KindChanges(2, t, xs2), KindChanges(3, t, xs3);
    KindElems(xs0, t, 0, Moved(0, ot, nt));
    KindElems(xs1, t, 1, Moved(1, ot, nt));
    KindElems(xs2, t, 2, Moved(2, ot, nt));
    KindElems(xs3, t, 3, Moved(3, ot, nt));
    forall c ensures c in p0 + p1 + p2 + p3 <==> MemberChange(t, ot, nt, c) {
      MemberChangeMoved(t, ot, nt, c);
    }
  }

  /** The membership changes of team `t`, present in both directories, in the order `diff` pushes them. */
  method MembershipBlock(t: string, ot: Team, nt: Team) returns (block: seq<DirectoryChange>)
    ensures NoDup(block) && AllKey(block, TeamKey, t) && SortedBy(block, Sub)
    ensures forall c :: c in block <==> MemberChange(t, ot, nt, c)
  {
    var maintainersOld, maintainersNew := Elems(ot.maintainers), Elems(nt.maintainers);
    var membersOld, membersNew := Elems(ot.members), Elems(nt.members);
    var xs0 := Enumerate(maintainersOld - maintainersNew);
    block := PushKind([], 0, t, xs0);
    var xs1 := Enumerate(membersOld - membersNew);
    block := PushKind(block, 1, t, xs1);
    var xs2 := Enumerate(maintainersNew - maintainersOld);
    block := PushKind(block, 2, t, xs2);
    var xs3 := Enumerate(membersNew - membersOld);
    block := PushKind(block, 3, t, xs3);
    assert [] + KindChanges(0, t, xs0) == KindChanges(0, t, xs0);
    assert block == Block(t, xs0, xs1, xs2, xs3);
    BlockShape(t, xs0, xs1, xs2, xs3);
    BlockElems(t, ot, nt, xs0, xs1, xs2, xs3);
  }

  /** The membership changes collected for the team names `done`. */
  ghost predicate MembershipSoFar(m: seq<DirectoryChange>, km: Keyed, done: seq<string>) {
    && NoDup(m)
    && AllRank(m, Rank, 2)
    && Grouped(m, TeamKey)
    && SortedWithin(m, TeamKey, Sub)
    && (forall j :: 0 <= j < |m| ==> TeamKey(m[j]).Some? && TeamKey(m[j]).value in done)
    && (forall c :: c in m <==> Rank(c) == 2 && Expected(km, c) && TeamKey(c).value in done)
  }

  lemma MembershipStepShape(m: seq<DirectoryChange>, block: seq<DirectoryChange>, done: seq<string>, t: string)
    requires t !in done
    requires NoDup(m) && AllRank(m, Rank, 2) && Grouped(m, TeamKey) && SortedWithin(m, TeamKey, Sub)
    requires forall j :: 0 <= j < |m| ==> TeamKey(m[j]).Some? && TeamKey(m[j]).value in done
    requires NoDup(block) && AllKey(block, TeamKey, t) && SortedBy(block, Sub)
    ensures NoDup(m + block) && AllRank(m + block, Rank, 2) && Grouped(m + block, TeamKey) && SortedWithin(m + block, TeamKey, Sub)
    ensures forall j :: 0 <= j < |m + block| ==> TeamKey((m + block)[j]).Some? && TeamKey((m + block)[j]).value in done + [t]
  {
    forall i, j | 0 <= i < |m| && 0 <= j < |block| ensures m[i] != block[j] && TeamKey(m[i]) != TeamKey(block[j]) {
      assert TeamKey(m[i]).value in done;
    }
    NoDupConcat(m, block);
    GroupedConcat(m, block, TeamKey);
    assert SortedWithin(block, TeamKey, Sub);
    SortedWithinConcat(m, block, TeamKey, Sub);
    var mb := m + block;
    forall j | 0 <= j < |mb| ensures TeamKey(mb[j]).Some? && TeamKey(mb[j]).value in done + [t] && Rank(mb[j]) == 2 {
      if j < |m| { assert mb[j] == m[j]; } else { assert mb[j] == block[j - |m|]; }
    }
  }

  lemma MembershipStep(m: seq<DirectoryChange>, block: seq<DirectoryChange>, km: Keyed, keys: seq<string>, i: nat)
    requires NoDup(keys) && i < |keys|
    requires MembershipSoFar(m, km, keys[..i])
    requires keys[i] in km.teamsOld && keys[i] in km.teamsNew
    requires NoDup(block) && AllKey(block, TeamKey, keys[i]) && SortedBy(block, Sub)
    requires forall c :: c in block <==> MemberChange(keys[i], km.teamsOld[keys[i]], km.teamsNew[keys[i]], c)
    ensures MembershipSoFar(m + block, km, keys[..i + 1])
  {
    var t := keys[i];
    assert keys[..i + 1] == keys[..i] + [t];
    assert t !in keys[..i] by {
      forall j | 0 <= j < i ensures keys[..i][j] != t { assert keys[j] != keys[i]; }
    }
    MembershipStepShape(m, block, keys[..i], t);
  }

  /** The membership changes of every team present in both maps, team by team. */
  method MembershipChanges(km: Keyed) returns (m: seq<DirectoryChange>)
    ensures Part(m, km, 2, 2)
  {
    var teamsOld, teamsNew := km.teamsOld, km.teamsNew;
    var keys := Enumerate(teamsNew.Keys);
    m := [];
    for i := 0 to |keys|
      invariant MembershipSoFar(m, km, keys[..i])
    {
      var t := keys[i];
      assert keys[..i + 1] == keys[..i] + [t];
      assert t in Elems(keys);
      if t !in teamsOld {
        // a new team: `TeamAdded` carries all of it
        continue;
      }
      var block := MembershipBlock(t, teamsOld[t], teamsNew[t]);
      MembershipStep(m, block, km, keys, i);
      m := m + block;
    }
    assert keys[..|keys|] == keys;
    forall c | Rank(c) == 2 && Expected(km, c) ensures c in m {
      assert TeamKey(c).value in Elems(keys);
    }
  }

  // ------------------------------------------------------------ User changes

  lemma UsersRemovedAddedPart(km: Keyed, removed: seq<string>, added: seq<string>)
    requires NoDup(removed) && Elems(removed) == km.usersOld.Keys - km.usersNew.Keys
    requires NoDup(added) && Elems(added) == km.usersNew.Keys - km.usersOld.Keys
    ensures Part(Map(removed, UserRemovedOf) + Map(added, UserAddedOf), km, 3, 4)
  {
    UsersRemovedPart(km, removed);
    UsersAddedPart(km, added);
    Join(Map(removed, UserRemovedOf), Map(added, UserAddedOf), km, 3, 3, 4);
  }

  /** `UserRemoved` for full names only in the old map, then `UserAdded` for those only in the new one. */
  method UsersRemovedAdded(km: Keyed) returns (changes: seq<DirectoryChange>, usersAdded: seq<string>)
    ensures Part(changes, km, 3, 4)
    ensures Elems(usersAdded) == km.usersNew.Keys - km.usersOld.Keys
  {
    var removed := Enumerate(km.usersOld.Keys - km.usersNew.Keys);
    changes := PushEach([], removed, UserRemovedOf);
    var added := Enumerate(km.usersNew.Keys - km.usersOld.Keys);
    changes := PushEach(changes, added, UserAddedOf);
    usersAdded := added;
    assert [] + Map(removed, UserRemovedOf) == Map(removed, UserRemovedOf);
    UsersRemovedAddedPart(km, removed, added);
  }

  function UserUpdatedOf(f: string): (c: DirectoryChange)
    ensures Rank(c) == 5 && NameOf(c) == f
  {
    UserUpdated(f)
  }

  /** The full names in both maps whose records differ. */
  ghost function UpdatedUsers(km: Keyed): set<string> {
    set x | x in km.usersOld && x in km.usersNew && km.usersOld[x] != km.usersNew[x]
  }

  lemma UsersUpdatedPart(km: Keyed, xs: seq<string>)
    requires NoDup(xs) && Elems(xs) == UpdatedUsers(km)
    ensures Part(Map(xs, UserUpdatedOf), km, 5, 5)
  {
    var p := Map(xs, UserUpdatedOf);
    forall j | 0 <= j < |p| ensures NameOf(p[j]) == xs[j] && Rank(p[j]) == 5 && Expected(km, p[j]) {
      assert xs[j] in Elems(xs);
    }
    SinglePart(p, xs, km, 5, Elems(xs));
  }

  /** A name of the new map is updated iff it is not an added one and its two records differ. */
  lemma UpdatedUser(km: Keyed, usersAdded: seq<string>, x: string)
    requires Elems(usersAdded) == km.usersNew.Keys - km.usersOld.Keys && x in km.usersNew
    ensures x in usersAdded <==> x !in km.usersOld
    ensures x !in usersAdded ==> (x in UpdatedUsers(km) <==> km.usersNew[x] != km.usersOld[x])
  {
    assert x in usersAdded <==> x in Elems(usersAdded);
  }

  lemma IntersectStep<T>(before: set<T>, x: T, s: set<T>)
    ensures (before + {x}) * s == (before * s) + (if x in s then {x} else {})
  {
  }

  /** `UserUpdated` for every full name in both maps whose records differ; names in `usersAdded` are skipped. */
  method UsersUpdated(km: Keyed, usersAdded: seq<string>) returns (changes: seq<DirectoryChange>)
    requires Elems(usersAdded) == km.usersNew.Keys - km.usersOld.Keys
    ensures Part(changes, km, 5, 5)
  {
    var usersOld, usersNew := km.usersOld, km.usersNew;
    var keys := Enumerate(usersNew.Keys);
    changes := [];
    ghost var names: seq<string> := [];
    ghost var seen: set<string> := {};
    for i := 0 to |keys|
      invariant changes == Map(names, UserUpdatedOf)
      invariant seen == Elems(keys[..i])
      invariant NoDup(names) && Elems(names) == seen * UpdatedUsers(km)
    {
      var fullName := keys[i];
      NextUnseen(keys, i);
      UpdatedUser(km, usersAdded, fullName);
      ghost var before := seen;
      seen := seen + {fullName};
      if fullName in usersAdded {
        continue;
      }
      var userNew := usersNew[fullName];
      var userOld := usersOld[fullName];
      if userNew != userOld {
        changes := changes + [UserUpdated(fullName)];
        MapAppend(names, fullName, UserUpdatedOf);
        AppendFresh(names, fullName);
        names := names + [fullName];
      }
      assert Elems(names) == seen * UpdatedUsers(km) by {
        IntersectStep(before, fullName, UpdatedUsers(km));
      }
    }
    assert keys[..|keys|] == keys;
    UsersUpdatedPart(km, names);
  }

  // -------------------------------------------------------------------- Diff

  /** `Directory::diff`: the changes that turn `o` into `n`. */
  method Diff(o: Directory, n: Directory) returns (changes: seq<DirectoryChange>, ghost split: nat)
    ensures IsDiff(o, n, changes)
    ensures split <= |changes| && Part(changes[..split], KeyedOf(o, n), 0, 2)
    ensures forall i :: 0 <= i < |changes| ==> (i < split <==> Rank(changes[i]) <= 2)
  {
    var km := KeyedOf(o, n);
    var teams := TeamChanges(km);
    var membership := MembershipChanges(km);
    Join(teams, membership, km, 0, 1, 2);
    var removedAdded, usersAdded := UsersRemovedAdded(km);
    var updated := UsersUpdated(km, usersAdded);
    Join(removedAdded, updated, km, 3, 4, 5);
    var head, tail := teams + membership, removedAdded + updated;
    Join(head, tail, km, 0, 2, 5);
    changes := head + tail;
    split := |head|;
    SplitAt(head, tail, km);
  }

  /** The team changes of a diff come first, the user changes after them. */
  lemma SplitAt(head: seq<DirectoryChange>, tail: seq<DirectoryChange>, km: Keyed)
    requires Part(head, km, 0, 2) && Part(tail, km, 3, 5)
    ensures (head + tail)[..|head|] == head
    ensures forall i :: 0 <= i < |head + tail| ==> (i < |head| <==> Rank((head + tail)[i]) <= 2)
  {
    var c := head + tail;
    forall i | 0 <= i < |c| ensures i < |head| <==> Rank(c[i]) <= 2 {
      if i < |head| { assert c[i] == head[i]; } else { assert c[i] == tail[i - |head|]; }
    }
  }

  // --------------------------------------------------------- Diff properties

  /** A directory diffed against itself has no changes. */
  lemma SelfDiffEmpty(d: Directory, changes: seq<DirectoryChange>)
    requires IsDiff(d, d, changes)
    ensures changes == []
  {
    forall c ensures !Expected(KeyedOf(d, d), c) {
    }
    NoMemberEmpty(changes);
  }

  /** Two results of `diff` on the same directories hold the same changes; only the order inside a category can differ. */
  lemma DiffUniqueUpToOrder(o: Directory, n: Directory, a: seq<DirectoryChange>, b: seq<DirectoryChange>)
    requires IsDiff(o, n, a) && IsDiff(o, n, b)
    ensures multiset(a) == multiset(b)
  {
    forall c ensures multiset(a)[c] == multiset(b)[c] {
      NoDupCount(a, c);
      NoDupCount(b, c);
    }
  }

  /**
   * A team name only in the new directory gets exactly one `TeamAdded`,
   * carrying the team's (last) record, and no membership change.
   */
  lemma TeamAddedOnce(o: Directory, n: Directory, changes: seq<DirectoryChange>, t: string)
    requires IsDiff(o, n, changes)
    requires t in TeamMap(n) && t !in TeamMap(o)
    ensures multiset(changes)[TeamAdded(TeamMap(n)[t])] == 1
    ensures forall team :: TeamAdded(team) in changes && team.name == t ==> team == TeamMap(n)[t]
    ensures forall c :: c in changes ==> TeamKey(c) != Some(t) && c != TeamRemoved(t)
  {
    var km := KeyedOf(o, n);
    assert Expected(km, TeamAdded(km.teamsNew[t]));
    NoDupCount(changes, TeamAdded(TeamMap(n)[t]));
    forall c | c in changes ensures TeamKey(c) != Some(t) && c != TeamRemoved(t) {
      assert Expected(km, c);
    }
  }

  /** A team name only in the old directory gets `TeamRemoved` once and nothing else about it. */
  lemma TeamRemovedOnly(o: Directory, n: Directory, changes: seq<DirectoryChange>, t: string)
    requires IsDiff(o, n, changes)
    requires t in TeamMap(o) && t !in TeamMap(n)
    ensures multiset(changes)[TeamRemoved(t)] == 1
    ensures forall c :: c in changes && Rank(c) <= 2 && NameOf(c) == t ==> c == TeamRemoved(t)
  {
    var km := KeyedOf(o, n);
    assert Expected(km, TeamRemoved(t));
    NoDupCount(changes, TeamRemoved(t));
    forall c | c in changes && Rank(c) <= 2 && NameOf(c) == t ensures c == TeamRemoved(t) {
      assert Expected(km, c);
    }
  }

  /**
   * For a team in both directories, maintainer changes are the set
   * differences of the maintainer lists and member changes those of the
   * member lists, each computed on its own.
   */
  lemma CommonTeamMembership(o: Directory, n: Directory, changes: seq<DirectoryChange>, t: string, u: string)
    requires IsDiff(o, n, changes)
    requires t in TeamMap(o) && t in TeamMap(n)
    ensures var ot, nt := TeamMap(o)[t], TeamMap(n)[t];
      && (TeamMaintainerRemoved(t, u) in changes <==> u in ot.maintainers && u !in nt.maintainers)
      && (TeamMemberRemoved(t, u) in changes <==> u in ot.members && u !in nt.members)
      && (TeamMaintainerAdded(t, u) in changes <==> u in nt.maintainers && u !in ot.maintainers)
      && (TeamMemberAdded(t, u) in changes <==> u in nt.members && u !in ot.members)
  {
    var km := KeyedOf(o, n);
    assert Expected(km, TeamMaintainerRemoved(t, u)) <==> TeamMaintainerRemoved(t, u) in changes;
    assert Expected(km, TeamMemberRemoved(t, u)) <==> TeamMemberRemoved(t, u) in changes;
    assert Expected(km, TeamMaintainerAdded(t, u)) <==> TeamMaintainerAdded(t, u) in changes;
    assert Expected(km, TeamMemberAdded(t, u)) <==> TeamMemberAdded(t, u) in changes;
    MaintainershipIff(km, t, u);
    MembershipIff(km, t, u);
  }

  /** The maintainer changes a diff expects for a team in both directories, in terms of its two records. */
  lemma MaintainershipIff(km: Keyed, t: string, u: string)
    requires t in km.teamsOld && t in km.teamsNew
    ensures var ot, nt := km.teamsOld[t], km.teamsNew[t];
      && (Expected(km, TeamMaintainerRemoved(t, u)) <==> u in ot.maintainers && u !in nt.maintainers)
      && (Expected(km, TeamMaintainerAdded(t, u)) <==> u in nt.maintainers && u !in ot.maintainers)
  {
  }

  /** The member changes a diff expects for a team in both directories, in terms of its two records. */
  lemma MembershipIff(km: Keyed, t: string, u: string)
    requires t in km.teamsOld && t in km.teamsNew
    ensures var ot, nt := km.teamsOld[t], km.teamsNew[t];
      && (Expected(km, TeamMemberRemoved(t, u)) <==> u in ot.members && u !in nt.members)
      && (Expected(km, TeamMemberAdded(t, u)) <==> u in nt.members && u !in ot.members)
  {
  }

  /** `UserUpdated` only for a full name in both directories whose records differ, so never for an added user. */
  lemma UserUpdatedOnlyChanged(o: Directory, n: Directory, changes: seq<DirectoryChange>, f: string)
    requires IsDiff(o, n, changes)
    ensures UserUpdated(f) in changes <==> f in UserMap(o) && f in UserMap(n) && UserMap(o)[f] != UserMap(n)[f]
    ensures UserAdded(f) in changes ==> UserUpdated(f) !in changes
  {
    var km := KeyedOf(o, n);
    var updated, added := UserUpdated(f) in changes, UserAdded(f) in changes;
    assert updated == Expected(km, UserUpdated(f));
    assert added == Expected(km, UserAdded(f));
    UpdatedIff(km, f);
    AddedNotUpdated(km, f);
  }

  /** The `UserUpdated` a diff expects, in terms of the two user maps. */
  lemma UpdatedIff(km: Keyed, f: string)
    ensures Expected(km, UserUpdated(f)) <==> f in km.usersOld && f in km.usersNew && km.usersOld[f] != km.usersNew[f]
  {
  }

  /** A full name only in the new map is not one whose record changed. */
  lemma AddedNotUpdated(km: Keyed, f: string)
    ensures Expected(km, UserAdded(f)) ==> !Expected(km, UserUpdated(f))
  {
  }

  // ----------------------------------------------------------------- Lookups

  /** `get_team`: the first team with that name. */
  function GetTeam(d: Directory, teamName: string): (r: Option<Team>)
    ensures r.None? <==> forall i :: 0 <= i < |d.teams| ==> d.teams[i].name != teamName
    ensures r.Some? ==> exists i :: 0 <= i < |d.teams| && d.teams[i] == r.value && r.value.name == teamName
                               && (forall j :: 0 <= j < i ==> d.teams[j].name != teamName)
  {
    Find(d.teams, (t: Team) => t.name == teamName)
  }

  /** `get_user`: the first user whose user name is set and equal to `userName`; users without one never match. */
  function GetUser(d: Directory, userName: string): (r: Option<User>)
    ensures r.None? <==> forall i :: 0 <= i < |d.users| ==> d.users[i].userName != Some(userName)
    ensures r.Some? ==> exists i :: 0 <= i < |d.users| && d.users[i] == r.value && r.value.userName == Some(userName)
                               && (forall j :: 0 <= j < i ==> d.users[j].userName != Some(userName))
  {
    Find(d.users, (u: User) => u.userName.Some? && u.userName.value == userName)
  }

  // ------------------------------------------------------- Legacy conversion

  const GithubUrlPrefix := "https://github.com/"
  const ImagesPrefix := "https://github.com/cncf/people/raw/main/images/"

  /**
   * The pattern `^https://github.com/(?P<handle>[^/]+)/?$` matches `url`
   * with capture `handle`. The dot before "com" is the regex wildcard: any
   * character but a newline.
   */
  ghost predicate GithubUrlMatch(url: string, handle: string) {
    && |url| >= 19
    && url[..14] == GithubUrlPrefix[..14] && url[14] != '\n' && url[15..19] == GithubUrlPrefix[15..]
    && handle != "" && (forall k :: 0 <= k < |handle| ==> handle[k] != '/')
    && (url[19..] == handle || url[19..] == handle + "/")
  }

  /** The GitHub handle captured from a profile URL, if the URL has that form. */
  function GithubHandle(url: string): (h: Option<string>)
    ensures h.Some? ==> GithubUrlMatch(url, h.value)
    ensures forall handle :: GithubUrlMatch(url, handle) ==> h == Some(handle)
  {
    if |url| < 19 || url[..14] != GithubUrlPrefix[..14] || url[14] == '\n' || url[15..19] != GithubUrlPrefix[15..] then None
    else
      var rest := url[19..];
      var handle := if |rest| > 0 && rest[|rest| - 1] == '/' then rest[..|rest| - 1] else rest;
      if handle != "" && forall k :: 0 <= k < |handle| ==> handle[k] != '/' then Some(handle) else None
  }

  /** A plain profile URL, with or without the trailing slash, yields its handle. */
  lemma GithubHandleOfProfile(handle: string)
    requires handle != "" && forall k :: 0 <= k < |handle| ==> handle[k] != '/'
    ensures GithubHandle(GithubUrlPrefix + handle) == Some(handle)
    ensures GithubHandle(GithubUrlPrefix + handle + "/") == Some(handle)
  {
    var u1, u2 := GithubUrlPrefix + handle, GithubUrlPrefix + handle + "/";
    assert u1[..14] == GithubUrlPrefix[..14] && u1[15..19] == GithubUrlPrefix[15..] && u1[19..] == handle;
    assert u2[..14] == GithubUrlPrefix[..14] && u2[15..19] == GithubUrlPrefix[15..] && u2[19..] == handle + "/";
    assert GithubUrlMatch(u1, handle);
    assert GithubUrlMatch(u2, handle);
  }

  /** An image given as a file name is looked up in the cncf/people images; an https URL is kept. */
  function ImageUrl(image: Option<string>): (r: Option<string>)
    ensures image.None? <==> r.None?
    ensures image.Some? && StartsWith(image.value, "https://") ==> r == image
    ensures image.Some? && !StartsWith(image.value, "https://") ==> r == Some(ImagesPrefix + image.value)
  {
    match image
    case None => None
    case Some(v) => if StartsWith(v, "https://") then Some(v) else Some(ImagesPrefix + v)
  }

  /** The directory user for a CNCF person. */
  function UserFrom(u: CncfUser): (r: User)
    ensures r.fullName == u.name && r.githubUrl == u.github && r.imageUrl == ImageUrl(u.image)
    ensures r.userName.Some? <==> u.github.Some? && GithubHandle(u.github.value).Some?
    ensures r.userName.Some? ==> GithubUrlMatch(u.github.value, r.userName.value)
    ensures r.annotations == map[]
  {
    User(
      fullName := u.name,
      userName := if u.github.Some? then GithubHandle(u.github.value) else None,
      email := u.email,
      imageUrl := ImageUrl(u.image),
      bio := u.bio,
      website := u.website,
      company := u.company,
      pronouns := u.pronouns,
      location := u.location,
      slackId := u.slackId,
      linkedinUrl := u.linkedin,
      twitterUrl := u.twitter,
      githubUrl := u.github,
      wechatUrl := u.wechat,
      youtubeUrl := u.youtube,
      languages := u.languages,
      annotations := map[])
  }

  /** `Team::from`: missing maintainers or members become empty lists; no display name, no annotations. */
  function TeamFrom(t: SheriffTeam): (r: Team)
    ensures r.name == t.name && r.displayName.None? && r.annotations == map[]
    ensures t.maintainers.None? ==> r.maintainers == []
    ensures t.maintainers.Some? ==> r.maintainers == t.maintainers.value
    ensures t.members.None? ==> r.members == []
    ensures t.members.Some? ==> r.members == t.members.value
  {
    Team(t.name, None, t.maintainers.UnwrapOr([]), t.members.UnwrapOr([]), map[])
  }

  /** `From<legacy::Cfg>`: a team per Sheriff team, a user per CNCF person, no users without a people file. */
  function FromLegacy(cfg: LegacyCfg): (d: Directory)
    ensures |d.teams| == |cfg.sheriff| && forall i :: 0 <= i < |cfg.sheriff| ==> d.teams[i] == TeamFrom(cfg.sheriff[i])
    ensures cfg.cncf.None? ==> d.users == []
    ensures cfg.cncf.Some? ==> |d.users| == |cfg.cncf.value| && forall i :: 0 <= i < |cfg.cncf.value| ==> d.users[i] == UserFrom(cfg.cncf.value[i])
  {
    Directory(Map(cfg.sheriff, TeamFrom), if cfg.cncf.Some? then Map(cfg.cncf.value, UserFrom) else [])
  }

  // ---------------------------------------------------------------- Loading

  const OnlyLegacyText := "only configuration in legacy format supported at the moment"

  /** What `new_from_config` yields. */
  ghost function DirectoryFromConfig(gh: Gh, parsers: Parsers, legacy: Legacy, src: Source): Result<Directory, Error> {
    if !legacy.enabled then Err(Message(OnlyLegacyText))
    else
      var s := SheriffSpec(gh, parsers, src, legacy.sheriffPermissionsPath);
      var c := CncfSpec(gh, parsers, src, legacy.cncfPeoplePath);
      if s.Ok? && c.Ok? then Ok(FromLegacy(LegacyCfg(s.value, c.value)))
      else Err(Context(DirectoryConfigInvalid, Multi(Some(DirectoryConfigInvalid), LoadErrors(s, c))))
  }

  /** `Directory::new_from_config`: only the legacy format is supported. */
  method NewFromConfig(gh: Gh, parsers: Parsers, legacy: Legacy, src: Source) returns (r: Result<Directory, Error>)
    ensures r == DirectoryFromConfig(gh, parsers, legacy, src)
    ensures !legacy.enabled ==> r == Err(Message(OnlyLegacyText))
    ensures legacy.enabled ==> (r.Ok? <==>
      SheriffSpec(gh, parsers, src, legacy.sheriffPermissionsPath).Ok? && CncfSpec(gh, parsers, src, legacy.cncfPeoplePath).Ok?)
    ensures legacy.enabled && r.Err? ==> r.error.Context? && r.error.ctx == DirectoryConfigInvalid
  {
    if legacy.enabled {
      var cfg := Get(gh, parsers, legacy, src);
      if cfg.Err? {
        return Err(Context(DirectoryConfigInvalid, cfg.error));
      }
      return Ok(FromLegacy(cfg.value));
    }
    return Err(Message(OnlyLegacyText));
  }

  /** The summary of a head that loads: nothing and `Invalid` when the base does not load, the diff and `Valid` otherwise. */
  ghost predicate SummaryOf(base: Result<Directory, Error>, head: Directory, s: ChangesSummary<DirectoryChange>) {
    if base.Err? then s == ChangesSummary([], Invalid)
    else s.baseRefConfigStatus == Valid && IsDiff(base.value, head, s.changes)
  }

  /**
   * `Directory::get_changes_summary`: a head configuration that does not
   * load is an error; a base configuration that does not load gives no
   * changes and status `Invalid`; otherwise the diff from base to head and
   * status `Valid`.
   */
  method GetChangesSummary(gh: Gh, parsers: Parsers, org: Organization, headSrc: Source)
    returns (r: Result<ChangesSummary<DirectoryChange>, Error>)
    ensures var head := DirectoryFromConfig(gh, parsers, org.legacy, headSrc);
      var base := DirectoryFromConfig(gh, parsers, org.legacy, SourceFrom(org));
      && (r.Err? <==> head.Err?)
      && (r.Err? ==> r.error == head.error)
      && (r.Ok? ==> SummaryOf(base, head.value, r.value))
  {
    var baseSrc := SourceFrom(org);
    var head := NewFromConfig(gh, parsers, org.legacy, headSrc);
    if head.Err? {
      return Err(head.error);
    }
    var base := NewFromConfig(gh, parsers, org.legacy, baseSrc);
    if base.Ok? {
      var changes, _ := Diff(base.value, head.value);
      return Ok(ChangesSummary(changes, Valid));
    }
    return Ok(ChangesSummary([], Invalid));
  }
}
