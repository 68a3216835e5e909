/**
 * The first generation's repository permissions and their diff, shared by
 * the GitHub service state (src/services/github/state.rs) and the GitHub
 * plugin configuration (src/plugins/github/cfg.rs), which declare the same
 * records and run the same algorithm. Unlike clowarden-core, removed
 * repositories are reported, additions come before removals, and an unset
 * visibility defaults to private.
 *
 * As written, the role-update loops read both roles from the new record,
 * so no role update is ever reported. `RepositoriesChanges` models that
 * code; `RepositoriesChangesFixed` reads the old role from the old record
 * and skips names that are new, as clowarden-core later does, and reports
 * every role change.
 */
module OldRepositories {
  import opened Common
  import opened Collections
  import CGS = CoreGithubState

  // ---------------------------------------------------------------- Entities

  /** The roles are the five of clowarden-core, default `Read`, with the same lowercase names. */
  type Role = CGS.Role

  /** Visibility: only private and public, private by default. */
  datatype Visibility = Private | Public

  const DefaultVisibility := Private

  function VisibilityText(v: Visibility): (s: string)
    ensures v == Private <==> s == "private"
  {
    match v
    case Private => "private"
    case Public => "public"
  }

  /** Reading the lowercase name back. */
  function ParseVisibility(s: string): (v: Option<Visibility>)
    ensures v.Some? <==> s == "private" || s == "public"
  {
    if s == "private" then Some(Private) else if s == "public" then Some(Public) else None
  }

  lemma VisibilityTextRoundTrip(v: Visibility)
    ensures ParseVisibility(VisibilityText(v)) == Some(v)
  {
  }

  datatype Repository = Repository(
    name: string,
    collaborators: Option<map<string, Role>>,
    teams: Option<map<string, Role>>,
    visibility: Option<Visibility>)

  datatype RepositoryChange =
    | Added(repo: Repository)
    | Removed(name: string)
    | TeamAdded(repoName: string, teamName: string, role: Role)
    | TeamRemoved(repoName: string, teamName: string)
    | TeamRoleUpdated(repoName: string, teamName: string, role: Role)
    | CollaboratorAdded(repoName: string, userName: string, role: Role)
    | CollaboratorRemoved(repoName: string, userName: string)
    | CollaboratorRoleUpdated(repoName: string, userName: string, role: Role)
    | VisibilityUpdated(repoName: string, visibility: Visibility)

  function RepoNameOf(r: Repository): string { r.name }

  /** `repos.iter().map(|r| (&r.name, r)).collect()`: a repeated name keeps its last entry. */
  function RepoMap(rs: seq<Repository>): (m: map<string, Repository>)
    ensures m.Keys == set r | r in rs :: r.name
    ensures forall k :: k in m ==> m[k].name == k && m[k] in rs
  {
    LastWins(rs, RepoNameOf)
  }

  /** The teams of a repository; `None` counts as none. */
  function TeamsOf(r: Repository): map<string, Role> {
    r.teams.UnwrapOr(map[])
  }

  /** The external collaborators of a repository; `None` counts as none. */
  function CollaboratorsOf(r: Repository): map<string, Role> {
    r.collaborators.UnwrapOr(map[])
  }

  // --------------------------------------------------- What a diff holds

  datatype RepoMaps = RepoMaps(reposOld: map<string, Repository>, reposNew: map<string, Repository>)

  function RepoMapsOf(o: seq<Repository>, n: seq<Repository>): (rm: RepoMaps)
    ensures rm.reposOld == RepoMap(o) && rm.reposNew == RepoMap(n)
  {
    RepoMaps(RepoMap(o), RepoMap(n))
  }

  /** Each entry sits under its own name, as `RepoMap` builds them. */
  ghost predicate Consistent(rm: RepoMaps) {
    forall x :: x in rm.reposNew ==> rm.reposNew[x].name == x
  }

  /**
   * A change of a repository in both lists, between its old record `ro` and
   * its new record `rn`. Role updates are reported only when `compareOld`
   * holds, that is, when the old role is read from the old record.
   */
  ghost predicate RepoChange(ro: Repository, rn: Repository, compareOld: bool, c: RepositoryChange) {
    var to, tn, co, cn := TeamsOf(ro), TeamsOf(rn), CollaboratorsOf(ro), CollaboratorsOf(rn);
    match c
    case TeamAdded(_, t, role) => t in tn && t !in to && role == tn[t]
    case TeamRemoved(_, t) => t in to && t !in tn
    case TeamRoleUpdated(_, t, role) => compareOld && t in to && t in tn && to[t] != tn[t] && role == tn[t]
    case CollaboratorAdded(_, u, role) => u in cn && u !in co && role == cn[u]
    case CollaboratorRemoved(_, u) => u in co && u !in cn
    case CollaboratorRoleUpdated(_, u, role) => compareOld && u in co && u in cn && co[u] != cn[u] && role == cn[u]
    case VisibilityUpdated(_, v) => ro.visibility != rn.visibility && v == rn.visibility.UnwrapOr(DefaultVisibility)
    case _ => false
  }

  /** The changes a diff over these maps reports, and no others. */
  ghost predicate Expected(rm: RepoMaps, compareOld: bool, c: RepositoryChange) {
    match c
    case Added(repo) => repo.name in rm.reposNew && repo.name !in rm.reposOld && rm.reposNew[repo.name] == repo
    case Removed(name) => name in rm.reposOld && name !in rm.reposNew
    case _ =>
      c.repoName in rm.reposOld && c.repoName in rm.reposNew
      && RepoChange(rm.reposOld[c.repoName], rm.reposNew[c.repoName], compareOld, c)
  }

  /** Category of a change: added repositories, removed repositories, then the changes of common ones. */
  function Rank(c: RepositoryChange): (k: int)
    ensures 0 <= k <= 2
    ensures k == 0 <==> c.Added?
    ensures k == 1 <==> c.Removed?
  {
    if c.Added? then 0 else if c.Removed? then 1 else 2
  }

  /** The repository a change of a common repository belongs to. */
  function RepoKey(c: RepositoryChange): (k: Option<string>)
    ensures k.Some? <==> Rank(c) == 2
    ensures k.Some? ==> k.value == c.repoName
  {
    if c.Added? || c.Removed? then None else Some(c.repoName)
  }

  /** Order of the kinds within one repository: for teams and then collaborators, added, removed, role updated; then visibility. */
  function Sub(c: RepositoryChange): (k: int)
    ensures 0 <= k <= 6
  {
    match c
    case TeamAdded(_, _, _) => 0
    case TeamRemoved(_, _) => 1
    case TeamRoleUpdated(_, _, _) => 2
    case CollaboratorAdded(_, _, _) => 3
    case CollaboratorRemoved(_, _) => 4
    case CollaboratorRoleUpdated(_, _, _) => 5
    case VisibilityUpdated(_, _) => 6
    case _ => 0
  }

  /** The team or user a team or collaborator change is about. */
  function Grantee(c: RepositoryChange): string {
    match c
    case TeamAdded(_, t, _) => t
    case TeamRemoved(_, t) => t
    case TeamRoleUpdated(_, t, _) => t
    case CollaboratorAdded(_, u, _) => u
    case CollaboratorRemoved(_, u) => u
    case CollaboratorRoleUpdated(_, u, _) => u
    case _ => ""
  }

  /** The role a change carries; the default role for those that carry none. */
  function RoleOf(c: RepositoryChange): Role {
    match c
    case TeamAdded(_, _, r) => r
    case TeamRoleUpdated(_, _, r) => r
    case CollaboratorAdded(_, _, r) => r
    case CollaboratorRoleUpdated(_, _, r) => r
    case _ => CGS.DefaultRole
  }

  /**
   * A valid result of `repositories_changes`: every expected change once
   * and nothing else; added repositories, then removed ones, then the
   * changes of each common repository together, in the kind order of `Sub`.
   */
  ghost predicate IsChanges(o: seq<Repository>, n: seq<Repository>, compareOld: bool, changes: seq<RepositoryChange>) {
    && NoDup(changes)
    && (forall c :: c in changes <==> Expected(RepoMapsOf(o, n), compareOld, c))
    && SortedBy(changes, Rank)
    && Grouped(changes, RepoKey)
    && SortedWithin(changes, RepoKey, Sub)
  }

  ghost predicate Shape(p: seq<RepositoryChange>, lo: int, hi: int) {
    && NoDup(p)
    && (forall i :: 0 <= i < |p| ==> lo <= Rank(p[i]) <= hi)
    && SortedBy(p, Rank)
    && Grouped(p, RepoKey)
    && SortedWithin(p, RepoKey, Sub)
  }

  /** A stretch holding exactly the expected changes of the categories `lo..hi`. */
  ghost predicate Part(p: seq<RepositoryChange>, rm: RepoMaps, compareOld: bool, lo: int, hi: int) {
    && Shape(p, lo, hi)
    && (forall c :: c in p <==> lo <= Rank(c) <= hi && Expected(rm, compareOld, c))
  }

  lemma JoinShape(a: seq<RepositoryChange>, b: seq<RepositoryChange>, lo: int, mid: int, hi: int)
    requires lo <= mid < hi <= 2
    requires Shape(a, lo, mid) && Shape(b, mid + 1, hi)
    ensures Shape(a + b, lo, hi)
  {
    forall i, j | 0 <= i < |a| && 0 <= j < |b| ensures a[i] != b[j] && Rank(a[i]) <= Rank(b[j]) {
      assert Rank(a[i]) <= mid < Rank(b[j]);
    }
    NoDupConcat(a, b);
    SortedConcat(a, b, Rank);
    forall i | 0 <= i < |a| ensures RepoKey(a[i]).None? {
      assert Rank(a[i]) <= mid;
    }
    GroupedConcat(a, b, RepoKey);
    SortedWithinConcat(a, b, RepoKey, Sub);
    var c := a + b;
    forall i | 0 <= i < |c| ensures lo <= Rank(c[i]) <= hi {
      if i < |a| { assert c[i] == a[i]; } else { assert c[i] == b[i - |a|]; }
    }
  }

  /** Two consecutive stretches make one. */
  lemma Join(a: seq<RepositoryChange>, b: seq<RepositoryChange>, rm: RepoMaps, compareOld: bool, lo: int, mid: int, hi: int)
    requires lo <= mid < hi <= 2
    requires Part(a, rm, compareOld, lo, mid) && Part(b, rm, compareOld, mid + 1, hi)
    ensures Part(a + b, rm, compareOld, lo, hi)
  {
    JoinShape(a, b, lo, mid, hi);
  }

  // ------------------------------------------- Added and removed repositories

  lemma AddedPart(rm: RepoMaps, compareOld: bool, xs: seq<string>, p: seq<RepositoryChange>)
    requires Consistent(rm)
    requires NoDup(xs) && Elems(xs) == rm.reposNew.Keys - rm.reposOld.Keys
    requires |p| == |xs|
    requires forall j :: 0 <= j < |xs| ==> xs[j] in rm.reposNew && p[j] == Added(rm.reposNew[xs[j]])
    ensures Part(p, rm, compareOld, 0, 0)
  {
    forall i, j | 0 <= i < j < |p| ensures p[i] != p[j] {
      assert p[i].repo.name == xs[i] && p[j].repo.name == xs[j];
    }
    forall j | 0 <= j < |p| ensures Expected(rm, compareOld, p[j]) {
      assert xs[j] in Elems(xs);
    }
    forall c | Rank(c) == 0 && Expected(rm, compareOld, c) ensures c in p {
      assert c.repo.name in Elems(xs);
      var j :| 0 <= j < |xs| && xs[j] == c.repo.name;
      assert p[j] == c;
    }
    assert forall i :: 0 <= i < |p| ==> RepoKey(p[i]).None?;
  }

  lemma RemovedPart(rm: RepoMaps, compareOld: bool, xs: seq<string>, p: seq<RepositoryChange>)
    requires NoDup(xs) && Elems(xs) == rm.reposOld.Keys - rm.reposNew.Keys
    requires |p| == |xs|
    requires forall j :: 0 <= j < |xs| ==> p[j] == Removed(xs[j])
    ensures Part(p, rm, compareOld, 1, 1)
  {
    forall i, j | 0 <= i < j < |p| ensures p[i] != p[j] {
      assert p[i].name == xs[i] && p[j].name == xs[j];
    }
    forall j | 0 <= j < |p| ensures Expected(rm, compareOld, p[j]) {
      assert xs[j] in Elems(xs);
    }
    forall c | Rank(c) == 1 && Expected(rm, compareOld, c) ensures c in p {
      assert c.name in Elems(xs);
      var j :| 0 <= j < |xs| && xs[j] == c.name;
      assert p[j] == c;
    }
    assert forall i :: 0 <= i < |p| ==> RepoKey(p[i]).None?;
  }

  /** The loop pushing `Added` with the new record of each name in `added`. */
  method PushAdded(reposNew: map<string, Repository>, added: seq<string>) returns (r: seq<RepositoryChange>)
    requires Elems(added) <= reposNew.Keys
    ensures |r| == |added|
    ensures forall j :: 0 <= j < |added| ==> added[j] in reposNew && r[j] == Added(reposNew[added[j]])
  {
    r := [];
    for i := 0 to |added|
      invariant |r| == i
      invariant forall j :: 0 <= j < i ==> added[j] in reposNew && r[j] == Added(reposNew[added[j]])
    {
      assert added[i] in Elems(added);
      r := r + [Added(reposNew[added[i]])];
    }
  }

  /** The loop pushing `Removed` for each name in `removed`. */
  method PushRemoved(removed: seq<string>) returns (r: seq<RepositoryChange>)
    ensures |r| == |removed|
    ensures forall j :: 0 <= j < |removed| ==> r[j] == Removed(removed[j])
  {
    r := [];
    for i := 0 to |removed|
      invariant |r| == i
      invariant forall j :: 0 <= j < i ==> r[j] == Removed(removed[j])
    {
      r := r + [Removed(removed[i])];
    }
  }

  /**
   * `Added` for each name only in the new map, then `Removed` for each name
   * only in the old one, each in the order of a hash set; `added` is the
   * `repos_added` list.
   */
  method AddedRemoved(rm: RepoMaps, compareOld: bool) returns (changes: seq<RepositoryChange>, added: seq<string>)
    requires Consistent(rm)
    ensures Part(changes, rm, compareOld, 0, 1)
    ensures Elems(added) == rm.reposNew.Keys - rm.reposOld.Keys
  {
    added := Enumerate(rm.reposNew.Keys - rm.reposOld.Keys);
    var a := PushAdded(rm.reposNew, added);
    AddedPart(rm, compareOld, added, a);
    var removed := Enumerate(rm.reposOld.Keys - rm.reposNew.Keys);
    var b := PushRemoved(removed);
    RemovedPart(rm, compareOld, removed, b);
    Join(a, b, rm, compareOld, 0, 0, 1);
    changes := a + b;
  }

  // ------------------------------------------------- Changes of one repository

  /** The access map a kind of change (0 to 2 teams, 3 to 5 collaborators) is about. */
  function AccessOf(r: Repository, kind: int): map<string, Role> {
    if kind < 3 then TeamsOf(r) else CollaboratorsOf(r)
  }

  /** The team or collaborator change of kind `kind` (0 to 5, in `Sub` order) of `name` in `repo`. */
  function MkAccess(kind: nat, repo: string, name: string, role: Role): (c: RepositoryChange)
    ensures kind < 6 ==> RepoKey(c) == Some(repo) && Sub(c) == kind && Grantee(c) == name
    ensures kind < 6 && kind % 3 != 1 ==> RoleOf(c) == role
  {
    if kind == 0 then TeamAdded(repo, name, role)
    else if kind == 1 then TeamRemoved(repo, name)
    else if kind == 2 then TeamRoleUpdated(repo, name, role)
    else if kind == 3 then CollaboratorAdded(repo, name, role)
    else if kind == 4 then CollaboratorRemoved(repo, name)
    else CollaboratorRoleUpdated(repo, name, role)
  }

  /** A team or collaborator change is determined by its repository, kind, name and role. */
  lemma MkAccessOf(c: RepositoryChange)
    requires RepoKey(c).Some? && Sub(c) < 6
    ensures c == MkAccess(Sub(c), RepoKey(c).value, Grantee(c), RoleOf(c))
  {
  }

  /** The changes of kind `kind` of `repo` for the names `xs`, with their roles looked up in `m`. */
  function KindChanges(kind: nat, repo: string, xs: seq<string>, m: map<string, Role>): (p: seq<RepositoryChange>)
    ensures |p| == |xs|
    ensures forall j :: 0 <= j < |xs| ==> p[j] == MkAccess(kind, repo, xs[j], CGS.RoleIn(m, xs[j]))
  {
    if xs == [] then [] else [MkAccess(kind, repo, xs[0], CGS.RoleIn(m, xs[0]))] + KindChanges(kind, repo, xs[1..], m)
  }

  /** The names one kind of change is about. */
  ghost function Moved(kind: int, ro: Repository, rn: Repository, compareOld: bool): set<string> {
    var mo, mn := AccessOf(ro, kind), AccessOf(rn, kind);
    if kind % 3 == 0 then mn.Keys - mo.Keys
    else if kind % 3 == 1 then mo.Keys - mn.Keys
    else if compareOld then set x | x in mn && x in mo && mo[x] != mn[x]
    else {}
  }

  lemma RepoChangeByKind(ro: Repository, rn: Repository, compareOld: bool, c: RepositoryChange)
    requires RepoKey(c).Some? && Sub(c) < 6
    ensures RepoChange(ro, rn, compareOld, c) <==>
      Grantee(c) in Moved(Sub(c), ro, rn, compareOld)
      && (Sub(c) % 3 != 1 ==> RoleOf(c) == CGS.RoleIn(AccessOf(rn, Sub(c)), Grantee(c)))
  {
  }

  /** The visibility change of `repo`, if its visibility changed; `None` differs from `Some(Private)`. */
  function VisPart(repo: string, ro: Repository, rn: Repository): (p: seq<RepositoryChange>)
    ensures |p| <= 1
  {
    if ro.visibility != rn.visibility then [VisibilityUpdated(repo, rn.visibility.UnwrapOr(DefaultVisibility))] else []
  }

  /** Changes of `repo`, without repeats, of the kinds `lo` to `hi - 1`, in kind order. */
  ghost predicate BlockRange(p: seq<RepositoryChange>, repo: string, lo: int, hi: int) {
    && NoDup(p)
    && AllKey(p, RepoKey, repo)
    && SortedBy(p, Sub)
    && (forall i :: 0 <= i < |p| ==> lo <= Sub(p[i]) < hi)
  }

  lemma AddRange(a: seq<RepositoryChange>, b: seq<RepositoryChange>, repo: string, lo: int, mid: int, hi: int)
    requires lo <= mid <= hi
    requires BlockRange(a, repo, lo, mid) && BlockRange(b, repo, mid, hi)
    ensures BlockRange(a + b, repo, lo, hi)
  {
    forall i, j | 0 <= i < |a| && 0 <= j < |b| ensures a[i] != b[j] && Sub(a[i]) <= Sub(b[j]) {
      assert Sub(a[i]) < mid <= Sub(b[j]);
    }
    NoDupConcat(a, b);
    SortedConcat(a, b, Sub);
    var c := a + b;
    forall i | 0 <= i < |c| ensures RepoKey(c[i]) == Some(repo) && lo <= Sub(c[i]) < hi {
      if i < |a| { assert c[i] == a[i]; } else { assert c[i] == b[i - |a|]; }
    }
  }

  lemma KindShape(xs: seq<string>, repo: string, kind: nat, m: map<string, Role>)
    requires kind < 6 && NoDup(xs)
    ensures BlockRange(KindChanges(kind, repo, xs, m), repo, kind, kind + 1)
  {
    var p := KindChanges(kind, repo, xs, m);
    forall i, j | 0 <= i < j < |p| ensures p[i] != p[j] {
      assert Grantee(p[i]) == xs[i] && Grantee(p[j]) == xs[j];
    }
  }

  lemma KindElems(xs: seq<string>, repo: string, kind: nat, ro: Repository, rn: Repository, compareOld: bool)
    requires kind < 6 && Elems(xs) == Moved(kind, ro, rn, compareOld)
    ensures forall c :: c in KindChanges(kind, repo, xs, AccessOf(rn, kind)) <==>
      RepoKey(c) == Some(repo) && Sub(c) == kind && RepoChange(ro, rn, compareOld, c)
  {
    var m := AccessOf(rn, kind);
    var p := KindChanges(kind, repo, xs, m);
    forall c | RepoKey(c) == Some(repo) && Sub(c) == kind && RepoChange(ro, rn, compareOld, c) ensures c in p {
      RepoChangeByKind(ro, rn, compareOld, c);
      MkAccessOf(c);
      var j :| 0 <= j < |xs| && xs[j] == Grantee(c);
      assert p[j] == MkAccess(kind, repo, xs[j], CGS.RoleIn(m, xs[j]));
    }
    forall c | c in p ensures RepoKey(c) == Some(repo) && Sub(c) == kind && RepoChange(ro, rn, compareOld, c) {
      var j :| 0 <= j < |p| && p[j] == c;
      assert xs[j] in Elems(xs);
      RepoChangeByKind(ro, rn, compareOld, c);
    }
  }

  lemma VisFacts(repo: string, ro: Repository, rn: Repository, compareOld: bool)
    ensures BlockRange(VisPart(repo, ro, rn), repo, 6, 7)
    ensures forall c :: c in VisPart(repo, ro, rn) <==> RepoKey(c) == Some(repo) && Sub(c) == 6 && RepoChange(ro, rn, compareOld, c)
  {
  }

  /** The team changes (`base` 0) or collaborator changes (`base` 3) of `repo`: added, removed, role updated. */
  ghost function AccessBlock(base: nat, repo: string, xsA: seq<string>, xsR: seq<string>, xsU: seq<string>, rn: Repository): seq<RepositoryChange> {
    KindChanges(base, repo, xsA, AccessOf(rn, base))
    + KindChanges(base + 1, repo, xsR, AccessOf(rn, base + 1))
    + KindChanges(base + 2, repo, xsU, AccessOf(rn, base + 2))
  }

  lemma AccessBlockShape(base: nat, repo: string, xsA: seq<string>, xsR: seq<string>, xsU: seq<string>, rn: Repository)
    requires base == 0 || base == 3
    requires NoDup(xsA) && NoDup(xsR) && NoDup(xsU)
    ensures BlockRange(AccessBlock(base, repo, xsA, xsR, xsU, rn), repo, base, base + 3)
  {
    var p0 := KindChanges(base, repo, xsA, AccessOf(rn, base));
    var p1 := KindChanges(base + 1, repo, xsR, AccessOf(rn, base + 1));
    var p2 := KindChanges(base + 2, repo, xsU, AccessOf(rn, base + 2));
    KindShape(xsA, repo, base, AccessOf(rn, base));
    KindShape(xsR, repo, base + 1, AccessOf(rn, base + 1));
    KindShape(xsU, repo, base + 2, AccessOf(rn, base + 2));
    ThreeRange(p0, p1, p2, repo, base);
  }

  /** Three consecutive one-kind stretches of one repository make one stretch. */
  lemma ThreeRange(p0: seq<RepositoryChange>, p1: seq<RepositoryChange>, p2: seq<RepositoryChange>, repo: string, base: int)
    requires BlockRange(p0, repo, base, base + 1) && BlockRange(p1, repo, base + 1, base + 2)
    requires BlockRange(p2, repo, base + 2, base + 3)
    ensures BlockRange(p0 + p1 + p2, repo, base, base + 3)
  {
    AddRange(p0, p1, repo, base, base + 1, base + 2);
    AddRange(p0 + p1, p2, repo, base, base + 2, base + 3);
  }

  lemma AccessBlockElems(base: nat, repo: string, xsA: seq<string>, xsR: seq<string>, xsU: seq<string>,
                         ro: Repository, rn: Repository, compareOld: bool)
    requires base == 0 || base == 3
    requires Elems(xsA) == Moved(base, ro, rn, compareOld) && Elems(xsR) == Moved(base + 1, ro, rn, compareOld)
    requires Elems(xsU) == Moved(base + 2, ro, rn, compareOld)
    ensures forall c :: c in AccessBlock(base, repo, xsA, xsR, xsU, rn) <==>
      RepoKey(c) == Some(repo) && base <= Sub(c) < base + 3 && RepoChange(ro, rn, compareOld, c)
  {
    KindElems(xsA, repo, base, ro, rn, compareOld);
    KindElems(xsR, repo, base + 1, ro, rn, compareOld);
    KindElems(xsU, repo, base + 2, ro, rn, compareOld);
  }

  /** One of the added/removed loops: a change of kind `kind` per name, in order, its role looked up in `m`. */
  method PushKind(block: seq<RepositoryChange>, kind: nat, repo: string, xs: seq<string>, m: map<string, Role>)
    returns (r: seq<RepositoryChange>)
    ensures r == block + KindChanges(kind, repo, xs, m)
  {
    r := block;
    for i := 0 to |xs|
      invariant |r| == |block| + i && r[..|block|] == block
      invariant forall j :: 0 <= j < i ==> r[|block| + j] == MkAccess(kind, repo, xs[j], CGS.RoleIn(m, xs[j]))
    {
      r := r + [MkAccess(kind, repo, xs[i], CGS.RoleIn(m, xs[i]))];
    }
  }

  /**
   * The role-update loop's test for `name` of the new map: the role read
   * from `prior` differs from the new role; with `skipNew`, names absent
   * from the old map `mo` are passed over first.
   */
  ghost predicate RoleDiffers(prior: map<string, Role>, mo: map<string, Role>, mn: map<string, Role>, skipNew: bool, name: string) {
    name in mn && (skipNew ==> name in mo) && CGS.RoleIn(prior, name) != CGS.RoleIn(mn, name)
  }

  lemma RoleUpdatedResult(kind: nat, repo: string, keys: seq<string>, prior: map<string, Role>, mo: map<string, Role>,
                          mn: map<string, Role>, skipNew: bool, r: seq<RepositoryChange>, picked: seq<string>)
    requires Elems(keys) == mn.Keys
    requires |r| == |picked|
    requires forall j :: 0 <= j < |picked| ==> r[j] == MkAccess(kind, repo, picked[j], CGS.RoleIn(mn, picked[j]))
    requires forall j :: 0 <= j < |picked| ==> RoleDiffers(prior, mo, mn, skipNew, picked[j])
    requires forall j :: 0 <= j < |keys| && RoleDiffers(prior, mo, mn, skipNew, keys[j]) ==> keys[j] in picked
    ensures r == KindChanges(kind, repo, picked, mn)
    ensures Elems(picked) == set x | x in mn && RoleDiffers(prior, mo, mn, skipNew, x)
  {
    forall x | RoleDiffers(prior, mo, mn, skipNew, x) ensures x in Elems(picked) {
      assert x in Elems(keys);
      var j :| 0 <= j < |keys| && keys[j] == x;
      assert RoleDiffers(prior, mo, mn, skipNew, keys[j]);
    }
    forall x | x in Elems(picked) ensures RoleDiffers(prior, mo, mn, skipNew, x) {
      var j :| 0 <= j < |picked| && picked[j] == x;
      assert RoleDiffers(prior, mo, mn, skipNew, picked[j]);
    }
  }

  /**
   * The role-update loop over the names `keys` of the new map: a change of
   * kind `kind` with the new role for each name whose role read from `prior`
   * differs. `picked` are the names that got one, in order.
   */
  method PushRoleUpdated(kind: nat, repo: string, keys: seq<string>, prior: map<string, Role>, mo: map<string, Role>,
                         mn: map<string, Role>, skipNew: bool)
    returns (r: seq<RepositoryChange>, ghost picked: seq<string>)
    requires NoDup(keys) && Elems(keys) == mn.Keys
    ensures r == KindChanges(kind, repo, picked, mn)
    ensures NoDup(picked) && Elems(picked) == set x | x in mn && RoleDiffers(prior, mo, mn, skipNew, x)
  {
    r := [];
    picked := [];
    for i := 0 to |keys|
      invariant |r| == |picked|
      invariant forall j :: 0 <= j < |picked| ==> r[j] == MkAccess(kind, repo, picked[j], CGS.RoleIn(mn, picked[j]))
      invariant NoDup(picked)
      invariant forall j :: 0 <= j < |picked| ==> RoleDiffers(prior, mo, mn, skipNew, picked[j]) && picked[j] in keys[..i]
      invariant forall j :: 0 <= j < i && RoleDiffers(prior, mo, mn, skipNew, keys[j]) ==> keys[j] in picked
    {
      var name := keys[i];
      assert keys[..i + 1] == keys[..i] + [name];
      assert name !in keys[..i] by {
        forall j | 0 <= j < i ensures keys[..i][j] != name { assert keys[j] != keys[i]; }
      }
      assert name in Elems(keys);
      if skipNew && name !in mo {
        continue;
      }
      var roleNew := CGS.RoleIn(mn, name);
      var roleOld := CGS.RoleIn(prior, name);
      if roleNew != roleOld {
        r := r + [MkAccess(kind, repo, name, roleNew)];
        NoDupConcat(picked, [name]);
        picked := picked + [name];
      }
    }
    RoleUpdatedResult(kind, repo, keys, prior, mo, mn, skipNew, r, picked);
  }

  /** Reading both roles from the new map finds no difference. */
  lemma SameMapNoRoleDiffers(mo: map<string, Role>, mn: map<string, Role>)
    ensures (set x | x in mn && RoleDiffers(mn, mo, mn, false, x)) == {}
  {
  }

  /** Reading the old role from the old map, new names skipped, finds exactly the names whose role changed. */
  lemma OldMapRoleDiffers(mo: map<string, Role>, mn: map<string, Role>)
    ensures (set x | x in mn && RoleDiffers(mo, mo, mn, true, x)) == set x | x in mn && x in mo && mo[x] != mn[x]
  {
  }

  /**
   * The team changes (`base` 0) or collaborator changes (`base` 3) of one
   * repository: added names with their new role, removed names, then the
   * role-update loop, which reads the old role from the new record unless
   * `compareOld`.
   */
  method AccessChanges(base: nat, repo: string, ro: Repository, rn: Repository, compareOld: bool)
    returns (r: seq<RepositoryChange>, ghost xsA: seq<string>, ghost xsR: seq<string>, ghost xsU: seq<string>)
    requires base == 0 || base == 3
    ensures r == AccessBlock(base, repo, xsA, xsR, xsU, rn)
    ensures NoDup(xsA) && NoDup(xsR) && NoDup(xsU)
    ensures Elems(xsA) == Moved(base, ro, rn, compareOld) && Elems(xsR) == Moved(base + 1, ro, rn, compareOld)
    ensures Elems(xsU) == Moved(base + 2, ro, rn, compareOld)
  {
    var mo, mn := AccessOf(ro, base), AccessOf(rn, base);
    var namesOld, namesNew := mo.Keys, mn.Keys;
    var added := Enumerate(namesNew - namesOld);
    r := PushKind([], base, repo, added, mn);
    var removed := Enumerate(namesOld - namesNew);
    r := PushKind(r, base + 1, repo, removed, mn);
    var keys := Enumerate(namesNew);
    var updated;
    if compareOld {
      updated, xsU := PushRoleUpdated(base + 2, repo, keys, mo, mo, mn, true);
      OldMapRoleDiffers(mo, mn);
    } else {
      updated, xsU := PushRoleUpdated(base + 2, repo, keys, mn, mo, mn, false);
      SameMapNoRoleDiffers(mo, mn);
    }
    r := r + updated;
    xsA, xsR := added, removed;
    assert [] + KindChanges(base, repo, added, mn) == KindChanges(base, repo, added, mn);
  }

  /** `VisibilityUpdated` with the new visibility (private when unset) when the two differ. */
  method VisibilityChange(repo: string, ro: Repository, rn: Repository) returns (r: seq<RepositoryChange>)
    ensures r == VisPart(repo, ro, rn)
  {
    var visibilityNew, visibilityOld := rn.visibility, ro.visibility;
    r := [];
    if visibilityNew != visibilityOld {
      var v := visibilityNew.UnwrapOr(DefaultVisibility);
      r := [VisibilityUpdated(repo, v)];
    }
  }

  /** A repository's block is ordered by kind: teams, collaborators, visibility. */
  lemma BlockShape(repo: string, ro: Repository, rn: Repository,
                   xs0: seq<string>, xs1: seq<string>, xs2: seq<string>,
                   xs3: seq<string>, xs4: seq<string>, xs5: seq<string>)
    requires NoDup(xs0) && NoDup(xs1) && NoDup(xs2) && NoDup(xs3) && NoDup(xs4) && NoDup(xs5)
    ensures BlockRange(AccessBlock(0, repo, xs0, xs1, xs2, rn) + AccessBlock(3, repo, xs3, xs4, xs5, rn) + VisPart(repo, ro, rn), repo, 0, 7)
  {
    var t, co, v := AccessBlock(0, repo, xs0, xs1, xs2, rn), AccessBlock(3, repo, xs3, xs4, xs5, rn), VisPart(repo, ro, rn);
    AccessBlockShape(0, repo, xs0, xs1, xs2, rn);
    AccessBlockShape(3, repo, xs3, xs4, xs5, rn);
    VisFacts(repo, ro, rn, false);
    AddRange(t, co, repo, 0, 3, 6);
    AddRange(t + co, v, repo, 0, 6, 7);
  }

  /** A repository's block holds exactly the changes expected for it. */
  lemma BlockElems(repo: string, ro: Repository, rn: Repository, compareOld: bool,
                   xs0: seq<string>, xs1: seq<string>, xs2: seq<string>,
                   xs3: seq<string>, xs4: seq<string>, xs5: seq<string>)
    requires Elems(xs0) == Moved(0, ro, rn, compareOld) && Elems(xs1) == Moved(1, ro, rn, compareOld)
    requires Elems(xs2) == Moved(2, ro, rn, compareOld) && Elems(xs3) == Moved(3, ro, rn, compareOld)
    requires Elems(xs4) == Moved(4, ro, rn, compareOld) && Elems(xs5) == Moved(5, ro, rn, compareOld)
    ensures var block := AccessBlock(0, repo, xs0, xs1, xs2, rn) + AccessBlock(3, repo, xs3, xs4, xs5, rn) + VisPart(repo, ro, rn);
      forall c :: c in block <==> RepoKey(c) == Some(repo) && RepoChange(ro, rn, compareOld, c)
  {
    VisFacts(repo, ro, rn, compareOld);
    AccessBlockElems(0, repo, xs0, xs1, xs2, ro, rn, compareOld);
    AccessBlockElems(3, repo, xs3, xs4, xs5, ro, rn, compareOld);
  }

  /** All changes of a repository in both lists, in the order the loop pushes them. */
  method RepoBlock(repo: string, ro: Repository, rn: Repository, compareOld: bool) returns (block: seq<RepositoryChange>)
    ensures BlockRange(block, repo, 0, 7)
    ensures forall c :: c in block <==> RepoKey(c) == Some(repo) && RepoChange(ro, rn, compareOld, c)
  {
    var teams, xs0, xs1, xs2 := AccessChanges(0, repo, ro, rn, compareOld);
    var collaborators, xs3, xs4, xs5 := AccessChanges(3, repo, ro, rn, compareOld);
    var visibility := VisibilityChange(repo, ro, rn);
    block := teams + collaborators + visibility;
    BlockShape(repo, ro, rn, xs0, xs1, xs2, xs3, xs4, xs5);
    BlockElems(repo, ro, rn, compareOld, xs0, xs1, xs2, xs3, xs4, xs5);
  }

  // ------------------------------------------------------- Common repositories

  /** The changes collected for the repository names `done`, each in both maps. */
  ghost predicate CommonSoFar(m: seq<RepositoryChange>, rm: RepoMaps, compareOld: bool, done: seq<string>) {
    && NoDup(m)
    && AllRank(m, Rank, 2)
    && Grouped(m, RepoKey)
    && SortedWithin(m, RepoKey, Sub)
    && (forall j :: 0 <= j < |m| ==> RepoKey(m[j]).Some? && RepoKey(m[j]).value in done)
    && (forall c :: c in m <==> Rank(c) == 2 && Expected(rm, compareOld, c) && RepoKey(c).value in done)
  }

  lemma CommonStepShape(m: seq<RepositoryChange>, block: seq<RepositoryChange>, done: seq<string>, repo: string)
    requires repo !in done
    requires NoDup(m) && AllRank(m, Rank, 2) && Grouped(m, RepoKey) && SortedWithin(m, RepoKey, Sub)
    requires forall j :: 0 <= j < |m| ==> RepoKey(m[j]).Some? && RepoKey(m[j]).value in done
    requires BlockRange(block, repo, 0, 7)
    ensures NoDup(m + block) && AllRank(m + block, Rank, 2) && Grouped(m + block, RepoKey) && SortedWithin(m + block, RepoKey, Sub)
    ensures forall j :: 0 <= j < |m + block| ==> RepoKey((m + block)[j]).Some? && RepoKey((m + block)[j]).value in done + [repo]
  {
    forall i, j | 0 <= i < |m| && 0 <= j < |block| ensures m[i] != block[j] && RepoKey(m[i]) != RepoKey(block[j]) {
      assert RepoKey(m[i]).value in done;
    }
    NoDupConcat(m, block);
    GroupedConcat(m, block, RepoKey);
    assert SortedWithin(block, RepoKey, Sub);
    SortedWithinConcat(m, block, RepoKey, Sub);
    var mb := m + block;
    forall j | 0 <= j < |mb| ensures RepoKey(mb[j]).Some? && RepoKey(mb[j]).value in done + [repo] && Rank(mb[j]) == 2 {
      if j < |m| { assert mb[j] == m[j]; } else { assert mb[j] == block[j - |m|]; }
    }
  }

  lemma CommonStep(m: seq<RepositoryChange>, block: seq<RepositoryChange>, rm: RepoMaps, compareOld: bool, keys: seq<string>, i: nat)
    requires NoDup(keys) && i < |keys|
    requires CommonSoFar(m, rm, compareOld, keys[..i])
    requires keys[i] in rm.reposOld && keys[i] in rm.reposNew
    requires BlockRange(block, keys[i], 0, 7)
    requires forall c :: c in block <==> RepoKey(c) == Some(keys[i]) && RepoChange(rm.reposOld[keys[i]], rm.reposNew[keys[i]], compareOld, c)
    ensures CommonSoFar(m + block, rm, compareOld, keys[..i + 1])
  {
    var repo := keys[i];
    assert keys[..i + 1] == keys[..i] + [repo];
    assert repo !in keys[..i] by {
      forall j | 0 <= j < i ensures keys[..i][j] != repo { assert keys[j] != keys[i]; }
    }
    CommonStepShape(m, block, keys[..i], repo);
  }

  /** The changes of every repository of the new map not in `added`, repository by repository. */
  method CommonChanges(rm: RepoMaps, compareOld: bool, added: seq<string>) returns (m: seq<RepositoryChange>)
    requires Elems(added) == rm.reposNew.Keys - rm.reposOld.Keys
    ensures Part(m, rm, compareOld, 2, 2)
  {
    var reposOld, reposNew := rm.reposOld, rm.reposNew;
    var keys := Enumerate(reposNew.Keys);
    m := [];
    for i := 0 to |keys|
      invariant CommonSoFar(m, rm, compareOld, keys[..i])
    {
      var repo := keys[i];
      assert keys[..i + 1] == keys[..i] + [repo];
      assert repo in Elems(keys);
      if repo in added {
        // an added repository: `Added` carries all of it
        continue;
      }
      assert repo !in Elems(added);
      var block := RepoBlock(repo, reposOld[repo], reposNew[repo], compareOld);
      CommonStep(m, block, rm, compareOld, keys, i);
      m := m + block;
    }
    assert keys[..|keys|] == keys;
    forall c | Rank(c) == 2 && Expected(rm, compareOld, c) ensures c in m {
      assert RepoKey(c).value in Elems(keys);
    }
  }

  /** The diff with the role comparison chosen by `compareOld`. */
  method Diff(o: seq<Repository>, n: seq<Repository>, compareOld: bool) returns (changes: seq<RepositoryChange>)
    ensures IsChanges(o, n, compareOld, changes)
  {
    var rm := RepoMapsOf(o, n);
    var addedRemoved, added := AddedRemoved(rm, compareOld);
    var common := CommonChanges(rm, compareOld, added);
    Join(addedRemoved, common, rm, compareOld, 0, 1, 2);
    changes := addedRemoved + common;
  }

  /**
   * `repositories_changes` as written: both roles of the role comparison
   * are read from the new record, so no role update is reported.
   */
  method RepositoriesChanges(o: seq<Repository>, n: seq<Repository>) returns (changes: seq<RepositoryChange>)
    ensures IsChanges(o, n, false, changes)
    ensures forall c :: c in changes ==> !c.TeamRoleUpdated? && !c.CollaboratorRoleUpdated?
  {
    changes := Diff(o, n, false);
    forall c | c in changes ensures !c.TeamRoleUpdated? && !c.CollaboratorRoleUpdated? {
      NoRoleUpdateExpected(RepoMapsOf(o, n), c);
    }
  }

  /** Without the old role, no role update is expected. */
  lemma NoRoleUpdateExpected(rm: RepoMaps, c: RepositoryChange)
    ensures c.TeamRoleUpdated? || c.CollaboratorRoleUpdated? ==> !Expected(rm, false, c)
  {
  }

  /** `repositories_changes` with the old role read from the old record, names that are new skipped. */
  method RepositoriesChangesFixed(o: seq<Repository>, n: seq<Repository>) returns (changes: seq<RepositoryChange>)
    ensures IsChanges(o, n, true, changes)
  {
    changes := Diff(o, n, true);
  }

  // --------------------------------------------------------- Properties

  /** A list of repositories compared with itself reports nothing, whichever comparison is used. */
  lemma SelfChangesEmpty(rs: seq<Repository>, compareOld: bool, changes: seq<RepositoryChange>)
    requires IsChanges(rs, rs, compareOld, changes)
    ensures changes == []
  {
    var rm := RepoMapsOf(rs, rs);
    forall c ensures c !in changes {
      if !c.Added? && !c.Removed? && c.repoName in rm.reposOld {
        var r := rm.reposOld[c.repoName];
        assert !RepoChange(r, r, compareOld, c);
      }
    }
    NoMemberEmpty(changes);
  }

  /** Any two valid results for the same lists hold the same changes, each once. */
  lemma ChangesUnique(o: seq<Repository>, n: seq<Repository>, compareOld: bool, a: seq<RepositoryChange>, b: seq<RepositoryChange>)
    requires IsChanges(o, n, compareOld, a) && IsChanges(o, n, compareOld, b)
    ensures multiset(a) == multiset(b)
  {
    forall x ensures multiset(a)[x] == multiset(b)[x] {
      NoDupCount(a, x);
      NoDupCount(b, x);
    }
  }

  /** Every `Added` precedes every `Removed`, and both precede the changes of common repositories. */
  lemma AddedBeforeRemoved(o: seq<Repository>, n: seq<Repository>, compareOld: bool, changes: seq<RepositoryChange>, i: nat, j: nat)
    requires IsChanges(o, n, compareOld, changes)
    requires i < |changes| && j < |changes|
    requires Rank(changes[i]) < Rank(changes[j])
    ensures i < j
  {
    assert Rank(changes[i]) < Rank(changes[j]);
  }

  /** A repository only the new list holds is added once, with its last entry, and nothing else is reported about it. */
  lemma AddedOnce(o: seq<Repository>, n: seq<Repository>, compareOld: bool, changes: seq<RepositoryChange>, name: string)
    requires IsChanges(o, n, compareOld, changes)
    requires name in RepoMap(n) && name !in RepoMap(o)
    ensures multiset(changes)[Added(RepoMap(n)[name])] == 1
    ensures forall c :: c in changes ==> RepoKey(c) != Some(name) && c != Removed(name)
  {
    NoDupCount(changes, Added(RepoMap(n)[name]));
  }

  /** A repository only the old list holds is removed once, and nothing else is reported about it. */
  lemma RemovedOnce(o: seq<Repository>, n: seq<Repository>, compareOld: bool, changes: seq<RepositoryChange>, name: string)
    requires IsChanges(o, n, compareOld, changes)
    requires name in RepoMap(o) && name !in RepoMap(n)
    ensures multiset(changes)[Removed(name)] == 1
    ensures forall c :: c in changes ==> RepoKey(c) != Some(name) && !(c.Added? && c.repo.name == name)
  {
    NoDupCount(changes, Removed(name));
  }

  /** A team or collaborator change of a common repository is about a name added or removed, or (corrected) whose role changed. */
  lemma OneChangePerGrantee(o: seq<Repository>, n: seq<Repository>, compareOld: bool, changes: seq<RepositoryChange>,
                            c: RepositoryChange, d: RepositoryChange)
    requires IsChanges(o, n, compareOld, changes)
    requires c in changes && d in changes
    requires RepoKey(c).Some? && RepoKey(d).Some? && !c.VisibilityUpdated? && !d.VisibilityUpdated?
    requires c.repoName == d.repoName && Grantee(c) == Grantee(d) && (Sub(c) < 3 <==> Sub(d) < 3)
    ensures c == d
  {
    var rm := RepoMapsOf(o, n);
    assert Expected(rm, compareOld, c) && Expected(rm, compareOld, d);
  }

  /** The role updates of the corrected diff. */
  predicate IsRoleUpdate(c: RepositoryChange) {
    c.TeamRoleUpdated? || c.CollaboratorRoleUpdated?
  }

  /** The code as written reports exactly the corrected diff's changes other than role updates. */
  lemma AsWrittenMissesOnlyRoleUpdates(o: seq<Repository>, n: seq<Repository>, a: seq<RepositoryChange>, b: seq<RepositoryChange>)
    requires IsChanges(o, n, false, a) && IsChanges(o, n, true, b)
    ensures forall c :: c in a <==> c in b && !IsRoleUpdate(c)
  {
    var rm := RepoMapsOf(o, n);
    forall c ensures Expected(rm, false, c) <==> Expected(rm, true, c) && !IsRoleUpdate(c) {
      if RepoKey(c).Some? && c.repoName in rm.reposOld && c.repoName in rm.reposNew {
        RepoChangeAsWritten(rm.reposOld[c.repoName], rm.reposNew[c.repoName], c);
      }
    }
  }

  lemma RepoChangeAsWritten(ro: Repository, rn: Repository, c: RepositoryChange)
    ensures RepoChange(ro, rn, false, c) <==> RepoChange(ro, rn, true, c) && !IsRoleUpdate(c)
  {
  }

  /** The corrected diff reports a team whose role changed on a common repository, with its new role. */
  lemma TeamRoleChangeReported(o: seq<Repository>, n: seq<Repository>, changes: seq<RepositoryChange>, repo: string, t: string)
    requires IsChanges(o, n, true, changes)
    requires repo in RepoMap(o) && repo in RepoMap(n)
    requires t in TeamsOf(RepoMap(o)[repo]) && t in TeamsOf(RepoMap(n)[repo])
    requires TeamsOf(RepoMap(o)[repo])[t] != TeamsOf(RepoMap(n)[repo])[t]
    ensures TeamRoleUpdated(repo, t, TeamsOf(RepoMap(n)[repo])[t]) in changes
  {
    var rm := RepoMapsOf(o, n);
    assert Expected(rm, true, TeamRoleUpdated(repo, t, TeamsOf(RepoMap(n)[repo])[t]));
  }

  /** The corrected diff reports a collaborator whose role changed on a common repository, with its new role. */
  lemma CollaboratorRoleChangeReported(o: seq<Repository>, n: seq<Repository>, changes: seq<RepositoryChange>, repo: string, u: string)
    requires IsChanges(o, n, true, changes)
    requires repo in RepoMap(o) && repo in RepoMap(n)
    requires u in CollaboratorsOf(RepoMap(o)[repo]) && u in CollaboratorsOf(RepoMap(n)[repo])
    requires CollaboratorsOf(RepoMap(o)[repo])[u] != CollaboratorsOf(RepoMap(n)[repo])[u]
    ensures CollaboratorRoleUpdated(repo, u, CollaboratorsOf(RepoMap(n)[repo])[u]) in changes
  {
    var rm := RepoMapsOf(o, n);
    assert Expected(rm, true, CollaboratorRoleUpdated(repo, u, CollaboratorsOf(RepoMap(n)[repo])[u]));
  }

  /** A repository whose only team goes from write to read. */
  function WriteRepo(): Repository { Repository("r", None, Some(map["t" := CGS.Write]), None) }
  function ReadRepo(): Repository { Repository("r", None, Some(map["t" := CGS.Read]), None) }

  /**
   * The input that shows the defect: team "t" of repository "r" goes from
   * write to read. As written nothing is reported; the corrected diff
   * reports the role update and nothing else.
   */
  lemma RoleChangeMissed(a: seq<RepositoryChange>, b: seq<RepositoryChange>)
    requires IsChanges([WriteRepo()], [ReadRepo()], false, a)
    requires IsChanges([WriteRepo()], [ReadRepo()], true, b)
    ensures a == []
    ensures forall c :: c in b <==> c == TeamRoleUpdated("r", "t", CGS.Read)
  {
    var o, n := [WriteRepo()], [ReadRepo()];
    var rm := RepoMapsOf(o, n);
    assert RepoMap(o) == map["r" := WriteRepo()] && RepoMap(n) == map["r" := ReadRepo()];
    var u := TeamRoleUpdated("r", "t", CGS.Read);
    forall c ensures Expected(rm, true, c) <==> c == u {
      if Expected(rm, true, c) {
        assert !c.Added? && !c.Removed? && c.repoName == "r";
      }
    }
    forall c ensures !Expected(rm, false, c) {
      if !c.Added? && !c.Removed? && c.repoName == "r" {
        assert Expected(rm, false, c) <==> Expected(rm, true, c) && !IsRoleUpdate(c);
      }
    }
    NoMemberEmpty(a);
  }

  /**
   * Visibility is compared as written, not with its default: unset versus
   * private reports an update to private although the repository stays
   * private.
   */
  lemma VisibilityUnsetVersusPrivate(o: seq<Repository>, n: seq<Repository>, compareOld: bool, changes: seq<RepositoryChange>, name: string)
    requires IsChanges(o, n, compareOld, changes)
    requires name in RepoMap(o) && name in RepoMap(n)
    requires {RepoMap(o)[name].visibility, RepoMap(n)[name].visibility} == {None, Some(Private)}
    ensures VisibilityUpdated(name, Private) in changes
  {
    var rm := RepoMapsOf(o, n);
    assert Expected(rm, compareOld, VisibilityUpdated(name, Private));
  }

  // ---------------------------------------------------------------- Display

  /** `impl Display for RepositoryChange` for every change but `Added`, whose team and collaborator lines follow map order. */
  function Line(c: RepositoryChange): (s: string)
    requires !c.Added?
  {
    "- " + LineText(c)
  }

  /** The text of a change's list entry, after the bullet. */
  function LineText(c: RepositoryChange): string
    requires !c.Added?
  {
    match c
    case Removed(r) => "repository **" + r + "** has been *removed*"
    case TeamAdded(r, t, role) => "team **" + t + "** has been *added* to repository **" + r + "** (role: **" + CGS.RoleText(role) + "**)"
    case TeamRemoved(r, t) => "team **" + t + "** has been *removed* from repository **" + r + "**"
    case TeamRoleUpdated(r, t, role) => "team **" + t + "** role in repository **" + r + "** has been *updated* to **" + CGS.RoleText(role) + "**"
    case CollaboratorAdded(r, u, role) => "user **" + u + "** is now an external collaborator (role: **" + CGS.RoleText(role) + "**) of repository **" + r + "**"
    case CollaboratorRemoved(r, u) => "user **" + u + "** is no longer an external collaborator of repository **" + r + "**"
    case CollaboratorRoleUpdated(r, u, role) => "user **" + u + "** role in repository **" + r + "** has been updated to **" + CGS.RoleText(role) + "**"
    case VisibilityUpdated(r, v) => "repository **" + r + "** visibility has been updated to **" + VisibilityText(v) + "**"
  }

  /** The first line of an `Added` entry, with the visibility private when unset. */
  function AddedHeader(repo: Repository): string {
    "- repository **" + repo.name + "** has been *added* (visibility: **" + VisibilityText(repo.visibility.UnwrapOr(DefaultVisibility)) + "**)"
  }

  /** Every change but `Added` is shown as one markdown list entry. */
  lemma LineIsListEntry(c: RepositoryChange)
    requires !c.Added?
    ensures StartsWith(Line(c), "- ")
  {
    StartsWithConcat("- ", LineText(c));
  }

  /** An unset visibility is shown as private, the default GitHub gives a new repository. */
  lemma AddedHeaderUnsetIsPrivate(repo: Repository)
    requires repo.visibility.None?
    ensures AddedHeader(repo) == AddedHeader(repo.(visibility := Some(Private)))
  {
  }
}
