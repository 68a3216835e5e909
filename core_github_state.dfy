/**
 * clowarden-core's GitHub service state: the directory plus the repositories
 * with the access each team and collaborator has, the ordered roles and the
 * visibilities, and the changes between two states.
 *
 * `RepositoriesDiff` follows `State::repositories_diff`: repositories are
 * collected into maps keyed by name (a repeated name keeps its last entry);
 * first come the repositories only in the new list, then, per repository in
 * both lists, its team changes (removed, added, role updated), its
 * collaborator changes in the same three kinds and its visibility change.
 * Within one kind the order is a hash set's iteration order, so the
 * contract fixes which changes occur (each once) and the order of the kinds,
 * and nothing inside one kind.
 */
module CoreGithubState {
  import opened Common
  import opened Errors
  import opened Collections
  import opened CoreMultiError
  import CD = CoreDirectory

  // ------------------------------------------------------------------ Roles

  /** Role a user or team may be given on a repository, in increasing order of privilege. */
  datatype Role = Read | Triage | Write | Maintain | Admin

  /** Position in declaration order, which the derived `PartialOrd` compares. */
  function RoleRank(r: Role): (k: nat)
    ensures k <= 4
    ensures r == Read <==> k == 0
    ensures r == Admin <==> k == 4
  {
    match r
    case Read => 0
    case Triage => 1
    case Write => 2
    case Maintain => 3
    case Admin => 4
  }

  /** `a < b` on roles. */
  predicate RoleLt(a: Role, b: Role) {
    RoleRank(a) < RoleRank(b)
  }

  /** `Role::default()`. */
  const DefaultRole := Read

  /** The role order is a strict total order with the default role at the bottom. */
  lemma RoleOrder(a: Role, b: Role, c: Role)
    ensures RoleLt(a, b) || a == b || RoleLt(b, a)
    ensures !(RoleLt(a, b) && RoleLt(b, a))
    ensures RoleLt(a, b) && RoleLt(b, c) ==> RoleLt(a, c)
    ensures !RoleLt(a, DefaultRole)
  {
  }

  /** `Display` for roles, the same lowercase names serde reads and writes. */
  function RoleText(r: Role): string {
    match r
    case Read => "read"
    case Triage => "triage"
    case Write => "write"
    case Maintain => "maintain"
    case Admin => "admin"
  }

  /** serde's `rename_all = "lowercase"` reading of a role. */
  function ParseRole(s: string): (r: Option<Role>)
    ensures r.Some? ==> RoleText(r.value) == s
    ensures r.None? ==> forall x :: RoleText(x) != s
  {
    if s == "read" then Some(Read)
    else if s == "triage" then Some(Triage)
    else if s == "write" then Some(Write)
    else if s == "maintain" then Some(Maintain)
    else if s == "admin" then Some(Admin)
    else None
  }

  /** A role is written and read back unchanged. */
  lemma RoleTextRoundTrip(r: Role)
    ensures ParseRole(RoleText(r)) == Some(r)
  {
  }

  /** The permission flags GitHub reports for a collaborator or a team on a repository. */
  datatype Permissions = Permissions(admin: bool, maintain: bool, push: bool, triage: bool, pull: bool)

  /** The flag of `p` that stands for role `r` (`pull` for read, `push` for write). */
  predicate FlagSet(p: Permissions, r: Role) {
    match r
    case Read => p.pull
    case Triage => p.triage
    case Write => p.push
    case Maintain => p.maintain
    case Admin => p.admin
  }

  /**
   * `From<Option<RepositoryPermissions>>` and `From<Option<TeamPermissions>>`
   * (the two are the same match): the highest role whose flag is set, or the
   * default role when no flag is set or there is no record.
   */
  function RoleFromPermissions(p: Option<Permissions>): (r: Role)
    ensures p.None? ==> r == DefaultRole
    ensures p.Some? ==> forall x :: FlagSet(p.value, x) ==> !RoleLt(r, x)
    ensures p.Some? ==> FlagSet(p.value, r) || (r == DefaultRole && forall x :: !FlagSet(p.value, x))
  {
    match p
    case None => Read
    case Some(f) =>
      if f.admin then Admin
      else if f.maintain then Maintain
      else if f.push then Write
      else if f.triage then Triage
      else Read
  }

  /** Setting more flags never lowers the role. */
  lemma PermissionsMonotone(p: Permissions, q: Permissions)
    requires forall x :: FlagSet(p, x) ==> FlagSet(q, x)
    ensures !RoleLt(RoleFromPermissions(Some(q)), RoleFromPermissions(Some(p)))
  {
    var rp := RoleFromPermissions(Some(p));
    if FlagSet(p, rp) {
      assert FlagSet(q, rp);
    }
  }

  /** A repository invitation's permissions; `Other` stands for the API's catch-all variants. */
  datatype InvitationPermissions = InvitationRead | InvitationTriage | InvitationWrite | InvitationMaintain | InvitationAdmin | InvitationOther

  /** `From<RepositoryInvitationPermissions> for Role`: an unknown permission is the default role. */
  function RoleFromInvitation(p: InvitationPermissions): (r: Role)
    ensures p == InvitationOther ==> r == DefaultRole
  {
    match p
    case InvitationRead => Read
    case InvitationTriage => Triage
    case InvitationWrite => Write
    case InvitationMaintain => Maintain
    case InvitationAdmin => Admin
    case InvitationOther => Read
  }

  /** `From<&Role> for RepositoryInvitationPermissions`: never the catch-all, and read back as the same role. */
  function InvitationOf(r: Role): (p: InvitationPermissions)
    ensures p != InvitationOther
    ensures RoleFromInvitation(p) == r
  {
    match r
    case Read => InvitationRead
    case Triage => InvitationTriage
    case Write => InvitationWrite
    case Maintain => InvitationMaintain
    case Admin => InvitationAdmin
  }

  /** The permission names of the "add or update team repository permissions" request. */
  datatype TeamRequestPermission = Pull | TriagePermission | Push | MaintainPermission | AdminPermission

  /** `From<&Role> for TeamsAddUpdateRepoPermissionsInOrgRequestPermission`: read is "pull", write is "push". */
  function TeamRequestOf(r: Role): (p: TeamRequestPermission)
    ensures p == Pull <==> r == Read
    ensures p == Push <==> r == Write
  {
    match r
    case Read => Pull
    case Triage => TriagePermission
    case Write => Push
    case Maintain => MaintainPermission
    case Admin => AdminPermission
  }

  /** Different roles ask for different team permissions. */
  lemma TeamRequestInjective(a: Role, b: Role)
    requires TeamRequestOf(a) == TeamRequestOf(b)
    ensures a == b
  {
  }

  // ------------------------------------------------------------- Visibility

  datatype Visibility = Internal | Private | Public

  /** `Visibility::default()`. */
  const DefaultVisibility := Public

  function VisibilityText(v: Visibility): string {
    match v
    case Internal => "internal"
    case Private => "private"
    case Public => "public"
  }

  /** `From<String> for Visibility`: the variant with that name, the default for any other text. */
  function VisibilityFromString(s: string): (v: Visibility)
    ensures forall x :: VisibilityText(x) == s ==> v == x
    ensures (forall x :: VisibilityText(x) != s) ==> v == DefaultVisibility
  {
    if s == "internal" then assert VisibilityText(Internal) == s; Internal
    else if s == "private" then assert VisibilityText(Private) == s; Private
    else Public
  }

  /** `from(v.to_string()) == v`. */
  lemma VisibilityRoundTrip(v: Visibility)
    ensures VisibilityFromString(VisibilityText(v)) == v
  {
  }

  // ---------------------------------------------------------------- Entities

  /** A repository: who has access with which role, and its visibility. */
  datatype Repository = Repository(
    name: string,
    collaborators: Option<map<string, Role>>,
    teams: Option<map<string, Role>>,
    visibility: Option<Visibility>)

  /** The service's state. */
  datatype State = State(directory: CD.Directory, repositories: seq<Repository>)

  datatype RepositoryChange =
    | RepositoryAdded(repo: Repository)
    | TeamAdded(repoName: string, teamName: string, role: Role)
    | TeamRemoved(repoName: string, teamName: string)
    | TeamRoleUpdated(repoName: string, teamName: string, role: Role)
    | CollaboratorAdded(repoName: string, userName: string, role: Role)
    | CollaboratorRemoved(repoName: string, userName: string)
    | CollaboratorRoleUpdated(repoName: string, userName: string, role: Role)
    | VisibilityUpdated(repoName: string, visibility: Visibility)

  /** The changes between two states. */
  datatype Changes = Changes(directory: seq<CD.DirectoryChange>, repositories: seq<RepositoryChange>)

  function RepoNameOf(r: Repository): string { r.name }

  /** `old.iter().map(|r| (&r.name, r)).collect()`. */
  function RepoMap(rs: seq<Repository>): (m: map<string, Repository>)
    ensures m.Keys == set r | r in rs :: r.name
    ensures forall k :: k in m ==> m[k].name == k && m[k] in rs
  {
    LastWins(rs, RepoNameOf)
  }

  /** The teams of a repository; `None` counts as none. */
  function TeamsOf(r: Repository): map<string, Role> {
    r.teams.UnwrapOr(map[])
  }

  /** The collaborators of a repository; `None` counts as none. */
  function CollaboratorsOf(r: Repository): map<string, Role> {
    r.collaborators.UnwrapOr(map[])
  }

  /** `collection.get(name).cloned().unwrap_or_default()`. */
  function RoleIn(m: map<string, Role>, name: string): (r: Role)
    ensures name in m ==> r == m[name]
    ensures name !in m ==> r == DefaultRole
  {
    if name in m then m[name] else Read
  }

  /** The id a repository goes by in error messages: its name, or its index when the name is empty. */
  function RepoId(repo: Repository, i: nat): (id: string)
    ensures repo.name != "" ==> id == repo.name
    ensures repo.name == "" ==> id == NatToString(i)
  {
    if repo.name == "" then NatToString(i) else repo.name
  }

  // ------------------------------------------------- What a repository diff holds

  /** The two maps `repositories_diff` works on. */
  datatype RepoMaps = RepoMaps(reposOld: map<string, Repository>, reposNew: map<string, Repository>)

  function RepoMapsOf(o: seq<Repository>, n: seq<Repository>): (rm: RepoMaps)
    ensures rm.reposOld == RepoMap(o) && rm.reposNew == RepoMap(n)
  {
    RepoMaps(RepoMap(o), RepoMap(n))
  }

  /** Each entry sits under its own name, as `RepoMap` builds them. */
  ghost predicate Consistent(rm: RepoMaps) {
    forall x :: x in rm.reposNew ==> rm.reposNew[x].name == x
  }

  /** A change of a repository present in both lists, between its old record `ro` and new record `rn`. */
  ghost predicate RepoChange(ro: Repository, rn: Repository, c: RepositoryChange) {
    var to, tn, co, cn := TeamsOf(ro), TeamsOf(rn), CollaboratorsOf(ro), CollaboratorsOf(rn);
    match c
    case TeamRemoved(_, t) => t in to && t !in tn
    case TeamAdded(_, t, role) => t in tn && t !in to && role == tn[t]
    case TeamRoleUpdated(_, t, role) => t in to && t in tn && to[t] != tn[t] && role == tn[t]
    case CollaboratorRemoved(_, u) => u in co && u !in cn
    case CollaboratorAdded(_, u, role) => u in cn && u !in co && role == cn[u]
    case CollaboratorRoleUpdated(_, u, role) => u in co && u in cn && co[u] != cn[u] && role == cn[u]
    case VisibilityUpdated(_, v) => ro.visibility != rn.visibility && v == rn.visibility.UnwrapOr(DefaultVisibility)
    case RepositoryAdded(_) => false
  }

  /** The changes a diff over these maps must report, and no others. */
  ghost predicate Expected(rm: RepoMaps, c: RepositoryChange) {
    match c
    case RepositoryAdded(repo) =>
      repo.name in rm.reposNew && repo.name !in rm.reposOld && rm.reposNew[repo.name] == repo
    case _ =>
      c.repoName in rm.reposOld && c.repoName in rm.reposNew
      && RepoChange(rm.reposOld[c.repoName], rm.reposNew[c.repoName], c)
  }

  /** Category of a change: added repositories first, then the changes of common repositories. */
  function Rank(c: RepositoryChange): (k: int)
    ensures 0 <= k <= 1
    ensures k == 0 <==> c.RepositoryAdded?
  {
    if c.RepositoryAdded? then 0 else 1
  }

  /** The repository a change of a common repository belongs to. */
  function RepoKey(c: RepositoryChange): (k: Option<string>)
    ensures k.Some? <==> Rank(c) == 1
    ensures k.Some? ==> k.value == c.repoName
  {
    if c.RepositoryAdded? then None else Some(c.repoName)
  }

  /** Order of the kinds within one repository. */
  function Sub(c: RepositoryChange): (k: int)
    ensures 0 <= k <= 6
  {
    match c
    case TeamRemoved(_, _) => 0
    case TeamAdded(_, _, _) => 1
    case TeamRoleUpdated(_, _, _) => 2
    case CollaboratorRemoved(_, _) => 3
    case CollaboratorAdded(_, _, _) => 4
    case CollaboratorRoleUpdated(_, _, _) => 5
    case VisibilityUpdated(_, _) => 6
    case RepositoryAdded(_) => 0
  }

  /** The team or user a team or collaborator change is about. */
  function Grantee(c: RepositoryChange): string {
    match c
    case TeamRemoved(_, t) => t
    case TeamAdded(_, t, _) => t
    case TeamRoleUpdated(_, t, _) => t
    case CollaboratorRemoved(_, u) => u
    case CollaboratorAdded(_, u, _) => u
    case CollaboratorRoleUpdated(_, u, _) => u
    case _ => ""
  }

  /** The role a change carries; the default role for the ones that carry none. */
  function RoleOf(c: RepositoryChange): Role {
    match c
    case TeamAdded(_, _, r) => r
    case TeamRoleUpdated(_, _, r) => r
    case CollaboratorAdded(_, _, r) => r
    case CollaboratorRoleUpdated(_, _, r) => r
    case _ => DefaultRole
  }

  /**
   * A valid result of `repositories_diff`: every expected change exactly
   * once and nothing else; added repositories first; the changes of one
   * repository together, in the kind order of `Sub`.
   */
  ghost predicate IsRepoDiff(o: seq<Repository>, n: seq<Repository>, changes: seq<RepositoryChange>) {
    && NoDup(changes)
    && (forall c :: c in changes <==> Expected(RepoMapsOf(o, n), c))
    && SortedBy(changes, Rank)
    && Grouped(changes, RepoKey)
    && SortedWithin(changes, RepoKey, Sub)
  }

  /** The order facts of a stretch of a diff holding the categories `lo..hi`. */
  ghost predicate Shape(p: seq<RepositoryChange>, lo: int, hi: int) {
    && NoDup(p)
    && (forall i :: 0 <= i < |p| ==> lo <= Rank(p[i]) <= hi)
    && SortedBy(p, Rank)
    && Grouped(p, RepoKey)
    && SortedWithin(p, RepoKey, Sub)
  }

  /** A stretch holding exactly the expected changes of the categories `lo..hi`. */
  ghost predicate Part(p: seq<RepositoryChange>, rm: RepoMaps, lo: int, hi: int) {
    && Shape(p, lo, hi)
    && (forall c :: c in p <==> lo <= Rank(c) <= hi && Expected(rm, c))
  }

  lemma Join(a: seq<RepositoryChange>, b: seq<RepositoryChange>, rm: RepoMaps)
    requires Part(a, rm, 0, 0) && Part(b, rm, 1, 1)
    ensures Part(a + b, rm, 0, 1)
  {
    forall i, j | 0 <= i < |a| && 0 <= j < |b| ensures a[i] != b[j] && Rank(a[i]) <= Rank(b[j]) {
      assert Rank(a[i]) == 0 && Rank(b[j]) == 1;
    }
    NoDupConcat(a, b);
    SortedConcat(a, b, Rank);
    forall i | 0 <= i < |a| ensures RepoKey(a[i]).None? {
      assert Rank(a[i]) == 0;
    }
    GroupedConcat(a, b, RepoKey);
    SortedWithinConcat(a, b, RepoKey, Sub);
    var c := a + b;
    forall i | 0 <= i < |c| ensures 0 <= Rank(c[i]) <= 1 {
      if i < |a| { assert c[i] == a[i]; } else { assert c[i] == b[i - |a|]; }
    }
  }

  // ------------------------------------------------------ Added repositories

  lemma AddedPart(rm: RepoMaps, xs: seq<string>, p: seq<RepositoryChange>)
    requires Consistent(rm)
    requires NoDup(xs) && Elems(xs) == rm.reposNew.Keys - rm.reposOld.Keys
    requires |p| == |xs|
    requires forall j :: 0 <= j < |xs| ==> xs[j] in rm.reposNew && p[j] == RepositoryAdded(rm.reposNew[xs[j]])
    ensures Part(p, rm, 0, 0)
  {
    forall i, j | 0 <= i < j < |p| ensures p[i] != p[j] {
      assert p[i].repo.name == xs[i] && p[j].repo.name == xs[j];
    }
    forall j | 0 <= j < |p| ensures Expected(rm, p[j]) {
      assert xs[j] in Elems(xs);
    }
    forall c | Rank(c) == 0 && Expected(rm, c) ensures c in p {
      assert c.repo.name in Elems(xs);
      var j :| 0 <= j < |xs| && xs[j] == c.repo.name;
      assert p[j] == c;
    }
    assert forall i :: 0 <= i < |p| ==> RepoKey(p[i]).None?;
  }

  /** The loop of `repositories_diff` pushing `RepositoryAdded` with the new record of each name in `added`. */
  method PushAdded(reposNew: map<string, Repository>, added: seq<string>) returns (r: seq<RepositoryChange>)
    requires Elems(added) <= reposNew.Keys
    ensures |r| == |added|
    ensures forall j :: 0 <= j < |added| ==> added[j] in reposNew && r[j] == RepositoryAdded(reposNew[added[j]])
  {
    r := [];
    for i := 0 to |added|
      invariant |r| == i
      invariant forall j :: 0 <= j < i ==> added[j] in reposNew && r[j] == RepositoryAdded(reposNew[added[j]])
    {
      assert added[i] in Elems(added);
      r := r + [RepositoryAdded(reposNew[added[i]])];
    }
  }

  /** `RepositoryAdded` for each name only in the new map, in the order of a hash set. */
  method AddedChanges(rm: RepoMaps) returns (changes: seq<RepositoryChange>)
    requires Consistent(rm)
    ensures Part(changes, rm, 0, 0)
  {
    var added := Enumerate(rm.reposNew.Keys - rm.reposOld.Keys);
    changes := PushAdded(rm.reposNew, added);
    AddedPart(rm, added, changes);
  }

  // ------------------------------------------------ Changes of one repository

  /** The access map a kind of change (0 to 2 teams, 3 to 5 collaborators) is about. */
  function AccessOf(r: Repository, kind: int): map<string, Role> {
    if kind < 3 then TeamsOf(r) else CollaboratorsOf(r)
  }

  /** The team or collaborator change of kind `kind` (0 to 5, in `Sub` order) of `name` in repository `repo`. */
  function MkAccess(kind: nat, repo: string, name: string, role: Role): (c: RepositoryChange)
    ensures kind < 6 ==> RepoKey(c) == Some(repo) && Sub(c) == kind && Grantee(c) == name
    ensures kind < 6 && kind % 3 != 0 ==> RoleOf(c) == role
  {
    if kind == 0 then TeamRemoved(repo, name)
    else if kind == 1 then TeamAdded(repo, name, role)
    else if kind == 2 then TeamRoleUpdated(repo, name, role)
    else if kind == 3 then CollaboratorRemoved(repo, name)
    else if kind == 4 then CollaboratorAdded(repo, name, role)
    else CollaboratorRoleUpdated(repo, name, role)
  }

  /** A team or collaborator change is determined by its repository, kind, name and role. */
  lemma MkAccessOf(c: RepositoryChange)
    requires RepoKey(c).Some? && Sub(c) < 6
    ensures c == MkAccess(Sub(c), RepoKey(c).value, Grantee(c), RoleOf(c))
  {
  }

  /** The changes of kind `kind` of repository `repo` for the names `xs`, with their roles looked up in `m`. */
  function KindChanges(kind: nat, repo: string, xs: seq<string>, m: map<string, Role>): (p: seq<RepositoryChange>)
    ensures |p| == |xs|
    ensures forall j :: 0 <= j < |xs| ==> p[j] == MkAccess(kind, repo, xs[j], RoleIn(m, xs[j]))
  {
    if xs == [] then [] else [MkAccess(kind, repo, xs[0], RoleIn(m, xs[0]))] + KindChanges(kind, repo, xs[1..], m)
  }

  /** The names one kind of change is about. */
  ghost function Moved(kind: int, ro: Repository, rn: Repository): set<string> {
    var mo, mn := AccessOf(ro, kind), AccessOf(rn, kind);
    if kind % 3 == 0 then mo.Keys - mn.Keys
    else if kind % 3 == 1 then mn.Keys - mo.Keys
    else set x | x in mn && x in mo && mo[x] != mn[x]
  }

  /** Team and collaborator changes, read kind by kind. */
  lemma RepoChangeByKind(ro: Repository, rn: Repository, c: RepositoryChange)
    requires RepoKey(c).Some? && Sub(c) < 6
    ensures RepoChange(ro, rn, c) <==>
      Grantee(c) in Moved(Sub(c), ro, rn) && (Sub(c) % 3 != 0 ==> RoleOf(c) == RoleIn(AccessOf(rn, Sub(c)), Grantee(c)))
  {
  }

  /** The visibility change of repository `repo`, if its visibility changed; `None` differs from `Some(Public)`. */
  function VisPart(repo: string, ro: Repository, rn: Repository): (p: seq<RepositoryChange>)
    ensures |p| <= 1
  {
    if ro.visibility != rn.visibility then [VisibilityUpdated(repo, rn.visibility.UnwrapOr(DefaultVisibility))] else []
  }

  /** Changes of repository `repo`, without repeats, of the kinds `lo` to `hi - 1`, in kind order. */
  ghost predicate BlockRange(p: seq<RepositoryChange>, repo: string, lo: int, hi: int) {
    && NoDup(p)
    && AllKey(p, RepoKey, repo)
    && SortedBy(p, Sub)
    && (forall i :: 0 <= i < |p| ==> lo <= Sub(p[i]) < hi)
  }

  lemma AddRange(a: seq<RepositoryChange>, b: seq<RepositoryChange>, repo: string, lo: int, mid: int, hi: int)
    requires lo <= mid <= hi
    requires BlockRange(a, repo, lo, mid) && BlockRange(b, repo, mid, hi)
    ensures BlockRange(a + b, repo, lo, hi)
  {
    forall i, j | 0 <= i < |a| && 0 <= j < |b| ensures a[i] != b[j] && Sub(a[i]) <= Sub(b[j]) {
      assert Sub(a[i]) < mid <= Sub(b[j]);
    }
    NoDupConcat(a, b);
    SortedConcat(a, b, Sub);
    var c := a + b;
    forall i | 0 <= i < |c| ensures RepoKey(c[i]) == Some(repo) && lo <= Sub(c[i]) < hi {
      if i < |a| { assert c[i] == a[i]; } else { assert c[i] == b[i - |a|]; }
    }
  }

  lemma KindShape(xs: seq<string>, repo: string, kind: nat, m: map<string, Role>)
    requires kind < 6 && NoDup(xs)
    ensures BlockRange(KindChanges(kind, repo, xs, m), repo, kind, kind + 1)
  {
    var p := KindChanges(kind, repo, xs, m);
    forall i, j | 0 <= i < j < |p| ensures p[i] != p[j] {
      assert Grantee(p[i]) == xs[i] && Grantee(p[j]) == xs[j];
    }
  }

  lemma KindElems(xs: seq<string>, repo: string, kind: nat, ro: Repository, rn: Repository)
    requires kind < 6 && Elems(xs) == Moved(kind, ro, rn)
    ensures forall c :: c in KindChanges(kind, repo, xs, AccessOf(rn, kind)) <==>
      RepoKey(c) == Some(repo) && Sub(c) == kind && RepoChange(ro, rn, c)
  {
    var m := AccessOf(rn, kind);
    var p := KindChanges(kind, repo, xs, m);
    forall c | RepoKey(c) == Some(repo) && Sub(c) == kind && RepoChange(ro, rn, c) ensures c in p {
      RepoChangeByKind(ro, rn, c);
      MkAccessOf(c);
      var j :| 0 <= j < |xs| && xs[j] == Grantee(c);
      assert p[j] == MkAccess(kind, repo, xs[j], RoleIn(m, xs[j]));
    }
    forall c | c in p ensures RepoKey(c) == Some(repo) && Sub(c) == kind && RepoChange(ro, rn, c) {
      var j :| 0 <= j < |p| && p[j] == c;
      assert xs[j] in Elems(xs);
      RepoChangeByKind(ro, rn, c);
    }
  }

  lemma VisFacts(repo: string, ro: Repository, rn: Repository)
    ensures BlockRange(VisPart(repo, ro, rn), repo, 6, 7)
    ensures forall c :: c in VisPart(repo, ro, rn) <==> RepoKey(c) == Some(repo) && Sub(c) == 6 && RepoChange(ro, rn, c)
  {
  }

  /** The team changes (`base` 0) or collaborator changes (`base` 3) of repository `repo`: removed, added, role updated. */
  ghost function AccessBlock(base: nat, repo: string, xsR: seq<string>, xsA: seq<string>, xsU: seq<string>, rn: Repository): seq<RepositoryChange> {
    KindChanges(base, repo, xsR, AccessOf(rn, base))
    + KindChanges(base + 1, repo, xsA, AccessOf(rn, base + 1))
    + KindChanges(base + 2, repo, xsU, AccessOf(rn, base + 2))
  }

  lemma AccessBlockShape(base: nat, repo: string, xsR: seq<string>, xsA: seq<string>, xsU: seq<string>, rn: Repository)
    requires base == 0 || base == 3
    requires NoDup(xsR) && NoDup(xsA) && NoDup(xsU)
    ensures BlockRange(AccessBlock(base, repo, xsR, xsA, xsU, rn), repo, base, base + 3)
  {
    var p0 := KindChanges(base, repo, xsR, AccessOf(rn, base));
    var p1 := KindChanges(base + 1, repo, xsA, AccessOf(rn, base + 1));
    var p2 := KindChanges(base + 2, repo, xsU, AccessOf(rn, base + 2));
    KindShape(xsR, repo, base, AccessOf(rn, base));
    KindShape(xsA, repo, base + 1, AccessOf(rn, base + 1));
    KindShape(xsU, repo, base + 2, AccessOf(rn, base + 2));
    ThreeRange(p0, p1, p2, repo, base);
  }

  /** Three consecutive one-kind stretches of one repository make one stretch. */
  lemma ThreeRange(p0: seq<RepositoryChange>, p1: seq<RepositoryChange>, p2: seq<RepositoryChange>, repo: string, base: int)
    requires BlockRange(p0, repo, base, base + 1) && BlockRange(p1, repo, base + 1, base + 2)
    requires BlockRange(p2, repo, base + 2, base + 3)
    ensures BlockRange(p0 + p1 + p2, repo, base, base + 3)
  {
    AddRange(p0, p1, repo, base, base + 1, base + 2);
    AddRange(p0 + p1, p2, repo, base, base + 2, base + 3);
  }

  lemma AccessBlockElems(base: nat, repo: string, xsR: seq<string>, xsA: seq<string>, xsU: seq<string>, ro: Repository, rn: Repository)
    requires base == 0 || base == 3
    requires Elems(xsR) == Moved(base, ro, rn) && Elems(xsA) == Moved(base + 1, ro, rn) && Elems(xsU) == Moved(base + 2, ro, rn)
    ensures forall c :: c in AccessBlock(base, repo, xsR, xsA, xsU, rn) <==>
      RepoKey(c) == Some(repo) && base <= Sub(c) < base + 3 && RepoChange(ro, rn, c)
  {
    KindElems(xsR, repo, base, ro, rn);
    KindElems(xsA, repo, base + 1, ro, rn);
    KindElems(xsU, repo, base + 2, ro, rn);
  }

  /** All changes of repository `repo`, kind by kind. */
  ghost function Block(repo: string, ro: Repository, rn: Repository,
                       xs0: seq<string>, xs1: seq<string>, xs2: seq<string>,
                       xs3: seq<string>, xs4: seq<string>, xs5: seq<string>): seq<RepositoryChange> {
    AccessBlock(0, repo, xs0, xs1, xs2, rn) + AccessBlock(3, repo, xs3, xs4, xs5, rn) + VisPart(repo, ro, rn)
  }

  lemma BlockShape(repo: string, ro: Repository, rn: Repository,
                   xs0: seq<string>, xs1: seq<string>, xs2: seq<string>,
                   xs3: seq<string>, xs4: seq<string>, xs5: seq<string>)
    requires NoDup(xs0) && NoDup(xs1) && NoDup(xs2) && NoDup(xs3) && NoDup(xs4) && NoDup(xs5)
    ensures BlockRange(Block(repo, ro, rn, xs0, xs1, xs2, xs3, xs4, xs5), repo, 0, 7)
  {
    var t, c := AccessBlock(0, repo, xs0, xs1, xs2, rn), AccessBlock(3, repo, xs3, xs4, xs5, rn);
    AccessBlockShape(0, repo, xs0, xs1, xs2, rn);
    AccessBlockShape(3, repo, xs3, xs4, xs5, rn);
    VisFacts(repo, ro, rn);
    AddRange(t, c, repo, 0, 3, 6);
    AddRange(t + c, VisPart(repo, ro, rn), repo, 0, 6, 7);
  }

  lemma BlockElems(repo: string, ro: Repository, rn: Repository,
                   xs0: seq<string>, xs1: seq<string>, xs2: seq<string>,
                   xs3: seq<string>, xs4: seq<string>, xs5: seq<string>)
    requires Elems(xs0) == Moved(0, ro, rn) && Elems(xs1) == Moved(1, ro, rn) && Elems(xs2) == Moved(2, ro, rn)
    requires Elems(xs3) == Moved(3, ro, rn) && Elems(xs4) == Moved(4, ro, rn) && Elems(xs5) == Moved(5, ro, rn)
    ensures forall c :: c in Block(repo, ro, rn, xs0, xs1, xs2, xs3, xs4, xs5) <==> RepoKey(c) == Some(repo) && RepoChange(ro, rn, c)
  {
    var t, co, v := AccessBlock(0, repo, xs0, xs1, xs2, rn), AccessBlock(3, repo, xs3, xs4, xs5, rn), VisPart(repo, ro, rn);
    AccessBlockElems(0, repo, xs0, xs1, xs2, ro, rn);
    AccessBlockElems(3, repo, xs3, xs4, xs5, ro, rn);
    VisFacts(repo, ro, rn);
    assert Block(repo, ro, rn, xs0, xs1, xs2, xs3, xs4, xs5) == t + co + v;
  }

  /** One of the added/removed loops: a change of kind `kind` per name, in order, its role looked up in `m`. */
  method PushKind(block: seq<RepositoryChange>, kind: nat, repo: string, xs: seq<string>, m: map<string, Role>)
    returns (r: seq<RepositoryChange>)
    ensures r == block + KindChanges(kind, repo, xs, m)
  {
    r := block;
    for i := 0 to |xs|
      invariant |r| == |block| + i && r[..|block|] == block
      invariant forall j :: 0 <= j < i ==> r[|block| + j] == MkAccess(kind, repo, xs[j], RoleIn(m, xs[j]))
    {
      r := r + [MkAccess(kind, repo, xs[i], RoleIn(m, xs[i]))];
    }
  }

  /** `name` is in both maps with different roles. */
  ghost predicate RoleChanged(mo: map<string, Role>, mn: map<string, Role>, name: string) {
    name in mo && name in mn && mo[name] != mn[name]
  }

  lemma RoleUpdatedResult(kind: nat, repo: string, keys: seq<string>, mo: map<string, Role>, mn: map<string, Role>,
                          r: seq<RepositoryChange>, picked: seq<string>)
    requires Elems(keys) == mn.Keys
    requires |r| == |picked|
    requires forall j :: 0 <= j < |picked| ==> r[j] == MkAccess(kind, repo, picked[j], RoleIn(mn, picked[j]))
    requires forall j :: 0 <= j < |picked| ==> RoleChanged(mo, mn, picked[j])
    requires forall j :: 0 <= j < |keys| && RoleChanged(mo, mn, keys[j]) ==> keys[j] in picked
    ensures r == KindChanges(kind, repo, picked, mn)
    ensures Elems(picked) == set x | x in mn && x in mo && mo[x] != mn[x]
  {
    forall x | x in mn && x in mo && mo[x] != mn[x] ensures x in Elems(picked) {
      assert x in Elems(keys);
      var j :| 0 <= j < |keys| && keys[j] == x;
      assert RoleChanged(mo, mn, keys[j]);
    }
    forall x | x in Elems(picked) ensures x in mn && x in mo && mo[x] != mn[x] {
      var j :| 0 <= j < |picked| && picked[j] == x;
      assert RoleChanged(mo, mn, picked[j]);
    }
  }

  /**
   * The role-update loop: over the names of the new map, skipping those not
   * in the old one, a change of kind `kind` for each name whose role differs.
   * `picked` are the names that got one, in order.
   */
  method PushRoleUpdated(kind: nat, repo: string, keys: seq<string>, mo: map<string, Role>, mn: map<string, Role>)
    returns (r: seq<RepositoryChange>, ghost picked: seq<string>)
    requires NoDup(keys) && Elems(keys) == mn.Keys
    ensures r == KindChanges(kind, repo, picked, mn)
    ensures NoDup(picked) && Elems(picked) == set x | x in mn && x in mo && mo[x] != mn[x]
  {
    r := [];
    picked := [];
    for i := 0 to |keys|
      invariant |r| == |picked|
      invariant forall j :: 0 <= j < |picked| ==> r[j] == MkAccess(kind, repo, picked[j], RoleIn(mn, picked[j]))
      invariant NoDup(picked)
      invariant forall j :: 0 <= j < |picked| ==> RoleChanged(mo, mn, picked[j]) && picked[j] in keys[..i]
      invariant forall j :: 0 <= j < i && RoleChanged(mo, mn, keys[j]) ==> keys[j] in picked
    {
      var name := keys[i];
      assert keys[..i + 1] == keys[..i] + [name];
      assert name !in keys[..i] by {
        forall j | 0 <= j < i ensures keys[..i][j] != name { assert keys[j] != keys[i]; }
      }
      assert name in Elems(keys);
      if name !in mo {
        // a new name: its addition carries the role
        continue;
      }
      var roleNew := RoleIn(mn, name);
      var roleOld := RoleIn(mo, name);
      if roleNew != roleOld {
        r := r + [MkAccess(kind, repo, name, roleNew)];
        NoDupConcat(picked, [name]);
        picked := picked + [name];
      }
    }
    RoleUpdatedResult(kind, repo, keys, mo, mn, r, picked);
  }

  /**
   * The team changes (`base` 0) or the collaborator changes (`base` 3) of
   * one repository: removed names, added names with their new role, then
   * common names whose role changed, with the new role.
   */
  method AccessChanges(base: nat, repo: string, ro: Repository, rn: Repository)
    returns (r: seq<RepositoryChange>, ghost xsR: seq<string>, ghost xsA: seq<string>, ghost xsU: seq<string>)
    requires base == 0 || base == 3
    ensures r == AccessBlock(base, repo, xsR, xsA, xsU, rn)
    ensures NoDup(xsR) && NoDup(xsA) && NoDup(xsU)
    ensures Elems(xsR) == Moved(base, ro, rn) && Elems(xsA) == Moved(base + 1, ro, rn) && Elems(xsU) == Moved(base + 2, ro, rn)
  {
    var mo, mn := AccessOf(ro, base), AccessOf(rn, base);
    var namesOld, namesNew := mo.Keys, mn.Keys;
    var removed := Enumerate(namesOld - namesNew);
    r := PushKind([], base, repo, removed, mn);
    var added := Enumerate(namesNew - namesOld);
    r := PushKind(r, base + 1, repo, added, mn);
    var keys := Enumerate(namesNew);
    var updated;
    updated, xsU := PushRoleUpdated(base + 2, repo, keys, mo, mn);
    r := r + updated;
    xsR, xsA := removed, added;
    assert [] + KindChanges(base, repo, removed, mn) == KindChanges(base, repo, removed, mn);
  }

  /** `VisibilityUpdated` with the new visibility (the default one when unset) when the two differ. */
  method VisibilityChange(repo: string, ro: Repository, rn: Repository) returns (r: seq<RepositoryChange>)
    ensures r == VisPart(repo, ro, rn)
  {
    var visibilityNew, visibilityOld := rn.visibility, ro.visibility;
    r := [];
    if visibilityNew != visibilityOld {
      var v := visibilityNew.UnwrapOr(DefaultVisibility);
      r := [VisibilityUpdated(repo, v)];
    }
  }

  lemma BlockFacts(repo: string, ro: Repository, rn: Repository,
                   xs0: seq<string>, xs1: seq<string>, xs2: seq<string>,
                   xs3: seq<string>, xs4: seq<string>, xs5: seq<string>)
    requires NoDup(xs0) && NoDup(xs1) && NoDup(xs2) && NoDup(xs3) && NoDup(xs4) && NoDup(xs5)
    requires Elems(xs0) == Moved(0, ro, rn) && Elems(xs1) == Moved(1, ro, rn) && Elems(xs2) == Moved(2, ro, rn)
    requires Elems(xs3) == Moved(3, ro, rn) && Elems(xs4) == Moved(4, ro, rn) && Elems(xs5) == Moved(5, ro, rn)
    ensures var block := Block(repo, ro, rn, xs0, xs1, xs2, xs3, xs4, xs5);
      && BlockRange(block, repo, 0, 7)
      && forall c :: c in block <==> RepoKey(c) == Some(repo) && RepoChange(ro, rn, c)
  {
    BlockShape(repo, ro, rn, xs0, xs1, xs2, xs3, xs4, xs5);
    BlockElems(repo, ro, rn, xs0, xs1, xs2, xs3, xs4, xs5);
  }

  /** All changes of a repository present in both lists, in the order `repositories_diff` pushes them. */
  method RepoBlock(repo: string, ro: Repository, rn: Repository) returns (block: seq<RepositoryChange>)
    ensures BlockRange(block, repo, 0, 7)
    ensures forall c :: c in block <==> RepoKey(c) == Some(repo) && RepoChange(ro, rn, c)
  {
    var teams, xs0, xs1, xs2 := AccessChanges(0, repo, ro, rn);
    var collaborators, xs3, xs4, xs5 := AccessChanges(3, repo, ro, rn);
    var visibility := VisibilityChange(repo, ro, rn);
    block := teams + collaborators + visibility;
    BlockFacts(repo, ro, rn, xs0, xs1, xs2, xs3, xs4, xs5);
  }

  // ------------------------------------------------------ Common repositories

  /** The changes collected for the repository names `done`, each in both maps. */
  ghost predicate CommonSoFar(m: seq<RepositoryChange>, rm: RepoMaps, done: seq<string>) {
    && NoDup(m)
    && AllRank(m, Rank, 1)
    && Grouped(m, RepoKey)
    && SortedWithin(m, RepoKey, Sub)
    && (forall j :: 0 <= j < |m| ==> RepoKey(m[j]).Some? && RepoKey(m[j]).value in done)
    && (forall c :: c in m <==> Rank(c) == 1 && Expected(rm, c) && RepoKey(c).value in done)
  }

  lemma CommonStepShape(m: seq<RepositoryChange>, block: seq<RepositoryChange>, done: seq<string>, repo: string)
    requires repo !in done
    requires NoDup(m) && AllRank(m, Rank, 1) && Grouped(m, RepoKey) && SortedWithin(m, RepoKey, Sub)
    requires forall j :: 0 <= j < |m| ==> RepoKey(m[j]).Some? && RepoKey(m[j]).value in done
    requires BlockRange(block, repo, 0, 7)
    ensures NoDup(m + block) && AllRank(m + block, Rank, 1) && Grouped(m + block, RepoKey) && SortedWithin(m + block, RepoKey, Sub)
    ensures forall j :: 0 <= j < |m + block| ==> RepoKey((m + block)[j]).Some? && RepoKey((m + block)[j]).value in done + [repo]
  {
    forall i, j | 0 <= i < |m| && 0 <= j < |block| ensures m[i] != block[j] && RepoKey(m[i]) != RepoKey(block[j]) {
      assert RepoKey(m[i]).value in done;
    }
    NoDupConcat(m, block);
    GroupedConcat(m, block, RepoKey);
    assert SortedWithin(block, RepoKey, Sub);
    SortedWithinConcat(m, block, RepoKey, Sub);
    var mb := m + block;
    forall j | 0 <= j < |mb| ensures RepoKey(mb[j]).Some? && RepoKey(mb[j]).value in done + [repo] && Rank(mb[j]) == 1 {
      if j < |m| { assert mb[j] == m[j]; } else { assert mb[j] == block[j - |m|]; }
    }
  }

  lemma CommonStep(m: seq<RepositoryChange>, block: seq<RepositoryChange>, rm: RepoMaps, keys: seq<string>, i: nat)
    requires NoDup(keys) && i < |keys|
    requires CommonSoFar(m, rm, keys[..i])
    requires keys[i] in rm.reposOld && keys[i] in rm.reposNew
    requires BlockRange(block, keys[i], 0, 7)
    requires forall c :: c in block <==> RepoKey(c) == Some(keys[i]) && RepoChange(rm.reposOld[keys[i]], rm.reposNew[keys[i]], c)
    ensures CommonSoFar(m + block, rm, keys[..i + 1])
  {
    var repo := keys[i];
    assert keys[..i + 1] == keys[..i] + [repo];
    assert repo !in keys[..i] by {
      forall j | 0 <= j < i ensures keys[..i][j] != repo { assert keys[j] != keys[i]; }
    }
    CommonStepShape(m, block, keys[..i], repo);
  }

  /** The changes of every repository present in both maps, repository by repository. */
  method CommonChanges(rm: RepoMaps) returns (m: seq<RepositoryChange>)
    ensures Part(m, rm, 1, 1)
  {
    var reposOld, reposNew := rm.reposOld, rm.reposNew;
    var keys := Enumerate(reposNew.Keys);
    m := [];
    for i := 0 to |keys|
      invariant CommonSoFar(m, rm, keys[..i])
    {
      var repo := keys[i];
      assert keys[..i + 1] == keys[..i] + [repo];
      assert repo in Elems(keys);
      if repo !in reposOld {
        // a new repository: `RepositoryAdded` carries all of it
        continue;
      }
      var block := RepoBlock(repo, reposOld[repo], reposNew[repo]);
      CommonStep(m, block, rm, keys, i);
      m := m + block;
    }
    assert keys[..|keys|] == keys;
    forall c | Rank(c) == 1 && Expected(rm, c) ensures c in m {
      assert RepoKey(c).value in Elems(keys);
    }
  }

  /** `State::repositories_diff`: the repository changes that turn `o` into `n`. */
  method RepositoriesDiff(o: seq<Repository>, n: seq<Repository>) returns (changes: seq<RepositoryChange>)
    ensures IsRepoDiff(o, n, changes)
  {
    var rm := RepoMapsOf(o, n);
    var added := AddedChanges(rm);
    var common := CommonChanges(rm);
    Join(added, common, rm);
    changes := added + common;
  }

  // ------------------------------------------------ Properties of a repository diff

  /** Comparing a list of repositories with itself reports nothing. */
  lemma SelfDiffEmpty(rs: seq<Repository>, changes: seq<RepositoryChange>)
    requires IsRepoDiff(rs, rs, changes)
    ensures changes == []
  {
    var rm := RepoMapsOf(rs, rs);
    forall c ensures c !in changes {
      if !c.RepositoryAdded? && c.repoName in rm.reposOld {
        var r := rm.reposOld[c.repoName];
        assert !RepoChange(r, r, c);
      }
    }
    NoMemberEmpty(changes);
  }

  /** Any two valid diffs of the same lists hold the same changes, each once: they differ only in order. */
  lemma DiffUnique(o: seq<Repository>, n: seq<Repository>, a: seq<RepositoryChange>, b: seq<RepositoryChange>)
    requires IsRepoDiff(o, n, a) && IsRepoDiff(o, n, b)
    ensures multiset(a) == multiset(b)
  {
    forall x ensures multiset(a)[x] == multiset(b)[x] {
      NoDupCount(a, x);
      NoDupCount(b, x);
    }
  }

  /** A repository that only the old list holds is not removed: no change is about it. */
  lemma OldOnlyUntouched(o: seq<Repository>, n: seq<Repository>, changes: seq<RepositoryChange>, name: string)
    requires IsRepoDiff(o, n, changes)
    requires name in RepoMap(o) && name !in RepoMap(n)
    ensures forall c :: c in changes ==> RepoKey(c) != Some(name)
    ensures forall c :: c in changes && c.RepositoryAdded? ==> c.repo.name != name
  {
  }

  /** A repository only the new list holds is added exactly once, with its last definition, and nothing else is reported about it. */
  lemma AddedOnce(o: seq<Repository>, n: seq<Repository>, changes: seq<RepositoryChange>, name: string)
    requires IsRepoDiff(o, n, changes)
    requires name in RepoMap(n) && name !in RepoMap(o)
    ensures multiset(changes)[RepositoryAdded(RepoMap(n)[name])] == 1
    ensures forall c :: c in changes ==> RepoKey(c) != Some(name)
    ensures forall c :: c in changes && c.RepositoryAdded? && c.repo.name == name ==> c.repo == RepoMap(n)[name]
  {
    NoDupCount(changes, RepositoryAdded(RepoMap(n)[name]));
  }

  /**
   * A team (or a collaborator) of a common repository gets at most one
   * change: it is removed, added or has its role updated, never two of these.
   */
  lemma OneChangePerGrantee(o: seq<Repository>, n: seq<Repository>, changes: seq<RepositoryChange>,
                            c: RepositoryChange, d: RepositoryChange)
    requires IsRepoDiff(o, n, changes)
    requires c in changes && d in changes
    requires !c.RepositoryAdded? && !d.RepositoryAdded? && !c.VisibilityUpdated? && !d.VisibilityUpdated?
    requires c.repoName == d.repoName && Grantee(c) == Grantee(d) && (Sub(c) < 3 <==> Sub(d) < 3)
    ensures c == d
  {
    var rm := RepoMapsOf(o, n);
    assert Expected(rm, c) && Expected(rm, d);
  }

  /**
   * Visibility is compared as written, not with its default: a repository
   * whose visibility goes from unset to public, or from public to unset,
   * reports a visibility update to public although the visibility GitHub
   * applies does not change.
   */
  lemma VisibilityUnsetVersusPublic(o: seq<Repository>, n: seq<Repository>, changes: seq<RepositoryChange>, name: string)
    requires IsRepoDiff(o, n, changes)
    requires name in RepoMap(o) && name in RepoMap(n)
    requires {RepoMap(o)[name].visibility, RepoMap(n)[name].visibility} == {None, Some(Public)}
    ensures VisibilityUpdated(name, Public) in changes
  {
    var rm := RepoMapsOf(o, n);
    assert Expected(rm, VisibilityUpdated(name, Public));
  }

  /** The directory changes `State::diff` keeps: every change that is not about a user. */
  function IsTeamChange(c: CD.DirectoryChange): (b: bool)
    ensures b <==> CD.Rank(c) <= 2
  {
    !(c.UserAdded? || c.UserRemoved? || c.UserUpdated?)
  }

  /**
   * `State::diff`: the team and membership changes of the directory diff,
   * in the directory diff's order, with the user changes dropped; and the
   * repository changes.
   */
  method StateDiff(o: State, n: State) returns (r: Changes)
    ensures CD.Part(r.directory, CD.KeyedOf(o.directory, n.directory), 0, 2)
    ensures forall i :: 0 <= i < |r.directory| ==> IsTeamChange(r.directory[i])
    ensures IsRepoDiff(o.repositories, n.repositories, r.repositories)
  {
    var full;
    ghost var split;
    full, split := CD.Diff(o.directory, n.directory);
    var directory := Filter(full, IsTeamChange);
    FilterPrefix(full, IsTeamChange, split);
    var repositories := RepositoriesDiff(o.repositories, n.repositories);
    r := Changes(directory, repositories);
  }
}
