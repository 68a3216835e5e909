/**
 * The first generation's team-only directory (src/directory.rs, loaded
 * from src/legacy.rs). Its changes are the team part of `OldDirectory`'s
 * diff, in the same order: added teams, removed teams, then per common team
 * maintainers added, maintainers removed, members added, members removed.
 * There are no user changes: `Change` has the six team variants only.
 */
module OldTeamDirectory {
  import opened Common
  import opened Errors
  import opened Collections
  import opened OldCfg
  import CD = CoreDirectory
  import OD = OldDirectory
  import OL = OldLegacy
  import OS = OldSheriff
  import OG = OldGithub

  /** A user profile; in this generation `languages` is a plain list. */
  datatype User = User(
    fullName: string,
    userName: Option<string>,
    email: Option<string>,
    imageUrl: Option<string>,
    bio: Option<string>,
    website: Option<string>,
    company: Option<string>,
    pronouns: Option<string>,
    location: Option<string>,
    slackId: Option<string>,
    linkedinUrl: Option<string>,
    twitterUrl: Option<string>,
    githubUrl: Option<string>,
    wechatUrl: Option<string>,
    youtubeUrl: Option<string>,
    languages: seq<string>,
    annotations: map<string, string>)

  /** Teams are the same records as the core's. */
  datatype Directory = Directory(teams: seq<CD.Team>, users: seq<User>)

  /** The six team variants of the directory change type. */
  predicate IsTeamChange(c: CD.DirectoryChange) {
    !c.UserAdded? && !c.UserRemoved? && !c.UserUpdated?
  }

  type Change = c: CD.DirectoryChange | IsTeamChange(c) witness CD.TeamRemoved("")

  /** The team maps `changes` works on (users play no part). */
  function TeamsKeyed(o: Directory, n: Directory): (km: CD.Keyed)
    ensures km.teamsOld == CD.TeamMap(CD.Directory(o.teams, [])) && km.teamsNew == CD.TeamMap(CD.Directory(n.teams, []))
    ensures km.usersOld == map[] && km.usersNew == map[]
  {
    CD.KeyedOf(CD.Directory(o.teams, []), CD.Directory(n.teams, []))
  }

  /**
   * A valid result of `changes`: every expected team change exactly once,
   * nothing else, added teams before removed teams before membership
   * changes, each team's membership changes together and in block order.
   */
  ghost predicate IsChanges(o: Directory, n: Directory, changes: seq<Change>) {
    OD.Part(changes, TeamsKeyed(o, n), 0, 2)
  }

  /**
   * `Directory::changes`. Its skip test is "listed among the added teams"
   * rather than "absent from the old map"; for a name of the new map the
   * two agree, so the team part of `OldDirectory`'s diff is this loop.
   */
  method Changes(o: Directory, n: Directory) returns (changes: seq<Change>)
    ensures IsChanges(o, n, changes)
  {
    var km := TeamsKeyed(o, n);
    ConsistentTeamsKeyed(o, n);
    var all := OD.TeamPart(km);
    TeamPartTeamsOnly(all, km);
    changes := all;
  }

  lemma ConsistentTeamsKeyed(o: Directory, n: Directory)
    ensures CD.Consistent(TeamsKeyed(o, n))
  {
  }

  /** The team part holds team changes only. */
  lemma TeamPartTeamsOnly(p: seq<CD.DirectoryChange>, km: CD.Keyed)
    requires OD.Part(p, km, 0, 2)
    ensures forall i :: 0 <= i < |p| ==> IsTeamChange(p[i])
  {
    forall i | 0 <= i < |p| ensures IsTeamChange(p[i]) {
      assert OD.OldRank(p[i]) <= 2;
    }
  }

  /** A directory compared with itself has no changes. */
  lemma SelfChangesEmpty(d: Directory, changes: seq<Change>)
    requires IsChanges(d, d, changes)
    ensures changes == []
  {
    forall c ensures !CD.Expected(TeamsKeyed(d, d), c) {
    }
    NoMemberEmpty(changes);
  }

  /** A team only in the new directory gets one `TeamAdded` with its (last) record and no membership change. */
  lemma NewTeamNoMembership(o: Directory, n: Directory, changes: seq<Change>, t: string)
    requires IsChanges(o, n, changes)
    requires t in TeamsKeyed(o, n).teamsNew && t !in TeamsKeyed(o, n).teamsOld
    ensures multiset(changes)[CD.TeamAdded(TeamsKeyed(o, n).teamsNew[t])] == 1
    ensures forall c :: c in changes ==> CD.TeamKey(c) != Some(t) && c != CD.TeamRemoved(t)
  {
    var km := TeamsKeyed(o, n);
    assert CD.Expected(km, CD.TeamAdded(km.teamsNew[t]));
    NoDupCount(changes, CD.TeamAdded(km.teamsNew[t]));
    forall c | c in changes ensures CD.TeamKey(c) != Some(t) && c != CD.TeamRemoved(t) {
      assert CD.Expected(km, c);
    }
  }

  /** Every `TeamAdded` precedes every `TeamRemoved`. */
  lemma AddedBeforeRemoved(o: Directory, n: Directory, changes: seq<Change>, i: nat, j: nat)
    requires IsChanges(o, n, changes)
    requires i < |changes| && j < |changes|
    requires changes[i].TeamAdded? && changes[j].TeamRemoved?
    ensures i < j
  {
    var ci, cj := changes[i], changes[j];
    assert OD.OldRank(ci) == 0 && OD.OldRank(cj) == 1;
  }

  // ---------------------------------------------------------------- Display

  /** One line per user: "\n\t\t- **user**". */
  function Bullets(users: seq<string>): (s: string)
    ensures users == [] <==> s == ""
  {
    if users == [] then "" else "\n\t\t- **" + users[0] + "**" + Bullets(users[1..])
  }

  /** A titled list of users, or nothing when there are none. */
  function Section(title: string, users: seq<string>): (s: string)
    ensures users == [] <==> s == ""
  {
    if users == [] then "" else "\n\t- " + title + Bullets(users)
  }

  /** The first line of a `TeamAdded` entry. */
  function AddedHeader(name: string): string {
    "- **" + name + "** has been *added*"
  }

  /** `impl Display for Change`: one markdown entry per change. */
  function Display(c: Change): string {
    match c
    case TeamAdded(team) => AddedHeader(team.name) + Section("Maintainers", team.maintainers) + Section("Members", team.members)
    case TeamRemoved(t) => "- **" + t + "** has been *removed*"
    case TeamMaintainerAdded(t, u) => "- **" + u + "** is now a maintainer of **" + t + "**"
    case TeamMaintainerRemoved(t, u) => "- **" + u + "** is no longer a maintainer of **" + t + "**"
    case TeamMemberAdded(t, u) => "- **" + u + "** is now a member of **" + t + "**"
    case TeamMemberRemoved(t, u) => "- **" + u + "** is no longer a member of **" + t + "**"
  }

  /** A `TeamAdded` entry starts with its header line and is only that line iff both user lists are empty. */
  lemma AddedSections(team: CD.Team)
    ensures StartsWith(Display(CD.TeamAdded(team)), AddedHeader(team.name))
    ensures Display(CD.TeamAdded(team)) == AddedHeader(team.name) <==> team.maintainers == [] && team.members == []
  {
    var h, ms, mb := AddedHeader(team.name), Section("Maintainers", team.maintainers), Section("Members", team.members);
    assert Display(CD.TeamAdded(team)) == h + ms + mb;
    assert (h + ms + mb)[..|h|] == h;
    assert |h + ms + mb| == |h| + |ms| + |mb|;
  }

  /** Bullets of two lists are the bullets of the first followed by those of the second. */
  lemma {:induction false} BulletsConcat(a: seq<string>, b: seq<string>)
    ensures Bullets(a + b) == Bullets(a) + Bullets(b)
  {
    if a == [] {
      assert a + b == b;
    } else {
      assert (a + b)[1..] == a[1..] + b;
      BulletsConcat(a[1..], b);
    }
  }

  /** A list of users renders one bullet per user, in order. */
  lemma BulletsOf(users: seq<string>, u: string)
    ensures Bullets(users + [u]) == Bullets(users) + "\n\t\t- **" + u + "**"
  {
    BulletsConcat(users, [u]);
  }

  // ------------------------------------------------------- Legacy conversion

  /** The image rule of `From<Cfg>`: a file name is looked up in the cncf/people images; an https URL is kept. */
  function UserFrom(u: OL.CncfUser): (r: User)
    ensures r.fullName == u.name && r.imageUrl == CD.ImageUrl(u.image) && r.languages == u.languages
    ensures r.userName.None? && r.annotations == map[]
    ensures r.githubUrl == u.github && r.email == u.email
  {
    User(
      fullName := u.name,
      userName := None,
      email := u.email,
      imageUrl := CD.ImageUrl(u.image),
      bio := u.bio,
      website := u.website,
      company := u.company,
      pronouns := u.pronouns,
      location := u.location,
      slackId := u.slackId,
      linkedinUrl := u.linkedin,
      twitterUrl := u.twitter,
      githubUrl := u.github,
      wechatUrl := u.wechat,
      youtubeUrl := u.youtube,
      languages := u.languages,
      annotations := map[])
  }

  /** `From<Cfg> for Directory`: a team per Sheriff team, a user per CNCF person, in file order. */
  function FromLegacy(cfg: OL.Cfg): (d: Directory)
    ensures |d.teams| == |cfg.sheriff| && forall i :: 0 <= i < |cfg.sheriff| ==> d.teams[i] == OD.TeamFrom(cfg.sheriff[i])
    ensures |d.users| == |cfg.cncf| && forall i :: 0 <= i < |cfg.cncf| ==> d.users[i] == UserFrom(cfg.cncf[i])
  {
    Directory(Map(cfg.sheriff, OD.TeamFrom), Map(cfg.cncf, UserFrom))
  }

  // ---------------------------------------------------------------- Loading

  const LegacyConfigInvalid := "invalid configuration (legacy format)"

  /** What `Directory::new` yields; the loader's `MultiError` becomes a context-less multi-error. */
  ghost function DirectoryFromConfig(cfg: Config, gh: OG.Gh, parsers: OL.Parsers, ref_: Option<string>): Result<Directory, Error>
    requires LegacyEnabled(cfg) ==> HasLegacyPaths(cfg)
  {
    if !LegacyEnabled(cfg) then Err(Message(CD.OnlyLegacyText))
    else
      var s := OL.GetSpec(cfg, gh, parsers, ref_);
      if s.Ok? then Ok(FromLegacy(s.value)) else Err(Context(LegacyConfigInvalid, Multi(None, s.error)))
  }

  /** `Directory::new`: fails unless the legacy format is enabled. */
  method New(cfg: Config, gh: OG.Gh, parsers: OL.Parsers, ref_: Option<string>) returns (r: Result<Directory, Error>)
    requires LegacyEnabled(cfg) ==> HasLegacyPaths(cfg)
    ensures r == DirectoryFromConfig(cfg, gh, parsers, ref_)
    ensures !LegacyEnabled(cfg) ==> r == Err(Message(CD.OnlyLegacyText))
    ensures r.Ok? <==> LegacyEnabled(cfg) && OL.GetSpec(cfg, gh, parsers, ref_).Ok?
  {
    if LegacyEnabled(cfg) {
      var legacy := OL.Get(cfg, gh, parsers, ref_);
      if legacy.Err? {
        return Err(Context(LegacyConfigInvalid, Multi(None, legacy.error.errors)));
      }
      return Ok(FromLegacy(legacy.value));
    }
    return Err(Message(CD.OnlyLegacyText));
  }
}
