/**
 * The first generation's directory (src/directory/mod.rs). Its entities and
 * change type are clowarden-core's (`CoreDirectory`); what differs is the
 * order `diff` emits the categories in: added teams, removed teams, per
 * common team maintainers added, maintainers removed, members added,
 * members removed, then added, removed and updated users. As in the core,
 * the order inside one category is hash order, so the contract fixes the
 * categories and says nothing about the order inside one.
 */
module OldDirectory {
  import opened Common
  import opened Errors
  import opened Collections
  import opened OldCfg
  import CD = CoreDirectory
  import CS = CoreServices
  import CDL = CoreDirectoryLegacy
  import OS = OldSheriff
  import OG = OldGithub
  import ODL = OldDirectoryLegacy

  // --------------------------------------------------------------- Ordering

  /** Category of a change, in the order this `diff` emits them. */
  function OldRank(c: CD.DirectoryChange): (k: int)
    ensures 0 <= k <= 5
    ensures k == 2 <==> CD.TeamKey(c).Some?
  {
    match c
    case TeamAdded(_) => 0
    case TeamRemoved(_) => 1
    case UserAdded(_) => 3
    case UserRemoved(_) => 4
    case UserUpdated(_) => 5
    case _ => 2
  }

  /** Order of the membership changes within one team. */
  function OldSub(c: CD.DirectoryChange): int {
    match c
    case TeamMaintainerAdded(_, _) => 0
    case TeamMaintainerRemoved(_, _) => 1
    case TeamMemberAdded(_, _) => 2
    case TeamMemberRemoved(_, _) => 3
    case _ => 0
  }

  /** The core kind (`CD.MkChange` numbering) pushed in position `pos` of a team's block. */
  function KindAt(pos: nat): (kind: nat)
    ensures kind < 4
  {
    if pos == 0 then 2 else if pos == 1 then 0 else if pos == 2 then 3 else 1
  }

  /**
   * A valid result of `diff`: every expected change exactly once and
   * nothing else; categories in this generation's order; the membership
   * changes of one team together, in block order.
   */
  ghost predicate IsDiff(o: CD.Directory, n: CD.Directory, changes: seq<CD.DirectoryChange>) {
    && NoDup(changes)
    && (forall c :: c in changes <==> CD.Expected(CD.KeyedOf(o, n), c))
    && SortedBy(changes, OldRank)
    && Grouped(changes, CD.TeamKey)
    && SortedWithin(changes, CD.TeamKey, OldSub)
  }

  /** The order facts of a stretch holding the categories `lo..hi`. */
  ghost predicate Shape(p: seq<CD.DirectoryChange>, lo: int, hi: int) {
    && NoDup(p)
    && (forall i :: 0 <= i < |p| ==> lo <= OldRank(p[i]) <= hi)
    && SortedBy(p, OldRank)
    && Grouped(p, CD.TeamKey)
    && SortedWithin(p, CD.TeamKey, OldSub)
  }

  /** A stretch holding exactly the expected changes of the categories `lo..hi`. */
  ghost predicate Part(p: seq<CD.DirectoryChange>, km: CD.Keyed, lo: int, hi: int) {
    && Shape(p, lo, hi)
    && (forall c :: c in p <==> lo <= OldRank(c) <= hi && CD.Expected(km, c))
  }

  // ------------------------------------------------------------ Part lemmas

  /** A category other than membership, listed once per name. */
  lemma {:induction false} SinglePart(p: seq<CD.DirectoryChange>, xs: seq<string>, km: CD.Keyed, k: int)
    requires k != 2
    requires NoDup(xs) && |p| == |xs|
    requires forall j :: 0 <= j < |p| ==> CD.NameOf(p[j]) == xs[j] && OldRank(p[j]) == k && CD.Expected(km, p[j])
    requires forall c :: OldRank(c) == k && CD.Expected(km, c) ==> CD.NameOf(c) in Elems(xs)
    ensures Part(p, km, k, k)
  {
    forall i, j | 0 <= i < j < |p| ensures p[i] != p[j] {
      assert xs[i] != xs[j];
    }
    forall c | OldRank(c) == k && CD.Expected(km, c) ensures c in p {
      var j :| 0 <= j < |xs| && xs[j] == CD.NameOf(c);
      CD.ExpectedByName(km, c, p[j]);
    }
    assert forall i :: 0 <= i < |p| ==> CD.TeamKey(p[i]).None?;
  }

  lemma JoinShape(a: seq<CD.DirectoryChange>, b: seq<CD.DirectoryChange>, lo: int, mid: int, hi: int)
    requires lo <= mid < hi
    requires Shape(a, lo, mid) && Shape(b, mid + 1, hi)
    ensures Shape(a + b, lo, hi)
  {
    forall i, j | 0 <= i < |a| && 0 <= j < |b| ensures a[i] != b[j] && OldRank(a[i]) <= OldRank(b[j]) {
      assert OldRank(a[i]) <= mid < OldRank(b[j]);
    }
    NoDupConcat(a, b);
    SortedConcat(a, b, OldRank);
    forall i, j | 0 <= i < |a| && 0 <= j < |b| && CD.TeamKey(a[i]).Some? ensures CD.TeamKey(a[i]) != CD.TeamKey(b[j]) {
      assert OldRank(a[i]) == 2 && OldRank(b[j]) > 2;
    }
    GroupedConcat(a, b, CD.TeamKey);
    SortedWithinConcat(a, b, CD.TeamKey, OldSub);
    var c := a + b;
    forall i | 0 <= i < |c| ensures lo <= OldRank(c[i]) <= hi {
      if i < |a| { assert c[i] == a[i]; } else { assert c[i] == b[i - |a|]; }
    }
  }

  /** Two consecutive stretches make one. */
  lemma Join(a: seq<CD.DirectoryChange>, b: seq<CD.DirectoryChange>, km: CD.Keyed, lo: int, mid: int, hi: int)
    requires lo <= mid < hi
    requires Part(a, km, lo, mid) && Part(b, km, mid + 1, hi)
    ensures Part(a + b, km, lo, hi)
  {
    JoinShape(a, b, lo, mid, hi);
  }

  // ------------------------------------------------------------ Team changes

  lemma TeamsAddedPart(km: CD.Keyed, xs: seq<string>, p: seq<CD.DirectoryChange>)
    requires CD.Consistent(km)
    requires NoDup(xs) && Elems(xs) == km.teamsNew.Keys - km.teamsOld.Keys
    requires |p| == |xs|
    requires forall j :: 0 <= j < |xs| ==> xs[j] in km.teamsNew && p[j] == CD.TeamAdded(km.teamsNew[xs[j]])
    ensures Part(p, km, 0, 0)
  {
    forall j | 0 <= j < |p| ensures CD.NameOf(p[j]) == xs[j] && OldRank(p[j]) == 0 && CD.Expected(km, p[j]) {
      assert xs[j] in Elems(xs);
    }
    SinglePart(p, xs, km, 0);
  }

  lemma TeamsRemovedPart(km: CD.Keyed, xs: seq<string>, p: seq<CD.DirectoryChange>)
    requires NoDup(xs) && Elems(xs) == km.teamsOld.Keys - km.teamsNew.Keys
    requires |p| == |xs|
    requires forall j :: 0 <= j < |xs| ==> p[j] == CD.TeamRemovedOf(xs[j])
    ensures Part(p, km, 1, 1)
  {
    forall j | 0 <= j < |p| ensures CD.NameOf(p[j]) == xs[j] && OldRank(p[j]) == 1 && CD.Expected(km, p[j]) {
      assert xs[j] in Elems(xs);
    }
    SinglePart(p, xs, km, 1);
  }

  /** `TeamAdded` with the new record for each name only in the new map, then `TeamRemoved` for each only in the old one. */
  method TeamChanges(km: CD.Keyed) returns (changes: seq<CD.DirectoryChange>)
    requires CD.Consistent(km)
    ensures Part(changes, km, 0, 1)
  {
    var teamsOld, teamsNew := km.teamsOld, km.teamsNew;
    var added := Enumerate(teamsNew.Keys - teamsOld.Keys);
    var none: seq<CD.DirectoryChange> := [];
    var addedPart := CD.PushTeamsAdded(none, teamsNew, added);
    forall j | 0 <= j < |added| ensures added[j] in km.teamsNew && addedPart[j] == CD.TeamAdded(km.teamsNew[added[j]]) {
      assert |none| + j == j;
    }
    var removed := Enumerate(teamsOld.Keys - teamsNew.Keys);
    var removedPart := CD.PushTeamsRemoved(removed);
    TeamsAddedPart(km, added, addedPart);
    TeamsRemovedPart(km, removed, removedPart);
    Join(addedPart, removedPart, km, 0, 0, 1);
    changes := addedPart + removedPart;
  }

  // ------------------------------------------------------ Membership changes

  /** Membership changes of team `t`, each of a block position below `pos`, in block order. */
  ghost predicate BlockSoFar(p: seq<CD.DirectoryChange>, t: string, pos: int) {
    && NoDup(p)
    && AllKey(p, CD.TeamKey, t)
    && SortedBy(p, OldSub)
    && (forall i :: 0 <= i < |p| ==> OldSub(p[i]) < pos)
  }

  lemma KindShape(xs: seq<string>, t: string, pos: nat)
    requires pos < 4 && NoDup(xs)
    ensures BlockSoFar(CD.KindChanges(KindAt(pos), t, xs), t, pos + 1)
    ensures forall i :: 0 <= i < |xs| ==> OldSub(CD.KindChanges(KindAt(pos), t, xs)[i]) == pos
  {
    var p := CD.KindChanges(KindAt(pos), t, xs);
    CD.KindShape(xs, t, KindAt(pos));
    forall i | 0 <= i < |p| ensures OldSub(p[i]) == pos {
      OldSubAt(pos, t, xs[i]);
    }
  }

  lemma OldSubAt(pos: nat, t: string, u: string)
    requires pos < 4
    ensures OldSub(CD.MkChange(KindAt(pos), t, u)) == pos
  {
  }

  lemma AddKind(acc: seq<CD.DirectoryChange>, p: seq<CD.DirectoryChange>, t: string, pos: nat)
    requires BlockSoFar(acc, t, pos) && BlockSoFar(p, t, pos + 1)
    requires forall i :: 0 <= i < |p| ==> OldSub(p[i]) == pos
    ensures BlockSoFar(acc + p, t, pos + 1)
  {
    forall i, j | 0 <= i < |acc| && 0 <= j < |p| ensures acc[i] != p[j] && OldSub(acc[i]) <= OldSub(p[j]) {
      assert OldSub(acc[i]) < pos;
    }
    NoDupConcat(acc, p);
    SortedConcat(acc, p, OldSub);
    var b := acc + p;
    forall i | 0 <= i < |b| ensures CD.TeamKey(b[i]) == Some(t) && OldSub(b[i]) <= pos {
      if i < |acc| { assert b[i] == acc[i]; } else { assert b[i] == p[i - |acc|]; }
    }
  }

  /** The membership changes of team `t` for the four lists of users, in block order. */
  ghost function Block(t: string, xs0: seq<string>, xs1: seq<string>, xs2: seq<string>, xs3: seq<string>): seq<CD.DirectoryChange> {
    CD.KindChanges(KindAt(0), t, xs0) + CD.KindChanges(KindAt(1), t, xs1)
    + CD.KindChanges(KindAt(2), t, xs2) + CD.KindChanges(KindAt(3), t, xs3)
  }

  lemma BlockShape(t: string, xs0: seq<string>, xs1: seq<string>, xs2: seq<string>, xs3: seq<string>)
    requires NoDup(xs0) && NoDup(xs1) && NoDup(xs2) && NoDup(xs3)
    ensures BlockSoFar(Block(t, xs0, xs1, xs2, xs3), t, 4)
  {
    var p0, p1 := CD.KindChanges(KindAt(0), t, xs0), CD.KindChanges(KindAt(1), t, xs1);
    var p2, p3 := CD.KindChanges(KindAt(2), t, xs2), CD.KindChanges(KindAt(3), t, xs3);
    KindShape(xs0, t, 0);
    KindShape(xs1, t, 1);
    KindShape(xs2, t, 2);
    KindShape(xs3, t, 3);
    AddKind(p0, p1, t, 1);
    AddKind(p0 + p1, p2, t, 2);
    AddKind(p0 + p1 + p2, p3, t, 3);
  }

  lemma BlockElems(t: string, ot: CD.Team, nt: CD.Team, xs0: seq<string>, xs1: seq<string>, xs2: seq<string>, xs3: seq<string>)
    requires Elems(xs0) == CD.Moved(KindAt(0), ot, nt) && Elems(xs1) == CD.Moved(KindAt(1), ot, nt)
    requires Elems(xs2) == CD.Moved(KindAt(2), ot, nt) && Elems(xs3) == CD.Moved(KindAt(3), ot, nt)
    ensures forall c :: c in Block(t, xs0, xs1, xs2, xs3) <==> CD.MemberChange(t, ot, nt, c)
  {
    var p0, p1 := CD.KindChanges(KindAt(0), t, xs0), CD.KindChanges(KindAt(1), t, xs1);
    var p2, p3 := CD.KindChanges(KindAt(2), t, xs2), CD.KindChanges(KindAt(3), t, xs3);
    CD.KindElems(xs0, t, KindAt(0), CD.Moved(KindAt(0), ot, nt));
    CD.KindElems(xs1, t, KindAt(1), CD.Moved(KindAt(1), ot, nt));
    CD.KindElems(xs2, t, KindAt(2), CD.Moved(KindAt(2), ot, nt));
    CD.KindElems(xs3, t, KindAt(3), CD.Moved(KindAt(3), ot, nt));
    forall c ensures c in p0 + p1 + p2 + p3 <==> CD.MemberChange(t, ot, nt, c) {
      CD.MemberChangeMoved(t, ot, nt, c);
    }
  }

  /**
   * The membership changes of a team present in both directories:
   * maintainers added, maintainers removed, members added, members
   * removed, each a set difference of the two records' lists.
   */
  method MembershipBlock(t: string, ot: CD.Team, nt: CD.Team) returns (block: seq<CD.DirectoryChange>)
    ensures NoDup(block) && AllKey(block, CD.TeamKey, t) && SortedBy(block, OldSub)
    ensures forall c :: c in block <==> CD.MemberChange(t, ot, nt, c)
  {
    var maintainersOld, maintainersNew := Elems(ot.maintainers), Elems(nt.maintainers);
    var membersOld, membersNew := Elems(ot.members), Elems(nt.members);
    var xs0 := Enumerate(maintainersNew - maintainersOld);
    block := CD.PushKind([], KindAt(0), t, xs0);
    var xs1 := Enumerate(maintainersOld - maintainersNew);
    block := CD.PushKind(block, KindAt(1), t, xs1);
    var xs2 := Enumerate(membersNew - membersOld);
    block := CD.PushKind(block, KindAt(2), t, xs2);
    var xs3 := Enumerate(membersOld - membersNew);
    block := CD.PushKind(block, KindAt(3), t, xs3);
    assert [] + CD.KindChanges(KindAt(0), t, xs0) == CD.KindChanges(KindAt(0), t, xs0);
    assert block == Block(t, xs0, xs1, xs2, xs3);
    BlockShape(t, xs0, xs1, xs2, xs3);
    BlockElems(t, ot, nt, xs0, xs1, xs2, xs3);
  }

  /** The membership changes collected for the team names `done`. */
  ghost predicate MembershipSoFar(m: seq<CD.DirectoryChange>, km: CD.Keyed, done: seq<string>) {
    && NoDup(m)
    && AllRank(m, OldRank, 2)
    && Grouped(m, CD.TeamKey)
    && SortedWithin(m, CD.TeamKey, OldSub)
    && (forall j :: 0 <= j < |m| ==> CD.TeamKey(m[j]).Some? && CD.TeamKey(m[j]).value in done)
    && (forall c :: c in m <==> OldRank(c) == 2 && CD.Expected(km, c) && CD.TeamKey(c).value in done)
  }

  lemma MembershipStepShape(m: seq<CD.DirectoryChange>, block: seq<CD.DirectoryChange>, done: seq<string>, t: string)
    requires t !in done
    requires NoDup(m) && AllRank(m, OldRank, 2) && Grouped(m, CD.TeamKey) && SortedWithin(m, CD.TeamKey, OldSub)
    requires forall j :: 0 <= j < |m| ==> CD.TeamKey(m[j]).Some? && CD.TeamKey(m[j]).value in done
    requires NoDup(block) && AllKey(block, CD.TeamKey, t) && SortedBy(block, OldSub)
    ensures NoDup(m + block) && AllRank(m + block, OldRank, 2)
    ensures Grouped(m + block, CD.TeamKey) && SortedWithin(m + block, CD.TeamKey, OldSub)
    ensures forall j :: 0 <= j < |m + block| ==> CD.TeamKey((m + block)[j]).Some? && CD.TeamKey((m + block)[j]).value in done + [t]
  {
    forall i, j | 0 <= i < |m| && 0 <= j < |block| ensures m[i] != block[j] && CD.TeamKey(m[i]) != CD.TeamKey(block[j]) {
      assert CD.TeamKey(m[i]).value in done;
    }
    NoDupConcat(m, block);
    GroupedConcat(m, block, CD.TeamKey);
    assert SortedWithin(block, CD.TeamKey, OldSub);
    SortedWithinConcat(m, block, CD.TeamKey, OldSub);
    var mb := m + block;
    forall j | 0 <= j < |mb| ensures CD.TeamKey(mb[j]).Some? && CD.TeamKey(mb[j]).value in done + [t] && OldRank(mb[j]) == 2 {
      if j < |m| { assert mb[j] == m[j]; } else { assert mb[j] == block[j - |m|]; }
    }
  }

  lemma MembershipStep(m: seq<CD.DirectoryChange>, block: seq<CD.DirectoryChange>, km: CD.Keyed, keys: seq<string>, i: nat)
    requires NoDup(keys) && i < |keys|
    requires MembershipSoFar(m, km, keys[..i])
    requires keys[i] in km.teamsOld && keys[i] in km.teamsNew
    requires NoDup(block) && AllKey(block, CD.TeamKey, keys[i]) && SortedBy(block, OldSub)
    requires forall c :: c in block <==> CD.MemberChange(keys[i], km.teamsOld[keys[i]], km.teamsNew[keys[i]], c)
    ensures MembershipSoFar(m + block, km, keys[..i + 1])
  {
    var t := keys[i];
    assert keys[..i + 1] == keys[..i] + [t];
    assert t !in keys[..i] by {
      forall j | 0 <= j < i ensures keys[..i][j] != t { assert keys[j] != keys[i]; }
    }
    MembershipStepShape(m, block, keys[..i], t);
  }

  /** The membership changes of every team of the new map that the old map also has, team by team. */
  method MembershipChanges(km: CD.Keyed) returns (m: seq<CD.DirectoryChange>)
    ensures Part(m, km, 2, 2)
  {
    var teamsOld, teamsNew := km.teamsOld, km.teamsNew;
    var keys := Enumerate(teamsNew.Keys);
    m := [];
    for i := 0 to |keys|
      invariant MembershipSoFar(m, km, keys[..i])
    {
      var t := keys[i];
      assert keys[..i + 1] == keys[..i] + [t];
      assert t in Elems(keys);
      if t !in teamsOld {
        // a new team: `TeamAdded` carries all of it
        continue;
      }
      var block := MembershipBlock(t, teamsOld[t], teamsNew[t]);
      MembershipStep(m, block, km, keys, i);
      m := m + block;
    }
    assert keys[..|keys|] == keys;
    forall c | OldRank(c) == 2 && CD.Expected(km, c) ensures c in m {
      assert CD.TeamKey(c).value in Elems(keys);
    }
  }

  /** The team part of `diff`: team changes, then the membership changes of the common teams. */
  method TeamPart(km: CD.Keyed) returns (changes: seq<CD.DirectoryChange>)
    requires CD.Consistent(km)
    ensures Part(changes, km, 0, 2)
  {
    var teams := TeamChanges(km);
    var membership := MembershipChanges(km);
    Join(teams, membership, km, 0, 1, 2);
    changes := teams + membership;
  }

  // ------------------------------------------------------------ User changes

  lemma UsersAddedPart(km: CD.Keyed, xs: seq<string>)
    requires NoDup(xs) && Elems(xs) == km.usersNew.Keys - km.usersOld.Keys
    ensures Part(Map(xs, CD.UserAddedOf), km, 3, 3)
  {
    var p := Map(xs, CD.UserAddedOf);
    forall j | 0 <= j < |p| ensures CD.NameOf(p[j]) == xs[j] && OldRank(p[j]) == 3 && CD.Expected(km, p[j]) {
      assert xs[j] in Elems(xs);
    }
    SinglePart(p, xs, km, 3);
  }

  lemma UsersRemovedPart(km: CD.Keyed, xs: seq<string>)
    requires NoDup(xs) && Elems(xs) == km.usersOld.Keys - km.usersNew.Keys
    ensures Part(Map(xs, CD.UserRemovedOf), km, 4, 4)
  {
    var p := Map(xs, CD.UserRemovedOf);
    forall j | 0 <= j < |p| ensures CD.NameOf(p[j]) == xs[j] && OldRank(p[j]) == 4 && CD.Expected(km, p[j]) {
      assert xs[j] in Elems(xs);
    }
    SinglePart(p, xs, km, 4);
  }

  /** `UserAdded` for full names only in the new map (remembered), then `UserRemoved` for those only in the old one. */
  method UsersAddedRemoved(km: CD.Keyed) returns (changes: seq<CD.DirectoryChange>, usersAdded: seq<string>)
    ensures Part(changes, km, 3, 4)
    ensures Elems(usersAdded) == km.usersNew.Keys - km.usersOld.Keys
  {
    var added := Enumerate(km.usersNew.Keys - km.usersOld.Keys);
    var first := PushEach([], added, CD.UserAddedOf);
    var removed := Enumerate(km.usersOld.Keys - km.usersNew.Keys);
    changes := PushEach(first, removed, CD.UserRemovedOf);
    usersAdded := added;
    AddedRemovedPart(km, added, removed, first, changes);
  }

  /** The added users' stretch followed by the removed users' one. */
  lemma AddedRemovedPart(km: CD.Keyed, added: seq<string>, removed: seq<string>,
                         first: seq<CD.DirectoryChange>, changes: seq<CD.DirectoryChange>)
    requires NoDup(added) && Elems(added) == km.usersNew.Keys - km.usersOld.Keys
    requires NoDup(removed) && Elems(removed) == km.usersOld.Keys - km.usersNew.Keys
    requires first == [] + Map(added, CD.UserAddedOf)
    requires changes == first + Map(removed, CD.UserRemovedOf)
    ensures Part(changes, km, 3, 4)
  {
    assert first == Map(added, CD.UserAddedOf);
    UsersAddedPart(km, added);
    UsersRemovedPart(km, removed);
    Join(first, Map(removed, CD.UserRemovedOf), km, 3, 3, 4);
  }

  /** The core's updated-users stretch is this generation's last category. */
  lemma UpdatedPart(p: seq<CD.DirectoryChange>, km: CD.Keyed)
    requires CD.Part(p, km, 5, 5)
    ensures Part(p, km, 5, 5)
  {
    assert forall i :: 0 <= i < |p| ==> CD.Rank(p[i]) == 5 && OldRank(p[i]) == 5;
    forall c ensures OldRank(c) == 5 <==> CD.Rank(c) == 5 {
    }
  }

  // -------------------------------------------------------------------- Diff

  /** `Directory::diff`: the changes that turn `o` into `n`. */
  method Diff(o: CD.Directory, n: CD.Directory) returns (changes: seq<CD.DirectoryChange>)
    ensures IsDiff(o, n, changes)
  {
    var km := CD.KeyedOf(o, n);
    var teams := TeamPart(km);
    var addedRemoved, usersAdded := UsersAddedRemoved(km);
    // the updated-users loop is the core's: same skip rule, same comparison
    var updated := CD.UsersUpdated(km, usersAdded);
    UpdatedPart(updated, km);
    Join(addedRemoved, updated, km, 3, 4, 5);
    Join(teams, addedRemoved + updated, km, 0, 2, 5);
    changes := teams + (addedRemoved + updated);
  }

  // --------------------------------------------------------- Diff properties

  /** A directory diffed against itself has no changes. */
  lemma SelfDiffEmpty(d: CD.Directory, changes: seq<CD.DirectoryChange>)
    requires IsDiff(d, d, changes)
    ensures changes == []
  {
    forall c ensures !CD.Expected(CD.KeyedOf(d, d), c) {
    }
    NoMemberEmpty(changes);
  }

  /** Every `TeamAdded` comes before every `TeamRemoved`, and both before any user change. */
  lemma AddedBeforeRemoved(o: CD.Directory, n: CD.Directory, changes: seq<CD.DirectoryChange>, i: nat, j: nat)
    requires IsDiff(o, n, changes)
    requires i < |changes| && j < |changes|
    requires changes[i].TeamAdded? && (changes[j].TeamRemoved? || changes[j].TeamMaintainerAdded? || changes[j].UserAdded?)
    ensures i < j
  {
    assert j < i ==> OldRank(changes[j]) <= OldRank(changes[i]);
  }

  /** A team name only in the new directory gets one `TeamAdded` with its record and no membership change. */
  lemma NewTeamNoMembership(o: CD.Directory, n: CD.Directory, changes: seq<CD.DirectoryChange>, t: string)
    requires IsDiff(o, n, changes)
    requires t in CD.TeamMap(n) && t !in CD.TeamMap(o)
    ensures multiset(changes)[CD.TeamAdded(CD.TeamMap(n)[t])] == 1
    ensures forall c :: c in changes ==> CD.TeamKey(c) != Some(t) && c != CD.TeamRemoved(t)
  {
    var km := CD.KeyedOf(o, n);
    assert CD.Expected(km, CD.TeamAdded(km.teamsNew[t]));
    NoDupCount(changes, CD.TeamAdded(CD.TeamMap(n)[t]));
    forall c | c in changes ensures CD.TeamKey(c) != Some(t) && c != CD.TeamRemoved(t) {
      assert CD.Expected(km, c);
    }
  }

  /**
   * Within one common team, the block goes maintainers added, maintainers
   * removed, members added, members removed, each the set difference of
   * the two records' lists.
   */
  lemma CommonTeamBlock(o: CD.Directory, n: CD.Directory, changes: seq<CD.DirectoryChange>, t: string, u: string, v: string, i: nat, j: nat)
    requires IsDiff(o, n, changes)
    requires t in CD.TeamMap(o) && t in CD.TeamMap(n)
    requires i < |changes| && j < |changes|
    requires changes[i] == CD.TeamMaintainerRemoved(t, u) && changes[j] == CD.TeamMaintainerAdded(t, v)
    ensures j < i
    ensures u in CD.TeamMap(o)[t].maintainers && u !in CD.TeamMap(n)[t].maintainers
    ensures v in CD.TeamMap(n)[t].maintainers && v !in CD.TeamMap(o)[t].maintainers
  {
    var ci, cj := changes[i], changes[j];
    var km := CD.KeyedOf(o, n);
    assert ci in changes && cj in changes;
    assert CD.Expected(km, ci) && CD.Expected(km, cj);
    assert i < j ==> OldSub(ci) <= OldSub(cj);
  }

  /** `UserUpdated` only for a full name in both directories whose records differ, never for an added user. */
  lemma UserUpdatedOnlyChanged(o: CD.Directory, n: CD.Directory, changes: seq<CD.DirectoryChange>, f: string)
    requires IsDiff(o, n, changes)
    ensures CD.UserUpdated(f) in changes <==> f in CD.UserMap(o) && f in CD.UserMap(n) && CD.UserMap(o)[f] != CD.UserMap(n)[f]
    ensures CD.UserAdded(f) in changes ==> CD.UserUpdated(f) !in changes
  {
    var km := CD.KeyedOf(o, n);
    var updated, added := CD.UserUpdated(f) in changes, CD.UserAdded(f) in changes;
    assert updated == CD.Expected(km, CD.UserUpdated(f));
    assert added == CD.Expected(km, CD.UserAdded(f));
    CD.UpdatedIff(km, f);
    CD.AddedNotUpdated(km, f);
  }

  /** This generation's diff holds the same changes as clowarden-core's: only the order differs. */
  lemma SameChangesAsCore(o: CD.Directory, n: CD.Directory, a: seq<CD.DirectoryChange>, b: seq<CD.DirectoryChange>)
    requires IsDiff(o, n, a) && CD.IsDiff(o, n, b)
    ensures multiset(a) == multiset(b)
  {
    forall c ensures multiset(a)[c] == multiset(b)[c] {
      NoDupCount(a, c);
      NoDupCount(b, c);
    }
  }

  // ------------------------------------------------------- Legacy conversion

  /** A Sheriff team as a directory team: name and both lists copied, nothing else set. */
  function TeamFrom(t: OS.Team): (r: CD.Team)
    ensures r.name == t.name && r.maintainers == t.maintainers && r.members == t.members
    ensures r.displayName.None? && r.annotations == map[]
  {
    CD.Team(t.name, None, t.maintainers, t.members, map[])
  }

  /** `From<legacy::Cfg>`: a team per Sheriff team; a user per CNCF person when the people file was loaded. */
  function FromLegacy(cfg: ODL.Cfg): (d: CD.Directory)
    ensures |d.teams| == |cfg.sheriff| && forall i :: 0 <= i < |cfg.sheriff| ==> d.teams[i] == TeamFrom(cfg.sheriff[i])
    ensures cfg.cncf.None? ==> d.users == []
    ensures cfg.cncf.Some? ==> |d.users| == |cfg.cncf.value| && forall i :: 0 <= i < |cfg.cncf.value| ==> d.users[i] == CD.UserFrom(cfg.cncf.value[i])
  {
    CD.Directory(Map(cfg.sheriff, TeamFrom), if cfg.cncf.Some? then Map(cfg.cncf.value, CD.UserFrom) else [])
  }

  // ---------------------------------------------------------------- Loading

  /** What `new_from_config` yields. */
  ghost function DirectoryFromConfig(cfg: Config, gh: OG.Gh, parsers: ODL.Parsers, ref_: Option<string>): Result<CD.Directory, Error>
    requires LegacyEnabled(cfg) ==> HasLegacyPaths(cfg)
  {
    if !LegacyEnabled(cfg) then Err(Message(CD.OnlyLegacyText))
    else
      var s := ODL.SheriffSpec(cfg, gh, parsers, ref_);
      var c := ODL.CncfSpec(cfg, gh, parsers, ref_);
      if s.Ok? && c.Ok? then Ok(FromLegacy(ODL.Cfg(s.value, Some(c.value))))
      else Err(Context(CDL.DirectoryConfigInvalid, Multi(Some(CDL.DirectoryConfigInvalid), ODL.LoadErrors(s, c))))
  }

  /** `Directory::new_from_config`: only the legacy format is supported. */
  method NewFromConfig(cfg: Config, gh: OG.Gh, parsers: ODL.Parsers, ref_: Option<string>) returns (r: Result<CD.Directory, Error>)
    requires LegacyEnabled(cfg) ==> HasLegacyPaths(cfg)
    ensures r == DirectoryFromConfig(cfg, gh, parsers, ref_)
    ensures !LegacyEnabled(cfg) ==> r == Err(Message(CD.OnlyLegacyText))
    ensures LegacyEnabled(cfg) ==> (r.Ok? <==>
      ODL.SheriffSpec(cfg, gh, parsers, ref_).Ok? && ODL.CncfSpec(cfg, gh, parsers, ref_).Ok?)
  {
    if LegacyEnabled(cfg) {
      var legacy := ODL.Get(cfg, gh, parsers, ref_);
      if legacy.Err? {
        return Err(Context(CDL.DirectoryConfigInvalid, legacy.error));
      }
      return Ok(FromLegacy(legacy.value));
    }
    return Err(Message(CD.OnlyLegacyText));
  }

  /** The summary of a head that loads: nothing and `Invalid` when the base does not load, the diff and `Valid` otherwise. */
  ghost predicate SummaryOf(base: Result<CD.Directory, Error>, head: CD.Directory, s: CS.ChangesSummary<CD.DirectoryChange>) {
    if base.Err? then s == CS.ChangesSummary([], CS.Invalid)
    else s.baseRefConfigStatus == CS.Valid && IsDiff(base.value, head, s.changes)
  }

  /**
   * `Directory::get_changes_summary`: a head configuration that does not
   * load is an error; a base configuration (read without a ref) that does
   * not load gives no changes and status `Invalid`; otherwise the diff from
   * base to head and status `Valid`.
   */
  method GetChangesSummary(cfg: Config, gh: OG.Gh, parsers: ODL.Parsers, headRef: string)
    returns (r: Result<CS.ChangesSummary<CD.DirectoryChange>, Error>)
    requires LegacyEnabled(cfg) ==> HasLegacyPaths(cfg)
    ensures var head := DirectoryFromConfig(cfg, gh, parsers, Some(headRef));
      var base := DirectoryFromConfig(cfg, gh, parsers, None);
      && (r.Err? <==> head.Err?)
      && (r.Err? ==> r.error == head.error)
      && (r.Ok? ==> SummaryOf(base, head.value, r.value))
  {
    var head := NewFromConfig(cfg, gh, parsers, Some(headRef));
    if head.Err? {
      return Err(head.error);
    }
    var base := NewFromConfig(cfg, gh, parsers, None);
    if base.Ok? {
      var changes := Diff(base.value, head.value);
      return Ok(CS.ChangesSummary(changes, CS.Valid));
    }
    return Ok(CS.ChangesSummary([], CS.Invalid));
  }
}
