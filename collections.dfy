/**
 * Collections helpers shared by the diffs.
 *
 * Rust's `HashSet`/`HashMap` iteration order is unspecified: `Enumerate`
 * models it by picking the elements of a set one at a time with `:|`, so a
 * caller may rely only on the facts its contract states (each element once,
 * nothing else). Maps built with `collect()` from a list keep the LAST entry
 * for a repeated key, which `LastWins` states.
 */
module Collections {
  import opened Common

  /** No element occurs twice. */
  ghost predicate NoDup<T>(s: seq<T>) {
    forall i, j :: 0 <= i < j < |s| ==> s[i] != s[j]
  }

  /** The elements of a sequence, as a set (`iter().collect::<HashSet<_>>()`). */
  function Elems<T>(s: seq<T>): set<T> {
    set x | x in s
  }

  /** `xs` lists the elements of `s`, each exactly once, in some order. */
  ghost predicate Enumerates<T>(xs: seq<T>, s: set<T>) {
    NoDup(xs) && Elems(xs) == s
  }

  /** Listing the empty set yields nothing. */
  lemma EnumeratesEmpty<T>(xs: seq<T>)
    requires Enumerates(xs, {})
    ensures xs == []
  {
    assert forall x :: x in xs ==> x in Elems(xs);
    NoMemberEmpty(xs);
  }

  /** Iterating a `HashSet` (or the keys of a `HashMap`): every element exactly once, in some order. */
  method Enumerate<T(==)>(s: set<T>) returns (r: seq<T>)
    ensures NoDup(r)
    ensures Elems(r) == s
    ensures |r| == |s|
  {
    r := [];
    var rest := s;
    while rest != {}
      invariant rest <= s
      invariant Elems(r) == s - rest
      invariant NoDup(r)
      invariant |r| + |rest| == |s|
      decreases rest
    {
      var x :| x in rest;
      assert x !in Elems(r);
      assert |rest - {x}| == |rest| - 1;
      ElemsConcat(r, [x]);
      r := r + [x];
      rest := rest - {x};
    }
  }

  /** `f` applied to each element, in order (`iter().map(f)`). */
  function Map<A, B>(s: seq<A>, f: A -> B): (r: seq<B>)
    ensures |r| == |s|
    ensures forall i :: 0 <= i < |s| ==> r[i] == f(s[i])
  {
    if s == [] then [] else [f(s[0])] + Map(s[1..], f)
  }

  /** The `push` loop `for x in xs { out.push(f(x)) }`. */
  method PushEach<A, B>(out: seq<B>, xs: seq<A>, f: A -> B) returns (r: seq<B>)
    ensures r == out + Map(xs, f)
  {
    r := out;
    for i := 0 to |xs|
      invariant r == out + Map(xs[..i], f)
    {
      assert xs[..i + 1] == xs[..i] + [xs[i]];
      MapAppend(xs[..i], xs[i], f);
      r := r + [f(xs[i])];
    }
    assert xs[..|xs|] == xs;
  }

  lemma MapAppend<A, B>(s: seq<A>, x: A, f: A -> B)
    ensures Map(s + [x], f) == Map(s, f) + [f(x)]
  {
  }

  /** Image of an injective map: duplicates-free in, duplicates-free out, with the image as elements. */
  lemma {:induction false} MapImage<A, B>(s: seq<A>, f: A -> B)
    requires NoDup(s)
    requires forall x, y :: x in s && y in s && f(x) == f(y) ==> x == y
    ensures NoDup(Map(s, f))
    ensures Elems(Map(s, f)) == set x | x in Elems(s) :: f(x)
  {
    var r := Map(s, f);
    forall i, j | 0 <= i < j < |r| ensures r[i] != r[j] {
      assert s[i] != s[j];
    }
    forall y | y in Elems(r) ensures y in (set x | x in Elems(s) :: f(x)) {
      var i :| 0 <= i < |r| && r[i] == y;
      assert s[i] in Elems(s);
    }
    forall y | y in (set x | x in Elems(s) :: f(x)) ensures y in Elems(r) {
      var x :| x in Elems(s) && f(x) == y;
      var i :| 0 <= i < |s| && s[i] == x;
      assert r[i] == y;
    }
  }

  /** Without duplicates, each element occurs once or not at all. */
  lemma {:induction false} NoDupCount<T>(s: seq<T>, x: T)
    requires NoDup(s)
    ensures multiset(s)[x] == if x in s then 1 else 0
  {
    if s != [] {
      assert s == [s[0]] + s[1..];
      assert NoDup(s[1..]) by {
        forall i, j | 0 <= i < j < |s[1..]| ensures s[1..][i] != s[1..][j] {
          assert s[1..][i] == s[i + 1] && s[1..][j] == s[j + 1];
        }
      }
      NoDupCount(s[1..], x);
      if x == s[0] {
        assert x !in s[1..] by {
          forall i | 0 <= i < |s[1..]| ensures s[1..][i] != x { assert s[1..][i] == s[i + 1]; }
        }
      }
    }
  }

  lemma NoMemberEmpty<T>(s: seq<T>)
    ensures (forall x :: x !in s) ==> s == []
  {
    if s != [] {
      assert s[0] in s;
    }
  }

  lemma ConcatAssoc<T>(a: seq<T>, b: seq<T>, c: seq<T>)
    ensures (a + b) + c == a + (b + c)
  {
  }

  lemma ElemsConcat<T>(a: seq<T>, b: seq<T>)
    ensures Elems(a + b) == Elems(a) + Elems(b)
  {
  }

  /** The two halves of a concatenation, read back by position. */
  lemma ConcatParts<T>(a: seq<T>, b: seq<T>)
    ensures (a + b)[..|a|] == a && (a + b)[|a|..] == b
  {
  }

  /** A non-empty sequence is its front followed by its last element. */
  lemma FrontLast<T>(s: seq<T>)
    requires s != []
    ensures s[..|s| - 1] + [s[|s| - 1]] == s
  {
  }

  /** One more step through a list without duplicates meets an element not met before. */
  lemma NextUnseen<T>(keys: seq<T>, i: nat)
    requires NoDup(keys) && i < |keys|
    ensures keys[i] in Elems(keys) && keys[i] !in Elems(keys[..i])
    ensures Elems(keys[..i + 1]) == Elems(keys[..i]) + {keys[i]}
  {
    assert keys[..i + 1] == keys[..i] + [keys[i]];
    ElemsConcat(keys[..i], [keys[i]]);
    forall j | 0 <= j < i ensures keys[..i][j] != keys[i] { assert keys[j] != keys[i]; }
  }

  /** Appending an element not yet present keeps a list duplicate-free and adds it to the elements. */
  lemma AppendFresh<T>(s: seq<T>, x: T)
    requires NoDup(s) && x !in Elems(s)
    ensures NoDup(s + [x]) && Elems(s + [x]) == Elems(s) + {x}
  {
    NoDupConcat(s, [x]);
    ElemsConcat(s, [x]);
  }

  /** The sequences `f(0)`, ..., `f(n - 1)`, concatenated. */
  function Flatten<T>(f: nat -> seq<T>, n: nat): seq<T> {
    if n == 0 then [] else Flatten(f, n - 1) + f(n - 1)
  }

  /** The sequences of `parts`, concatenated in order. */
  function Concat<T>(parts: seq<seq<T>>): seq<T> {
    if parts == [] then [] else Concat(parts[..|parts| - 1]) + parts[|parts| - 1]
  }

  lemma ConcatAppend<T>(parts: seq<seq<T>>, x: seq<T>)
    ensures Concat(parts + [x]) == Concat(parts) + x
  {
    assert (parts + [x])[..|parts|] == parts;
  }

  /** A concatenation is empty iff each of its parts is. */
  lemma {:induction false} FlattenEmpty<T>(f: nat -> seq<T>, n: nat)
    ensures |Flatten(f, n)| == 0 <==> forall i :: 0 <= i < n ==> |f(i)| == 0
  {
    if n > 0 {
      FlattenEmpty(f, n - 1);
      assert |Flatten(f, n)| == |Flatten(f, n - 1)| + |f(n - 1)|;
    }
  }

  /** The values `f(i)`, in index order, of the indices below `n` that satisfy `p`. */
  function Picked<T>(p: nat -> bool, f: nat -> T, n: nat): seq<T> {
    if n == 0 then [] else Picked(p, f, n - 1) + (if p(n - 1) then [f(n - 1)] else [])
  }

  /** The values picked are exactly the images of the indices satisfying `p`. */
  lemma {:induction false} PickedElems<T>(p: nat -> bool, f: nat -> T, n: nat)
    ensures Elems(Picked(p, f, n)) == set i | 0 <= i < n && p(i) :: f(i)
  {
    if n > 0 {
      PickedElems(p, f, n - 1);
      var last := if p(n - 1) then [f(n - 1)] else [];
      ElemsConcat(Picked(p, f, n - 1), last);
      var before := set i | 0 <= i < n - 1 && p(i) :: f(i);
      var after := set i | 0 <= i < n && p(i) :: f(i);
      assert after == before + Elems(last) by {
        forall e | e in after ensures e in before + Elems(last) {
          var i :| 0 <= i < n && p(i) && e == f(i);
          if i < n - 1 { assert e in before; }
        }
      }
    }
  }

  lemma {:induction false} NoDupConcat<T>(a: seq<T>, b: seq<T>)
    requires NoDup(a) && NoDup(b)
    requires forall i, j :: 0 <= i < |a| && 0 <= j < |b| ==> a[i] != b[j]
    ensures NoDup(a + b)
  {
    var c := a + b;
    forall i, j | 0 <= i < j < |c| ensures c[i] != c[j] {
      if j < |a| {
      } else if i >= |a| {
        assert c[i] == b[i - |a|] && c[j] == b[j - |a|];
      } else {
        assert c[i] == a[i] && c[j] == b[j - |a|];
      }
    }
  }

  /** `rank` never decreases along the sequence. */
  ghost predicate SortedBy<T>(s: seq<T>, rank: T -> int) {
    forall i, j :: 0 <= i < j < |s| ==> rank(s[i]) <= rank(s[j])
  }

  /** Every element has rank `k`. */
  ghost predicate AllRank<T>(s: seq<T>, rank: T -> int, k: int) {
    forall i :: 0 <= i < |s| ==> rank(s[i]) == k
  }

  lemma {:induction false} SortedConcat<T>(a: seq<T>, b: seq<T>, rank: T -> int)
    requires SortedBy(a, rank) && SortedBy(b, rank)
    requires forall i, j :: 0 <= i < |a| && 0 <= j < |b| ==> rank(a[i]) <= rank(b[j])
    ensures SortedBy(a + b, rank)
  {
    var c := a + b;
    forall i, j | 0 <= i < j < |c| ensures rank(c[i]) <= rank(c[j]) {
      if j < |a| {
      } else if i >= |a| {
        assert c[i] == b[i - |a|] && c[j] == b[j - |a|];
      } else {
        assert c[i] == a[i] && c[j] == b[j - |a|];
      }
    }
  }

  /**
   * Elements that carry the same key form one contiguous run: once a run of
   * key `k` is left, no later element carries `k` again. Elements whose key
   * is `None` are not grouped.
   */
  ghost predicate Grouped<T, K>(s: seq<T>, key: T -> Option<K>) {
    forall i, j, k :: 0 <= i < j < k < |s| && key(s[i]).Some? && key(s[i]) == key(s[k]) ==> key(s[j]) == key(s[i])
  }

  /** Within one key, `sub` never decreases. */
  ghost predicate SortedWithin<T, K>(s: seq<T>, key: T -> Option<K>, sub: T -> int) {
    forall i, j :: 0 <= i < j < |s| && key(s[i]).Some? && key(s[i]) == key(s[j]) ==> sub(s[i]) <= sub(s[j])
  }

  /** No element carries a key. */
  ghost predicate Unkeyed<T, K>(s: seq<T>, key: T -> Option<K>) {
    forall i :: 0 <= i < |s| ==> key(s[i]).None?
  }

  /** Every element carries key `Some(k)`. */
  ghost predicate AllKey<T, K>(s: seq<T>, key: T -> Option<K>, k: K) {
    forall i :: 0 <= i < |s| ==> key(s[i]) == Some(k)
  }

  /** Keys present in a sequence. */
  ghost function KeysOf<T, K>(s: seq<T>, key: T -> Option<K>): set<K> {
    set i | 0 <= i < |s| && key(s[i]).Some? :: key(s[i]).value
  }

  /** Appending runs whose keys do not occur before keeps the runs contiguous. */
  lemma {:induction false} GroupedConcat<T, K>(a: seq<T>, b: seq<T>, key: T -> Option<K>)
    requires Grouped(a, key) && Grouped(b, key)
    requires forall i, j :: 0 <= i < |a| && 0 <= j < |b| && key(a[i]).Some? ==> key(a[i]) != key(b[j])
    ensures Grouped(a + b, key)
  {
    var c := a + b;
    forall i, j, k | 0 <= i < j < k < |c| && key(c[i]).Some? && key(c[i]) == key(c[k])
      ensures key(c[j]) == key(c[i])
    {
      if k < |a| {
        assert c[i] == a[i] && c[j] == a[j] && c[k] == a[k];
      } else if i >= |a| {
        assert c[i] == b[i - |a|] && c[j] == b[j - |a|] && c[k] == b[k - |a|];
      } else {
        assert false;
      }
    }
  }

  lemma {:induction false} SortedWithinConcat<T, K>(a: seq<T>, b: seq<T>, key: T -> Option<K>, sub: T -> int)
    requires SortedWithin(a, key, sub) && SortedWithin(b, key, sub)
    requires forall i, j :: 0 <= i < |a| && 0 <= j < |b| && key(a[i]).Some? ==> key(a[i]) != key(b[j])
    ensures SortedWithin(a + b, key, sub)
  {
    var c := a + b;
    forall i, j | 0 <= i < j < |c| && key(c[i]).Some? && key(c[i]) == key(c[j])
      ensures sub(c[i]) <= sub(c[j])
    {
      if j < |a| {
        assert c[i] == a[i] && c[j] == a[j];
      } else if i >= |a| {
        assert c[i] == b[i - |a|] && c[j] == b[j - |a|];
      } else {
        assert false;
      }
    }
  }

  /**
   * The map `collect()` builds from a list of entries keyed by `key`: its keys
   * are the entries' keys, each value is an entry of the list under its own
   * key, and a repeated key keeps its last entry.
   */
  function LastWins<K, V>(s: seq<V>, key: V -> K): (m: map<K, V>)
    ensures m.Keys == set v | v in s :: key(v)
    ensures forall k :: k in m ==> key(m[k]) == k && m[k] in s
    ensures forall i :: 0 <= i < |s| && (forall j :: i < j < |s| ==> key(s[j]) != key(s[i])) ==> m[key(s[i])] == s[i]
  {
    if s == [] then map[]
    else
      var init := s[..|s| - 1];
      var last := s[|s| - 1];
      assert forall v :: v in init ==> v in s;
      assert s == init + [last];
      LastWins(init, key)[key(last) := last]
  }

  /** `find`: the first element satisfying `p`, if any. */
  function Find<T(==)>(s: seq<T>, p: T -> bool): (r: Option<T>)
    ensures r.None? <==> forall i :: 0 <= i < |s| ==> !p(s[i])
    ensures r.Some? ==> exists i :: 0 <= i < |s| && s[i] == r.value && p(s[i]) && forall j :: 0 <= j < i ==> !p(s[j])
  {
    if s == [] then None
    else if p(s[0]) then Some(s[0])
    else
      var r := Find(s[1..], p);
      if r.Some? then
        var i :| 0 <= i < |s[1..]| && s[1..][i] == r.value && p(s[1..][i]) && forall j :: 0 <= j < i ==> !p(s[1..][j]);
        assert s[i + 1] == r.value;
        r
      else r
  }

  /** `filter`: the elements satisfying `p`, in order. */
  function Filter<T>(s: seq<T>, p: T -> bool): (r: seq<T>)
    ensures forall i :: 0 <= i < |r| ==> r[i] in s && p(r[i])
    ensures forall i :: 0 <= i < |s| && p(s[i]) ==> s[i] in r
    ensures |r| <= |s|
  {
    if s == [] then [] else (if p(s[0]) then [s[0]] else []) + Filter(s[1..], p)
  }

  lemma {:induction false} FilterAppend<T>(s: seq<T>, x: T, p: T -> bool)
    ensures Filter(s + [x], p) == Filter(s, p) + (if p(x) then [x] else [])
  {
    if s == [] {
      assert [x][1..] == [];
    } else {
      assert (s + [x])[1..] == s[1..] + [x];
      FilterAppend(s[1..], x, p);
    }
  }

  /** Filtering one element further into `s`. */
  lemma FilterStep<T>(s: seq<T>, j: nat, p: T -> bool)
    requires j < |s|
    ensures Filter(s[..j + 1], p) == Filter(s[..j], p) + (if p(s[j]) then [s[j]] else [])
  {
    assert s[..j + 1] == s[..j] + [s[j]];
    FilterAppend(s[..j], s[j], p);
  }

  /** Filtering keeps the order, so it keeps a sequence free of duplicates. */
  lemma {:induction false} FilterNoDup<T>(s: seq<T>, p: T -> bool)
    requires NoDup(s)
    ensures NoDup(Filter(s, p))
  {
    if s != [] {
      assert NoDup(s[1..]) by {
        forall i, j | 0 <= i < j < |s[1..]| ensures s[1..][i] != s[1..][j] {
          assert s[1..][i] == s[i + 1] && s[1..][j] == s[j + 1];
        }
      }
      FilterNoDup(s[1..], p);
      var rest := Filter(s[1..], p);
      assert s[0] !in s[1..] by {
        forall i | 0 <= i < |s[1..]| ensures s[1..][i] != s[0] { assert s[1..][i] == s[i + 1]; }
      }
      assert forall i :: 0 <= i < |rest| ==> rest[i] != s[0];
      if p(s[0]) {
        NoDupConcat([s[0]], rest);
      }
    }
  }

  /** What a filter holds, as a set: the elements satisfying `p`; and it is empty iff none does. */
  lemma FilterFacts<T>(s: seq<T>, p: T -> bool)
    ensures Elems(Filter(s, p)) == set x | x in Elems(s) && p(x)
    ensures Filter(s, p) == [] <==> forall i :: 0 <= i < |s| ==> !p(s[i])
  {
    var r := Filter(s, p);
    forall x | x in Elems(s) && p(x) ensures x in Elems(r) {
      var i :| 0 <= i < |s| && s[i] == x;
    }
    if r != [] {
      assert r[0] in s && p(r[0]);
    }
  }

  /** Filtering a sequence whose first `k` elements satisfy `p`, and no later one does, keeps that prefix. */
  lemma {:induction false} FilterPrefix<T>(s: seq<T>, p: T -> bool, k: nat)
    requires k <= |s|
    requires forall i :: 0 <= i < |s| ==> (i < k <==> p(s[i]))
    ensures Filter(s, p) == s[..k]
  {
    if s != [] {
      if k == 0 {
        assert !p(s[0]);
        FilterPrefix(s[1..], p, 0);
      } else {
        FilterPrefix(s[1..], p, k - 1);
        assert s[1..][..k - 1] == s[1..k];
        assert s[..k] == [s[0]] + s[1..k];
      }
    }
  }

}
