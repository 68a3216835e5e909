/**
 * The first generation's comment templates (src/tmpl.rs): the flags a
 * reconciliation comment is rendered with, and the `format_error` filter
 * that prints an error tree as a nested markdown list. The rendering of
 * the templates themselves is not modelled.
 */
module OldTmpl {
  import opened Common
  import opened Errors
  import opened Collections
  import OldMultiError

  // ------------------------------------------------------ Reconciliation completed

  /** An applied change (by its description) and the error applying it gave, if any. */
  datatype ChangeApplied = ChangeApplied(change: string, error: Option<Error>)

  datatype ReconciliationCompleted = ReconciliationCompleted(
    services: seq<string>,
    changesApplied: map<string, seq<ChangeApplied>>,
    errors: map<string, Error>,
    errorsFound: bool)

  /** Some applied change, of any service, carries an error. */
  ghost predicate SomeFailed(m: map<string, seq<ChangeApplied>>) {
    exists s, j :: s in m && 0 <= j < |m[s]| && m[s][j].error.Some?
  }

  /** No change of the list carries an error. */
  ghost predicate AllApplied(changes: seq<ChangeApplied>) {
    forall j :: 0 <= j < |changes| ==> changes[j].error.None?
  }

  /**
   * `ReconciliationCompleted::new`: the services are those of
   * `changes_applied` followed by those of `errors`, each in map order;
   * errors are found iff some service failed or some applied change
   * carries an error.
   */
  method NewReconciliationCompleted(changesApplied: map<string, seq<ChangeApplied>>, errors: map<string, Error>)
    returns (t: ReconciliationCompleted)
    ensures t.changesApplied == changesApplied && t.errors == errors
    ensures |t.services| == |changesApplied.Keys| + |errors.Keys|
    ensures Enumerates(t.services[..|changesApplied.Keys|], changesApplied.Keys)
    ensures Enumerates(t.services[|changesApplied.Keys|..], errors.Keys)
    ensures t.errorsFound <==> |errors.Keys| > 0 || SomeFailed(changesApplied)
  {
    var applied := Enumerate(changesApplied.Keys);
    var failed := Enumerate(errors.Keys);
    var services := applied + failed;
    ServicesListed(applied, failed, changesApplied.Keys, errors.Keys);
    var found := ErrorsFound(changesApplied, errors);
    t := ReconciliationCompleted(services, changesApplied, errors, found);
  }

  /**
   * The `errors_found` closure: true at once if some service failed,
   * otherwise a scan of every service's applied changes that returns at
   * the first one carrying an error.
   */
  method ErrorsFound(changesApplied: map<string, seq<ChangeApplied>>, errors: map<string, Error>) returns (found: bool)
    ensures found <==> |errors.Keys| > 0 || SomeFailed(changesApplied)
  {
    if |errors.Keys| > 0 {
      return true;
    }
    var keys := Enumerate(changesApplied.Keys);
    for i := 0 to |keys|
      invariant forall k :: 0 <= k < i ==> keys[k] in changesApplied && AllApplied(changesApplied[keys[k]])
    {
      assert keys[i] in Elems(keys);
      var changes := changesApplied[keys[i]];
      for j := 0 to |changes|
        invariant AllApplied(changes[..j])
      {
        if changes[j].error.Some? {
          assert SomeFailed(changesApplied) by {
            assert keys[i] in changesApplied && 0 <= j < |changesApplied[keys[i]]|;
          }
          return true;
        }
        assert changes[..j + 1] == changes[..j] + [changes[j]];
      }
      assert changes[..|changes|] == changes;
    }
    NoneFailed(keys, changesApplied);
    return false;
  }

  /** The two listings, one after the other. */
  lemma ServicesListed(applied: seq<string>, failed: seq<string>, a: set<string>, b: set<string>)
    requires NoDup(applied) && Elems(applied) == a && |applied| == |a|
    requires NoDup(failed) && Elems(failed) == b && |failed| == |b|
    ensures |applied + failed| == |a| + |b|
    ensures Enumerates((applied + failed)[..|a|], a) && Enumerates((applied + failed)[|a|..], b)
  {
    assert (applied + failed)[..|a|] == applied && (applied + failed)[|a|..] == failed;
  }

  /** If the scan of every service's list found nothing, no applied change carries an error. */
  lemma NoneFailed(keys: seq<string>, m: map<string, seq<ChangeApplied>>)
    requires Elems(keys) == m.Keys
    requires forall k :: 0 <= k < |keys| ==> keys[k] in m && AllApplied(m[keys[k]])
    ensures !SomeFailed(m)
  {
    forall s | s in m ensures AllApplied(m[s]) {
      assert s in Elems(keys);
    }
  }

  // ------------------------------------------------------ format_error

  /** One list item: its depth (in tabs) and its text. */
  datatype Line = Line(depth: nat, text: string)

  /** `"\t".repeat(n)`. */
  function Tabs(n: nat): (s: string)
    ensures |s| == n
  {
    Repeat("\t", n)
  }

  /** What one `write!` of an item appends: a newline, the tabs, "- " and the text. */
  function Item(l: Line): string {
    "\n" + Tabs(l.depth) + "- " + l.text
  }

  /** The items, written one after another. */
  function Render(lines: seq<Line>): (s: string)
    ensures lines == [] ==> s == ""
  {
    if lines == [] then "" else Render(lines[..|lines| - 1]) + Item(lines[|lines| - 1])
  }

  lemma RenderSnoc(lines: seq<Line>, l: Line)
    ensures Render(lines + [l]) == Render(lines) + Item(l)
  {
    assert (lines + [l])[..|lines|] == lines;
  }

  /** The causes after an error's own line, each one tab deeper than the previous line. */
  function Causes(cs: seq<Error>, start: nat): (lines: seq<Line>)
    ensures |lines| == |cs|
  {
    if cs == [] then [] else Causes(cs[..|cs| - 1], start) + [Line(start + |cs| - 1, OldMultiError.Display(cs[|cs| - 1]))]
  }

  /** The k-th cause is written k tabs deeper than the first. */
  lemma {:induction false} CausesAt(cs: seq<Error>, start: nat)
    ensures forall k :: 0 <= k < |cs| ==> Causes(cs, start)[k] == Line(start + k, OldMultiError.Display(cs[k]))
  {
    if cs != [] {
      var n := |cs| - 1;
      CausesAt(cs[..n], start);
      assert forall k :: 0 <= k < n ==> cs[..n][k] == cs[k];
    }
  }

  /** A plain error: its own line at `depth`, then its causes. */
  function PlainLines(e: Error, depth: nat): seq<Line> {
    [Line(depth, OldMultiError.Display(e))] + Causes(Chain(e)[1..], depth + 1)
  }

  /**
   * The items the inner `format_error` writes for `e` at `depth`. A
   * `MultiError` is found through context layers (whose messages are then
   * not written); with a context it writes that context and its errors
   * one tab deeper, without one its errors stay at `depth`.
   */
  function FormatLines(e: Error, depth: nat): seq<Line>
    decreases e
  {
    match e
    case Multi(ctx, errs) =>
      if ctx.Some? then [Line(depth, ctx.value)] + AllLines(errs, depth + 1) else AllLines(errs, depth)
    case Context(_, inner) =>
      if DowncastMulti(inner).Some? then FormatLines(inner, depth) else PlainLines(e, depth)
    case Message(_) => PlainLines(e, depth)
  }

  /** The items of each error in turn. */
  function AllLines(errs: seq<Error>, depth: nat): seq<Line>
    decreases errs
  {
    if errs == [] then [] else AllLines(errs[..|errs| - 1], depth) + FormatLines(errs[|errs| - 1], depth)
  }

  /** The `format_error` template filter. */
  function FormatError(e: Error): string {
    Render(FormatLines(e, 0))
  }

  /** The inner `format_error`: appends the items of `err` at `depth` to `s`. */
  method FormatInto(err: Error, depth: nat, s: string) returns (out: string)
    ensures out == s + Render(FormatLines(err, depth))
    decreases err, 1
  {
    match err {
      case Multi(_, _) =>
        out := FormatMulti(err, depth, s);
      case Context(_, inner) =>
        if DowncastMulti(inner).Some? {
          out := FormatInto(inner, depth, s);
        } else {
          out := FormatPlain(err, depth, s);
        }
      case Message(_) =>
        out := FormatPlain(err, depth, s);
    }
  }

  /** The `MultiError` branch: the context line, if any, then each error one tab deeper than it. */
  method FormatMulti(err: Error, depth: nat, s: string) returns (out: string)
    requires err.Multi?
    ensures out == s + Render(FormatLines(err, depth))
    decreases err, 0
  {
    var ctx, errs := err.context, err.errors;
    var nextDepth := depth;
    ghost var head: seq<Line> := [];
    out := s;
    if ctx.Some? {
      out := out + Item(Line(depth, ctx.value));
      RenderSnoc([], Line(depth, ctx.value));
      head := [Line(depth, ctx.value)];
      nextDepth := depth + 1;
    }
    ghost var acc := head;
    for i := 0 to |errs|
      invariant acc == head + AllLines(errs[..i], nextDepth)
      invariant out == s + Render(acc)
    {
      ghost var more := FormatLines(errs[i], nextDepth);
      AllStep(head, errs, nextDepth, i, acc);
      AppendLines(s, acc, more);
      out := FormatInto(errs[i], nextDepth, out);
      acc := acc + more;
    }
    assert errs[..|errs|] == errs;
    assert acc == FormatLines(err, depth) by {
      if ctx.None? {
        assert [] + AllLines(errs, depth) == AllLines(errs, depth);
      }
    }
  }

  /** The plain branch: the error's line, then a loop over its causes raising the depth before each. */
  method FormatPlain(err: Error, depth: nat, s: string) returns (out: string)
    ensures out == s + Render(PlainLines(err, depth))
  {
    var own := Line(depth, OldMultiError.Display(err));
    out := s + Item(own);
    RenderSnoc([], own);
    var causes := Chain(err)[1..];
    var d := depth;
    ghost var acc := [own];
    for i := 0 to |causes|
      invariant d == depth + i
      invariant acc == [own] + Causes(causes[..i], depth + 1)
      invariant out == s + Render(acc)
    {
      d := d + 1;
      var l := Line(d, OldMultiError.Display(causes[i]));
      PlainStep(own, causes, depth, i, acc, l);
      AppendItem(s, acc, l);
      out := out + Item(l);
      acc := acc + [l];
    }
    assert causes[..|causes|] == causes;
  }

  /** One more cause: its line, one tab deeper than the last, goes after the lines so far. */
  lemma PlainStep(own: Line, causes: seq<Error>, depth: nat, i: nat, acc: seq<Line>, l: Line)
    requires i < |causes|
    requires acc == [own] + Causes(causes[..i], depth + 1)
    requires l == Line(depth + i + 1, OldMultiError.Display(causes[i]))
    ensures acc + [l] == [own] + Causes(causes[..i + 1], depth + 1)
  {
    assert causes[..i + 1][..i] == causes[..i];
  }

  /** One more error of a `MultiError`: its items go after those so far. */
  lemma AllStep(head: seq<Line>, errs: seq<Error>, depth: nat, i: nat, acc: seq<Line>)
    requires i < |errs|
    requires acc == head + AllLines(errs[..i], depth)
    ensures acc + FormatLines(errs[i], depth) == head + AllLines(errs[..i + 1], depth)
  {
    assert errs[..i + 1][..i] == errs[..i];
  }

  /** Writing more items after `s` and the items so far. */
  lemma AppendLines(s: string, acc: seq<Line>, more: seq<Line>)
    ensures s + Render(acc) + Render(more) == s + Render(acc + more)
  {
    RenderConcat(acc, more);
  }

  /** Writing one more item after `s` and the items so far. */
  lemma AppendItem(s: string, acc: seq<Line>, l: Line)
    ensures s + Render(acc) + Item(l) == s + Render(acc + [l])
  {
    RenderSnoc(acc, l);
  }

  lemma {:induction false} RenderConcat(a: seq<Line>, b: seq<Line>)
    ensures Render(a + b) == Render(a) + Render(b)
    decreases |b|
  {
    if b == [] {
      assert a + b == a;
    } else {
      var n := |b| - 1;
      assert (a + b)[..|a| + n] == a + b[..n];
      assert (a + b)[|a| + n] == b[n];
      RenderConcat(a, b[..n]);
      assert Render(b) == Render(b[..n]) + Item(b[n]);
    }
  }

  // ------------------------------------------------------ format_error's shape

  /** No item of an error printed at `depth` is shallower than `depth`. */
  ghost predicate AtLeast(lines: seq<Line>, depth: nat) {
    forall i :: 0 <= i < |lines| ==> lines[i].depth >= depth
  }

  lemma AtLeastConcat(a: seq<Line>, b: seq<Line>, depth: nat)
    requires AtLeast(a, depth) && AtLeast(b, depth)
    ensures AtLeast(a + b, depth)
  {
    forall i | 0 <= i < |a + b| ensures (a + b)[i].depth >= depth {
      if i >= |a| {
        assert (a + b)[i] == b[i - |a|];
      }
    }
  }

  lemma PlainAtLeast(e: Error, depth: nat)
    ensures AtLeast(PlainLines(e, depth), depth)
  {
    var cs := Chain(e)[1..];
    CausesAt(cs, depth + 1);
    AtLeastConcat([Line(depth, OldMultiError.Display(e))], Causes(cs, depth + 1), depth);
  }

  lemma {:induction false} FormatLinesAtLeast(e: Error, depth: nat)
    ensures AtLeast(FormatLines(e, depth), depth)
    decreases e
  {
    match e
    case Multi(ctx, errs) =>
      if ctx.Some? {
        AllLinesAtLeast(errs, depth + 1);
        AtLeastConcat([Line(depth, ctx.value)], AllLines(errs, depth + 1), depth);
      } else {
        AllLinesAtLeast(errs, depth);
      }
    case Context(_, inner) =>
      if DowncastMulti(inner).Some? { FormatLinesAtLeast(inner, depth); } else { PlainAtLeast(e, depth); }
    case Message(_) =>
      PlainAtLeast(e, depth);
  }

  lemma {:induction false} AllLinesAtLeast(errs: seq<Error>, depth: nat)
    ensures AtLeast(AllLines(errs, depth), depth)
    decreases errs
  {
    if errs != [] {
      AllLinesAtLeast(errs[..|errs| - 1], depth);
      FormatLinesAtLeast(errs[|errs| - 1], depth);
      AtLeastConcat(AllLines(errs[..|errs| - 1], depth), FormatLines(errs[|errs| - 1], depth), depth);
    }
  }

  /**
   * A plain error writes one item per error of its chain: its own at
   * `depth`, the k-th cause k tabs deeper.
   */
  lemma PlainShape(e: Error, depth: nat)
    requires DowncastMulti(e).None?
    ensures |FormatLines(e, depth)| == |Chain(e)|
    ensures forall k :: 0 <= k < |Chain(e)| ==> FormatLines(e, depth)[k] == Line(depth + k, OldMultiError.Display(Chain(e)[k]))
  {
    var lines := FormatLines(e, depth);
    var c := Chain(e);
    assert lines == PlainLines(e, depth);
    CausesAt(c[1..], depth + 1);
    forall k | 1 <= k < |c| ensures lines[k] == Line(depth + k, OldMultiError.Display(c[k])) {
      assert lines[k] == Causes(c[1..], depth + 1)[k - 1];
    }
  }

  /** A `MultiError` with a context writes it at `depth`, and every item of its errors lies deeper. */
  lemma ContextThenDeeper(c: string, errs: seq<Error>, depth: nat)
    ensures var lines := FormatLines(Multi(Some(c), errs), depth);
      |lines| >= 1 && lines[0] == Line(depth, c) && AtLeast(lines[1..], depth + 1)
  {
    AllLinesAtLeast(errs, depth + 1);
    assert FormatLines(Multi(Some(c), errs), depth)[1..] == AllLines(errs, depth + 1);
  }

  /** Without a context a `MultiError` adds no item and no depth: it writes exactly its errors' items. */
  lemma NoContextSameDepth(errs: seq<Error>, depth: nat)
    ensures FormatLines(Multi(None, errs), depth) == AllLines(errs, depth)
  {
  }

  /** A context layer over a `MultiError` is looked through: its message is never written. */
  lemma ContextOverMultiHidden(c: string, ctx: Option<string>, errs: seq<Error>, depth: nat)
    ensures FormatLines(Context(c, Multi(ctx, errs)), depth) == FormatLines(Multi(ctx, errs), depth)
  {
  }
}
