/**
 * clowarden-core's `MultiError`: an optional context and the errors
 * collected so far, in the order they were pushed. Its `Display` prints the
 * context once and then one numbered line per error; `pretty_format`
 * unfolds nested `MultiError`s and cause chains into indented lines.
 */
module CoreMultiError {
  import opened Common
  import opened Errors
  import opened Collections

  class MultiError {
    var context: Option<string>
    var errors: seq<Error>

    /** `MultiError::new(context)`. */
    constructor (context: Option<string>)
      ensures this.context == context && errors == []
    {
      this.context := context;
      errors := [];
    }

    /** `From<Error>`: exactly one error and no context. */
    constructor FromError(err: Error)
      ensures context == None && errors == [err]
    {
      context := None;
      errors := [err];
    }

    /** `FromIterator<Error>`: the iterator's errors in order, no context. */
    constructor FromIter(errs: seq<Error>)
      ensures context == None && errors == errs
    {
      context := None;
      errors := errs;
    }

    /** `is_empty`: no error stored. */
    predicate IsEmpty()
      reads this
    {
      |errors| == 0
    }

    /**
     * `contains_errors`, which the crate's callers use although the type does
     * not define it; taken as the negation of `is_empty`.
     */
    function ContainsErrors(): (b: bool)
      reads this
      ensures b <==> !IsEmpty()
    {
      |errors| > 0
    }

    /** `push`: the error goes at the end, earlier errors and the context stay. */
    method Push(err: Error)
      modifies this
      ensures errors == old(errors) + [err]
      ensures context == old(context)
      ensures !IsEmpty()
    {
      errors := errors + [err];
    }

    /** `extend`: the iterator's errors are appended in order. */
    method Extend(errs: seq<Error>)
      modifies this
      ensures errors == old(errors) + errs
      ensures context == old(context)
    {
      var i := 0;
      while i < |errs|
        invariant 0 <= i <= |errs|
        invariant errors == old(errors) + errs[..i]
        invariant context == old(context)
      {
        assert errs[..i + 1] == errs[..i] + [errs[i]];
        errors := errors + [errs[i]];
        i := i + 1;
      }
      assert errs[..|errs|] == errs;
    }

    /** `into_inner`/`errors`: the stored errors. */
    function IntoInner(): (errs: seq<Error>)
      reads this
      ensures |errs| == 0 <==> IsEmpty()
    {
      errors
    }

    /** `Err(merr.into())`: the collected errors as one error value. */
    function ToError(): (e: Error)
      reads this
      ensures e.Multi? && e.context == context && e.errors == errors
      ensures DowncastMulti(e) == Some(e)
    {
      Multi(context, errors)
    }
  }

  /** `{:>2}`: a number right-aligned in a field of two. */
  function Pad2(n: nat): (s: string)
    ensures |s| >= 2
    ensures n < 10 ==> s == " " + NatToString(n)
    ensures n >= 10 ==> s == NatToString(n)
  {
    var d := NatToString(n);
    if |d| < 2 then " " + d else d
  }

  /** `{}` of an error whose `MultiError`s are this crate's. */
  function Display(e: Error): string
    decreases e, 0
  {
    match e
    case Message(t) => t
    case Context(c, _) => c
    case Multi(ctx, errs) => Unlines(DisplayLines(ctx, errs))
  }

  /** `{:#}`: the error followed by each of its sources, joined by ": ". */
  function Alternate(e: Error): string
    decreases e, 1
  {
    match e
    case Context(c, inner) => c + ": " + Alternate(inner)
    case _ => Display(e)
  }

  /** The numbered lines "   1. err" of errors `first`, `first+1`, ... */
  function NumberedLines(errs: seq<Error>, first: nat): (lines: seq<string>)
    ensures |lines| == |errs|
    ensures forall i :: 0 <= i < |errs| ==> lines[i] == "  " + Pad2(first + i) + ". " + Alternate(errs[i])
    decreases errs, 2
  {
    if errs == [] then []
    else ["  " + Pad2(first) + ". " + Alternate(errs[0])] + NumberedLines(errs[1..], first + 1)
  }

  /** The lines `Display` writes for a `MultiError`. */
  function DisplayLines(ctx: Option<string>, errs: seq<Error>): (lines: seq<string>)
    decreases errs, 3
  {
    (if ctx.Some? then [ctx.value + ":"] else []) + NumberedLines(errs, 1)
  }

  /**
   * The context is printed once, as the first line, when it is set; then
   * the i-th error (counting from 1) is printed on its own line as "i. err"
   * with the alternate form of the error.
   */
  lemma DisplayShape(ctx: Option<string>, errs: seq<Error>)
    ensures var lines := DisplayLines(ctx, errs);
      var off := if ctx.Some? then 1 else 0;
      && |lines| == off + |errs|
      && (ctx.Some? ==> lines[0] == ctx.value + ":")
      && forall i :: 0 <= i < |errs| ==> lines[off + i] == "  " + Pad2(i + 1) + ". " + Alternate(errs[i])
  {
  }

  /** The indentation `"  ".repeat(depth)`. */
  function Indent(depth: nat): (s: string)
    ensures |s| == 2 * depth
  {
    Repeat("  ", depth)
  }

  /** `fmt_inner(e, depth, out)`: the lines appended to `out`. */
  function FmtInner(e: Error, depth: nat): (lines: seq<string>)
    decreases e
  {
    match e
    case Multi(ctx, errs) =>
      (if ctx.Some? then [Indent(depth) + ctx.value] else []) + FmtAll(errs, depth + 1)
    case Context(c, inner) =>
      if DowncastMulti(inner).Some? then FmtInner(inner, depth) else FmtPlain(e, depth)
    case Message(_) => FmtPlain(e, depth)
  }

  /** Each sub-error formatted in turn. */
  function FmtAll(errs: seq<Error>, depth: nat): (lines: seq<string>)
    decreases errs
  {
    if errs == [] then [] else FmtInner(errs[0], depth) + FmtAll(errs[1..], depth)
  }

  /** A plain error: its message, then one "↳ cause" line per source. */
  function FmtPlain(e: Error, depth: nat): (lines: seq<string>)
  {
    var chain := Chain(e);
    [Indent(depth) + Display(e)] + Map(chain[1..], (cause: Error) => Indent(depth) + "  ↳ " + Display(cause))
  }

  /** `pretty_format`. */
  function PrettyFormat(e: Error): string {
    Unlines(FmtInner(e, 0))
  }

  /** Every line written at depth `d` starts with the indentation of depth `d`. */
  predicate IndentedBy(lines: seq<string>, depth: nat) {
    forall i :: 0 <= i < |lines| ==> StartsWith(lines[i], Indent(depth))
  }

  lemma IndentDeeper(s: string, depth: nat)
    requires StartsWith(s, Indent(depth + 1))
    ensures StartsWith(s, Indent(depth))
  {
    assert Indent(depth + 1) == Indent(depth) + "  ";
    assert s[..|Indent(depth)|] == Indent(depth + 1)[..|Indent(depth)|];
  }

  /**
   * A `MultiError`'s sub-errors are printed one level deeper than its
   * context: every line of the dump of an error at depth `d` is indented by
   * at least `d` levels.
   */
  lemma {:induction false} FmtInnerIndented(e: Error, depth: nat)
    ensures IndentedBy(FmtInner(e, depth), depth)
    decreases e
  {
    match e
    case Multi(ctx, errs) =>
      FmtAllIndented(errs, depth + 1);
      var deeper := FmtAll(errs, depth + 1);
      forall i | 0 <= i < |deeper| ensures StartsWith(deeper[i], Indent(depth)) {
        IndentDeeper(deeper[i], depth);
      }
    case Context(c, inner) =>
      if DowncastMulti(inner).Some? { FmtInnerIndented(inner, depth); }
    case Message(_) =>
  }

  lemma {:induction false} FmtAllIndented(errs: seq<Error>, depth: nat)
    ensures IndentedBy(FmtAll(errs, depth), depth)
    decreases errs
  {
    if errs != [] {
      FmtInnerIndented(errs[0], depth);
      FmtAllIndented(errs[1..], depth);
    }
  }

  /** A plain error prints one line at its depth and then one line per cause. */
  lemma PlainShape(e: Error, depth: nat)
    requires DowncastMulti(e).None?
    ensures |FmtInner(e, depth)| == |Chain(e)|
    ensures FmtInner(e, depth)[0] == Indent(depth) + Display(e)
    ensures forall i :: 1 <= i < |Chain(e)| ==> FmtInner(e, depth)[i] == Indent(depth) + "  ↳ " + Display(Chain(e)[i])
  {
  }

  /** A `MultiError` without context prints only its sub-errors, one level deeper. */
  lemma MultiShape(ctx: Option<string>, errs: seq<Error>, depth: nat)
    ensures ctx.None? ==> FmtInner(Multi(ctx, errs), depth) == FmtAll(errs, depth + 1)
    ensures ctx.Some? ==> FmtInner(Multi(ctx, errs), depth) == [Indent(depth) + ctx.value] + FmtAll(errs, depth + 1)
  {
  }

  /**
   * anyhow finds a `MultiError` through `.context(...)` layers, so such a
   * context message is not printed: only the `MultiError`'s own context is.
   */
  lemma ContextOverMultiHidden(c: string, ctx: Option<string>, errs: seq<Error>, depth: nat)
    ensures FmtInner(Context(c, Multi(ctx, errs)), depth) == FmtInner(Multi(ctx, errs), depth)
  {
  }
}
