/**
 * The first generation's `MultiError` (src/multierror.rs): the errors
 * pushed so far, in order, and nothing else (it has no context). Its
 * `Display` writes one "- err" line per error.
 */
module OldMultiError {
  import opened Common
  import opened Errors

  class MultiError {
    var errors: seq<Error>

    /** `MultiError::new()`: no error. */
    constructor ()
      ensures errors == []
      ensures !HasErrors()
    {
      errors := [];
    }

    /** `From<anyhow::Error>`: exactly that one error. */
    constructor FromError(err: Error)
      ensures errors == [err]
      ensures HasErrors()
    {
      errors := [err];
    }

    /** `errors`: every error, in the order it was added. */
    function Errors(): (errs: seq<Error>)
      reads this
      ensures |errs| == |errors| && forall i :: 0 <= i < |errs| ==> errs[i] == errors[i]
    {
      errors
    }

    /** `has_errors`: at least one error has been added. */
    function HasErrors(): (b: bool)
      reads this
      ensures b <==> errors != []
    {
      |errors| > 0
    }

    /** `join`: the other instance's errors go after ours, in their order. */
    method Join(other: MultiError)
      requires other != this
      modifies this
      ensures errors == old(errors) + old(other.errors)
      ensures old(HasErrors()) || other.HasErrors() ==> HasErrors()
    {
      errors := errors + other.errors;
    }

    /** `push`: the error goes at the end. */
    method Push(err: Error)
      modifies this
      ensures errors == old(errors) + [err]
      ensures HasErrors()
    {
      errors := errors + [err];
    }

    /** `Display`. */
    function ToString(): string
      reads this
    {
      ErrorList(errors)
    }
  }

  /**
   * `{}` of an error in this generation: a message or the outermost
   * context; a `MultiError` prints its own `Display`, which has no
   * context to print.
   */
  function Display(e: Error): string
    decreases e, 1
  {
    match e
    case Message(t) => t
    case Context(c, _) => c
    case Multi(_, errs) => ErrorList(errs)
  }

  /** One "- err" line per error, in order. */
  function ErrorList(errs: seq<Error>): (s: string)
    ensures errs == [] ==> s == ""
    decreases errs, 0
  {
    if errs == [] then ""
    else
      var n := |errs| - 1;
      ErrorList(errs[..n]) + "- " + Display(errs[n]) + "\n"
  }

  /** The display of two lists joined is the display of the first followed by that of the second. */
  lemma {:induction false} ErrorListConcat(a: seq<Error>, b: seq<Error>)
    ensures ErrorList(a + b) == ErrorList(a) + ErrorList(b)
  {
    if b == [] {
      assert a + b == a;
    } else {
      var n := |b| - 1;
      assert (a + b)[..|a| + n] == a + b[..n];
      assert (a + b)[|a| + n] == b[n];
      ErrorListConcat(a, b[..n]);
    }
  }

  /** Each error is one line "- err\n", so the display has exactly one line per error, in order. */
  lemma {:induction false} ErrorListLines(errs: seq<Error>, i: nat)
    requires i < |errs|
    ensures ErrorList(errs) == ErrorList(errs[..i]) + "- " + Display(errs[i]) + "\n" + ErrorList(errs[i + 1..])
  {
    assert errs == errs[..i] + [errs[i]] + errs[i + 1..];
    ErrorListConcat(errs[..i] + [errs[i]], errs[i + 1..]);
    ErrorListConcat(errs[..i], [errs[i]]);
    assert ([] + [errs[i]])[..0] == [];
    assert ErrorList([errs[i]]) == ErrorList([]) + "- " + Display(errs[i]) + "\n" by {
      assert [errs[i]][..0] == [];
    }
  }

  /** Something is displayed exactly when there are errors. */
  lemma ErrorListEmptyIff(errs: seq<Error>)
    ensures ErrorList(errs) == "" <==> errs == []
  {
    if errs != [] {
      var n := |errs| - 1;
      assert |ErrorList(errs)| >= 3;
    }
  }
}
