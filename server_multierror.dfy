/**
 * clowarden-server's own `MultiError`: an optional context and the errors
 * pushed so far, in order. Unlike the core one, its `Display` writes only
 * the errors, each in alternate form and followed by a space, and never
 * the context.
 */
module ServerMultiError {
  import opened Common
  import opened Errors
  import CoreMultiError

  class MultiError {
    var context: Option<string>
    var errors: seq<Error>

    /** `MultiError::new(context)`: the context and no error. */
    constructor (context: Option<string>)
      ensures this.context == context && errors == []
      ensures !ContainsErrors()
    {
      this.context := context;
      errors := [];
    }

    /** `From<Error>`: exactly one error and no context. */
    constructor FromError(err: Error)
      ensures context == None && errors == [err]
      ensures ContainsErrors()
    {
      context := None;
      errors := [err];
    }

    /** `contains_errors`: at least one error was pushed. */
    function ContainsErrors(): (b: bool)
      reads this
      ensures b <==> errors != []
    {
      |errors| > 0
    }

    /** `errors`: all errors, in the order they were pushed. */
    function Errors(): (errs: seq<Error>)
      reads this
      ensures |errs| > 0 <==> ContainsErrors()
    {
      errors
    }

    /** `push`: the error goes at the end; earlier errors and the context stay. */
    method Push(err: Error)
      modifies this
      ensures errors == old(errors) + [err]
      ensures context == old(context)
      ensures ContainsErrors()
    {
      errors := errors + [err];
    }

    /** `Error::from(merr)`: the collected errors as one error value. */
    function ToError(): (e: Error)
      reads this
      ensures e.Multi? && e.context == context && e.errors == errors
    {
      Multi(context, errors)
    }

    /** `Display`. */
    function ToString(): (s: string)
      reads this
      ensures s == DisplayErrors(errors)
    {
      DisplayErrors(errors)
    }
  }

  /** Each error in alternate form, followed by a space. */
  function DisplayErrors(errs: seq<Error>): (s: string)
    ensures errs == [] ==> s == ""
  {
    if errs == [] then ""
    else
      var n := |errs| - 1;
      DisplayErrors(errs[..n]) + CoreMultiError.Alternate(errs[n]) + " "
  }

  /** The display of several errors is the displays of each, one after another. */
  lemma {:induction false} DisplayErrorsConcat(a: seq<Error>, b: seq<Error>)
    ensures DisplayErrors(a + b) == DisplayErrors(a) + DisplayErrors(b)
  {
    if b != [] {
      var n := |b| - 1;
      assert (a + b)[..|a| + n] == a + b[..n];
      DisplayErrorsConcat(a, b[..n]);
    } else {
      assert a + b == a;
    }
  }

  /** Pushing an error adds its alternate form and a space to the display. */
  lemma DisplayAfterPush(errs: seq<Error>, err: Error)
    ensures DisplayErrors(errs + [err]) == DisplayErrors(errs) + CoreMultiError.Alternate(err) + " "
  {
    assert (errs + [err])[..|errs|] == errs;
  }

  /** Every error is printed, so something is printed exactly when there are errors. */
  lemma {:induction false} DisplayEmptyIff(errs: seq<Error>)
    ensures DisplayErrors(errs) == "" <==> errs == []
  {
    if errs != [] {
      var n := |errs| - 1;
      assert |DisplayErrors(errs)| >= 1;
    }
  }
}
