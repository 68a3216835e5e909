/**
 * The error values every crate passes around (`anyhow::Error`): a message,
 * a message wrapped by `.context(...)`, or a `MultiError` turned into an
 * error. How a `MultiError` prints depends on the crate that defined it, so
 * the `Display` functions live beside each `MultiError`.
 */
module Errors {
  import opened Common

  datatype Error =
    | Message(text: string)
    | Context(ctx: string, inner: Error)
    | Multi(context: Option<string>, errors: seq<Error>)

  /** `e.chain()`: the error itself followed by its sources, outermost first. */
  function Chain(e: Error): (c: seq<Error>)
    ensures |c| >= 1 && c[0] == e
    ensures !e.Context? ==> c == [e]
    ensures e.Context? ==> c[1..] == Chain(e.inner)
  {
    match e
    case Context(_, inner) => [e] + Chain(inner)
    case _ => [e]
  }

  /**
   * `e.downcast_ref::<MultiError>()`. anyhow looks through context layers,
   * so a context-wrapped `MultiError` is still found.
   */
  function DowncastMulti(e: Error): (r: Option<Error>)
    ensures r.Some? ==> r.value.Multi?
    ensures e.Multi? ==> r == Some(e)
    ensures e.Message? ==> r.None?
    ensures e.Context? ==> r == DowncastMulti(e.inner)
  {
    match e
    case Multi(_, _) => Some(e)
    case Context(_, inner) => DowncastMulti(inner)
    case Message(_) => None
  }

  /** `result.context(c)`: an error gets `c` as its outermost message; a value passes through. */
  function WithContext<T>(r: Result<T, Error>, c: string): (r': Result<T, Error>)
    ensures r.Ok? ==> r' == r
    ensures r.Err? ==> r' == Err(Context(c, r.error)) && Chain(r'.error) == [r'.error] + Chain(r.error)
  {
    match r
    case Ok(v) => Ok(v)
    case Err(e) => Err(Context(c, e))
  }

  /** The concatenation of `lines`, each followed by a newline (a run of `writeln!`). */
  function Unlines(lines: seq<string>): (s: string)
    ensures |lines| == 0 ==> s == ""
  {
    if lines == [] then "" else lines[0] + "\n" + Unlines(lines[1..])
  }

  /** `s.repeat(n)`. */
  function Repeat(s: string, n: nat): (r: string)
    ensures |r| == n * |s|
  {
    if n == 0 then "" else Repeat(s, n - 1) + s
  }
}
