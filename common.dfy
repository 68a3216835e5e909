/**
 * Value wrappers and small text helpers shared by every module: Rust's
 * `Option` and `Result`, and the decimal rendering of an index used in
 * the validators' messages ("repo[3]: ...").
 */
module Common {

  datatype Option<T> = None | Some(value: T) {
    /** `unwrap_or(d)`: the held value, or `d` when there is none. */
    function UnwrapOr(d: T): (r: T)
      ensures Some? ==> r == value
      ensures None? ==> r == d
    {
      match this
      case Some(v) => v
      case None => d
    }
  }

  datatype Result<T, E> = Ok(value: T) | Err(error: E)

  /** Decimal digit of `d`. */
  function Digit(d: nat): (c: char)
    requires d < 10
    ensures '0' <= c <= '9'
  {
    ['0', '1', '2', '3', '4', '5', '6', '7', '8', '9'][d]
  }

  /** Decimal rendering of a `usize`, as `format!("{}", n)` prints it. */
  function NatToString(n: nat): (s: string)
    ensures |s| > 0
    ensures forall i :: 0 <= i < |s| ==> '0' <= s[i] <= '9'
    decreases n
  {
    if n < 10 then [Digit(n)] else NatToString(n / 10) + [Digit(n % 10)]
  }

  /** `s.starts_with(p)`. */
  predicate StartsWith(s: string, p: string) {
    |p| <= |s| && s[..|p|] == p
  }

  lemma StartsWithConcat(p: string, rest: string)
    ensures StartsWith(p + rest, p)
  {
    assert (p + rest)[..|p|] == p;
  }
}
