/** Small shared datatypes. */
module Util {

  /** A value that may be absent: a missing key of the log document, or a
      colour that is not a finite number. */
  datatype Option<T> = None | Some(value: T)

  /** How one ingestion step of the simulation ends. `Ok` is the step's
      return code 0 (or, for a whole load, the completion callback receiving
      `true`); `Error` is return code 1 (the callback receiving `false`);
      `Thrown` is a JavaScript `TypeError` escaping the step, after which the
      completion callback is never called. */
  datatype Outcome = Ok | Error | Thrown

  lemma ConcatAssoc<T>(a: seq<T>, b: seq<T>, c: seq<T>)
    ensures a + b + c == a + (b + c)
  {
  }

  lemma MulAtLeast(d: int, n: int)
    requires d >= 1 && n > 0
    ensures d * n >= n
  {
  }

  /** Euclidean division is unique: a multiple of `n` plus a remainder in
      `[0, n)` has that remainder and that quotient. */
  lemma ModUnique(y: int, k: int, r: int, n: int)
    requires n > 0 && 0 <= r < n && y == k * n + r
    ensures y % n == r && y / n == k
  {
    var q, s := y / n, y % n;
    assert (q - k) * n == r - s;
    if q - k >= 1 { MulAtLeast(q - k, n); }
    if k - q >= 1 { MulAtLeast(k - q, n); }
  }
}
