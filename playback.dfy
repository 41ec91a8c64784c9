/** The frame-index arithmetic and the show/hide watermark of playback, as
    functions on values. */
module Playback {
  import opened Util

  /** JavaScript's `a % b` for a positive divisor: the remainder truncated
      toward zero, so it takes the sign of the dividend (Dafny's own `%` is
      Euclidean and never negative). */
  function JsRem(a: int, b: int): (r: int)
    requires b > 0
    ensures a >= 0 ==> 0 <= r < b
    ensures a < 0 ==> -b < r <= 0
    ensures -b < a < b ==> r == a
    ensures (a - r) % b == 0
  {
    TruncatedRemainder(a, b);
    if a >= 0 then a % b else -((-a) % b)
  }

  lemma TruncatedRemainder(a: int, b: int)
    requires b > 0
    ensures a >= 0 ==> (a - a % b) % b == 0 && (a < b ==> a % b == a)
    ensures a < 0 ==> (a + (-a) % b) % b == 0 && (-a < b ==> (-a) % b == -a)
  {
    if a >= 0 {
      ModUnique(a - a % b, a / b, 0, b);
      if a < b { ModUnique(a, 0, a, b); }
    } else {
      var q := (-a) / b;
      ModUnique(a + (-a) % b, -q, 0, b);
      if -a < b { ModUnique(-a, 0, -a, b); }
    }
  }

  /** The normalisation `drawFrame` applies to the frame index: an index
      outside `[0, n)` becomes `(c + n) % n`, with JavaScript's remainder. */
  function Normalize(c: int, n: int): (r: int)
    requires n > 0
    ensures 0 <= c < n ==> r == c
  {
    if c < 0 || c >= n then JsRem(c + n, n) else c
  }

  /** From any index not below `-n` the normalised index is a frame,
      congruent to the index modulo `n`: one step below the range wraps to
      the top, one step above it wraps to the bottom. */
  lemma NormalizeInRange(c: int, n: int)
    requires n > 0 && -n <= c
    ensures 0 <= Normalize(c, n) < n
    ensures (Normalize(c, n) - c) % n == 0
    ensures -n <= c < 0 ==> Normalize(c, n) == c + n
    ensures n <= c < 2 * n ==> Normalize(c, n) == c - n
  {
    var r := Normalize(c, n);
    if c < 0 || c >= n {
      var x := c + n - r;
      assert x % n == 0;
      assert x == (x / n) * n;
      ModUnique(r - c, 1 - x / n, 0, n);
      if n <= c < 2 * n {
        ModUnique(c + n, 2, c - n, n);
      }
    } else {
      ModUnique(0, 0, 0, n);
    }
  }

  /** The normalised index is a frame exactly when the index is not below
      `-n` or `c + n` is a multiple of `n`; in the second case below `-n`
      it is frame 0 (JavaScript's `-0`, which indexes as 0). Otherwise it
      stays negative. */
  lemma NormalizeNonNegative(c: int, n: int)
    requires n > 0
    ensures 0 <= Normalize(c, n) <==> -n <= c || (c + n) % n == 0
    ensures c < -n && (c + n) % n == 0 ==> Normalize(c, n) == 0
  {
    if -n <= c {
      NormalizeInRange(c, n);
    } else {
      var a := c + n;
      var q, r := (-a) / n, (-a) % n;
      if r == 0 {
        ModUnique(a, -q, 0, n);
      } else {
        ModUnique(a, -q - 1, n - r, n);
      }
    }
  }

  /** Stepping back from frame 0 gives the last frame; stepping forward from
      the last frame gives frame 0. */
  lemma WrapAround(n: int)
    requires n > 0
    ensures Normalize(-1, n) == n - 1
    ensures Normalize(n, n) == 0
  {
    NormalizeInRange(-1, n);
    NormalizeInRange(n, n);
  }

  /** A step back then a step forward (or the reverse) returns to the same
      frame. */
  lemma StepsCancel(k: int, n: int)
    requires 0 <= k < n
    ensures Normalize(Normalize(k - 1, n) + 1, n) == k
    ensures Normalize(Normalize(k + 1, n) - 1, n) == k
  {
    if k == 0 {
      WrapAround(n);
    }
    if k == n - 1 {
      WrapAround(n);
    }
  }

  /** `isFinished`: the frame is the last one. */
  predicate IsFinishedAt(c: int, n: int)
  {
    c + 1 == n
  }

  /** The finished frame is exactly the frame from which a step forward
      wraps around to frame 0. */
  lemma FinishedIffNextWraps(c: int, n: int)
    requires 0 <= c < n
    ensures IsFinishedAt(c, n) <==> Normalize(c + 1, n) == 0
  {
    if c + 1 == n {
      WrapAround(n);
    }
  }

  /** The visibility flags after moving the watermark from `last` to `cur`:
      moving forward shows the groups `last..cur`, moving back hides the
      groups `cur+1..last`, and every other flag is kept. */
  function Reconcile(shown: seq<bool>, last: int, cur: int): (r: seq<bool>)
    ensures |r| == |shown|
  {
    seq(|shown|, i requires 0 <= i < |shown| =>
      if last < cur && last <= i <= cur then true
      else if cur < last && cur < i <= last then false
      else shown[i])
  }

  /** The groups `1..w` are shown and every later group is hidden. Group 0 is
      the empty group before the first frame; its flag is not constrained. */
  ghost predicate Watermarked(shown: seq<bool>, w: int)
  {
    forall i :: 1 <= i < |shown| ==> (shown[i] <==> i <= w)
  }

  /** Moving the watermark keeps the invariant at the new frame, and only
      flags between the old and the new watermark change (group 0 can change
      only when moving forward from 0). */
  lemma ReconcileKeepsWatermark(shown: seq<bool>, last: int, cur: int)
    requires Watermarked(shown, last)
    ensures Watermarked(Reconcile(shown, last, cur), cur)
    ensures forall i :: 0 <= i < |shown| && Reconcile(shown, last, cur)[i] != shown[i] ==>
      (last < cur && last <= i <= cur) || (cur < last && cur < i <= last)
  {
  }

  /** The flags of `n` freshly built groups: all hidden. */
  function Hidden(n: nat): (r: seq<bool>)
    ensures |r| == n && forall i :: 0 <= i < n ==> !r[i]
  {
    seq(n, _ => false)
  }

  /** Appending hidden groups past the watermark keeps the invariant. */
  lemma HiddenKeepsWatermark(shown: seq<bool>, w: int, n: nat)
    requires Watermarked(shown, w) && (w < |shown| || w == 0)
    ensures Watermarked(shown + Hidden(n), w)
  {
  }
}
