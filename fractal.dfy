/**
 * The escape-time evaluation `julia` (src/main.rs), over exact reals:
 * `Complex<f32>` becomes a pair of reals and `z.norm() >= 2.0` becomes
 * "the squared modulus is at least 4".
 */
module Fractal {
  import opened Prims

  datatype Complex = Complex(re: real, im: real)

  function Add(a: Complex, b: Complex): Complex {
    Complex(a.re + b.re, a.im + b.im)
  }

  function Mul(a: Complex, b: Complex): Complex {
    Complex(a.re * b.re - a.im * b.im, a.re * b.im + a.im * b.re)
  }

  /** One iteration of the Julia map, `z * z + c`. */
  function Step(z: Complex, c: Complex): Complex {
    Add(Mul(z, z), c)
  }

  /** The escape test `z.norm() >= 2.0`, squared so that it stays rational. */
  predicate Escaped(z: Complex) {
    z.re * z.re + z.im * z.im >= 4.0
  }

  /** The point reached from `z0` after `t` iterations. */
  function Orbit(z0: Complex, c: Complex, t: nat): Complex {
    if t == 0 then z0 else Step(Orbit(z0, c, t - 1), c)
  }

  /**
   * The pixel-to-plane scaling: the image maps onto [-1.5, 1.5) x [-1, 1),
   * with the centre pixel at the origin.
   */
  function StartPoint(x: U32, y: U32, width: U32, height: U32): (z: Complex)
    requires 0 < width && 0 < height
    ensures 2 * x == width ==> z.re == 0.0
    ensures 2 * y == height ==> z.im == 0.0
  {
    Complex(3.0 * (x as real - 0.5 * width as real) / width as real,
            2.0 * (y as real - 0.5 * height as real) / height as real)
  }

  /** Every pixel of the image starts inside [-1.5, 1.5) x [-1, 1). */
  lemma StartPointInView(x: U32, y: U32, width: U32, height: U32)
    requires x < width && y < height
    ensures -1.5 <= StartPoint(x, y, width, height).re < 1.5
    ensures -1.0 <= StartPoint(x, y, width, height).im < 1.0
  {
    ScaledOffsetBounds(x, width, 3.0);
    ScaledOffsetBounds(y, height, 2.0);
  }

  /** `s * (p - n/2) / n` lies in [-s/2, s/2) for `p < n`. */
  lemma ScaledOffsetBounds(p: nat, n: nat, s: real)
    requires p < n && 0.0 < s
    ensures -s / 2.0 <= s * (p as real - 0.5 * n as real) / n as real < s / 2.0
  {
    var pr, nr := p as real, n as real;
    var v := s * (pr - 0.5 * nr) / nr;
    assert v * nr == s * pr - s / 2.0 * nr;
    assert 0.0 <= s * pr < s * nr;
  }

  /**
   * The first step in `t .. n` at which the orbit has escaped, or `n` when
   * it stays bounded up to step `n`.
   */
  function FirstEscapeFrom(z0: Complex, c: Complex, t: nat, n: nat): (k: nat)
    requires t <= n
    ensures t <= k <= n
    ensures k < n ==> Escaped(Orbit(z0, c, k))
    decreases n - t
  {
    if t == n || Escaped(Orbit(z0, c, t)) then t else FirstEscapeFrom(z0, c, t + 1, n)
  }

  /** The number of iterations the loop completes within a budget of `n`. */
  function EscapeTime(z0: Complex, c: Complex, n: nat): nat
  {
    FirstEscapeFrom(z0, c, 0, n)
  }

  /** `julia` returns the index of the last completed iteration, or 0 when none completed. */
  function LastCompletedStep(k: nat): nat {
    if k == 0 then 0 else k - 1
  }

  /** The value `julia` computes. */
  function JuliaValue(c: Complex, x: U32, y: U32, width: U32, height: U32, maxIter: U32): (r: nat)
    requires 0 < width && 0 < height
    ensures maxIter == 0 ==> r == 0
    ensures maxIter > 0 ==> r < maxIter
  {
    LastCompletedStep(EscapeTime(StartPoint(x, y, width, height), c, maxIter))
  }

  /** No step before `FirstEscapeFrom` has escaped. */
  lemma {:induction false} NoEscapeBefore(z0: Complex, c: Complex, t: nat, n: nat, s: nat)
    requires t <= n && t <= s < FirstEscapeFrom(z0, c, t, n)
    ensures !Escaped(Orbit(z0, c, s))
    decreases n - t
  {
    if s > t {
      NoEscapeBefore(z0, c, t + 1, n, s);
    }
  }

  /**
   * `EscapeTime` is the first escape: the orbit has not escaped before it
   * and has escaped at it unless the budget ran out.
   */
  lemma EscapeTimeIsFirstEscape(z0: Complex, c: Complex, n: nat)
    ensures EscapeTime(z0, c, n) <= n
    ensures forall s :: 0 <= s < EscapeTime(z0, c, n) ==> !Escaped(Orbit(z0, c, s))
    ensures EscapeTime(z0, c, n) < n ==> Escaped(Orbit(z0, c, EscapeTime(z0, c, n)))
  {
    forall s | 0 <= s < EscapeTime(z0, c, n) {
      NoEscapeBefore(z0, c, 0, n, s);
    }
  }

  /** Conversely, a step that is first to escape within the budget is `EscapeTime`. */
  lemma EscapeTimeUnique(z0: Complex, c: Complex, n: nat, k: nat)
    requires k <= n
    requires forall s :: 0 <= s < k ==> !Escaped(Orbit(z0, c, s))
    requires k < n ==> Escaped(Orbit(z0, c, k))
    ensures EscapeTime(z0, c, n) == k
  {
    EscapeTimeIsFirstEscape(z0, c, n);
  }

  /**
   * What `julia` returns: 0 when the budget is 0 or the start point already
   * escapes, the step before the first escape otherwise, and `maxIter - 1`
   * when the orbit never escapes within the budget.
   */
  lemma JuliaReturnsLastCompletedStep(c: Complex, x: U32, y: U32, width: U32, height: U32, maxIter: U32, k: nat)
    requires 0 < width && 0 < height
    requires k <= maxIter
    requires forall s :: 0 <= s < k ==> !Escaped(Orbit(StartPoint(x, y, width, height), c, s))
    requires k < maxIter ==> Escaped(Orbit(StartPoint(x, y, width, height), c, k))
    ensures JuliaValue(c, x, y, width, height, maxIter) == if k == 0 then 0 else k - 1
  {
    EscapeTimeUnique(StartPoint(x, y, width, height), c, maxIter, k);
  }

  /**
   * `julia`: iterate `z * z + c` from the scaled pixel, stopping at the
   * first escape, and return the index of the last completed iteration.
   */
  method Julia(c: Complex, x: U32, y: U32, width: U32, height: U32, maxIter: U32) returns (result: U32)
    requires 0 < width && 0 < height
    ensures result == JuliaValue(c, x, y, width, height, maxIter)
    ensures maxIter > 0 ==> result < maxIter
  {
    var z := StartPoint(x, y, width, height);
    ghost var z0 := z;
    var i: U32 := 0;
    for t := 0 to maxIter
      invariant z == Orbit(z0, c, t)
      invariant FirstEscapeFrom(z0, c, t, maxIter) == EscapeTime(z0, c, maxIter)
      invariant i == LastCompletedStep(t)
    {
      if Escaped(z) {
        break;
      }
      z := Step(z, c);
      i := t;
    }
    result := i;
  }
}
