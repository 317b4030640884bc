/** The trigonometry the curve formulas use. `Math.sin` and `Math.cos` are
    not defined here: every formula takes them as a parameter `tr`, and a
    property that needs them relies only on the identities of `Laws`. */
module Trigonometry {

  /** `Math.PI` (the double closest to pi, written as JavaScript prints it). */
  const PI: real := 3.141592653589793

  datatype Trig = Trig(sin: real -> real, cos: real -> real)

  /** The identities the curve properties rely on, and nothing more. */
  ghost predicate Laws(tr: Trig)
  {
    && tr.sin(0.0) == 0.0
    && tr.cos(0.0) == 1.0
    && (forall x :: tr.sin(x) * tr.sin(x) + tr.cos(x) * tr.cos(x) == 1.0)
    && (forall x :: -1.0 <= tr.sin(x) <= 1.0)
  }

  /** The square of a sine is at most one. */
  lemma SinSquaredAtMostOne(tr: Trig, x: real)
    requires Laws(tr)
    ensures 0.0 <= tr.sin(x) * tr.sin(x) <= 1.0
  {
    var s := tr.sin(x);
    assert -1.0 <= s <= 1.0;
    if s >= 0.0 {
      assert s * s <= 1.0 * s;
    } else {
      assert s * s <= (-1.0) * s;
    }
  }

  lemma SinBounded(tr: Trig, x: real)
    requires Laws(tr)
    ensures -1.0 <= tr.sin(x) <= 1.0
  {
  }

  /** A cosine lies in [-1, 1]: its square is one less a square. */
  lemma CosBounded(tr: Trig, x: real)
    requires Laws(tr)
    ensures -1.0 <= tr.cos(x) <= 1.0
  {
    var c := tr.cos(x);
    SinSquaredAtMostOne(tr, x);
    assert c * c <= 1.0;
  }

  function Abs(x: real): real { if x < 0.0 then -x else x }

  /** An amplitude times a value of [-1, 1] stays within the amplitude. */
  lemma Damped(a: real, s: real)
    requires -1.0 <= s <= 1.0
    ensures Abs(a * s) <= Abs(a)
  {
    if a >= 0.0 {
      assert -a <= a * s <= a;
    } else {
      assert a <= a * s <= -a;
    }
  }

  /** A positive factor keeps strict order. */
  lemma ScaleStrict(s: real, a: real, b: real)
    requires s > 0.0 && a < b
    ensures s * a < s * b
    ensures a * s < b * s
  {
    assert s * b - s * a == s * (b - a);
  }

  /** A sine of amplitude `a` at phase `x`. */
  function Wave(tr: Trig, a: real, x: real): real
  {
    a * tr.sin(x)
  }

  /** A sine wave never exceeds its amplitude. */
  lemma WaveBounded(tr: Trig, a: real, x: real)
    requires Laws(tr)
    ensures Abs(Wave(tr, a, x)) <= Abs(a)
  {
    SinBounded(tr, x);
    Damped(a, tr.sin(x));
  }
}
