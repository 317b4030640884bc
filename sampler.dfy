/** The fixed-step sampler every `generatePoints` runs: for i in 0..N it
    evaluates the family's formula at t_i = (i / N) * L and pushes the
    result, so a curve always has N + 1 points from t = 0 to t = L. */
module Sampler {

  /** A `points` value the loop `i <= numPoints` reads as a whole number of steps. */
  predicate IsCount(points: real)
  {
    points >= 1.0 && points.Floor as real == points
  }

  /** The number of steps N of a valid `points` value. */
  function Steps(points: real): (n: nat)
    requires IsCount(points)
    ensures n > 0 && n as real == points
  {
    points.Floor as nat
  }

  /** The parameter of sample `i` out of `n` steps over a range of length `len`. */
  function At(i: nat, n: nat, len: real): real
    requires n > 0
  {
    (i as real / n as real) * len
  }

  /** The two ends of the range are sampled exactly. */
  lemma Endpoints(n: nat, len: real)
    requires n > 0
    ensures At(0, n, len) == 0.0
    ensures At(n, n, len) == len
  {
  }

  /** The list the sampler produces, as a value. */
  function Sampled<P>(n: nat, len: real, f: real -> P): (r: seq<P>)
    requires n > 0
  {
    seq(n + 1, i requires 0 <= i <= n => f(At(i, n, len)))
  }

  /** N + 1 samples, sample i being f(t_i); the first is f(0) and the last f(L). */
  lemma SampledShape<P>(n: nat, len: real, f: real -> P)
    requires n > 0
    ensures |Sampled(n, len, f)| == n + 1
    ensures forall i :: 0 <= i <= n ==> Sampled(n, len, f)[i] == f(At(i, n, len))
    ensures Sampled(n, len, f)[0] == f(0.0)
    ensures Sampled(n, len, f)[n] == f(len)
  {
    Endpoints(n, len);
  }

  /** The first sample alone: f(0). */
  lemma FirstSample<P>(n: nat, len: real, f: real -> P)
    requires n > 0
    ensures |Sampled(n, len, f)| > 0 && Sampled(n, len, f)[0] == f(0.0)
  {
    SampledShape(n, len, f);
  }

  /** The push loop: `for (let i = 0; i <= numPoints; i++) points.push(f(t_i))`. */
  method Sample<P>(n: nat, len: real, f: real -> P) returns (points: seq<P>)
    requires n > 0
    ensures |points| == n + 1
    ensures forall i :: 0 <= i <= n ==> points[i] == f(At(i, n, len))
    ensures points == Sampled(n, len, f)
  {
    points := [];
    var i := 0;
    while i <= n
      invariant 0 <= i <= n + 1
      invariant |points| == i
      invariant forall j :: 0 <= j < i ==> points[j] == f(At(j, n, len))
    {
      points := points + [f(At(i, n, len))];
      i := i + 1;
    }
  }
}
