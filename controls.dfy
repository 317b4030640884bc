/** Pieces every tab shares: the `Record<string, number>` bound tables read
    with `table[key] || fallback`, the export file-name rule, and the stride
    downsampling both 3D tabs apply before writing a PLY file. */
module Controls {
  import opened Text

  /** `table[key] || fallback`: a missing key and a stored 0 both fall back. */
  function Lookup(table: map<string, real>, key: string, fallback: real): (r: real)
    ensures key !in table ==> r == fallback
    ensures key in table && table[key] != 0.0 ==> r == table[key]
    ensures key in table && table[key] == 0.0 ==> r == fallback
    ensures r == 0.0 ==> fallback == 0.0
  {
    if key in table && table[key] != 0.0 then table[key] else fallback
  }

  /** `getParameterMin`, `getParameterMax`, `getParameterStep` for one tab. */
  datatype Tables = Tables(mins: map<string, real>, maxs: map<string, real>, steps: map<string, real>)

  function MinOf(t: Tables, key: string): real { Lookup(t.mins, key, 0.0) }
  function MaxOf(t: Tables, key: string): real { Lookup(t.maxs, key, 100.0) }
  function StepOf(t: Tables, key: string): real { Lookup(t.steps, key, 1.0) }

  /** A key the tables do not list gets the range [0, 100] with step 1. */
  lemma UnlistedKey(t: Tables, key: string)
    requires key !in t.mins && key !in t.maxs && key !in t.steps
    ensures MinOf(t, key) == 0.0 && MaxOf(t, key) == 100.0 && StepOf(t, key) == 1.0
  {
  }

  /** Every key of `keys` has a non-empty slider range and a positive step. */
  predicate WellFormed(t: Tables, keys: seq<string>)
  {
    forall i :: 0 <= i < |keys| ==> MinOf(t, keys[i]) < MaxOf(t, keys[i]) && StepOf(t, keys[i]) > 0.0
  }

  // ---------------------------------------------------------------- number boxes

  /** The nearest tenth to a non-negative y, the larger one on a tie. */
  function TenthsUp(y: real): (r: real)
    ensures y - 0.05 < r <= y + 0.05
    ensures (r * 10.0).Floor as real == r * 10.0
  {
    var f := (y * 10.0 + 0.5).Floor;
    assert (f as real / 10.0) * 10.0 == f as real;
    f as real / 10.0
  }

  /** The value `x.toFixed(1)` shows: the sign is set aside, the magnitude
      goes to the nearest tenth, and a tie goes away from zero. */
  function Tenths(x: real): (r: real)
    ensures x >= 0.0 ==> x - 0.05 < r <= x + 0.05
    ensures x < 0.0 ==> x - 0.05 <= r < x + 0.05
    ensures (r * 10.0).Floor as real == r * 10.0
  {
    if x < 0.0 then
      var m := TenthsUp(-x);
      NegatedTenths(m);
      -m
    else TenthsUp(x)
  }

  /** A whole number of tenths negated is one too. */
  lemma NegatedTenths(m: real)
    requires (m * 10.0).Floor as real == m * 10.0
    ensures ((-m) * 10.0).Floor as real == (-m) * 10.0
  {
    var k := (m * 10.0).Floor;
    assert (-m) * 10.0 == (-k) as real;
  }

  /** A whole number of tenths is shown unchanged. */
  lemma TenthsExact(x: real)
    requires (x * 10.0).Floor as real == x * 10.0
    ensures Tenths(x) == x
  {
    var y := if x < 0.0 then -x else x;
    var m := (x * 10.0).Floor;
    assert y * 10.0 == (if x < 0.0 then -m else m) as real;
    var k := if x < 0.0 then -m else m;
    assert y * 10.0 + 0.5 == k as real + 0.5;
    assert (y * 10.0 + 0.5).Floor == k;
  }

  // ---------------------------------------------------------------- file names

  /** `` `${stem}.${ext}`.replace(/\./g, 'p') ``: the name the browser is offered. */
  function FileName(stem: string, ext: string): (r: string)
    ensures '.' !in r
    ensures |r| == |stem| + 1 + |ext|
    ensures r == ReplaceDots(stem) + "p" + ReplaceDots(ext)
  {
    ReplaceDotsSuffix(stem, ext);
    ReplaceDots(stem + "." + ext)
  }

  /** Whatever the stem, the name ends in `p` followed by the extension. */
  lemma FileNameTail(stem: string, ext: string)
    requires |stem| > 0
    ensures var r := FileName(stem, ext);
            |r| > |ext| + 1 && r[|r| - |ext| - 1..] == "p" + ReplaceDots(ext)
  {
    var r := FileName(stem, ext);
    assert |r| - |ext| - 1 == |ReplaceDots(stem)|;
  }

  /** An SVG name ends in `psvg`. */
  lemma SvgNameTail(stem: string)
    requires |stem| > 0
    ensures var r := FileName(stem, "svg");
            |r| > 4 && r[|r| - 4..] == "psvg"
  {
    FileNameTail(stem, "svg");
    assert ReplaceDots("svg") == "svg";
  }

  /** The suffix dot is replaced too: an SVG name ends in `psvg`, a PLY name in `pply`. */
  lemma FileNameSuffix(stem: string)
    ensures FileName(stem, "svg")[|stem|..] == "psvg"
    ensures FileName(stem, "ply")[|stem|..] == "pply"
  {
    assert ReplaceDots("svg") == "svg";
    assert ReplaceDots("ply") == "ply";
  }

  // ---------------------------------------------------------------- PLY downsampling

  /** `Math.max(1, Math.floor(length / 500))`. */
  function Stride(length: nat): (step: nat)
    ensures step >= 1
    ensures step == 1 <==> length < 1000
    ensures step * 500 <= length || step == 1
    ensures length >= 500 ==> step * 500 <= length < step * 500 + 500
    ensures length < 500 ==> step == 1
  {
    if length / 500 >= 1 then length / 500 else 1
  }

  /** `points.filter((_, index) => index % step === 0)`, built from the back. */
  function Kept<P>(points: seq<P>, step: nat): seq<P>
    requires step >= 1
  {
    if |points| == 0 then []
    else
      var m := |points| - 1;
      Kept(points[..m], step) + (if m % step == 0 then [points[m]] else [])
  }

  /** A strict order between multiples of a positive step is one between the factors. */
  lemma CancelStep(a: int, b: int, step: nat)
    requires step >= 1 && a * step < b * step
    ensures a < b
  {
  }

  /** Multiplying by a positive step keeps a strict order between integers. */
  lemma StepMonotone(a: int, b: int, step: nat)
    requires step >= 1 && a < b
    ensures a * step < b * step
  {
    assert b * step - a * step == (b - a) * step;
  }

  /** A multiple of the step that lies in ((c - 1) step, c step] is c step. */
  lemma MultipleBetween(m: nat, step: nat, c: nat)
    requires step >= 1 && m % step == 0
    requires (c as int - 1) * step < m <= c * step
    ensures m == c * step
  {
    var q := m / step;
    assert m == q * step;
    CancelStep(c - 1, q, step);
    if c < q {
      StepMonotone(c, q, step);
      assert false;
    }
  }

  /** A multiple of the step leaves no remainder. */
  lemma MultipleMod(c: nat, step: nat)
    requires step >= 1
    ensures (c * step) % step == 0
  {
    var q, r := (c * step) / step, (c * step) % step;
    assert c * step == q * step + r;
    assert (c - q) * step == r;
    if c < q {
      StepMonotone(c, q, step);
      assert false;
    }
    if q < c {
      StepMonotone(q, c, step);
      StepMonotone(q + 1, c, step);
    }
  }

  /** One more index: the count grows exactly when the new index is a multiple of the step. */
  lemma CountStep(m: nat, step: nat, c: nat)
    requires step >= 1
    requires (c as int - 1) * step < m <= c * step
    ensures m % step == 0 ==> c * step < m + 1 <= (c + 1) * step
    ensures m % step != 0 ==> (c as int - 1) * step < m + 1 <= c * step
  {
    assert (c + 1) * step == c * step + step;
    if m % step == 0 {
      MultipleBetween(m, step, c);
    } else {
      MultipleMod(c, step);
    }
  }

  /** The filter keeps ceil(length / step) points. */
  lemma {:induction false} KeptLength<P>(points: seq<P>, step: nat)
    requires step >= 1
    ensures (|Kept(points, step)| as int - 1) * step < |points| <= |Kept(points, step)| * step
  {
    if |points| > 0 {
      var m := |points| - 1;
      KeptLength(points[..m], step);
      CountStep(m, step, |Kept(points[..m], step)|);
    }
  }

  /** Kept point j is the original point j * step. */
  lemma {:induction false} KeptAt<P>(points: seq<P>, step: nat, j: nat)
    requires step >= 1 && j < |Kept(points, step)|
    ensures j * step < |points| && Kept(points, step)[j] == points[j * step]
  {
    var m := |points| - 1;
    var prefix := points[..m];
    var before := Kept(prefix, step);
    assert Kept(points, step) == before + (if m % step == 0 then [points[m]] else []);
    if j < |before| {
      KeptAt(prefix, step, j);
      assert prefix[j * step] == points[j * step];
    } else {
      KeptLength(prefix, step);
      MultipleBetween(m, step, |before|);
    }
  }

  /** The filter keeps the multiples of `step` below the length, in order:
      point j of the result is the original point j * step. */
  lemma KeptShape<P>(points: seq<P>, step: nat)
    requires step >= 1
    ensures var c := |Kept(points, step)|;
            (c as int - 1) * step < |points| <= c * step
    ensures forall j :: 0 <= j < |Kept(points, step)| ==>
              j * step < |points| && Kept(points, step)[j] == points[j * step]
  {
    KeptLength(points, step);
    forall j | 0 <= j < |Kept(points, step)|
      ensures j * step < |points| && Kept(points, step)[j] == points[j * step]
    {
      KeptAt(points, step, j);
    }
  }

  /** The count as the source computes it: ceil(length / step). */
  lemma KeptCount<P>(points: seq<P>, step: nat)
    requires step >= 1
    ensures |Kept(points, step)| == (|points| + step - 1) / step
  {
    var c := |Kept(points, step)|;
    assert (c as int - 1) * step < |points| <= c * step by {
      KeptShape(points, step);
    }
    assert (c as int - 1) * step == c * step - step;
    assert (c + 1) * step == c * step + step;
    var a := |points| + step - 1;
    DivBetween(a, step, c);
  }

  lemma DivBetween(a: nat, b: nat, q: nat)
    requires b >= 1 && q * b <= a < (q + 1) * b
    ensures a / b == q
  {
    var d := a / b;
    assert d * b <= a < (d + 1) * b;
    CancelStep(d, q + 1, b);
    CancelStep(q, d + 1, b);
  }

  /** The list handed to `savePly`: a non-empty curve keeps its first point,
      so the export never reaches the empty case. */
  function ReducedForPly<P>(points: seq<P>): (r: seq<P>)
    ensures |points| > 0 ==> |r| > 0 && r[0] == points[0]
    ensures forall j :: 0 <= j < |r| ==> j * Stride(|points|) < |points| && r[j] == points[j * Stride(|points|)]
  {
    KeptShape(points, Stride(|points|));
    Kept(points, Stride(|points|))
  }
}
