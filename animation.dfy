/** The parameter sweep of `useAnimation`: a set of selected parameter names,
    one global step size and one shared direction; each tick moves every
    selected parameter by `stepSize * direction`, clamps it to its bounds and
    reverses the shared direction when any parameter reached a bound. */
module Animation {
  import Text

  /** A parameter value: a number, or a list of numbers (the exponential
      family's `a` and `b`). */
  datatype Value = Num(x: real) | Arr(xs: seq<real>)

  type Params = map<string, Value>

  /** The hook's own lower-bound table; unlisted keys get 0. */
  function ParameterMin(key: string): real
  {
    if key == "n" then 1.0
    else if key == "d" then 0.0
    else if key == "k" then 1.0
    else if key == "points" then 100.0
    else 0.0
  }

  /** The hook's own upper-bound table; unlisted keys get 100. */
  function ParameterMax(key: string): real
  {
    if key == "n" then 10.0
    else if key == "d" then 360.0
    else if key == "k" then 10.0
    else if key == "points" then 10000.0
    else 100.0
  }

  /** Every key, listed or not, has a lower bound below its upper bound. */
  lemma BoundsOrdered(key: string)
    ensures ParameterMin(key) < ParameterMax(key)
    ensures key !in {"n", "d", "k", "points"} ==> ParameterMin(key) == 0.0 && ParameterMax(key) == 100.0
  {
  }

  /** `/^[ab]\d+$/`: a letter `a` or `b` followed by at least one digit. */
  predicate IsIndexedKey(key: string)
  {
    |key| >= 2 && (key[0] == 'a' || key[0] == 'b') && Text.AllDigits(key[1..])
  }

  /** `param[0]`: the name of the array an indexed key points into. */
  function KeyLetter(key: string): string
    requires IsIndexedKey(key)
  {
    [key[0]]
  }

  /** `parseInt(param.slice(1))`. */
  function KeyIndex(key: string): nat
    requires IsIndexedKey(key)
  {
    Text.ParseNat(key[1..])
  }

  /** The value after a step, and whether a bound was reached (the max test comes first). */
  datatype Clamped = Clamped(value: real, hit: bool)

  function Clamp(v: real, min: real, max: real): (c: Clamped)
    ensures c.hit <==> (v >= max || v <= min)
    ensures !c.hit ==> c.value == v
    ensures min <= max ==> min <= c.value <= max
    ensures v >= max ==> c.value == max
    ensures v < max && v <= min ==> c.value == min
    ensures min < v < max ==> c.value == v
  {
    if v >= max then Clamped(max, true)
    else if v <= min then Clamped(min, true)
    else Clamped(v, false)
  }

  /** A selected key reads only what exists: a scalar key names a number of
      the record, and an indexed key into an existing array stays inside it.
      (Outside these, JavaScript computes with `undefined` and yields NaN.) */
  predicate Tickable(prev: Params, key: string)
  {
    if IsIndexedKey(key) then
      (KeyLetter(key) in prev && prev[KeyLetter(key)].Arr? ==>
         KeyIndex(key) < |prev[KeyLetter(key)].xs|)
    else key in prev && prev[key].Num?
  }

  predicate AllTickable(prev: Params, keys: seq<string>)
  {
    forall i :: 0 <= i < |keys| ==> Tickable(prev, keys[i])
  }

  /** The record being built (`newParams`) and the `shouldChangeDirection` flag. */
  datatype TickState = TickState(params: Params, flip: bool)

  /** Whether key `key` writes into the record entry `name`. */
  predicate Targets(prev: Params, key: string, name: string)
  {
    if IsIndexedKey(key) then
      KeyLetter(key) == name && name in prev && prev[name].Arr?
    else key == name
  }

  /** Whether the step of `key` reaches a bound. */
  predicate Hits(prev: Params, key: string, delta: real)
    requires Tickable(prev, key)
  {
    if IsIndexedKey(key) then
      var l := KeyLetter(key);
      l in prev && prev[l].Arr? &&
      Clamp(prev[l].xs[KeyIndex(key)] + delta, ParameterMin(l), ParameterMax(l)).hit
    else
      Clamp(prev[key].x + delta, ParameterMin(key), ParameterMax(key)).hit
  }

  /** What one iteration of the `forEach` does. Both paths read the entry from
      `prev`, not from the record being built. */
  function StepKey(prev: Params, acc: TickState, key: string, delta: real): TickState
    requires Tickable(prev, key)
  {
    if IsIndexedKey(key) then
      var l := KeyLetter(key);
      if l in prev && prev[l].Arr? then
        var xs := prev[l].xs;
        var c := Clamp(xs[KeyIndex(key)] + delta, ParameterMin(l), ParameterMax(l));
        TickState(acc.params[l := Arr(xs[KeyIndex(key) := c.value])], acc.flip || c.hit)
      else acc
    else
      var c := Clamp(prev[key].x + delta, ParameterMin(key), ParameterMax(key));
      TickState(acc.params[key := Num(c.value)], acc.flip || c.hit)
  }

  /** The whole `forEach` over the selection, in iteration order. */
  function TickFold(prev: Params, keys: seq<string>, delta: real): TickState
    requires AllTickable(prev, keys)
  {
    if |keys| == 0 then TickState(prev, false)
    else StepKey(prev, TickFold(prev, keys[..|keys| - 1], delta), keys[|keys| - 1], delta)
  }

  /** A tick writes only entries that exist, so the record keeps its keys. */
  lemma {:induction false} TickFoldKeys(prev: Params, keys: seq<string>, delta: real)
    requires AllTickable(prev, keys)
    ensures TickFold(prev, keys, delta).params.Keys == prev.Keys
  {
    if |keys| > 0 {
      TickFoldKeys(prev, keys[..|keys| - 1], delta);
    }
  }

  /** An entry no selected key writes keeps its value. */
  lemma {:induction false} TickFoldUntouched(prev: Params, keys: seq<string>, delta: real, name: string)
    requires AllTickable(prev, keys)
    requires name in prev
    requires forall i :: 0 <= i < |keys| ==> !Targets(prev, keys[i], name)
    ensures name in TickFold(prev, keys, delta).params
    ensures TickFold(prev, keys, delta).params[name] == prev[name]
  {
    if |keys| > 0 {
      TickFoldUntouched(prev, keys[..|keys| - 1], delta, name);
    }
  }

  /** A selected scalar ends as its clamped step from `prev`, whatever else is selected. */
  lemma {:induction false} TickFoldScalar(prev: Params, keys: seq<string>, delta: real, j: nat)
    requires AllTickable(prev, keys)
    requires j < |keys| && !IsIndexedKey(keys[j])
    ensures keys[j] in TickFold(prev, keys, delta).params
    ensures TickFold(prev, keys, delta).params[keys[j]]
         == Num(Clamp(prev[keys[j]].x + delta, ParameterMin(keys[j]), ParameterMax(keys[j])).value)
  {
    var n := |keys|;
    if j < n - 1 {
      TickFoldScalar(prev, keys[..n - 1], delta, j);
      var last := keys[n - 1];
      if IsIndexedKey(last) {
        var l := KeyLetter(last);
        assert l in prev && prev[l].Arr? ==> l != keys[j];
      }
    }
  }

  /** A selected scalar lies within its bounds after the tick. */
  lemma TickFoldScalarInBounds(prev: Params, keys: seq<string>, delta: real, j: nat)
    requires AllTickable(prev, keys)
    requires j < |keys| && !IsIndexedKey(keys[j])
    ensures keys[j] in TickFold(prev, keys, delta).params
    ensures TickFold(prev, keys, delta).params[keys[j]].Num?
    ensures ParameterMin(keys[j]) <= TickFold(prev, keys, delta).params[keys[j]].x <= ParameterMax(keys[j])
  {
    TickFoldScalar(prev, keys, delta, j);
    BoundsOrdered(keys[j]);
  }

  /** An indexed key that is the last one selected for its array decides that
      array: its own position gets the clamped step and every other position
      keeps its value from `prev`. */
  lemma {:induction false} TickFoldIndexed(prev: Params, keys: seq<string>, delta: real, j: nat)
    requires AllTickable(prev, keys)
    requires j < |keys| && IsIndexedKey(keys[j])
    requires KeyLetter(keys[j]) in prev && prev[KeyLetter(keys[j])].Arr?
    requires forall i :: j < i < |keys| ==> !Targets(prev, keys[i], KeyLetter(keys[j]))
    ensures KeyLetter(keys[j]) in TickFold(prev, keys, delta).params
    ensures var l := KeyLetter(keys[j]);
            var xs := prev[l].xs;
            TickFold(prev, keys, delta).params[l]
              == Arr(xs[KeyIndex(keys[j]) := Clamp(xs[KeyIndex(keys[j])] + delta, ParameterMin(l), ParameterMax(l)).value])
  {
    var n := |keys|;
    if j < n - 1 {
      TickFoldIndexed(prev, keys[..n - 1], delta, j);
    }
  }

  /** The direction is reversed iff at least one selected key reached a bound. */
  lemma {:induction false} TickFoldFlip(prev: Params, keys: seq<string>, delta: real)
    requires AllTickable(prev, keys)
    ensures TickFold(prev, keys, delta).flip <==> exists i :: 0 <= i < |keys| && Hits(prev, keys[i], delta)
  {
    var n := |keys|;
    if n > 0 {
      TickFoldFlip(prev, keys[..n - 1], delta);
      assert forall i :: 0 <= i < n - 1 ==> keys[..n - 1][i] == keys[i];
      if TickFold(prev, keys, delta).flip {
        if !Hits(prev, keys[n - 1], delta) {
          var i :| 0 <= i < n - 1 && Hits(prev, keys[..n - 1][i], delta);
          assert Hits(prev, keys[i], delta);
        }
      } else {
        assert !Hits(prev, keys[n - 1], delta);
      }
    }
  }

  /** Two indices of one array selected together: each step copies the array
      from `prev`, so the later one overwrites the earlier one's change and
      only `a1` moves. */
  lemma SameArrayLastWins()
    ensures var prev := map["a" := Arr([1.0, 1.0])];
            AllTickable(prev, ["a0", "a1"]) &&
            TickFold(prev, ["a0", "a1"], 0.5).params["a"] == Arr([1.0, 1.5])
  {
    var prev := map["a" := Arr([1.0, 1.0])];
    assert "a0"[1..] == "0" && "a1"[1..] == "1";
    assert KeyIndex("a0") == 0 && KeyIndex("a1") == 1;
    assert KeyLetter("a0") == "a" && KeyLetter("a1") == "a";
    assert ["a0", "a1"][..1] == ["a0"];
    assert ["a0", "a1"][..1][..0] == [];
  }

  predicate NoDuplicates(s: seq<string>)
  {
    forall i, j :: 0 <= i < j < |s| ==> s[i] != s[j]
  }

  /** `Set.delete`: `s` without `k`, order kept. */
  function Without(s: seq<string>, k: string): (r: seq<string>)
    ensures forall x :: x in r <==> x in s && x != k
    ensures NoDuplicates(s) ==> NoDuplicates(r)
    ensures k !in s ==> r == s
  {
    if |s| == 0 then []
    else if s[0] == k then Without(s[1..], k)
    else
      var w := Without(s[1..], k);
      assert NoDuplicates(s) ==> s[0] !in w;
      [s[0]] + w
  }

  /** `toggleParam`'s update of the selection: remove a present key, append an absent one. */
  function Toggled(s: seq<string>, k: string): (r: seq<string>)
    ensures forall x :: x in r <==> (x in s) != (x == k)
    ensures NoDuplicates(s) ==> NoDuplicates(r)
  {
    if k in s then Without(s, k) else s + [k]
  }

  /** Toggling a key twice restores the selection as a set; when the key was
      absent it restores the insertion order too. */
  lemma {:induction false} ToggleTwice(s: seq<string>, k: string)
    ensures forall x :: x in Toggled(Toggled(s, k), k) <==> x in s
    ensures k !in s ==> Toggled(Toggled(s, k), k) == s
  {
    if k !in s {
      WithoutAppended(s, k);
    }
  }

  lemma {:induction false} WithoutAppended(s: seq<string>, k: string)
    requires k !in s
    ensures Without(s + [k], k) == s
  {
    if |s| == 0 {
      assert [k][1..] == [];
    } else {
      assert (s + [k])[1..] == s[1..] + [k];
      WithoutAppended(s[1..], k);
      assert s == [s[0]] + s[1..];
    }
  }

  /** The `forEach` callback: step one key read from the previous record,
      clamp it, and write it into the record being built. */
  method StepParam(prev: Params, newParams: Params, shouldChangeDirection: bool, param: string, delta: real)
    returns (params': Params, flip': bool)
    requires Tickable(prev, param)
    ensures TickState(params', flip') == StepKey(prev, TickState(newParams, shouldChangeDirection), param, delta)
  {
    params', flip' := newParams, shouldChangeDirection;
    if IsIndexedKey(param) {
      var paramType := KeyLetter(param);
      var index := KeyIndex(param);
      if paramType in prev && prev[paramType].Arr? {
        var currentArray := prev[paramType].xs;
        var newValue := currentArray[index] + delta;
        var min := ParameterMin(paramType);
        var max := ParameterMax(paramType);
        if newValue >= max {
          newValue := max;
          flip' := true;
        } else if newValue <= min {
          newValue := min;
          flip' := true;
        }
        params' := params'[paramType := Arr(currentArray[index := newValue])];
      }
    } else {
      var newValue := prev[param].x + delta;
      var min := ParameterMin(param);
      var max := ParameterMax(param);
      if newValue >= max {
        newValue := max;
        flip' := true;
      } else if newValue <= min {
        newValue := min;
        flip' := true;
      }
      params' := params'[param := Num(newValue)];
    }
  }

  /** The hook's state. `params` stands for the record owned by the curve tab
      (`params`/`setParams`); the other fields are the hook's `useState`s. */
  class Animator {
    var params: Params
    var isAnimating: bool
    var direction: int
    var selected: seq<string>
    var stepSize: real
    var stepsPerSecond: real

    ghost predicate Valid()
      reads this
    {
      (direction == 1 || direction == -1) && NoDuplicates(selected)
    }

    /** Initial hook state: stopped, direction 1, nothing selected, step 1, 1 step per second. */
    constructor (initial: Params)
      ensures Valid()
      ensures params == initial && !isAnimating && direction == 1 && selected == []
      ensures stepSize == 1.0 && stepsPerSecond == 1.0
    {
      params := initial;
      isAnimating := false;
      direction := 1;
      selected := [];
      stepSize := 1.0;
      stepsPerSecond := 1.0;
    }

    /** One run of `animate`: with an empty selection nothing happens and no
        next tick is scheduled; otherwise every selected key is stepped from the
        previous record, the direction is negated once if any reached a bound,
        and the next tick is scheduled. */
    method Tick() returns (scheduled: bool)
      requires Valid()
      requires AllTickable(params, selected)
      modifies this
      ensures Valid()
      ensures scheduled <==> |old(selected)| > 0
      ensures selected == old(selected) && isAnimating == old(isAnimating)
      ensures stepSize == old(stepSize) && stepsPerSecond == old(stepsPerSecond)
      ensures |old(selected)| == 0 ==> params == old(params) && direction == old(direction)
      ensures var r := TickFold(old(params), old(selected), old(stepSize) * old(direction) as real);
              params == r.params && direction == (if r.flip then -old(direction) else old(direction))
    {
      if |selected| == 0 {
        return false;
      }
      var prev := params;
      var newParams := prev;
      var shouldChangeDirection := false;
      var delta := stepSize * direction as real;
      var i := 0;
      while i < |selected|
        invariant 0 <= i <= |selected|
        invariant AllTickable(prev, selected)
        modifies {}
        invariant TickFold(prev, selected[..i], delta) == TickState(newParams, shouldChangeDirection)
      {
        var param := selected[i];
        assert AllTickable(prev, selected[..i + 1]);
        assert selected[..i + 1][..i] == selected[..i];
        assert TickFold(prev, selected[..i + 1], delta)
               == StepKey(prev, TickState(newParams, shouldChangeDirection), param, delta);
        newParams, shouldChangeDirection := StepParam(prev, newParams, shouldChangeDirection, param, delta);
        i := i + 1;
      }
      assert selected[..|selected|] == selected;
      params := newParams;
      if shouldChangeDirection {
        direction := -direction;
      }
      scheduled := true;
    }

    /** `toggleAnimation`: nothing with an empty selection, otherwise start/stop. */
    method ToggleAnimation()
      requires Valid()
      modifies this`isAnimating
      ensures Valid()
      ensures isAnimating == (if |selected| == 0 then old(isAnimating) else !old(isAnimating))
    {
      if |selected| == 0 {
        return;
      }
      isAnimating := !isAnimating;
    }

    /** `toggleParam`: add an absent key or remove a present one, and stop. */
    method ToggleParam(key: string)
      requires Valid()
      modifies this`selected, this`isAnimating
      ensures Valid()
      ensures selected == Toggled(old(selected), key)
      ensures forall x :: x in selected <==> (x in old(selected)) != (x == key)
      ensures !isAnimating
    {
      selected := Toggled(selected, key);
      isAnimating := false;
    }

    /** `setStepSize`. */
    method SetStepSize(size: real)
      modifies this`stepSize
      ensures stepSize == size
    {
      stepSize := size;
    }

    /** `setStepsPerSecond`. */
    method SetStepsPerSecond(rate: real)
      modifies this`stepsPerSecond
      ensures stepsPerSecond == rate
    {
      stepsPerSecond := rate;
    }
  }
}
