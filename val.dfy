/** `Val` of `src/utils/val.js`: one transform applied uniformly to a single value or to each
    element of an array. Only the path without `toArray` is modelled. */
module Val {
  import opened Json

  /** `new Val(v).map(f)`: an array is mapped element by element, `f` receiving the element and
      its index; any other value is passed to `f` once, with index 0, and `f`'s result is
      returned as it is, not boxed into an array. */
  function Map(v: Value, f: (Value, nat) -> Value): (r: Value)
    ensures v.Arr? ==> r.Arr? && |r.items| == |v.items|
    ensures v.Arr? ==> forall i :: 0 <= i < |v.items| ==> r.items[i] == f(v.items[i], i)
    ensures !v.Arr? ==> r == f(v, 0)
  {
    if v.Arr? then
      Arr(seq(|v.items|, i requires 0 <= i < |v.items| => f(v.items[i], i)))
    else
      f(v, 0)
  }

  /** `new Val(v).forEach(f)`: the calls made to `f`, in order, as (argument, index) pairs, and
      what `forEach` returns, `undefined` for an array (native forEach) and `f`'s own result
      otherwise. */
  function ForEach(v: Value, f: (Value, nat) -> Value): (r: (seq<(Value, nat)>, Value))
    ensures v.Arr? ==> |r.0| == |v.items| && r.1 == Undefined
    ensures v.Arr? ==> forall i :: 0 <= i < |v.items| ==> r.0[i] == (v.items[i], i)
    ensures !v.Arr? ==> r.0 == [(v, 0)] && r.1 == f(v, 0)
  {
    if v.Arr? then
      (seq(|v.items|, i requires 0 <= i < |v.items| => (v.items[i], i)), Undefined)
    else
      ([(v, 0)], f(v, 0))
  }

  /** The array-in/array-out policy: when `f` itself never returns an array, `map` returns an
      array exactly when the wrapped value is one. */
  lemma MapKeepsShape(v: Value, f: (Value, nat) -> Value)
    requires forall x, i :: !f(x, i).Arr?
    ensures Map(v, f).Arr? <==> v.Arr?
  {
    if !v.Arr? {
      assert !f(v, 0).Arr?;
    }
  }

  /** `map` and `forEach` visit the same arguments: the results of `map` are `f` applied to the
      calls `forEach` makes, one result per call, in call order. */
  lemma MapFollowsForEach(v: Value, f: (Value, nat) -> Value)
    ensures var calls := ForEach(v, f).0;
            if v.Arr? then
              Map(v, f).Arr? && |Map(v, f).items| == |calls| &&
              forall i :: 0 <= i < |calls| ==> Map(v, f).items[i] == f(calls[i].0, calls[i].1)
            else
              |calls| == 1 && Map(v, f) == f(calls[0].0, calls[0].1)
  {
  }
}
