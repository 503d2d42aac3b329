/** The two array helpers of `src/utils/array_utils.js`. */
module ArrayUtils {
  import opened Results

  /** A value as `Array.isArray` sees it: a single item, or an array of items. */
  datatype OneOrMany<T> = One(value: T) | Many(items: seq<T>)

  predicate IsArray<T>(x: OneOrMany<T>)
  {
    x.Many?
  }

  /** `arrify`: an array is returned as it is, anything else is boxed into a one-element array. */
  function Arrify<T>(x: OneOrMany<T>): (r: OneOrMany<T>)
    ensures IsArray(r)
    ensures IsArray(x) ==> r == x
    ensures !IsArray(x) ==> r.items == [x.value]
  {
    if IsArray(x) then x else Many([x.value])
  }

  /** `unarrify`: the first element of an array (`undefined`, here `None`, when the array is empty),
      and anything else as it is. */
  function Unarrify<T>(x: OneOrMany<T>): (r: Option<T>)
    ensures !IsArray(x) ==> r == Some(x.value)
    ensures IsArray(x) && |x.items| > 0 ==> r == Some(x.items[0])
    ensures IsArray(x) && x.items == [] ==> r == None
  {
    match x
    case One(v) => Some(v)
    case Many(xs) => if |xs| > 0 then Some(xs[0]) else None
  }

  /** Boxing a non-array and taking the first element gives the value back. */
  lemma UnarrifyArrify<T>(x: OneOrMany<T>)
    requires !IsArray(x)
    ensures Unarrify(Arrify(x)) == Some(x.value)
  {
  }

  /** On a non-empty array the round trip yields its first element; arrify is idempotent. */
  lemma ArrifyIdempotent<T>(x: OneOrMany<T>)
    ensures Arrify(Arrify(x)) == Arrify(x)
    ensures IsArray(x) && |x.items| > 0 ==> Unarrify(Arrify(x)) == Some(x.items[0])
  {
  }
}
