/** The null/undefined helpers: a test on one value that may be `null` or
    `undefined`, and two tests on arrays of such values built from
    `findIndex` and `every`. */
module AllDefined {

  /** A value of type `T | null | undefined`. */
  datatype Nullable<T> = Null | Undefined | Value(value: T)

  /** `isNullOrUndefined`: `value === undefined || value === null`. */
  function IsNullOrUndefined<T>(v: Nullable<T>): (b: bool)
    ensures b <==> !v.Value?
  {
    v.Undefined? || v.Null?
  }

  /** `defined`: `value !== null && value !== undefined`, which is exactly
      the negation of IsNullOrUndefined; it holds of the values that carry a T. */
  function Defined<T>(v: Nullable<T>): (b: bool)
    ensures b == !IsNullOrUndefined(v)
    ensures b <==> v.Value?
  {
    !v.Null? && !v.Undefined?
  }

  /** `Array.prototype.findIndex`: the first index whose element satisfies
      `p`, or -1 when there is none. */
  function FindIndex<T>(arr: seq<T>, p: T -> bool): (r: int)
    ensures -1 <= r < |arr|
    ensures r >= 0 ==> p(arr[r]) && forall k :: 0 <= k < r ==> !p(arr[k])
    ensures r == -1 <==> forall k :: 0 <= k < |arr| ==> !p(arr[k])
  {
    if |arr| == 0 then -1
    else if p(arr[0]) then 0
    else
      var r := FindIndex(arr[1..], p);
      assert forall k :: 1 <= k < |arr| ==> arr[k] == arr[1..][k - 1];
      if r == -1 then -1 else r + 1
  }

  /** `Array.prototype.every`. */
  function Every<T>(arr: seq<T>, p: T -> bool): (b: bool)
    ensures b <==> forall k :: 0 <= k < |arr| ==> p(arr[k])
  {
    if |arr| == 0 then true
    else
      assert forall k :: 1 <= k < |arr| ==> arr[k] == arr[1..][k - 1];
      p(arr[0]) && Every(arr[1..], p)
  }

  /** `includesNullOrUndefined`: `arr.findIndex(isNullOrUndefined) !== -1`,
      true exactly when some element is null or undefined. */
  function IncludesNullOrUndefined<T>(arr: seq<Nullable<T>>): (b: bool)
    ensures b <==> exists k :: 0 <= k < |arr| && IsNullOrUndefined(arr[k])
  {
    FindIndex(arr, IsNullOrUndefined) != -1
  }

  /** `everyDefined`: `arr.every(defined)`, true exactly when every element
      is defined. */
  function EveryDefined<T>(arr: seq<Nullable<T>>): (b: bool)
    ensures b <==> forall k :: 0 <= k < |arr| ==> Defined(arr[k])
  {
    Every(arr, Defined)
  }

  /** The two array tests are each other's negation. */
  lemma Duality<T>(arr: seq<Nullable<T>>)
    ensures IncludesNullOrUndefined(arr) == !EveryDefined(arr)
  {
  }

  /** On the empty array every element is defined and none is missing. */
  lemma EmptyArray<T>()
    ensures EveryDefined<T>([]) && !IncludesNullOrUndefined<T>([])
  {
  }
}
