/** Simultaneous selection of the largest and smallest element of a list by
    divide and conquer. */
module MaxMinSelect {

  datatype Error = EmptyList

  datatype Result<T> = Ok(value: T) | Err(error: Error)

  /** `m` is the largest of `arr[start..end]`, both ends included. */
  ghost predicate IsMaxOf(m: int, arr: seq<int>, start: nat, end: nat)
    requires start <= end < |arr|
  {
    (forall i :: start <= i <= end ==> arr[i] <= m) &&
    (exists i :: start <= i <= end && arr[i] == m)
  }

  /** `m` is the smallest of `arr[start..end]`, both ends included. */
  ghost predicate IsMinOf(m: int, arr: seq<int>, start: nat, end: nat)
    requires start <= end < |arr|
  {
    (forall i :: start <= i <= end ==> m <= arr[i]) &&
    (exists i :: start <= i <= end && arr[i] == m)
  }

  function Max(a: int, b: int): int
  {
    if a >= b then a else b
  }

  function Min(a: int, b: int): int
  {
    if a <= b then a else b
  }

  /** `mid = (start + end) // 2` splits a range of three or more elements into
      two non-empty ranges, each strictly shorter. */
  function Midpoint(start: nat, end: nat): (mid: nat)
    requires start + 2 <= end
    ensures start <= mid < end
    ensures mid - start < end - start && end - (mid + 1) < end - start
  {
    (start + end) / 2
  }

  /** `max_min(arr, start, end)`: the pair (largest, smallest) of
      `arr[start..end]`, both ends included. */
  function MaxMin(arr: seq<int>, start: nat, end: nat): (r: (int, int))
    requires start <= end < |arr|
    ensures IsMaxOf(r.0, arr, start, end) && IsMinOf(r.1, arr, start, end)
    ensures r.1 <= r.0
    decreases end - start
  {
    if start == end then (arr[start], arr[start])
    else if end - start == 1 then
      if arr[start] > arr[end] then (arr[start], arr[end]) else (arr[end], arr[start])
    else
      var mid := Midpoint(start, end);
      var (max1, min1) := MaxMin(arr, start, mid);
      var (max2, min2) := MaxMin(arr, mid + 1, end);
      (Max(max1, max2), Min(min1, min2))
  }

  /** `find_max_min(arr)`: an error on the empty list, otherwise the pair for
      the whole list. */
  function FindMaxMin(arr: seq<int>): (r: Result<(int, int)>)
    ensures r.Err? <==> |arr| == 0
    ensures r.Ok? ==> IsMaxOf(r.value.0, arr, 0, |arr| - 1) && IsMinOf(r.value.1, arr, 0, |arr| - 1)
  {
    if |arr| == 0 then Err(EmptyList) else Ok(MaxMin(arr, 0, |arr| - 1))
  }

  /** The largest and smallest elements are unique, so `max_min` agrees with
      any other way of selecting them. */
  lemma MaxMinUnique(arr: seq<int>, start: nat, end: nat, hi: int, lo: int)
    requires start <= end < |arr|
    requires IsMaxOf(hi, arr, start, end) && IsMinOf(lo, arr, start, end)
    ensures MaxMin(arr, start, end) == (hi, lo)
  {
  }
}
