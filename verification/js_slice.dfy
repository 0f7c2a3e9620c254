/** JavaScript's `Array.prototype.slice(start, end)` on integer arguments: negative positions count
    from the end, and both positions are clamped to the array. */
module JsSlice {

  /** A relative position resolved against a length, as `slice` does. */
  function Resolve(i: int, len: nat): (r: nat)
    ensures r <= len
    ensures 0 <= i <= len ==> r == i
    ensures i > len ==> r == len
    ensures i < 0 && len + i >= 0 ==> r == len + i
    ensures len + i < 0 ==> r == 0
  {
    if i < 0 then (if len + i < 0 then 0 else len + i) else if i > len then len else i
  }

  /** `s.slice(start, end)`: a contiguous run of `s`; within bounds it is the ordinary
      subsequence, a negative position counts from the end, and a run whose end precedes its start
      is empty. */
  function Slice<T>(s: seq<T>, start: int, end: int): (r: seq<T>)
    ensures |r| <= |s|
    ensures 0 <= start <= end <= |s| ==> r == s[start..end]
    ensures 0 <= end <= start ==> r == []
    ensures |s| + start <= 0 && end >= |s| ==> r == s
    ensures start < 0 && |s| + start >= 0 && end >= |s| ==> r == s[|s| + start..]
  {
    var a, b := Resolve(start, |s|), Resolve(end, |s|);
    if a <= b then s[a..b] else []
  }
}
