/** The part of `Array.prototype.slice` the converter relies on. */
module JsArray {

  /** Resolves a `slice` bound: a negative bound counts from the end, and
      the result is clamped to `[0, n]`. */
  function RelativeIndex(n: nat, k: int): (i: nat)
    ensures i <= n
    ensures 0 <= k <= n ==> i == k
    ensures n < k ==> i == n
    ensures k < 0 ==> i + (-k) == n || (i == 0 && n < -k)
  {
    if k < 0 then (if n + k < 0 then 0 else n + k)
    else if k < n then k
    else n
  }

  /** `s.slice(start, end)`. */
  function Slice<T>(s: seq<T>, start: int, end: int): (r: seq<T>)
    ensures var from, to := RelativeIndex(|s|, start), RelativeIndex(|s|, end);
            && (from <= to ==> r == s[from..to])
            && (to < from ==> r == [])
  {
    var from, to := RelativeIndex(|s|, start), RelativeIndex(|s|, end);
    if from < to then s[from..to] else []
  }

  /** `s.map(a => a + delta)`. */
  function Shift(s: seq<int>, delta: int): (r: seq<int>)
    ensures |r| == |s|
    ensures forall i :: 0 <= i < |s| ==> r[i] == s[i] + delta
  {
    seq(|s|, i requires 0 <= i < |s| => s[i] + delta)
  }
}
