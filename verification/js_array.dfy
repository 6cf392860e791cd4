/**
 * The two array builtins whose index rules the store depends on:
 * Array.prototype.slice (pagination) and Array.prototype.splice with a
 * delete count of 1 (removing a bookmark). Both resolve a relative index
 * the same way: a negative index counts back from the end, and the result
 * is clamped to [0, length].
 */
module JsArray {

  /** The position a relative index stands for in a sequence of length `len`. */
  function Resolve(rel: int, len: nat): (k: nat)
    ensures k <= len
  {
    if rel < 0 then (if len + rel < 0 then 0 else len + rel)
    else if rel < len then rel else len
  }

  /** `s.slice(start, end)`: the elements from the resolved start up to, not including, the resolved end. */
  function Slice<T>(s: seq<T>, start: int, end: int): (r: seq<T>)
    ensures |r| <= |s|
  {
    var from := Resolve(start, |s|);
    var to := Resolve(end, |s|);
    if from < to then s[from..to] else []
  }

  /** The array left behind by `s.splice(start, 1)`: the element at the resolved start goes, if there is one. */
  function SpliceOne<T>(s: seq<T>, start: int): (r: seq<T>)
    ensures |r| == if Resolve(start, |s|) < |s| then |s| - 1 else |s|
    ensures multiset(r) <= multiset(s)
  {
    var at := Resolve(start, |s|);
    if at < |s| then
      assert s == s[..at] + s[at..];
      assert s[at..] == [s[at]] + s[at + 1..];
      s[..at] + s[at + 1..]
    else s
  }

  /** For a non-negative window, slice keeps exactly the indices in [start, min(end, |s|)), in order. */
  lemma SliceWindow<T>(s: seq<T>, start: int, end: int)
    requires 0 <= start <= end
    ensures var r := Slice(s, start, end);
            |r| == (if start >= |s| then 0 else (if end < |s| then end else |s|) - start) &&
            forall k :: 0 <= k < |r| ==> r[k] == s[start + k]
  {
  }

  /** Splicing at a valid index removes exactly that element and keeps the rest in order. */
  lemma SpliceOneAt<T>(s: seq<T>, i: int)
    requires 0 <= i < |s|
    ensures var r := SpliceOne(s, i);
            |r| == |s| - 1 &&
            (forall k :: 0 <= k < i ==> r[k] == s[k]) &&
            (forall k :: i <= k < |r| ==> r[k] == s[k + 1])
  {
  }

  /** `splice(-1, 1)` removes the last element, and does nothing to an empty array. */
  lemma SpliceOneMinusOne<T>(s: seq<T>)
    ensures SpliceOne(s, -1) == if |s| == 0 then s else s[..|s| - 1]
  {
  }
}
