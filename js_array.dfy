/**
 * The two array built-ins the notes app leans on, `Array.prototype.findIndex`
 * and `Array.prototype.slice`, with their ECMAScript meaning: `findIndex`
 * answers -1 when nothing matches, and `slice` counts a negative position back
 * from the end and clamps every position into the array.
 */
module JsArray {

  /** Where `slice` starts or stops for a requested position `k` in an array of length `len`. */
  function Clamp(k: int, len: nat): (r: nat)
    ensures r <= len
    ensures 0 <= k <= len ==> r == k
    ensures k < 0 && -k <= len ==> r == len + k
    ensures k < 0 && len < -k ==> r == 0
    ensures len < k ==> r == len
  {
    if k < 0 then (if len + k < 0 then 0 else len + k)
    else if k > len then len
    else k
  }

  /** `s.slice(begin, end)`. */
  function Slice<T>(s: seq<T>, begin: int, end: int): (r: seq<T>)
    ensures |r| <= |s|
    ensures 0 <= begin <= end <= |s| ==> r == s[begin..end]
    ensures 0 < |s| && begin == 0 && end == -1 ==> r == s[..|s| - 1]
  {
    var b, e := Clamp(begin, |s|), Clamp(end, |s|);
    if b < e then s[b..e] else []
  }

  /** `s.slice(begin)`: the end defaults to the length. */
  function SliceFrom<T>(s: seq<T>, begin: int): (r: seq<T>)
    ensures 0 <= begin <= |s| ==> r == s[begin..]
    ensures begin < 0 && -begin <= |s| ==> r == s[|s| + begin..]
  {
    Slice(s, begin, |s|)
  }

  /**
   * `s.findIndex(p)`: the first position whose element satisfies `p`, or -1
   * when there is none.
   */
  function FindIndex<T>(s: seq<T>, p: T -> bool): (r: int)
    ensures -1 <= r < |s|
    ensures 0 <= r ==> p(s[r]) && forall j :: 0 <= j < r ==> !p(s[j])
    ensures r == -1 <==> forall j :: 0 <= j < |s| ==> !p(s[j])
    decreases |s|
  {
    if s == [] then -1
    else if p(s[0]) then 0
    else
      var k := FindIndex(s[1..], p);
      if k == -1 then -1 else k + 1
  }
}
