/**
 * Python's prefix slice `s[:n]`, which the locator uses to cut its answer to
 * the requested number of results.
 */
module Slices {
  /** Python's `s[:n]` for `n >= 0`. */
  function Take<T>(s: seq<T>, n: nat): (r: seq<T>)
    ensures |r| == if |s| <= n then |s| else n
    ensures r <= s
  {
    if |s| <= n then s else s[..n]
  }

  /** Python's `s[:n]` for any integer `n`: a negative `n` counts from the end,
      so it drops the last `-n` elements (all of them when `-n >= |s|`). */
  function SliceTo<T>(s: seq<T>, n: int): (r: seq<T>)
    ensures r <= s
    ensures n >= 0 ==> r == Take(s, n)
    ensures n < 0 ==> |s| - |r| == if -n <= |s| then -n else |s|
  {
    if n >= 0 then Take(s, n)
    else if -n <= |s| then s[..|s| + n]
    else []
  }

  /** Taking `n` from `a + b` when `a` is no longer than `n` keeps all of `a`. */
  lemma TakeOfAppend<T>(a: seq<T>, b: seq<T>, n: nat)
    requires |a| <= n
    ensures Take(a + b, n) == a + Take(b, n - |a|)
  {
    if |a + b| > n {
      assert (a + b)[..n] == a + b[..n - |a|];
    }
  }
}
