/**
 * The few string operations of Python's `str` that the locator and the triage
 * route rely on: `strip()`, `lower()`, `upper()`, `in` on strings and `join`.
 * Case mapping is modelled on ASCII letters only.
 */
module Text {

  /** The characters `str.strip()` removes when called without arguments
      (exactly the characters for which `str.isspace()` holds). */
  predicate IsSpace(c: char) {
    || c in {' ', '\t', '\n', '\r', '\U{0B}', '\U{0C}', '\U{1C}', '\U{1D}', '\U{1E}', '\U{1F}'}
    || c in {'\U{85}', '\U{A0}', '\U{1680}', '\U{2028}', '\U{2029}', '\U{202F}', '\U{205F}', '\U{3000}'}
    || '\U{2000}' <= c <= '\U{200A}'
  }

  /** Every character of `s` is white space (the empty string included). */
  predicate Blank(s: string) {
    forall i | 0 <= i < |s| :: IsSpace(s[i])
  }

  /** `lo` is where `lstrip()` cuts `s`: everything before it is white space
      and the character at it, if any, is not. */
  predicate CutsFront(s: string, lo: nat) {
    && lo <= |s|
    && (forall k | 0 <= k < lo :: IsSpace(s[k]))
    && (lo == |s| || !IsSpace(s[lo]))
  }

  /** `hi` is where `rstrip()` cuts `s`: everything from it on is white space
      and the character before it, if any, is not. */
  predicate CutsBack(s: string, hi: nat) {
    && hi <= |s|
    && (forall k | hi <= k < |s| :: IsSpace(s[k]))
    && (hi == 0 || !IsSpace(s[hi - 1]))
  }

  /** The end of the run of white space that starts at `i`. */
  function SpaceRunAfter(s: string, i: nat): (j: nat)
    requires i <= |s|
    ensures i <= j <= |s|
    ensures forall k | i <= k < j :: IsSpace(s[k])
    ensures j == |s| || !IsSpace(s[j])
    decreases |s| - i
  {
    if i < |s| && IsSpace(s[i]) then SpaceRunAfter(s, i + 1) else i
  }

  /** The start of the run of white space that ends at `j`. */
  function SpaceRunBefore(s: string, j: nat): (i: nat)
    requires j <= |s|
    ensures i <= j
    ensures forall k | i <= k < j :: IsSpace(s[k])
    ensures i == 0 || !IsSpace(s[i - 1])
    decreases j
  {
    if j > 0 && IsSpace(s[j - 1]) then SpaceRunBefore(s, j - 1) else j
  }

  /** Where `strip()` starts keeping characters (`|s|` when `s` is blank). */
  function Start(s: string): (lo: nat)
    ensures CutsFront(s, lo)
  {
    SpaceRunAfter(s, 0)
  }

  /** Where `strip()` stops keeping characters (`0` when `s` is blank). */
  function End(s: string): (hi: nat)
    ensures CutsBack(s, hi)
  {
    SpaceRunBefore(s, |s|)
  }

  /** Only one position satisfies the description of the front cut. */
  lemma StartUnique(s: string, lo: nat)
    requires CutsFront(s, lo)
    ensures Start(s) == lo
  {
  }

  /** Only one position satisfies the description of the back cut. */
  lemma EndUnique(s: string, hi: nat)
    requires CutsBack(s, hi)
    ensures End(s) == hi
  {
  }

  /** Python's `str.strip()`: white space removed from both ends. */
  function Strip(s: string): (r: string)
    ensures r == [] <==> Blank(s)
    ensures r == [] || (!IsSpace(r[0]) && !IsSpace(r[|r| - 1]))
  {
    if Start(s) == |s| then [] else s[Start(s)..End(s)]
  }

  /** What `strip()` keeps is a slice of its input with only white space
      outside it. */
  lemma StripIsSlice(s: string)
    ensures var r := Strip(s);
      exists lo | 0 <= lo <= |s| - |r| :: r == s[lo..lo + |r|] && Blank(s[..lo]) && Blank(s[lo + |r|..])
  {
    var lo := Start(s);
    if lo == |s| {
      assert Strip(s) == [] && s[..lo] == s && s[lo..] == [];
    } else {
      var hi := End(s);
      assert Strip(s) == s[lo..hi];
      assert Blank(s[..lo]) && Blank(s[hi..]);
    }
  }

  /** A string that neither starts nor ends with white space is its own strip. */
  lemma StripOfStripped(s: string)
    requires s == [] || (!IsSpace(s[0]) && !IsSpace(s[|s| - 1]))
    ensures Strip(s) == s
  {
    StartUnique(s, 0);
    EndUnique(s, |s|);
    assert s[0..|s|] == s;
  }

  /** Stripping twice removes nothing more. */
  lemma StripIdempotent(s: string)
    ensures Strip(Strip(s)) == Strip(s)
  {
    StripOfStripped(Strip(s));
  }

  /** A front cut inside `s` moves right by `|pre|` when blank `pre` is put
      in front and anything is put after. */
  lemma CutsFrontShift(pre: string, s: string, post: string, lo: nat)
    requires Blank(pre) && CutsFront(s, lo) && lo < |s|
    ensures CutsFront(pre + s + post, |pre| + lo)
  {
    var all := pre + s + post;
    assert all[|pre| + lo] == s[lo];
    forall k | 0 <= k < |pre| + lo ensures IsSpace(all[k]) {
      if k < |pre| {
        assert all[k] == pre[k];
      } else {
        assert all[k] == s[k - |pre|];
      }
    }
  }

  /** A back cut inside `s` moves right by `|pre|` when blank `post` is put
      after and anything is put in front. */
  lemma CutsBackShift(pre: string, s: string, post: string, hi: nat)
    requires Blank(post) && CutsBack(s, hi) && 0 < hi
    ensures CutsBack(pre + s + post, |pre| + hi)
  {
    var all := pre + s + post;
    assert all[|pre| + hi - 1] == s[hi - 1];
    forall k | |pre| + hi <= k < |all| ensures IsSpace(all[k]) {
      if k < |pre| + |s| {
        assert all[k] == s[k - |pre|];
      } else {
        assert all[k] == post[k - |pre| - |s|];
      }
    }
  }

  lemma BlankConcat(pre: string, s: string, post: string)
    requires Blank(pre) && Blank(s) && Blank(post)
    ensures Blank(pre + s + post)
  {
    var all := pre + s + post;
    forall k | 0 <= k < |all| ensures IsSpace(all[k]) {
      if k < |pre| {
        assert all[k] == pre[k];
      } else if k < |pre| + |s| {
        assert all[k] == s[k - |pre|];
      } else {
        assert all[k] == post[k - |pre| - |s|];
      }
    }
  }

  /** `strip()` ignores white space added around the text. */
  lemma StripSurrounded(pre: string, s: string, post: string)
    requires Blank(pre) && Blank(post)
    ensures Strip(pre + s + post) == Strip(s)
  {
    if Blank(s) {
      BlankConcat(pre, s, post);
    } else {
      var all := pre + s + post;
      var lo, hi := Start(s), End(s);
      CutsFrontShift(pre, s, post, lo);
      CutsBackShift(pre, s, post, hi);
      StartUnique(all, |pre| + lo);
      EndUnique(all, |pre| + hi);
      assert all[|pre| + lo..|pre| + hi] == s[lo..hi];
    }
  }

  /** Two texts of one length with white space at the same positions. */
  predicate SameSpaces(s: string, t: string) {
    |s| == |t| && forall i | 0 <= i < |s| :: IsSpace(s[i]) <==> IsSpace(t[i])
  }

  /** `strip()` cuts texts with white space at the same positions at the same places. */
  lemma StripSameSpaces(s: string, t: string)
    requires SameSpaces(s, t)
    ensures Start(s) == Start(t) && End(s) == End(t)
  {
    StartUnique(t, Start(s));
    EndUnique(t, End(s));
  }

  function LowerChar(c: char): char {
    if 'A' <= c <= 'Z' then (c as int + 32) as char else c
  }

  function UpperChar(c: char): char {
    if 'a' <= c <= 'z' then (c as int - 32) as char else c
  }

  /** Python's `str.lower()`, on ASCII letters. */
  function Lower(s: string): (r: string)
    ensures |r| == |s|
    ensures forall i | 0 <= i < |s| :: r[i] == LowerChar(s[i])
  {
    seq(|s|, i requires 0 <= i < |s| => LowerChar(s[i]))
  }

  /** Python's `str.upper()`, on ASCII letters. */
  function Upper(s: string): (r: string)
    ensures |r| == |s|
    ensures forall i | 0 <= i < |s| :: r[i] == UpperChar(s[i])
  {
    seq(|s|, i requires 0 <= i < |s| => UpperChar(s[i]))
  }

  /** Lower-casing twice is lower-casing once. */
  lemma LowerIdempotent(s: string)
    ensures Lower(Lower(s)) == Lower(s)
  {
  }

  /** Upper-casing and then lower-casing is lower-casing. */
  lemma LowerOfUpper(s: string)
    ensures Lower(Upper(s)) == Lower(s)
  {
  }

  /** Lower-casing and then upper-casing is upper-casing. */
  lemma UpperOfLower(s: string)
    ensures Upper(Lower(s)) == Upper(s)
  {
  }

  /** Upper-casing a slice is slicing the upper-cased text. */
  lemma UpperSlice(s: string, lo: nat, hi: nat)
    requires lo <= hi <= |s|
    ensures Upper(s)[lo..hi] == Upper(s[lo..hi])
  {
    assert forall i | 0 <= i < hi - lo :: Upper(s)[lo..hi][i] == UpperChar(s[lo + i]) == Upper(s[lo..hi])[i];
  }

  /** Stripping commutes with upper-casing: case mapping leaves white space alone. */
  lemma StripUpper(s: string)
    ensures Strip(Upper(s)) == Upper(Strip(s))
  {
    var u := Upper(s);
    assert SameSpaces(s, u);
    StripSameSpaces(s, u);
    if Start(s) < |s| {
      UpperSlice(s, Start(s), End(s));
    }
  }

  /** Lower-casing neither creates nor removes white space, so it commutes
      with the blank test that follows `strip()`. */
  lemma LowerKeepsSpace(s: string)
    ensures Blank(Lower(s)) <==> Blank(s)
    ensures s != [] ==> (IsSpace(Lower(s)[0]) <==> IsSpace(s[0]))
    ensures s != [] ==> (IsSpace(Lower(s)[|s| - 1]) <==> IsSpace(s[|s| - 1]))
  {
  }

  /** `f` occurs in `t` starting at position `i`. */
  predicate OccursAt(t: string, f: string, i: nat) {
    i + |f| <= |t| && t[i..i + |f|] == f
  }

  /** Python's `f in t` on two strings: `f` occurs as a contiguous slice of `t`. */
  function Contains(t: string, f: string): (r: bool)
    ensures r <==> exists i: nat :: OccursAt(t, f, i)
    decreases |t|
  {
    if |f| > |t| then false
    else if t[..|f|] == f then assert OccursAt(t, f, 0); true
    else
      var rest := Contains(t[1..], f);
      OccursShift(t, f);
      assert !OccursAt(t, f, 0);
      rest
  }

  /** A slice of the tail is the slice one position further on. */
  lemma SliceOfTail<T>(t: seq<T>, i: nat, n: nat)
    requires i + n < |t|
    ensures t[1..][i..i + n] == t[i + 1..i + 1 + n]
  {
    var a, b := t[1..][i..i + n], t[i + 1..i + 1 + n];
    assert forall k | 0 <= k < n :: a[k] == b[k];
  }

  /** An occurrence in `t[1..]` is an occurrence in `t` one position further on. */
  lemma OccursShift(t: string, f: string)
    requires t != []
    ensures forall i: nat :: OccursAt(t[1..], f, i) <==> OccursAt(t, f, i + 1)
    ensures (exists i: nat :: OccursAt(t, f, i)) <==>
            OccursAt(t, f, 0) || exists i: nat :: OccursAt(t[1..], f, i)
  {
    forall i: nat
      ensures OccursAt(t[1..], f, i) <==> OccursAt(t, f, i + 1)
    {
      if i + |f| < |t| {
        SliceOfTail(t, i, |f|);
      }
    }
    if exists i: nat :: OccursAt(t, f, i) {
      var i: nat :| OccursAt(t, f, i);
      if i > 0 {
        assert OccursAt(t[1..], f, i - 1);
      }
    }
  }

  /** Python's `sep.join(parts)`. */
  function Join(parts: seq<string>, sep: string): (r: string)
    ensures parts == [] ==> r == []
    ensures parts != [] ==> |r| == TotalLength(parts) + |sep| * (|parts| - 1)
    ensures parts != [] ==> parts[0] <= r
  {
    if parts == [] then []
    else if |parts| == 1 then parts[0]
    else parts[0] + sep + Join(parts[1..], sep)
  }

  /** Joining one more part adds the separator and that part at the end, so
      the joined text is every part in order with one separator between each pair. */
  lemma {:induction false} JoinSnoc(parts: seq<string>, p: string, sep: string)
    requires parts != []
    ensures Join(parts + [p], sep) == Join(parts, sep) + sep + p
    decreases |parts|
  {
    var all := parts + [p];
    assert all[0] == parts[0] && all[1..] == parts[1..] + [p];
    if |parts| == 1 {
      assert all[1..] == [p];
    } else {
      JoinSnoc(parts[1..], p, sep);
    }
  }

  /** Sum of the lengths of `parts`. */
  function TotalLength(parts: seq<string>): nat {
    if parts == [] then 0 else |parts[0]| + TotalLength(parts[1..])
  }

  /** A join of pieces that are all non-empty is empty exactly when there are no pieces. */
  lemma JoinEmptyIff(parts: seq<string>, sep: string)
    requires forall i | 0 <= i < |parts| :: parts[i] != []
    ensures Join(parts, sep) == [] <==> parts == []
  {
  }
}
