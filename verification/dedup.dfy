/**
 * Deduplication by a key, as the locator does it with a `seen` set: walk the
 * sequence, skip an element whose key is already seen, otherwise remember the
 * key and keep the element.
 */
module Dedup {

  /** The keys of the elements of `s`. */
  ghost function KeySet<T, K>(s: seq<T>, key: T -> K): set<K> {
    set x | x in s :: key(x)
  }

  /** No two elements of `s` share a key. */
  predicate DistinctBy<T, K(==)>(s: seq<T>, key: T -> K) {
    forall i, j | 0 <= i < j < |s| :: key(s[i]) != key(s[j])
  }

  /** The first element of every key of `s` that is not in `seen`, in the order of `s`. */
  function DedupBy<T, K(==)>(s: seq<T>, key: T -> K, seen: set<K>): (r: seq<T>)
    ensures DistinctBy(r, key)
    ensures forall x | x in r :: x in s && key(x) !in seen
    ensures KeySet(r, key) == KeySet(s, key) - seen
    decreases |s|
  {
    if s == [] then []
    else if key(s[0]) in seen then
      var r := DedupBy(s[1..], key, seen);
      assert KeySet(s, key) == KeySet(s[1..], key) + {key(s[0])} by { assert s == [s[0]] + s[1..]; }
      r
    else
      var rest := DedupBy(s[1..], key, seen + {key(s[0])});
      var r := [s[0]] + rest;
      assert KeySet(s, key) == KeySet(s[1..], key) + {key(s[0])} by { assert s == [s[0]] + s[1..]; }
      assert KeySet(r, key) == KeySet(rest, key) + {key(s[0])} by { assert forall x | x in r :: x == s[0] || x in rest; }
      r
  }

  /** The keys of a sequence with one element in front. */
  lemma KeySetCons<T, K>(x: T, s: seq<T>, key: T -> K)
    ensures KeySet([x] + s, key) == {key(x)} + KeySet(s, key)
  {
    assert forall y | y in [x] + s :: y == x || y in s;
  }

  /** An element in front whose key the rest does not have keeps the keys distinct. */
  lemma DistinctCons<T, K>(x: T, s: seq<T>, key: T -> K)
    requires DistinctBy(s, key)
    requires forall y | y in s :: key(y) != key(x)
    ensures DistinctBy([x] + s, key)
  {
    var r := [x] + s;
    forall i, j | 0 <= i < j < |r| ensures key(r[i]) != key(r[j]) {
      if i == 0 {
        assert r[j] == s[j - 1];
      } else {
        assert r[i] == s[i - 1] && r[j] == s[j - 1];
      }
    }
  }

  /** Deduplicating a concatenation: the second part is deduplicated against
      everything the first part added to `seen`. */
  lemma {:induction false} DedupAppend<T, K>(a: seq<T>, b: seq<T>, key: T -> K, seen: set<K>)
    ensures DedupBy(a + b, key, seen) == DedupBy(a, key, seen) + DedupBy(b, key, seen + KeySet(a, key))
    decreases |a|
  {
    if a == [] {
      assert a + b == b;
      assert KeySet(a, key) == {};
      assert seen + KeySet(a, key) == seen;
      assert DedupBy(a, key, seen) == [];
    } else {
      var h, t := a[0], a[1..];
      assert (a + b)[1..] == t + b;
      assert a == [h] + t;
      KeySetCons(h, t, key);
      var seen' := if key(h) in seen then seen else seen + {key(h)};
      DedupAppend(t, b, key, seen');
      assert seen' + KeySet(t, key) == seen + KeySet(a, key);
    }
  }

  /** A sequence with distinct keys, none of them seen, is left as it is. */
  lemma {:induction false} DedupOfDistinct<T, K>(s: seq<T>, key: T -> K, seen: set<K>)
    requires DistinctBy(s, key)
    requires forall x | x in s :: key(x) !in seen
    ensures DedupBy(s, key, seen) == s
    decreases |s|
  {
    if s != [] {
      var rest := s[1..];
      assert DistinctBy(rest, key) by {
        forall i, j | 0 <= i < j < |rest| ensures key(rest[i]) != key(rest[j]) {
          assert rest[i] == s[i + 1] && rest[j] == s[j + 1];
        }
      }
      assert forall x | x in rest :: key(x) !in seen + {key(s[0])} by {
        forall x | x in rest ensures key(x) !in seen + {key(s[0])} {
          var j :| 0 <= j < |rest| && rest[j] == x;
          assert s[j + 1] == x;
        }
      }
      DedupOfDistinct(rest, key, seen + {key(s[0])});
      assert key(s[0]) !in seen;
      assert DedupBy(s, key, seen) == [s[0]] + DedupBy(rest, key, seen + {key(s[0])});
    }
  }

  /** A prefix of a sequence with distinct keys has distinct keys. */
  lemma PrefixDistinct<T, K>(r: seq<T>, s: seq<T>, key: T -> K)
    requires r <= s && DistinctBy(s, key)
    ensures DistinctBy(r, key)
  {
    assert forall i | 0 <= i < |r| :: r[i] == s[i];
  }
}
