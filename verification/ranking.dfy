/**
 * Ranking of records by distance: Python's `list.sort(key=distance)`, which
 * is stable, modelled as an insertion sort.
 */
module Ranking {
  import opened Elements
  import opened Dedup

  /** Non-decreasing in distance. */
  predicate SortedByDistance(s: seq<Poi>) {
    forall i, j | 0 <= i < j < |s| :: s[i].distance <= s[j].distance
  }

  /** The records of `s` at distance exactly `d`, in the order of `s`. */
  function AtDistance(s: seq<Poi>, d: real): seq<Poi> {
    if s == [] then []
    else (if s[0].distance == d then [s[0]] else []) + AtDistance(s[1..], d)
  }

  /** Puts `x` in front of the first record that is not nearer than it. */
  function Insert(x: Poi, s: seq<Poi>): (r: seq<Poi>)
    ensures multiset(r) == multiset(s) + multiset{x}
  {
    if s == [] || x.distance <= s[0].distance then [x] + s
    else
      assert s == [s[0]] + s[1..];
      [s[0]] + Insert(x, s[1..])
  }

  lemma {:induction false} InsertMember(x: Poi, s: seq<Poi>, p: Poi)
    ensures p in Insert(x, s) <==> p == x || p in s
    decreases |s|
  {
    if !(s == [] || x.distance <= s[0].distance) {
      InsertMember(x, s[1..], p);
      assert s == [s[0]] + s[1..];
    }
  }

  /** A record no farther than any record of a sorted sequence can lead it. */
  lemma SortedCons(h: Poi, t: seq<Poi>)
    requires SortedByDistance(t)
    requires forall p | p in t :: h.distance <= p.distance
    ensures SortedByDistance([h] + t)
  {
    var r := [h] + t;
    forall i, j | 0 <= i < j < |r| ensures r[i].distance <= r[j].distance {
      assert r[j] == t[j - 1];
      if i > 0 {
        assert r[i] == t[i - 1];
      }
    }
  }

  /** Inserting into a sorted sequence keeps it sorted. */
  lemma {:induction false} InsertKeepsSorted(x: Poi, s: seq<Poi>)
    requires SortedByDistance(s)
    ensures SortedByDistance(Insert(x, s))
    decreases |s|
  {
    if s == [] || x.distance <= s[0].distance {
      forall p | p in s ensures x.distance <= p.distance {
        var j :| 0 <= j < |s| && s[j] == p;
        assert s[0].distance <= s[j].distance;
      }
      SortedCons(x, s);
    } else {
      var rest := Insert(x, s[1..]);
      InsertKeepsSorted(x, s[1..]);
      forall p | p in rest ensures s[0].distance <= p.distance {
        InsertMember(x, s[1..], p);
        if p != x {
          var j :| 0 <= j < |s[1..]| && s[1..][j] == p;
          assert s[j + 1] == p;
        }
      }
      SortedCons(s[0], rest);
    }
  }

  /** Stable sort by distance. */
  function SortByDistance(s: seq<Poi>): (r: seq<Poi>)
    ensures multiset(r) == multiset(s)
    ensures SortedByDistance(r)
  {
    if s == [] then []
    else
      assert s == [s[0]] + s[1..];
      InsertKeepsSorted(s[0], SortByDistance(s[1..]));
      Insert(s[0], SortByDistance(s[1..]))
  }

  lemma {:induction false} AtDistanceAppend(a: seq<Poi>, b: seq<Poi>, d: real)
    ensures AtDistance(a + b, d) == AtDistance(a, d) + AtDistance(b, d)
    decreases |a|
  {
    if a == [] {
      assert a + b == b;
    } else {
      var h := if a[0].distance == d then [a[0]] else [];
      assert (a + b)[0] == a[0];
      assert (a + b)[1..] == a[1..] + b;
      assert AtDistance(a + b, d) == h + AtDistance(a[1..] + b, d);
      AtDistanceAppend(a[1..], b, d);
    }
  }

  /** Inserting `x` adds it in front of the records of its own distance and
      leaves every other distance alone. */
  lemma {:induction false} InsertStable(x: Poi, s: seq<Poi>, d: real)
    ensures AtDistance(Insert(x, s), d) == (if x.distance == d then [x] else []) + AtDistance(s, d)
    decreases |s|
  {
    if s == [] || x.distance <= s[0].distance {
      AtDistanceAppend([x], s, d);
    } else {
      InsertStable(x, s[1..], d);
      AtDistanceAppend([s[0]], Insert(x, s[1..]), d);
    }
  }

  /** The sort is stable: records at equal distance keep their input order. */
  lemma {:induction false} SortIsStable(s: seq<Poi>, d: real)
    ensures AtDistance(SortByDistance(s), d) == AtDistance(s, d)
    decreases |s|
  {
    if s != [] {
      SortIsStable(s[1..], d);
      InsertStable(s[0], SortByDistance(s[1..]), d);
    }
  }

  lemma AtDistanceMember(s: seq<Poi>, d: real, p: Poi)
    ensures p in AtDistance(s, d) <==> p in s && p.distance == d
  {
  }

  /** A sorted sequence starts with all its records at its least distance. */
  lemma {:induction false} SortedHead(s: seq<Poi>)
    requires SortedByDistance(s) && s != []
    ensures AtDistance(s, s[0].distance) == [s[0]] + AtDistance(s[1..], s[0].distance)
  {
  }

  /** Two sorted sequences with the same records, in the same order, at every
      distance are equal. */
  lemma {:induction false} SortedUnique(a: seq<Poi>, b: seq<Poi>)
    requires SortedByDistance(a) && SortedByDistance(b)
    requires forall d :: AtDistance(a, d) == AtDistance(b, d)
    ensures a == b
    decreases |a|
  {
    if a == [] {
      assert AtDistance(b, 0.0) == [];
    } else {
      assert b != [] by {
        assert AtDistance(a, a[0].distance) != [];
      }
      AtDistanceMember(a, b[0].distance, b[0]);
      AtDistanceMember(b, b[0].distance, b[0]);
      AtDistanceMember(b, a[0].distance, a[0]);
      AtDistanceMember(a, a[0].distance, a[0]);
      assert a[0].distance <= b[0].distance;
      assert b[0].distance <= a[0].distance;
      var d0 := a[0].distance;
      SortedHead(a);
      SortedHead(b);
      assert a[0] == b[0] by {
        assert AtDistance(a, d0)[0] == a[0];
        assert AtDistance(b, d0)[0] == b[0];
      }
      forall d ensures AtDistance(a[1..], d) == AtDistance(b[1..], d) {
        if d != d0 {
          assert AtDistance(a, d) == AtDistance(a[1..], d);
          assert AtDistance(b, d) == AtDistance(b[1..], d);
        } else {
          var x := [a[0]] + AtDistance(a[1..], d);
          var y := [b[0]] + AtDistance(b[1..], d);
          assert x == y;
          assert x[1..] == AtDistance(a[1..], d);
          assert y[1..] == AtDistance(b[1..], d);
        }
      }
      SortedUnique(a[1..], b[1..]);
    }
  }

  /** The sort's result is the only sorted arrangement that keeps the input
      order among records at equal distance. */
  lemma SortIsTheStableSort(s: seq<Poi>, t: seq<Poi>)
    requires SortedByDistance(t)
    requires forall d :: AtDistance(t, d) == AtDistance(s, d)
    ensures t == SortByDistance(s)
  {
    forall d ensures AtDistance(t, d) == AtDistance(SortByDistance(s), d) {
      SortIsStable(s, d);
    }
    SortedUnique(t, SortByDistance(s));
  }

  /** Sorting keeps the identities of the records, and so their distinctness. */
  lemma {:induction false} SortKeepsDistinct(s: seq<Poi>)
    requires DistinctBy(s, PoiId)
    ensures DistinctBy(SortByDistance(s), PoiId)
    decreases |s|
  {
    if s != [] {
      var rest := SortByDistance(s[1..]);
      SortKeepsDistinct(s[1..]);
      assert forall p | p in rest :: PoiId(p) != PoiId(s[0]) by {
        forall p | p in rest ensures PoiId(p) != PoiId(s[0]) {
          assert p in multiset(s[1..]);
          var j :| 0 <= j < |s[1..]| && s[1..][j] == p;
          assert s[j + 1] == p;
        }
      }
      InsertFreshKeepsDistinct(s[0], rest);
    }
  }

  lemma {:induction false} InsertFreshKeepsDistinct(x: Poi, s: seq<Poi>)
    requires DistinctBy(s, PoiId)
    requires forall p | p in s :: PoiId(p) != PoiId(x)
    ensures DistinctBy(Insert(x, s), PoiId)
    decreases |s|
  {
    if !(s == [] || x.distance <= s[0].distance) {
      var rest := Insert(x, s[1..]);
      InsertFreshKeepsDistinct(x, s[1..]);
      assert forall p | p in rest :: PoiId(p) != PoiId(s[0]) by {
        forall p | p in rest ensures PoiId(p) != PoiId(s[0]) {
          assert p in multiset(rest);
          if p != x {
            var j :| 0 <= j < |s[1..]| && s[1..][j] == p;
            assert s[j + 1] == p;
          }
        }
      }
    }
  }

  /** Dropping records from a sorted sequence leaves it sorted. */
  lemma {:induction false} DedupKeepsSorted(s: seq<Poi>, seen: set<Ident>)
    requires SortedByDistance(s)
    ensures SortedByDistance(DedupBy(s, PoiId, seen))
    decreases |s|
  {
    if s != [] {
      DedupKeepsSorted(s[1..], seen);
      DedupKeepsSorted(s[1..], seen + {PoiId(s[0])});
    }
  }
}
