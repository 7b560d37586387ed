/**
 * The two-tier proximity search of the locator (`find_pharmacies_overpass`).
 * Tier 1 holds the pharmacies that carry a contact tag; tier 2, the
 * unfiltered sweep, is asked for only when tier 1 does not fill the limit.
 * The answers of the query engine are inputs: a failed query is an empty
 * sequence of elements.
 */
module Search {
  import opened Wrappers
  import opened Dedup
  import opened Slices
  import opened Elements
  import opened Ranking

  datatype Tier = ContactTier | SweepTier

  /** A request sent to the query engine: which tier, around which centre and
      within which radius. */
  datatype OverpassQuery = OverpassQuery(tier: Tier, lat: real, lon: real, radius: int)

  /** The state of the tier-1 loop: records built so far and identities seen. */
  datatype Scan = Scan(records: seq<Poi>, seen: set<Ident>)

  /** The records found and the queries the search sent, in order. */
  datatype SearchOutcome = SearchOutcome(results: seq<Poi>, queries: seq<OverpassQuery>)

  /** The record of one element as a sequence: empty when it is dropped. */
  function RecordOf(e: Element, origin: Point, dist: DistanceFn): seq<Poi> {
    match ToPoi(e, origin, dist)
    case Some(p) => [p]
    case None => []
  }

  /** The records of the usable elements of `elems`, in order. */
  function ParseAll(elems: seq<Element>, origin: Point, dist: DistanceFn): seq<Poi>
    decreases |elems|
  {
    if elems == [] then []
    else RecordOf(elems[0], origin, dist) + ParseAll(elems[1..], origin, dist)
  }

  /** Every record comes from an element, and every usable element gives its record. */
  lemma {:induction false} ParseAllMembers(elems: seq<Element>, origin: Point, dist: DistanceFn)
    ensures forall p | p in ParseAll(elems, origin, dist) :: exists e | e in elems :: ToPoi(e, origin, dist) == Some(p)
    ensures forall e | e in elems && ToPoi(e, origin, dist).Some? :: ToPoi(e, origin, dist).value in ParseAll(elems, origin, dist)
    decreases |elems|
  {
    if elems != [] {
      var e := elems[0];
      var rest := ParseAll(elems[1..], origin, dist);
      ParseAllMembers(elems[1..], origin, dist);
      assert forall x | x in elems[1..] :: x in elems;
      assert forall x | x in elems :: x == e || x in elems[1..];
    }
  }

  /** The tier-1 loop: an element whose identity is already seen is skipped;
      otherwise its identity is marked seen, and only then is the element
      dropped when it has no usable coordinate. */
  function ScanContact(elems: seq<Element>, seen: set<Ident>, origin: Point, dist: DistanceFn): (r: Scan)
    ensures r.seen == seen + KeySet(elems, ElemId)
    ensures DistinctBy(r.records, PoiId)
    ensures forall p | p in r.records :: PoiId(p) !in seen && PoiId(p) in KeySet(elems, ElemId)
    decreases |elems|
  {
    if elems == [] then Scan([], seen)
    else
      var e := elems[0];
      KeySetCons(e, elems[1..], ElemId);
      assert elems == [e] + elems[1..];
      if ElemId(e) in seen then ScanContact(elems[1..], seen, origin, dist)
      else
        var rest := ScanContact(elems[1..], seen + {ElemId(e)}, origin, dist);
        match ToPoi(e, origin, dist)
        case None => rest
        case Some(p) =>
          assert PoiId(p) == ElemId(e);
          DistinctCons(p, rest.records, PoiId);
          KeySetCons(p, rest.records, PoiId);
          Scan([p] + rest.records, rest.seen)
  }

  /** The tier-2 loop: elements whose identity tier 1 saw are skipped, and so
      are elements without a usable coordinate. Nothing is added to `seen`
      here, so a repeated identity within tier 2 survives this loop. */
  function ScanSweep(elems: seq<Element>, seen: set<Ident>, origin: Point, dist: DistanceFn): (r: seq<Poi>)
    ensures forall p | p in r :: PoiId(p) !in seen
    ensures forall p | p in r :: exists e | e in elems :: ToPoi(e, origin, dist) == Some(p)
    ensures forall e | e in elems && ElemId(e) !in seen && ToPoi(e, origin, dist).Some? :: ToPoi(e, origin, dist).value in r
    decreases |elems|
  {
    if elems == [] then []
    else
      var e := elems[0];
      var rest := ScanSweep(elems[1..], seen, origin, dist);
      assert elems == [e] + elems[1..];
      if ElemId(e) in seen then rest
      else
        match ToPoi(e, origin, dist)
        case None => rest
        case Some(p) => [p] + rest
  }

  /** The elements whose identity is not in `seen`, in order. */
  function Unseen(elems: seq<Element>, seen: set<Ident>): (r: seq<Element>)
    ensures forall e | e in r :: e in elems && ElemId(e) !in seen
    ensures forall e | e in elems && ElemId(e) !in seen :: e in r
    decreases |elems|
  {
    if elems == [] then []
    else
      assert elems == [elems[0]] + elems[1..];
      (if ElemId(elems[0]) in seen then [] else [elems[0]]) + Unseen(elems[1..], seen)
  }

  /** Filtering goes element by element: filtering `a + b` is filtering `a`
      and then `b`. */
  lemma {:induction false} UnseenAppend(a: seq<Element>, b: seq<Element>, seen: set<Ident>)
    ensures Unseen(a + b, seen) == Unseen(a, seen) + Unseen(b, seen)
    decreases |a|
  {
    if a != [] {
      var head := if ElemId(a[0]) in seen then [] else [a[0]];
      assert (a + b)[0] == a[0] && (a + b)[1..] == a[1..] + b;
      assert Unseen(a + b, seen) == head + Unseen(a[1..] + b, seen);
      UnseenAppend(a[1..], b, seen);
    } else {
      assert a + b == b;
    }
  }

  /** One element is kept exactly when its identity is not seen. */
  lemma UnseenOne(e: Element, seen: set<Ident>)
    ensures Unseen([e], seen) == if ElemId(e) in seen then [] else [e]
  {
    assert [e][1..] == [];
  }

  /** The merge loop over tier 1 followed by tier 2: skip a seen identity,
      otherwise keep the record and stop as soon as `limit` records are kept. */
  function MergeLoop(merged: seq<Poi>, seenIds: set<Ident>, final: seq<Poi>, limit: nat): seq<Poi>
    decreases |merged|
  {
    if merged == [] then final
    else
      var r := merged[0];
      if PoiId(r) in seenIds then MergeLoop(merged[1..], seenIds, final, limit)
      else
        var kept := final + [r];
        if |kept| >= limit then kept else MergeLoop(merged[1..], seenIds + {PoiId(r)}, kept, limit)
  }

  /** Tier 1, scanned and sorted, with the identities it saw. */
  function TierOne(contactElems: seq<Element>, origin: Point, dist: DistanceFn): (r: Scan)
    ensures SortedByDistance(r.records) && DistinctBy(r.records, PoiId)
    ensures r.seen == KeySet(contactElems, ElemId)
    ensures multiset(r.records) == multiset(ScanContact(contactElems, {}, origin, dist).records)
    ensures forall d :: AtDistance(r.records, d) == AtDistance(ScanContact(contactElems, {}, origin, dist).records, d)
  {
    var scan := ScanContact(contactElems, {}, origin, dist);
    SortKeepsDistinct(scan.records);
    assert forall d :: AtDistance(SortByDistance(scan.records), d) == AtDistance(scan.records, d) by {
      forall d ensures AtDistance(SortByDistance(scan.records), d) == AtDistance(scan.records, d) {
        SortIsStable(scan.records, d);
      }
    }
    Scan(SortByDistance(scan.records), scan.seen)
  }

  /** Tier 2, scanned against the identities tier 1 saw, and sorted. */
  function TierTwo(sweepElems: seq<Element>, seen: set<Ident>, origin: Point, dist: DistanceFn): (r: seq<Poi>)
    ensures SortedByDistance(r)
    ensures forall p | p in r :: PoiId(p) !in seen
    ensures multiset(r) == multiset(ScanSweep(sweepElems, seen, origin, dist))
    ensures forall d :: AtDistance(r, d) == AtDistance(ScanSweep(sweepElems, seen, origin, dist), d)
  {
    var records := ScanSweep(sweepElems, seen, origin, dist);
    var r := SortByDistance(records);
    assert forall p | p in r :: p in records by {
      forall p | p in r ensures p in records {
        assert p in multiset(r);
      }
    }
    assert forall d :: AtDistance(r, d) == AtDistance(records, d) by {
      forall d ensures AtDistance(r, d) == AtDistance(records, d) {
        SortIsStable(records, d);
      }
    }
    r
  }

  /** `find_pharmacies_overpass`: the contact tier first, and the sweep only
      when the contact tier is short. A `limit` of zero or less is never short,
      and tier 1 is cut with Python's slice `[:limit]`. */
  function FindPharmacies(origin: Point, radius: int, limit: int, contactElems: seq<Element>, sweepElems: seq<Element>, dist: DistanceFn): (r: SearchOutcome)
    ensures r.queries == [OverpassQuery(ContactTier, origin.lat, origin.lon, radius)] ||
            r.queries == [OverpassQuery(ContactTier, origin.lat, origin.lon, radius), OverpassQuery(SweepTier, origin.lat, origin.lon, radius)]
  {
    var contactQuery := OverpassQuery(ContactTier, origin.lat, origin.lon, radius);
    var t1 := TierOne(contactElems, origin, dist);
    if |t1.records| >= limit then
      SearchOutcome(SliceTo(t1.records, limit), [contactQuery])
    else
      var t2 := TierTwo(sweepElems, t1.seen, origin, dist);
      SearchOutcome(MergeLoop(t1.records + t2, {}, [], limit), [contactQuery, OverpassQuery(SweepTier, origin.lat, origin.lon, radius)])
  }

  // ---------------------------------------------------------------------------
  // Properties

  /** The merge loop with its early exit keeps the first `limit` records of
      the deduplicated sequence. */
  lemma {:induction false} MergeLoopTakesDistinct(merged: seq<Poi>, seenIds: set<Ident>, final: seq<Poi>, limit: nat)
    requires |final| < limit
    ensures MergeLoop(merged, seenIds, final, limit) == Take(final + DedupBy(merged, PoiId, seenIds), limit)
    decreases |merged|
  {
    if merged == [] {
      assert final + [] == final;
    } else {
      var r := merged[0];
      if PoiId(r) in seenIds {
        MergeLoopTakesDistinct(merged[1..], seenIds, final, limit);
      } else {
        var kept := final + [r];
        var rest := DedupBy(merged[1..], PoiId, seenIds + {PoiId(r)});
        assert final + DedupBy(merged, PoiId, seenIds) == kept + rest;
        if |kept| >= limit {
          assert (kept + rest)[..limit] == kept;
        } else {
          MergeLoopTakesDistinct(merged[1..], seenIds + {PoiId(r)}, kept, limit);
        }
      }
    }
  }

  /** Parsing is element by element: the records of `a + b` are those of `a`
      followed by those of `b`. */
  lemma {:induction false} ParseAllAppend(a: seq<Element>, b: seq<Element>, origin: Point, dist: DistanceFn)
    ensures ParseAll(a + b, origin, dist) == ParseAll(a, origin, dist) + ParseAll(b, origin, dist)
    decreases |a|
  {
    if a == [] {
      assert a + b == b;
    } else {
      var head := RecordOf(a[0], origin, dist);
      assert (a + b)[0] == a[0] && (a + b)[1..] == a[1..] + b;
      assert ParseAll(a + b, origin, dist) == head + ParseAll(a[1..] + b, origin, dist);
      ParseAllAppend(a[1..], b, origin, dist);
      assert head + (ParseAll(a[1..], origin, dist) + ParseAll(b, origin, dist))
          == (head + ParseAll(a[1..], origin, dist)) + ParseAll(b, origin, dist);
    }
  }

  /** One element gives its record, or nothing when it is dropped. */
  lemma ParseOne(e: Element, origin: Point, dist: DistanceFn)
    ensures ParseAll([e], origin, dist) == if ToPoi(e, origin, dist).Some? then [ToPoi(e, origin, dist).value] else []
  {
    assert [e][1..] == [];
  }

  /** The tier-2 loop is filtering out the identities tier 1 saw and then
      parsing what is left, in order: one record per usable element, repeated
      identities included. */
  lemma {:induction false} ScanSweepIsFilterThenParse(elems: seq<Element>, seen: set<Ident>, origin: Point, dist: DistanceFn)
    ensures ScanSweep(elems, seen, origin, dist) == ParseAll(Unseen(elems, seen), origin, dist)
    decreases |elems|
  {
    if elems != [] {
      var e := elems[0];
      var head := if ElemId(e) in seen then [] else [e];
      assert Unseen(elems, seen) == head + Unseen(elems[1..], seen);
      ScanSweepIsFilterThenParse(elems[1..], seen, origin, dist);
      ParseAllAppend(head, Unseen(elems[1..], seen), origin, dist);
      if ElemId(e) !in seen {
        ParseOne(e, origin, dist);
      }
    }
  }

  /** Skipping an identity at the head of tier 1 and marking it seen before
      looking at the coordinate is the same as deduplicating the raw elements
      first and dropping unusable ones afterwards: the first element of an
      identity decides, even when it is the one dropped. */
  lemma {:induction false} ScanContactIsDedupThenParse(elems: seq<Element>, seen: set<Ident>, origin: Point, dist: DistanceFn)
    ensures ScanContact(elems, seen, origin, dist).records == ParseAll(DedupBy(elems, ElemId, seen), origin, dist)
    decreases |elems|
  {
    if elems != [] {
      var e := elems[0];
      if ElemId(e) in seen {
        ScanContactIsDedupThenParse(elems[1..], seen, origin, dist);
      } else {
        ScanContactIsDedupThenParse(elems[1..], seen + {ElemId(e)}, origin, dist);
        var d := DedupBy(elems[1..], ElemId, seen + {ElemId(e)});
        assert DedupBy(elems, ElemId, seen) == [e] + d;
        assert ([e] + d)[1..] == d;
      }
    }
  }

  /** An identity whose first tier-1 element has no usable coordinate yields no
      record, even when a later tier-1 element of that identity has one. */
  lemma DroppedIdentityShadowsLaterCopy(bad: Element, good: Element, origin: Point, dist: DistanceFn)
    requires ElemId(bad) == ElemId(good)
    requires Location(bad).None?
    ensures ScanContact([bad, good], {}, origin, dist).records == []
    ensures ElemId(good) in ScanContact([bad, good], {}, origin, dist).seen
  {
    var s := [bad, good];
    assert s[1..] == [good];
    assert [good][1..] == [];
    var id := ElemId(bad);
    var none: set<Ident> := {};
    assert none + {id} == {id};
    assert ScanContact([good], {id}, origin, dist) == ScanContact([], {id}, origin, dist);
    assert ToPoi(bad, origin, dist) == None;
  }

  /** When the sorted tier 1 is short, the answer is tier 1 followed by the
      first records of the deduplicated tier 2. */
  lemma MergeShape(t1: seq<Poi>, t2: seq<Poi>, limit: nat)
    requires DistinctBy(t1, PoiId) && |t1| < limit
    ensures MergeLoop(t1 + t2, {}, [], limit) == t1 + Take(DedupBy(t2, PoiId, KeySet(t1, PoiId)), limit - |t1|)
  {
    MergeLoopTakesDistinct(t1 + t2, {}, [], limit);
    DedupAppend(t1, t2, PoiId, {});
    DedupOfDistinct(t1, PoiId, {});
    assert {} + KeySet(t1, PoiId) == KeySet(t1, PoiId);
    assert [] + DedupBy(t1 + t2, PoiId, {}) == t1 + DedupBy(t2, PoiId, KeySet(t1, PoiId));
    TakeOfAppend(t1, DedupBy(t2, PoiId, KeySet(t1, PoiId)), limit);
  }

  /** A full tier 1 answers alone: its `limit` nearest records, and the sweep
      is never sent. */
  lemma SearchShortCircuit(origin: Point, radius: int, limit: int, contactElems: seq<Element>, sweepElems: seq<Element>, dist: DistanceFn)
    requires |TierOne(contactElems, origin, dist).records| >= limit
    ensures FindPharmacies(origin, radius, limit, contactElems, sweepElems, dist).results == SliceTo(TierOne(contactElems, origin, dist).records, limit)
    ensures |FindPharmacies(origin, radius, limit, contactElems, sweepElems, dist).queries| == 1
    ensures forall other: seq<Element> :: FindPharmacies(origin, radius, limit, contactElems, other, dist) == FindPharmacies(origin, radius, limit, contactElems, sweepElems, dist)
  {
  }

  /** A `limit` of zero or less never reaches the sweep; zero gives no record,
      and a negative `limit` drops that many of the farthest tier-1 records. */
  lemma NonPositiveLimit(origin: Point, radius: int, limit: int, contactElems: seq<Element>, sweepElems: seq<Element>, dist: DistanceFn)
    requires limit <= 0
    ensures var t1 := TierOne(contactElems, origin, dist).records;
      var out := FindPharmacies(origin, radius, limit, contactElems, sweepElems, dist);
      && |out.queries| == 1
      && out.results <= t1
      && (limit == 0 ==> out.results == [])
      && (limit < 0 ==> |t1| - |out.results| == if -limit <= |t1| then -limit else |t1|)
  {
    var t1 := TierOne(contactElems, origin, dist).records;
    var out := FindPharmacies(origin, radius, limit, contactElems, sweepElems, dist);
    assert out == SearchOutcome(SliceTo(t1, limit), [OverpassQuery(ContactTier, origin.lat, origin.lon, radius)]);
  }

  /** The answer has no identity twice, and at most `limit` records when
      `limit` is not negative. */
  lemma SearchBoundedAndDistinct(origin: Point, radius: int, limit: int, contactElems: seq<Element>, sweepElems: seq<Element>, dist: DistanceFn)
    ensures var r := FindPharmacies(origin, radius, limit, contactElems, sweepElems, dist).results;
      (limit >= 0 ==> |r| <= limit) && DistinctBy(r, PoiId)
  {
    var t1 := TierOne(contactElems, origin, dist);
    var r := FindPharmacies(origin, radius, limit, contactElems, sweepElems, dist).results;
    if |t1.records| >= limit {
      assert r == SliceTo(t1.records, limit);
      PrefixDistinct(r, t1.records, PoiId);
    } else {
      var t2 := TierTwo(sweepElems, t1.seen, origin, dist);
      var d := DedupBy(t1.records + t2, PoiId, {});
      MergeLoopTakesDistinct(t1.records + t2, {}, [], limit);
      assert [] + d == d;
      assert r == Take(d, limit);
      PrefixDistinct(r, d, PoiId);
    }
  }

  /** When tier 1 is short, the answer starts with all of tier 1; every later
      record comes from the sweep, with an identity no tier-1 element had
      (usable or not); and both segments are in non-decreasing distance. */
  lemma SearchTierOrder(origin: Point, radius: int, limit: int, contactElems: seq<Element>, sweepElems: seq<Element>, dist: DistanceFn)
    requires |TierOne(contactElems, origin, dist).records| < limit
    ensures var t1 := TierOne(contactElems, origin, dist).records;
      var out := FindPharmacies(origin, radius, limit, contactElems, sweepElems, dist);
      && t1 <= out.results
      && |out.queries| == 2
      && SortedByDistance(t1)
      && SortedByDistance(out.results[|t1|..])
      && (forall p | p in out.results[|t1|..] :: p in TierTwo(sweepElems, KeySet(contactElems, ElemId), origin, dist))
      && (forall p | p in out.results[|t1|..] :: PoiId(p) !in KeySet(contactElems, ElemId))
      && out.results == t1 + Take(DedupBy(TierTwo(sweepElems, KeySet(contactElems, ElemId), origin, dist), PoiId, KeySet(t1, PoiId)), limit - |t1|)
  {
    var t1 := TierOne(contactElems, origin, dist);
    var t2 := TierTwo(sweepElems, t1.seen, origin, dist);
    var out := FindPharmacies(origin, radius, limit, contactElems, sweepElems, dist);
    MergeShape(t1.records, t2, limit);
    var tail := Take(DedupBy(t2, PoiId, KeySet(t1.records, PoiId)), limit - |t1.records|);
    assert out.results == t1.records + tail;
    assert out.results[|t1.records|..] == tail;
    DedupKeepsSorted(t2, KeySet(t1.records, PoiId));
    PrefixSorted(tail, DedupBy(t2, PoiId, KeySet(t1.records, PoiId)));
  }

  lemma PrefixSorted(r: seq<Poi>, s: seq<Poi>)
    requires r <= s && SortedByDistance(s)
    ensures SortedByDistance(r)
  {
    assert forall i | 0 <= i < |r| :: r[i] == s[i];
  }

  /** Nothing usable is lost below the limit: when the answer is shorter than
      `limit`, every record of tier 1 and of the sweep has its identity in it. */
  lemma SearchComplete(origin: Point, radius: int, limit: int, contactElems: seq<Element>, sweepElems: seq<Element>, dist: DistanceFn)
    requires |FindPharmacies(origin, radius, limit, contactElems, sweepElems, dist).results| < limit
    ensures var t1 := TierOne(contactElems, origin, dist);
      var ids := KeySet(FindPharmacies(origin, radius, limit, contactElems, sweepElems, dist).results, PoiId);
      && (forall p | p in t1.records :: PoiId(p) in ids)
      && (forall p | p in TierTwo(sweepElems, t1.seen, origin, dist) :: PoiId(p) in ids)
  {
    var t1 := TierOne(contactElems, origin, dist);
    var t2 := TierTwo(sweepElems, t1.seen, origin, dist);
    var out := FindPharmacies(origin, radius, limit, contactElems, sweepElems, dist);
    MergeShape(t1.records, t2, limit);
    var d := DedupBy(t2, PoiId, KeySet(t1.records, PoiId));
    assert out.results == t1.records + d;
    forall p | p in t2 ensures PoiId(p) in KeySet(out.results, PoiId) {
      if PoiId(p) !in KeySet(t1.records, PoiId) {
        assert PoiId(p) in KeySet(d, PoiId);
        var q :| q in d && PoiId(q) == PoiId(p);
        assert q in out.results;
      } else {
        var q :| q in t1.records && PoiId(q) == PoiId(p);
        assert q in out.results;
      }
    }
    forall p | p in t1.records ensures PoiId(p) in KeySet(out.results, PoiId) {
      assert p in out.results;
    }
  }
}
