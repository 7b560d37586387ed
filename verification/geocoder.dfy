/**
 * The geocoder of the locator (`geocode_location`): free text to a coordinate,
 * through an in-memory cache keyed by the stripped, lower-cased text, then the
 * Nominatim service, then the Photon service. The two services' answers are
 * inputs; the cache is threaded through explicitly; the outcome records which
 * services were asked, with which text.
 */
module Geocoder {
  import opened Wrappers
  import opened Text

  /** Raw provider metadata, kept opaque. */
  type Meta = map<string, string>

  /** A JSON value read as a coordinate: `Num(x)` when Python's `float()`
      accepts it (a number or a numeric string), `NotNum` when it raises
      (null, a word, a list, ...). */
  datatype RawNum = Num(value: real) | NotNum

  /** A cache entry as stored; in a hand-edited or foreign cache file any of
      `lat`, `lon` and `meta` may be missing. */
  datatype CacheEntry = CacheEntry(lat: Option<RawNum>, lon: Option<RawNum>, meta: Option<Meta>)

  /** The geocode cache: normalised location text to entry. */
  type Cache = map<string, CacheEntry>

  /** A resolved location: coordinate and the provider's raw metadata. */
  datatype GeoHit = GeoHit(lat: real, lon: real, meta: Meta)

  /** One Nominatim match; `raw` is the whole match object, returned as metadata. */
  datatype PrimaryItem = PrimaryItem(lat: Option<RawNum>, lon: Option<RawNum>, raw: Meta)

  /** Nominatim's answer: a failure (transport, timeout, HTTP status, bad JSON)
      or the list of matches. */
  datatype PrimaryAnswer = PrimaryFailed | PrimaryMatches(items: seq<PrimaryItem>)

  /** One Photon feature: its `properties` (empty when absent) and its
      `geometry.coordinates` in [lon, lat] order (empty when absent). */
  datatype Feature = Feature(properties: Meta, coordinates: seq<RawNum>)

  /** Photon's answer: a failure or the list of features (empty when absent). */
  datatype FallbackAnswer = FallbackFailed | FallbackFeatures(features: seq<Feature>)

  datatype Provider = Nominatim | Photon

  /** A request to a provider, with the text sent. */
  datatype ProviderCall = ProviderCall(provider: Provider, query: string)

  /** What the Photon branch does: the entry it writes to the cache, if any, and
      the location it returns, if any. */
  datatype FallbackStep = FallbackStep(written: Option<CacheEntry>, hit: Option<GeoHit>)

  /** What asking the providers yields on a cache miss: the location found,
      the entry written to the cache, and the requests made. */
  datatype ProviderStep = ProviderStep(hit: Option<GeoHit>, written: Option<CacheEntry>, calls: seq<ProviderCall>)

  /** Result of one geocode: the location found (or `None`), the cache after the
      call, the provider requests made in order, and whether the cache was
      written back to its file. */
  datatype GeocodeOutcome = GeocodeOutcome(hit: Option<GeoHit>, cache: Cache, calls: seq<ProviderCall>, persisted: bool)

  /** The cache key of a location text: stripped, then lower-cased. */
  function CacheKey(location: string): (k: string)
    ensures k == [] <==> Blank(location)
    ensures |k| <= |location|
    ensures Lower(k) == k
    ensures Upper(k) == Upper(Strip(location))
  {
    LowerIdempotent(Strip(location));
    UpperOfLower(Strip(location));
    Lower(Strip(location))
  }

  /** Normalising a key again changes nothing: every text with a given key
      has the key itself as its key. */
  lemma CacheKeyIdempotent(location: string)
    ensures CacheKey(CacheKey(location)) == CacheKey(location)
  {
    var s := Strip(location);
    var k := Lower(s);
    LowerKeepsSpace(s);
    StripOfStripped(k);
    LowerIdempotent(s);
  }

  /** White space typed around a place name does not change its key. */
  lemma CacheKeyIgnoresSurroundingSpace(pre: string, location: string, post: string)
    requires Blank(pre) && Blank(post)
    ensures CacheKey(pre + location + post) == CacheKey(location)
  {
    StripSurrounded(pre, location, post);
  }

  /** Upper- and lower-case spellings of a place name share one key. */
  lemma CacheKeyIgnoresCase(location: string)
    ensures CacheKey(Upper(location)) == CacheKey(location)
  {
    StripUpper(location);
    LowerOfUpper(Strip(location));
  }

  /** Python's `float(x)` on a looked-up value: `None` when the key is missing
      or the conversion raises. */
  function ToFloat(x: Option<RawNum>): Option<real> {
    if x.Some? && x.value.Num? then Some(x.value.value) else None
  }

  /** An entry whose `lat` and `lon` both convert. */
  predicate WellFormed(e: CacheEntry) {
    ToFloat(e.lat).Some? && ToFloat(e.lon).Some?
  }

  /** Reading an entry back: `float(entry["lat"]), float(entry["lon"]),
      entry.get("meta", {})`, or `None` when that raises. */
  function Decode(e: CacheEntry): (r: Option<GeoHit>)
    ensures r.Some? <==> WellFormed(e)
    ensures r.Some? ==> Some(Num(r.value.lat)) == e.lat && Some(Num(r.value.lon)) == e.lon
    ensures r.Some? ==> r.value.meta == if e.meta.Some? then e.meta.value else map[]
  {
    if WellFormed(e) then Some(GeoHit(ToFloat(e.lat).value, ToFloat(e.lon).value, e.meta.GetOr(map[]))) else None
  }

  /** The entry stored for a Nominatim match; reading it back gives the match. */
  function Encode(h: GeoHit): (e: CacheEntry)
    ensures Decode(e) == Some(h)
  {
    CacheEntry(Some(Num(h.lat)), Some(Num(h.lon)), Some(h.meta))
  }

  /** Nominatim's contribution: the first match when its `lat` and `lon`
      convert; a failure, an empty list or a bad first match give `None`. */
  function PrimaryHit(a: PrimaryAnswer): (r: Option<GeoHit>)
    ensures r.Some? <==> a.PrimaryMatches? && a.items != [] && ToFloat(a.items[0].lat).Some? && ToFloat(a.items[0].lon).Some?
    ensures r.Some? ==> r.value.meta == a.items[0].raw && Some(r.value.lat) == ToFloat(a.items[0].lat) && Some(r.value.lon) == ToFloat(a.items[0].lon)
  {
    match a
    case PrimaryFailed => None
    case PrimaryMatches(items) =>
      if items == [] then None
      else
        var lat := ToFloat(items[0].lat);
        var lon := ToFloat(items[0].lon);
        if lat.Some? && lon.Some? then Some(GeoHit(lat.value, lon.value, items[0].raw)) else None
  }

  /** The Photon branch: with a first feature of at least two coordinates, the
      raw pair is written to the cache as (lat, lon) = (coordinates[1],
      coordinates[0]) BEFORE it is converted; the location is returned only
      when both convert. */
  function FallbackStepOf(a: FallbackAnswer): (r: FallbackStep)
    ensures r.written.Some? <==> a.FallbackFeatures? && a.features != [] && |a.features[0].coordinates| >= 2
    ensures r.hit.Some? ==> r.written == Some(Encode(r.hit.value))
    ensures r.hit.Some? ==> r.hit.value.meta == a.features[0].properties
    ensures r.written.Some? ==> (r.hit.Some? <==> WellFormed(r.written.value))
    ensures r.written.Some? ==>
      var f := a.features[0];
      r.written.value == CacheEntry(Some(f.coordinates[1]), Some(f.coordinates[0]), Some(f.properties))
    ensures r.hit.Some? ==>
      a.features[0].coordinates[1] == Num(r.hit.value.lat) && a.features[0].coordinates[0] == Num(r.hit.value.lon)
  {
    match a
    case FallbackFailed => FallbackStep(None, None)
    case FallbackFeatures(features) =>
      if features == [] || |features[0].coordinates| < 2 then FallbackStep(None, None)
      else
        var f := features[0];
        var entry := CacheEntry(Some(f.coordinates[1]), Some(f.coordinates[0]), Some(f.properties));
        if f.coordinates[1].Num? && f.coordinates[0].Num? then
          FallbackStep(Some(entry), Some(GeoHit(f.coordinates[1].value, f.coordinates[0].value, f.properties)))
        else
          FallbackStep(Some(entry), None)
  }

  /** The providers on a cache miss: Nominatim, then Photon when Nominatim
      gives nothing usable. Both receive the original text. */
  function AskProviders(location: string, primary: PrimaryAnswer, fallback: FallbackAnswer): (r: ProviderStep)
    ensures r.calls <= [ProviderCall(Nominatim, location), ProviderCall(Photon, location)] && r.calls != []
    ensures r.hit.Some? ==> r.written == Some(Encode(r.hit.value))
    ensures r.hit.None? && r.written.Some? ==> !WellFormed(r.written.value)
    ensures PrimaryHit(primary).Some? ==> r.hit == PrimaryHit(primary) && |r.calls| == 1
    ensures PrimaryHit(primary).None? ==> r.hit == FallbackStepOf(fallback).hit && |r.calls| == 2
    ensures PrimaryHit(primary).None? ==> r.written == FallbackStepOf(fallback).written
  {
    match PrimaryHit(primary)
    case Some(h) => ProviderStep(Some(h), Some(Encode(h)), [ProviderCall(Nominatim, location)])
    case None =>
      var step := FallbackStepOf(fallback);
      ProviderStep(step.hit, step.written, [ProviderCall(Nominatim, location), ProviderCall(Photon, location)])
  }

  /** The cache after an optional write under `key`. */
  function Store(cache: Cache, key: string, written: Option<CacheEntry>): Cache {
    if written.Some? then cache[key := written.value] else cache
  }

  /** `geocode_location`. */
  function Geocode(location: string, cache: Cache, primary: PrimaryAnswer, fallback: FallbackAnswer): (r: GeocodeOutcome)
    ensures Blank(location) ==> r == GeocodeOutcome(None, cache, [], false)
    ensures r.calls <= [ProviderCall(Nominatim, location), ProviderCall(Photon, location)]
    ensures r.hit.Some? ==> CacheKey(location) in r.cache && Decode(r.cache[CacheKey(location)]) == r.hit
    ensures r.cache == cache || (CacheKey(location) in r.cache && r.cache == cache[CacheKey(location) := r.cache[CacheKey(location)]])
    ensures r.cache != cache ==> r.persisted
    ensures r.hit.None? && !Blank(location) ==> CacheKey(location) !in r.cache || !WellFormed(r.cache[CacheKey(location)])
  {
    var key := CacheKey(location);
    if key == [] then GeocodeOutcome(None, cache, [], false)
    else if key in cache && WellFormed(cache[key]) then GeocodeOutcome(Decode(cache[key]), cache, [], false)
    else
      var step := AskProviders(location, primary, fallback);
      GeocodeOutcome(step.hit, Store(cache, key, step.written), step.calls, step.written.Some?)
  }

  // ---------------------------------------------------------------------------
  // Properties

  /** A well-formed entry under the key answers at once: no provider is asked
      and the cache is left as it is, whatever the providers would say. */
  lemma CacheHitShortCircuits(location: string, cache: Cache, primary: PrimaryAnswer, fallback: FallbackAnswer)
    requires !Blank(location)
    requires CacheKey(location) in cache && WellFormed(cache[CacheKey(location)])
    ensures Geocode(location, cache, primary, fallback) == GeocodeOutcome(Decode(cache[CacheKey(location)]), cache, [], false)
  {
    LowerKeepsSpace(Strip(location));
  }

  /** A malformed entry is a miss, not an error: the call finds what it would
      find without the entry, asks the same providers, and ends with the same
      cache except that the malformed entry stays when nothing overwrites it. */
  lemma MalformedEntryIsMiss(location: string, cache: Cache, primary: PrimaryAnswer, fallback: FallbackAnswer)
    requires CacheKey(location) in cache && !WellFormed(cache[CacheKey(location)])
    ensures var key := CacheKey(location);
      var r := Geocode(location, cache, primary, fallback);
      var r' := Geocode(location, cache - {key}, primary, fallback);
      && r.hit == r'.hit
      && r.calls == r'.calls
      && r.cache == (if key in r'.cache then r'.cache else cache)
  {
    var key := CacheKey(location);
    var rest := cache - {key};
    if key == [] {
      assert Blank(location);
      assert key !in rest;
    } else {
      var step := AskProviders(location, primary, fallback);
      GeocodeMiss(location, cache, primary, fallback);
      GeocodeMiss(location, rest, primary, fallback);
      StoreOverRemoved(cache, key, step.written);
    }
  }

  /** Storing into the cache without `key` and keeping the old entry when
      nothing is stored is storing into the cache itself. */
  lemma StoreOverRemoved(cache: Cache, key: string, written: Option<CacheEntry>)
    requires key in cache
    ensures var stored := Store(cache - {key}, key, written);
      (if key in stored then stored else cache) == Store(cache, key, written)
  {
    if written.Some? {
      assert (cache - {key})[key := written.value] == cache[key := written.value];
    }
  }

  /** A non-blank key without a well-formed entry goes to the providers. */
  lemma GeocodeMiss(location: string, cache: Cache, primary: PrimaryAnswer, fallback: FallbackAnswer)
    requires CacheKey(location) != []
    requires CacheKey(location) !in cache || !WellFormed(cache[CacheKey(location)])
    ensures var step := AskProviders(location, primary, fallback);
      Geocode(location, cache, primary, fallback) == GeocodeOutcome(step.hit, Store(cache, CacheKey(location), step.written), step.calls, step.written.Some?)
  {
  }


  /** A usable Nominatim match is taken: Photon is not asked, and the match is
      stored under the normalised key. The provider gets the original text. */
  lemma PrimaryTakenFirst(location: string, cache: Cache, primary: PrimaryAnswer, fallback: FallbackAnswer)
    requires !Blank(location)
    requires CacheKey(location) !in cache || !WellFormed(cache[CacheKey(location)])
    requires PrimaryHit(primary).Some?
    ensures Geocode(location, cache, primary, fallback) ==
      GeocodeOutcome(PrimaryHit(primary), cache[CacheKey(location) := Encode(PrimaryHit(primary).value)], [ProviderCall(Nominatim, location)], true)
  {
  }

  /** A failed, empty or unusable Nominatim answer falls through to Photon,
      whose answer decides the result. */
  lemma FallbackAfterPrimary(location: string, cache: Cache, primary: PrimaryAnswer, fallback: FallbackAnswer)
    requires !Blank(location)
    requires CacheKey(location) !in cache || !WellFormed(cache[CacheKey(location)])
    requires PrimaryHit(primary).None?
    ensures var r := Geocode(location, cache, primary, fallback);
      && r.calls == [ProviderCall(Nominatim, location), ProviderCall(Photon, location)]
      && r.hit == FallbackStepOf(fallback).hit
      && (r.hit.Some? ==> r.cache == cache[CacheKey(location) := Encode(r.hit.value)])
  {
  }

  /** When neither provider yields anything to store, the result is `None`
      and the cache is unchanged. */
  lemma BothFailKeepCache(location: string, cache: Cache, primary: PrimaryAnswer, fallback: FallbackAnswer)
    requires CacheKey(location) !in cache || !WellFormed(cache[CacheKey(location)])
    requires PrimaryHit(primary).None? && FallbackStepOf(fallback).written.None?
    ensures Geocode(location, cache, primary, fallback).hit.None?
    ensures Geocode(location, cache, primary, fallback).cache == cache
  {
  }

  /** Photon coordinates that do not convert still reach the cache (and its
      file) before the conversion fails; the call returns `None`, and the entry
      left behind is malformed, so the next call treats it as a miss. */
  lemma UnconvertibleFallbackLeavesMiss(location: string, cache: Cache, primary: PrimaryAnswer, props: Meta, lon: RawNum)
    requires !Blank(location)
    requires CacheKey(location) !in cache
    requires PrimaryHit(primary).None?
    ensures var r := Geocode(location, cache, primary, FallbackFeatures([Feature(props, [lon, NotNum])]));
      && r.hit.None?
      && r.persisted
      && r.cache == cache[CacheKey(location) := CacheEntry(Some(NotNum), Some(lon), Some(props))]
      && !WellFormed(r.cache[CacheKey(location)])
  {
    var fallback := FallbackFeatures([Feature(props, [lon, NotNum])]);
    var entry := CacheEntry(Some(NotNum), Some(lon), Some(props));
    assert FallbackStepOf(fallback) == FallbackStep(Some(entry), None);
    assert AskProviders(location, primary, fallback).written == Some(entry);
  }

  /** Geocoding is idempotent through the cache: after a success, any text with
      the same key resolves to the same location with no provider request and
      no change to the cache, whatever the providers would now answer. */
  lemma GeocodeIdempotent(location: string, again: string, cache: Cache, primary: PrimaryAnswer, fallback: FallbackAnswer,
                          primary': PrimaryAnswer, fallback': FallbackAnswer)
    requires Geocode(location, cache, primary, fallback).hit.Some?
    requires CacheKey(again) == CacheKey(location)
    ensures var first := Geocode(location, cache, primary, fallback);
      Geocode(again, first.cache, primary', fallback') == GeocodeOutcome(first.hit, first.cache, [], false)
  {
    var first := Geocode(location, cache, primary, fallback);
    assert !Blank(location);
    assert !Blank(again);
    CacheHitShortCircuits(again, first.cache, primary', fallback');
  }
}
