/**
 * The locator pipeline (`get_nearest_pharmacies`): geocode the location text,
 * search around the coordinate found, and wrap the answer in an ok/error
 * envelope.
 */
module Locator {
  import opened Wrappers
  import opened Text
  import opened Dedup
  import opened Geocoder
  import opened Elements
  import opened Search

  const GeocodeFailure: string := "Could not geocode location"
  const ProviderName: string := "overpass"

  /** The echoed query: the input text, the coordinate found and the raw
      geocode metadata. */
  datatype QueryLocation = QueryLocation(input: string, lat: real, lon: real, rawGeocode: Meta)

  datatype Envelope =
    | ErrorEnvelope(status: string, message: string, results: seq<Poi>)
    | OkEnvelope(status: string, provider: string, queryLocation: QueryLocation, situation: string, results: seq<Poi>)

  /** What the outside world answers during one request: the two geocoding
      providers, the two Overpass tiers and the distance function. */
  datatype World = World(
    primary: PrimaryAnswer,
    fallback: FallbackAnswer,
    contactElems: seq<Element>,
    sweepElems: seq<Element>,
    dist: DistanceFn)

  /** The envelope, the cache afterwards, and every outbound request in order. */
  datatype LocatorOutcome = LocatorOutcome(envelope: Envelope, cache: Cache, geocodeCalls: seq<ProviderCall>, queries: seq<OverpassQuery>)

  /** `get_nearest_pharmacies`. */
  function GetNearestPharmacies(situation: string, locationText: string, radius: int, limit: int, cache: Cache, world: World): (r: LocatorOutcome)
    ensures var geo := Geocode(locationText, cache, world.primary, world.fallback);
      && r.cache == geo.cache
      && r.geocodeCalls == geo.calls
      && (geo.hit.None? <==> r.envelope.ErrorEnvelope?)
      && (geo.hit.None? ==> r.envelope == ErrorEnvelope("error", GeocodeFailure, []) && r.queries == [])
      && (geo.hit.Some? ==>
            && r.envelope.status == "ok"
            && r.envelope.provider == ProviderName
            && r.envelope.queryLocation == QueryLocation(locationText, geo.hit.value.lat, geo.hit.value.lon, geo.hit.value.meta)
            && r.envelope.situation == situation
            && (limit >= 0 ==> |r.envelope.results| <= limit)
            && DistinctBy(r.envelope.results, PoiId))
      && (geo.hit.Some? ==>
            var found := FindPharmacies(Point(geo.hit.value.lat, geo.hit.value.lon), radius, limit, world.contactElems, world.sweepElems, world.dist);
            r.envelope.results == found.results && r.queries == found.queries)
  {
    var geo := Geocode(locationText, cache, world.primary, world.fallback);
    match geo.hit
    case None => LocatorOutcome(ErrorEnvelope("error", GeocodeFailure, []), geo.cache, geo.calls, [])
    case Some(hit) =>
      var origin := Point(hit.lat, hit.lon);
      var found := FindPharmacies(origin, radius, limit, world.contactElems, world.sweepElems, world.dist);
      SearchBoundedAndDistinct(origin, radius, limit, world.contactElems, world.sweepElems, world.dist);
      LocatorOutcome(
        OkEnvelope("ok", ProviderName, QueryLocation(locationText, hit.lat, hit.lon, hit.meta), situation, found.results),
        geo.cache, geo.calls, found.queries)
  }

  /** The search runs around the geocoded coordinate: the contact tier is
      always queried, the sweep at most once after it, both with the request's
      radius. */
  lemma SearchAroundGeocodedPoint(situation: string, locationText: string, radius: int, limit: int, cache: Cache, world: World)
    requires Geocode(locationText, cache, world.primary, world.fallback).hit.Some?
    ensures var h := Geocode(locationText, cache, world.primary, world.fallback).hit.value;
      var q := GetNearestPharmacies(situation, locationText, radius, limit, cache, world).queries;
      || q == [OverpassQuery(ContactTier, h.lat, h.lon, radius)]
      || q == [OverpassQuery(ContactTier, h.lat, h.lon, radius), OverpassQuery(SweepTier, h.lat, h.lon, radius)]
  {
  }

  /** A blank location text is an error envelope reached without any outbound
      request and without touching the cache. */
  lemma BlankLocationIsError(situation: string, locationText: string, radius: int, limit: int, cache: Cache, world: World)
    requires Blank(locationText)
    ensures GetNearestPharmacies(situation, locationText, radius, limit, cache, world) ==
      LocatorOutcome(ErrorEnvelope("error", GeocodeFailure, []), cache, [], [])
  {
  }

  /** A Nominatim outage does not fail the request: with a usable Photon answer
      the envelope is ok, located where Photon says, and the cache holds that
      location under the normalised key. */
  lemma PrimaryOutageRecovered(situation: string, locationText: string, radius: int, limit: int, cache: Cache, world: World)
    requires !Blank(locationText)
    requires CacheKey(locationText) !in cache
    requires world.primary == PrimaryFailed
    requires FallbackStepOf(world.fallback).hit.Some?
    ensures var r := GetNearestPharmacies(situation, locationText, radius, limit, cache, world);
      var h := FallbackStepOf(world.fallback).hit.value;
      && r.envelope.OkEnvelope?
      && r.envelope.queryLocation == QueryLocation(locationText, h.lat, h.lon, h.meta)
      && r.cache == cache[CacheKey(locationText) := Encode(h)]
      && r.geocodeCalls == [ProviderCall(Nominatim, locationText), ProviderCall(Photon, locationText)]
  {
    FallbackAfterPrimary(locationText, cache, world.primary, world.fallback);
  }

  /** A second request for the same place is served from the cache: no
      geocoding request, the same coordinate, whatever the providers answer. */
  lemma RepeatRequestUsesCache(situation: string, locationText: string, radius: int, limit: int, cache: Cache, world: World, world': World)
    requires GetNearestPharmacies(situation, locationText, radius, limit, cache, world).envelope.OkEnvelope?
    ensures var first := GetNearestPharmacies(situation, locationText, radius, limit, cache, world);
      var second := GetNearestPharmacies(situation, locationText, radius, limit, first.cache, world');
      && second.geocodeCalls == []
      && second.cache == first.cache
      && second.envelope.OkEnvelope?
      && second.envelope.queryLocation == first.envelope.queryLocation
  {
    GeocodeIdempotent(locationText, locationText, cache, world.primary, world.fallback, world'.primary, world'.fallback);
  }
}
