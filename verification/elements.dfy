/**
 * Raw elements of an Overpass answer and the pharmacy records the locator
 * builds from them (the per-element body of the two loops of
 * `find_pharmacies_overpass`).
 */
module Elements {
  import opened Wrappers
  import opened Address

  /** Identity of an OpenStreetMap element: its type ("node", "way" or
      "relation") and its numeric id. The locator compares the text
      "type/id"; that text determines the pair, since a decimal integer
      holds no '/'. */
  datatype Ident = Ident(osmType: string, osmId: int)

  /** A latitude/longitude pair as the query engine sends it: either part may be missing. */
  datatype RawPoint = RawPoint(lat: Option<real>, lon: Option<real>)

  /** One element of an Overpass answer. `point` is the element's own
      coordinate, which only nodes carry; `center` is the centre that
      `out center` adds to ways and relations, with both parts `None` when
      the element has none; `tags` is empty when the element has no tags. */
  datatype Element = Element(osmType: string, osmId: int, point: RawPoint, center: RawPoint, tags: Tags)

  /** A resolved coordinate. */
  datatype Point = Point(lat: real, lon: real)

  /** Non-negative distances in metres. */
  type Meters = d: real | 0.0 <= d

  /** Distance from the search centre (first two arguments) to an element
      (last two). The locator uses the haversine formula rounded to 0.1 m;
      the model keeps only that it is a non-negative number. */
  type DistanceFn = (real, real, real, real) -> Meters

  /** The display address of a record: the formatter's line or, when that is
      empty, the address tag map itself. */
  datatype AddressLine = Formatted(text: string) | TagMap(tags: Tags)

  /** One pharmacy of the answer. */
  datatype Poi = Poi(
    name: string,
    lat: real,
    lon: real,
    distance: Meters,
    addressTags: Tags,
    formattedAddress: AddressLine,
    phone: Option<string>,
    email: Option<string>,
    website: Option<string>,
    openingHours: Option<string>,
    osmType: string,
    osmId: int)

  function ElemId(e: Element): Ident {
    Ident(e.osmType, e.osmId)
  }

  function PoiId(p: Poi): Ident {
    Ident(p.osmType, p.osmId)
  }

  const PhoneKeys: seq<string> := ["phone", "contact:phone", "telephone", "tel", "mobile", "contact:mobile"]
  const EmailKeys: seq<string> := ["email", "contact:email"]
  const WebsiteKeys: seq<string> := ["website", "contact:website"]
  const DefaultName: string := "Pharmacy"

  /** A coordinate part passes the locator's truthiness test: present and non-zero. */
  predicate Truthy(x: Option<real>) {
    x.Some? && x.value != 0.0
  }

  /** The coordinate of an element: a node's own, the centre of anything else;
      `None` when either part is missing or zero. */
  function Location(e: Element): (r: Option<Point>)
    ensures e.osmType == "node" ==> (r.Some? <==> Truthy(e.point.lat) && Truthy(e.point.lon))
    ensures e.osmType != "node" ==> (r.Some? <==> Truthy(e.center.lat) && Truthy(e.center.lon))
    ensures r.Some? ==> r.value.lat != 0.0 && r.value.lon != 0.0
    ensures r.Some? && e.osmType == "node" ==> e.point == RawPoint(Some(r.value.lat), Some(r.value.lon))
    ensures r.Some? && e.osmType != "node" ==> e.center == RawPoint(Some(r.value.lat), Some(r.value.lon))
  {
    var raw := if e.osmType == "node" then e.point else e.center;
    if Truthy(raw.lat) && Truthy(raw.lon) then Some(Point(raw.lat.value, raw.lon.value)) else None
  }

  /** `tags.get(k)`. */
  function Get(tags: Tags, k: string): Option<string> {
    if k in tags then Some(tags[k]) else None
  }

  /** Python's `tags.get(k1) or tags.get(k2) or ... or tags.get(kn)`: the value
      of the first key that has a non-empty one, otherwise whatever the last
      lookup gave (`None`, or `""`). */
  function FirstOf(tags: Tags, keys: seq<string>): Option<string>
    requires keys != []
    decreases |keys|
  {
    if |keys| == 1 || HasValue(tags, keys[0]) then Get(tags, keys[0])
    else FirstOf(tags, keys[1..])
  }

  /** The `or`-chain gives the value of the first key with a non-empty value,
      and without one, the result of the last lookup. */
  lemma {:induction false} FirstOfSpec(tags: Tags, keys: seq<string>)
    requires keys != []
    ensures AnyValue(tags, keys) ==>
      exists i | 0 <= i < |keys| :: HasValue(tags, keys[i]) && FirstOf(tags, keys) == Some(tags[keys[i]]) && !AnyValue(tags, keys[..i])
    ensures !AnyValue(tags, keys) ==> FirstOf(tags, keys) == Get(tags, keys[|keys| - 1])
    decreases |keys|
  {
    var r := FirstOf(tags, keys);
    if |keys| == 1 || HasValue(tags, keys[0]) {
      assert !AnyValue(tags, keys[..0]);
    } else {
      FirstOfSpec(tags, keys[1..]);
      assert AnyValue(tags, keys) ==> AnyValue(tags, keys[1..]) by {
        if AnyValue(tags, keys) {
          var i :| 0 <= i < |keys| && HasValue(tags, keys[i]);
          assert keys[1..][i - 1] == keys[i];
        }
      }
      assert AnyValue(tags, keys[1..]) ==> AnyValue(tags, keys) by {
        if AnyValue(tags, keys[1..]) {
          var i :| 0 <= i < |keys[1..]| && HasValue(tags, keys[1..][i]);
          assert keys[i + 1] == keys[1..][i];
        }
      }
      if AnyValue(tags, keys[1..]) {
        var j :| 0 <= j < |keys[1..]| && HasValue(tags, keys[1..][j]) && r == Some(tags[keys[1..][j]]) && !AnyValue(tags, keys[1..][..j]);
        var before := keys[..j + 1];
        assert before == [keys[0]] + keys[1..][..j];
        assert !AnyValue(tags, before) by {
          forall k | 0 <= k < j + 1 ensures !HasValue(tags, before[k]) {
            if k > 0 {
              assert before[k] == keys[1..][..j][k - 1];
            }
          }
        }
        assert keys[j + 1] == keys[1..][j];
      }
    }
  }

  /** The display name: `name`, else `shop`, else "Pharmacy"; never empty. */
  function NameOf(tags: Tags): (r: string)
    ensures r != []
    ensures HasValue(tags, "name") ==> r == tags["name"]
    ensures !HasValue(tags, "name") && HasValue(tags, "shop") ==> r == tags["shop"]
    ensures !HasValue(tags, "name") && !HasValue(tags, "shop") ==> r == DefaultName
  {
    if HasValue(tags, "name") then tags["name"]
    else if HasValue(tags, "shop") then tags["shop"]
    else DefaultName
  }

  /** The tags the locator treats as address tags. */
  predicate IsAddressKey(k: string) {
    "addr:" <= k || k in {"postal_code", "city", "village", "street"}
  }

  /** The sub-map of address tags. */
  function AddressTags(tags: Tags): (r: Tags)
    ensures forall k :: k in r <==> k in tags && IsAddressKey(k)
    ensures forall k | k in r :: r[k] == tags[k]
  {
    map k | k in tags && IsAddressKey(k) :: tags[k]
  }

  /** `_format_address_from_tags(tags) or addr`. */
  function AddressLineOf(tags: Tags): (r: AddressLine)
    ensures r.TagMap? <==> !AnyValue(tags, PrimaryKeys) && !AnyValue(tags, FallbackKeys)
    ensures r.Formatted? ==> r.text == FormatAddress(tags) && r.text != []
    ensures r.TagMap? ==> r.tags == AddressTags(tags)
  {
    var line := FormatAddress(tags);
    if line != [] then Formatted(line) else TagMap(AddressTags(tags))
  }

  /** The record built from one raw element, or `None` when the element has no
      usable coordinate and is dropped. */
  function ToPoi(e: Element, origin: Point, dist: DistanceFn): (r: Option<Poi>)
    ensures r.Some? <==> Location(e).Some?
    ensures r.Some? ==> PoiId(r.value) == ElemId(e)
    ensures r.Some? ==> Point(r.value.lat, r.value.lon) == Location(e).value
    ensures r.Some? ==> r.value.distance == dist(origin.lat, origin.lon, r.value.lat, r.value.lon)
    ensures r.Some? ==> r.value.name != []
    ensures r.Some? ==> r.value.name == NameOf(e.tags) && r.value.formattedAddress == AddressLineOf(e.tags)
    ensures r.Some? ==> r.value.phone == FirstOf(e.tags, PhoneKeys) && r.value.email == FirstOf(e.tags, EmailKeys)
    ensures r.Some? ==> r.value.website == FirstOf(e.tags, WebsiteKeys) && r.value.openingHours == Get(e.tags, "opening_hours")
    ensures r.Some? ==> r.value.addressTags == AddressTags(e.tags)
  {
    match Location(e)
    case None => None
    case Some(p) =>
      Some(Poi(
        NameOf(e.tags),
        p.lat,
        p.lon,
        dist(origin.lat, origin.lon, p.lat, p.lon),
        AddressTags(e.tags),
        AddressLineOf(e.tags),
        FirstOf(e.tags, PhoneKeys),
        FirstOf(e.tags, EmailKeys),
        FirstOf(e.tags, WebsiteKeys),
        Get(e.tags, "opening_hours"),
        e.osmType,
        e.osmId))
  }

  /** The e-mail field reads only `email` and `contact:email`: the `e-mail`
      spelling, although it is one of the contact keys of the tier-1 query,
      is never read, so a record whose only address is under `e-mail` has no
      e-mail. */
  lemma DashedEmailNotRead(e: Element, origin: Point, dist: DistanceFn)
    requires !HasValue(e.tags, "email") && "contact:email" !in e.tags
    ensures ToPoi(e, origin, dist).Some? ==> ToPoi(e, origin, dist).value.email == None
  {
    assert !AnyValue(e.tags, EmailKeys) by {
      forall i | 0 <= i < |EmailKeys| ensures !HasValue(e.tags, EmailKeys[i]) {}
    }
    FirstOfSpec(e.tags, EmailKeys);
  }

  /** A coordinate of exactly zero counts as missing, so an element on the
      equator or on the prime meridian is dropped. */
  lemma ZeroCoordinateDropped(e: Element, origin: Point, dist: DistanceFn)
    requires e.osmType == "node" && e.point.lat == Some(0.0)
    ensures ToPoi(e, origin, dist) == None
  {
  }
}
