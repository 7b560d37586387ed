# Pharmacy locator and symptom triage: a Dafny model

This project models the decision logic of two small HTTP services.

- The **locator** (`locator_service.py`) turns a free-text place into a coordinate. It tries a JSON cache first, then Nominatim, then Photon. It then asks the Overpass query engine for nearby pharmacies in two tiers. Tier 1 holds pharmacies that carry a contact tag. Tier 2 is an unfiltered sweep, sent only when tier 1 is short of the limit. Raw OpenStreetMap elements become records: name, coordinate, distance, address line, phone, e-mail, website, opening hours and identity. The records are deduplicated by identity, stably sorted by distance and merged up to the limit. The answer is an ok/error envelope.
- The **triage route** (`triageAgent.py`, `/triage`) rejects blank text. It answers EMERGENCY at once when a red-flag phrase occurs in the text. Otherwise it consults a language model, falls back to a MODERATE answer when the model fails, and normalises what the model returns.

## Modelling choices

Everything outside the process is an input value, not a call:

- the answers of Nominatim, Photon and the two Overpass queries;
- the outcome of the model call;
- the great-circle distance, a function parameter returning non-negative metres.

Each operation returns what it would have sent out, in order: the geocoding requests with the text they carry, the Overpass queries with their tier, centre and radius, and the prompt text sent to the model. So "no request was made" and "the original text was sent" can be stated and proved.

The module-level cache is a value threaded through the calls: a map from the normalised key to an entry whose `lat` and `lon` are raw JSON values (`RawNum`). Writing the cache file is a `persisted` flag.

Python strings are `seq<char>`:

- `strip()` removes exactly the characters for which `str.isspace()` holds;
- `lower()` and `upper()` map ASCII letters only;
- `in` on strings is "occurs as a contiguous slice".

An element identity is the pair (type, id). The source joins the two into the string `type/id`; that string is injective on the values Overpass returns, because an integer id has no `/`.

### Modules

| file | module | models |
|---|---|---|
| `wrappers.dfy` | `Wrappers` | `Option` |
| `text.dfy` | `Text` | `strip`, `lower`/`upper`, substring test, `join` |
| `dedup.dfy` | `Dedup` | the `seen`-set deduplication loop |
| `slices.dfy` | `Slices` | Python's prefix slice `s[:n]` |
| `address.dfy` | `Address` | `_format_address_from_tags` |
| `elements.dfy` | `Elements` | one raw Overpass element becoming a record (or dropped) |
| `ranking.dfy` | `Ranking` | `list.sort(key=distance)`, a stable sort |
| `search.dfy` | `Search` | `find_pharmacies_overpass`: tier 1, tier 2, merge |
| `geocoder.dfy` | `Geocoder` | `geocode_location`: cache, Nominatim, Photon |
| `locator.dfy` | `Locator` | `get_nearest_pharmacies` |
| `triage.dfy` | `Triage` | `RED_FLAGS`, `has_red_flag`, the `/triage` decision logic |

### Behaviour of the code that the model keeps as it is

- **Photon's raw write.** The Photon branch stores the raw `coordinates[1]` and `coordinates[0]` in the cache, and saves the file, before it calls `float()` on them. A non-numeric coordinate therefore leaves a malformed entry behind, and the call returns `None`. The next call reads the malformed entry as a miss, because the `float()` on it raises and is caught. `Geocoder.UnconvertibleFallbackLeavesMiss` and `Geocoder.MalformedEntryIsMiss` state this. "Both providers fail, the cache is unchanged" therefore holds only when Photon gives nothing to write (`Geocoder.BothFailKeepCache`).
- **Tier 1 marks an identity as seen before it looks at the coordinate.** An identity whose first tier-1 element has no usable coordinate yields no record. A later tier-1 copy of it is skipped, and so is every tier-2 copy. Tier 2 does not add to `seen`, so duplicates inside tier 2 are removed only by the merge.
- **Zero coordinates are dropped.** The coordinate test is Python truthiness, so a latitude or longitude of exactly `0.0` counts as missing.
- **The `e-mail` key.** The tier-1 query asks for `e-mail`, but the e-mail field reads only `email` and `contact:email`.
- **`limit` is not clamped.** `limit <= 0` never reaches the sweep. The contact records are cut with Python's `[:limit]`, so a negative limit drops that many of the farthest records.
- **Errors the triage route does not catch.** A non-string `urgency` makes `.upper()` raise. A truthy JSON value that is not an object makes `.get` raise. Both are modelled as a server error, which is what Flask answers. A falsy JSON value such as `{}` takes the "could not parse" fallback.

## Model

| member | source | states |
|---|---|---|
| Text.Strip | locator_service.py:77-78 | the stripped text is empty exactly when every character is white space; otherwise it neither starts nor ends with white space |
| Text.StripIsSlice | locator_service.py:77 | `strip()` keeps one contiguous slice of its input and removes only white space before and after it |
| Text.StripIdempotent | locator_service.py:77 | stripping an already stripped text changes nothing |
| Text.StripSurrounded | locator_service.py:77 | white space added before and after a text does not change its strip |
| Text.StripUpper | locator_service.py:77 | stripping and upper-casing can be done in either order |
| Text.Lower | triageAgent.py:45 | `str.lower()` maps each character on its own and keeps the length |
| Text.Upper | triageAgent.py:135 | `str.upper()` maps each character on its own and keeps the length |
| Text.LowerIdempotent | triageAgent.py:45 | lower-casing twice is lower-casing once |
| Text.UpperOfLower | locator_service.py:77 | lower-casing and then upper-casing is upper-casing |
| Text.LowerKeepsSpace | locator_service.py:77-78 | lower-casing keeps blankness and the white-space status of both ends, so the blank-key test can follow either step |
| Text.Contains | triageAgent.py:47 | `flag in t` holds exactly when `flag` occurs at some position of `t` |
| Text.Join | locator_service.py:73 | joining no parts gives ""; otherwise the result has the parts' total length plus one separator between each pair, and starts with the first part |
| Text.JoinSnoc | locator_service.py:73 | joining one more part at the end appends the separator and that part to the join of the others |
| Text.JoinEmptyIff | locator_service.py:73 | joining non-empty parts gives "" exactly when there are no parts |
| Dedup.DedupBy | locator_service.py:236-242 | the kept elements have distinct keys, none of them already seen; they come from the input; and their keys are exactly the input's keys minus the seen ones |
| Dedup.DedupAppend | locator_service.py:234-242 | deduplicating tier 1 followed by tier 2 is tier 1 deduplicated, then tier 2 deduplicated against every key tier 1 had |
| Dedup.DedupOfDistinct | locator_service.py:234-242 | records with distinct, unseen keys pass the dedup loop unchanged |
| Slices.SliceTo | locator_service.py:184-185 | Python's `s[:n]`: a prefix of `s`, the first `n` elements for `n >= 0`, with the last `-n` dropped for `n < 0` |
| Slices.TakeOfAppend | locator_service.py:237-244 | taking `n` records of `a + b`, with `a` no longer than `n`, keeps all of `a` and fills the rest from `b` |
| Address.Collect | locator_service.py:64-72 | the collected values are all non-empty, at most one per key; the list is empty exactly when no key has a value |
| Address.FormatAddress | locator_service.py:60-73 | the line is the `", "`-join of the values collected over the structured `addr:` keys when one of them has a value, and over street, city, village and town otherwise; it is empty exactly when no key of either list has a value, and starts with the first structured value when there is one |
| Address.CollectStartsWithFirst | locator_service.py:64-67 | the collected values start with the value of the first key that has one |
| Address.CollectOne | locator_service.py:64-67 | one key contributes its value exactly when the value is non-empty |
| Address.CollectAppend | locator_service.py:64-67 | collecting over two key lists one after the other gives the two collections one after the other |
| Address.FallbackIgnoredWhenPrimaryPresent | locator_service.py:64-72 | when a structured key has a value, tags that agree on the structured keys format alike, whatever their fallback keys hold |
| Address.OnlyFallbackWithoutPrimary | locator_service.py:68-72 | without structured values, tags that agree on street, city, village and town format alike |
| Elements.Location | locator_service.py:152-158 | a node's own coordinate or any other element's centre is used, and it is usable exactly when both parts are present and non-zero |
| Elements.FirstOfSpec | locator_service.py:161-163 | `FirstOf`, an `or`-chain of lookups, gives the value of the first key with a non-empty value, and with none, whatever the last lookup gave |
| Elements.NameOf | locator_service.py:160 | the name is `name`, else `shop`, else "Pharmacy", and is never empty |
| Elements.AddressTags | locator_service.py:165 | the address map holds exactly the `addr:*`, `postal_code`, `city`, `village` and `street` tags, with their values |
| Elements.AddressLineOf | locator_service.py:166 | the formatted line when it is non-empty, otherwise the address-tag map |
| Elements.ToPoi | locator_service.py:152-181 | a record exists exactly when the coordinate is usable; it carries the element's identity, that coordinate and its distance from the origin; its name, address line, address tags, phone, e-mail, website and opening hours are the values the tag lookups give |
| Elements.DashedEmailNotRead | locator_service.py:133-162 | a record from an element with neither `email` nor `contact:email` has no e-mail, whatever its `e-mail` tag holds |
| Elements.ZeroCoordinateDropped | locator_service.py:157-158 | a node at latitude exactly 0 is dropped |
| Ranking.SortByDistance | locator_service.py:183 | the sort returns a permutation of its input in non-decreasing distance |
| Ranking.InsertKeepsSorted | locator_service.py:183 | inserting into a sorted sequence keeps it sorted |
| Ranking.SortIsStable | locator_service.py:183 | records at equal distance keep their input order |
| Ranking.SortedUnique | locator_service.py:183 | two sorted sequences with the same records in the same order at every distance are equal |
| Ranking.SortIsTheStableSort | locator_service.py:183 | the sort's result is the only sorted arrangement that keeps the order at every distance |
| Ranking.SortKeepsDistinct | locator_service.py:183 | sorting keeps identities distinct |
| Ranking.DedupKeepsSorted | locator_service.py:233-242 | the merge's dedup of a sorted sequence is sorted |
| Search.ParseAllMembers | locator_service.py:152-181 | `ParseAll`, the per-element parse of both tier loops: every record comes from some element, and every usable element gives its record |
| Search.ParseAllAppend | locator_service.py:198-231 | parsing goes element by element: the records of two element lists one after the other are their records one after the other |
| Search.ParseOne | locator_service.py:152-181 | one element gives its record when it is usable and nothing otherwise |
| Search.ScanContact | locator_service.py:145-181 | afterwards `seen` holds every tier-1 identity, usable or not; the records have distinct identities that were not seen before |
| Search.ScanSweep | locator_service.py:198-231 | no record has an identity tier 1 saw; every record comes from an element, and every usable unseen element gives its record; with `Search.ScanSweepIsFilterThenParse`, `Search.UnseenAppend`/`UnseenOne` and `Search.ParseAllAppend`/`ParseOne` its records are those of the unseen elements in loop order |
| Search.TierOne | locator_service.py:145-183 | tier 1 is a permutation of the tier-1 loop's records, sorted by distance, keeping their loop order among records at equal distance, with distinct identities; its `seen` set is every tier-1 identity |
| Search.TierTwo | locator_service.py:196-233 | tier 2 is a permutation of the tier-2 loop's records, sorted by distance, keeping their loop order among records at equal distance; it holds no identity tier 1 saw |
| Search.Unseen | locator_service.py:198-201 | the elements kept are exactly those whose identity is not seen |
| Search.UnseenAppend | locator_service.py:198-201 | the identity filter goes element by element: filtering two lists one after the other gives their filtered lists one after the other |
| Search.UnseenOne | locator_service.py:198-201 | one element is kept exactly when its identity is not seen |
| Search.ScanSweepIsFilterThenParse | locator_service.py:198-231 | the tier-2 loop is dropping the seen identities and then parsing the rest in order, one record per usable element |
| Search.FindPharmacies | locator_service.py:131-246 | the contact query is always sent, and the sweep at most once after it, both around the origin and with the request's radius |
| Search.MergeLoopTakesDistinct | locator_service.py:234-244 | `MergeLoop`, the merge loop with its early `break` gives the first `limit` records of the deduplicated sequence |
| Search.ScanContactIsDedupThenParse | locator_service.py:147-158 | the tier-1 loop is dedup of the raw elements by identity, then dropping unusable elements: the first element of an identity decides |
| Search.DroppedIdentityShadowsLaterCopy | locator_service.py:149-158 | an identity whose first tier-1 element lacks a coordinate gets no record, even when a later copy has one |
| Search.MergeShape | locator_service.py:233-246 | with tier 1 short, the answer is tier 1 followed by the first records of tier 2 deduplicated against tier 1 |
| Search.SearchShortCircuit | locator_service.py:183-185 | a full tier 1 answers with its `[:limit]`, only one query is sent, and the sweep's answer plays no part |
| Search.NonPositiveLimit | locator_service.py:184-185 | with `limit <= 0` only the contact query is sent; a zero limit gives no record, a negative one drops that many of the farthest tier-1 records |
| Search.SearchBoundedAndDistinct | locator_service.py:183-246 | the answer never repeats an identity, and has at most `limit` records when `limit >= 0` |
| Search.SearchTierOrder | locator_service.py:233-246 | with tier 1 short, the answer starts with all of tier 1; the rest come from tier 2, have identities tier 1 never saw, and both parts are sorted; exactly, the answer is tier 1 followed by the nearest `limit - |tier 1|` tier-2 records left after dropping identities already present |
| Search.SearchComplete | locator_service.py:233-246 | an answer shorter than `limit` contains the identity of every tier-1 and tier-2 record |
| Geocoder.CacheKey | locator_service.py:77-79 | the key is empty exactly when the text is blank, and is never longer than the text; it is in lower case, and upper-cased it equals the upper-cased stripped text, so texts whose stripped forms differ other than in letter case get different keys |
| Geocoder.CacheKeyIdempotent | locator_service.py:77 | normalising a key again gives the same key |
| Geocoder.CacheKeyIgnoresSurroundingSpace | locator_service.py:77 | white space typed around a place name does not change its key |
| Geocoder.CacheKeyIgnoresCase | locator_service.py:77 | a place name and its upper-cased spelling share one key |
| Geocoder.Decode | locator_service.py:80-85 | a cache entry reads back as a location exactly when both `lat` and `lon` convert, with those values and the entry's `meta`, or an empty map when it has none |
| Geocoder.Encode | locator_service.py:96 | an entry stored for a location reads back as that location |
| Geocoder.PrimaryHit | locator_service.py:88-100 | Nominatim yields a location exactly when it answered a non-empty list whose first item's `lat` and `lon` convert; the item is the metadata |
| Geocoder.FallbackStepOf | locator_service.py:103-117 | Photon writes the cache exactly when its first feature has at least two coordinates; the entry holds `coordinates[1]` as `lat`, `coordinates[0]` as `lon` and the properties as metadata; it yields a location only when that entry is well formed, and then the location's latitude is `coordinates[1]` and its longitude `coordinates[0]` |
| Geocoder.AskProviders | locator_service.py:87-117 | Nominatim is asked first; Photon is asked only when Nominatim gives nothing, and then Photon's answer decides both the location and what is written; both get the original text; a location found is what gets stored |
| Geocoder.Geocode | locator_service.py:76-119 | blank text makes no request and leaves the cache as it is; a location found is stored under the normalised key; the cache changes at most at that key, and only when the file is saved |
| Geocoder.CacheHitShortCircuits | locator_service.py:80-83 | a well-formed cached entry answers with no request, whatever the providers would say |
| Geocoder.MalformedEntryIsMiss | locator_service.py:80-85 | a malformed entry behaves as if it were absent, except that it stays when nothing overwrites it |
| Geocoder.PrimaryTakenFirst | locator_service.py:88-98 | a usable Nominatim match is returned and stored, and Photon is not asked |
| Geocoder.FallbackAfterPrimary | locator_service.py:99-117 | without a usable Nominatim match both providers are asked, Photon's answer decides, and a Photon location is stored |
| Geocoder.BothFailKeepCache | locator_service.py:88-119 | when neither provider gives anything to store, the result is `None` and the cache is unchanged |
| Geocoder.UnconvertibleFallbackLeavesMiss | locator_service.py:111-115 | Photon coordinates that do not convert are stored and saved anyway, the call returns `None`, and the stored entry is malformed |
| Geocoder.GeocodeIdempotent | locator_service.py:76-98 | after a success, any text with the same key resolves to the same location with no request and no cache change |
| Locator.GetNearestPharmacies | locator_service.py:249-267 | the envelope is an error exactly when geocoding fails, and then no Overpass query is sent; otherwise it echoes the input text, the coordinate and the metadata, and its results and Overpass queries are those of the pharmacy search around the geocoded coordinate with the request's radius and limit, so they are distinct and within a non-negative limit |
| Locator.SearchAroundGeocodedPoint | locator_service.py:256-260 | the Overpass queries are centred on the geocoded coordinate and carry the request's radius |
| Locator.BlankLocationIsError | locator_service.py:256-258 | blank location text is an error with no outbound request and no cache change |
| Locator.PrimaryOutageRecovered | locator_service.py:256-264 | with Nominatim down and a usable Photon answer, the envelope is ok and located where Photon says |
| Locator.RepeatRequestUsesCache | locator_service.py:256-264 | a second request for the same place makes no geocoding request and reports the same location |
| Triage.FirstFlagIn | triageAgent.py:44-49 | the scan finds nothing exactly when no flag occurs; otherwise it reports a flag that occurs, with no earlier flag of the list occurring |
| Triage.RedFlagScan | triageAgent.py:38-49 | `has_red_flag` (`HasRedFlag`) on the twelve red-flag phrases and the lower-cased text reports the first one in list order that occurs, or none exactly when none occurs |
| Triage.NormalizeUrgency | triageAgent.py:135-137 | the urgency is always one of EMERGENCY, MODERATE or LOW: the upper-cased value when it is one of them, otherwise MODERATE; a non-text value raises |
| Triage.NormalizeList | triageAgent.py:138-143 | a list stays as it is, any other value becomes a one-element list of its text, and a missing field becomes empty |
| Triage.Assess | triageAgent.py:111-151 | a failed call or unparseable output gives MODERATE with the pharmacy/consult-doctor actions and no conditions, explained by "Triage unavailable; please seek care if symptoms worsen." for a failed call and by "Could not parse model output. Please consult a healthcare provider if concerned." for unparseable output; a server error happens exactly for a non-object answer or a non-text urgency; a parsed answer gives its normalised urgency, conditions and actions and its explanation ("" when absent); any assessment has a known urgency |
| Triage.RedFlagNote | triageAgent.py:108 | the emergency explanation names the flag |
| Triage.Triage | triageAgent.py:95-151 | blank text, and only blank text, is rejected with "no text provided"; the model is sent the stripped text exactly when the text is neither blank nor red-flagged, and then the answer is what the model outcome assesses to; any assessment has a known urgency |
| Triage.BlankRejectedFirst | triageAgent.py:97-99 | blank text is rejected without asking the model, whatever the model would answer |
| Triage.RedFlagIsEmergency | triageAgent.py:101-109 | a red flag gives EMERGENCY with the single action "emergency" and an explanation naming the flag, and the model is not asked |
| Triage.ModelFailureIsModerate | triageAgent.py:111-132 | without a red flag, a failed call or unparseable output gives MODERATE with no conditions and the pharmacy/consult-doctor actions |
| Triage.UrgencyIgnoresCase | triageAgent.py:135-137 | urgencies that upper-case alike normalise alike |
| Triage.RedFlagIgnoresCase | triageAgent.py:45-47 | the red-flag scan gives the same answer on a text and on its lower-cased form |

## Left out

- The haversine distance and `round(dist, 1)` are left out because they are floating point. Distance is a parameter returning non-negative metres, and the rounding is folded into it.
- HTTP, timeouts, `raise_for_status` and JSON decoding are modelled only by their outcome. A failed request is `PrimaryFailed`, `FallbackFailed` or an empty element list.
- Reading and writing `locator_cache.json` (`_load_cache`, `_save_cache`) are outside the model. The cache is an input map, and a write-back is the `persisted` flag.
- The Overpass query text is not modelled; a query is its tier, centre and radius. The server is trusted to return only pharmacies and, for tier 1, only those with a contact tag.
- The language-model call, the prompt template and `extract_json_from_text` are not modelled. Their combined effect is the `ModelOutcome` input. The model receives the stripped text, which the prompt template embeds.
- The Flask routes are out of scope. That covers payload parsing, HTTP status codes, the `format: pretty` text rendering and the `/locator` "No location provided" check.
- Non-ASCII case mapping is out of scope. `lower()` and `upper()` are modelled on ASCII letters only.
- Identities are compared as (type, id) pairs. An element with a missing type or id would render as the Python text `None`; that text could then collide with a real `"None"` value, and the model does not capture that collision.
- The JSON value of an Overpass coordinate is a real number or absent; the model ignores other JSON types. Cached `lat`/`lon` values are either numbers or not convertible, and a numeric string that `float()` would accept is counted as a number.
- The model's `explanation` value is echoed unchanged whatever its JSON type (a null, number or list included); the model holds it as the value's JSON text, so the JSON type of the echoed value is not modelled.
- `messages_sernder.py` is not part of this model.
- Search.FindPharmacies: its own contract states only the queries it sends; what it returns is stated exactly by `Search.SearchShortCircuit` (tier 1 full: its `[:limit]`) and `Search.SearchTierOrder` (tier 1 short: tier 1, then the first deduplicated tier-2 records), with `Search.NonPositiveLimit`, `Search.SearchBoundedAndDistinct` and `Search.SearchComplete` as consequences.
