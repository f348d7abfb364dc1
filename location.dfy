/** The place helpers of the location routes: the icon classifier, the
    address assembly of reverse geocoding, the truncate-and-sort of search
    suggestions and the tag stripping of route instructions. The map
    service's answers arrive as inputs. */
module Location {
  import opened Wrappers
  import opened Text
  import opened JsMath
  import opened Sorting

  // ---------------------------------------------------------------- icons

  /** The ten icon labels `getLocationIcon` can answer. */
  datatype Icon = Restaurant | Hospital | School | Shopping | GasStation | Bank
                | PlaceOfWorship | Airport | Transit | Generic

  function IconLabel(icon: Icon): string {
    match icon
    case Restaurant => "restaurant"
    case Hospital => "hospital"
    case School => "school"
    case Shopping => "shopping"
    case GasStation => "gas_station"
    case Bank => "bank"
    case PlaceOfWorship => "place_of_worship"
    case Airport => "airport"
    case Transit => "transit"
    case Generic => "location"
  }

  /** The categories in the order they are tried. */
  const Categories: seq<Icon> :=
    [Restaurant, Hospital, School, Shopping, GasStation, Bank, PlaceOfWorship, Airport, Transit]

  /** Position of a category in `Categories`; `Generic` comes after all of them. */
  function Rank(icon: Icon): nat {
    match icon
    case Restaurant => 0
    case Hospital => 1
    case School => 2
    case Shopping => 3
    case GasStation => 4
    case Bank => 5
    case PlaceOfWorship => 6
    case Airport => 7
    case Transit => 8
    case Generic => 9
  }

  /** The place types that select each category. */
  function TypesFor(icon: Icon): seq<string> {
    match icon
    case Restaurant => ["restaurant", "food"]
    case Hospital => ["hospital", "pharmacy"]
    case School => ["school", "university"]
    case Shopping => ["shopping_mall", "store"]
    case GasStation => ["gas_station"]
    case Bank => ["bank", "atm"]
    case PlaceOfWorship => ["mosque", "church"]
    case Airport => ["airport"]
    case Transit => ["bus_station", "transit_station"]
    case Generic => []
  }

  /** Some of the `wanted` types is among `types`. */
  predicate HasAny(types: seq<string>, wanted: seq<string>) {
    exists w :: w in wanted && w in types
  }

  /** `getLocationIcon`: the first category in priority order one of whose
      types is present, and `Generic` exactly when there is none. */
  function GetLocationIcon(types: seq<string>): (icon: Icon)
    ensures icon != Generic ==> HasAny(types, TypesFor(icon))
    ensures forall j :: 0 <= j < Rank(icon) ==> !HasAny(types, TypesFor(Categories[j]))
    ensures icon == Generic <==> forall c :: c != Generic ==> !HasAny(types, TypesFor(c))
  {
    if "restaurant" in types || "food" in types then Restaurant
    else if "hospital" in types || "pharmacy" in types then Hospital
    else if "school" in types || "university" in types then School
    else if "shopping_mall" in types || "store" in types then Shopping
    else if "gas_station" in types then GasStation
    else if "bank" in types || "atm" in types then Bank
    else if "mosque" in types || "church" in types then PlaceOfWorship
    else if "airport" in types then Airport
    else if "bus_station" in types || "transit_station" in types then Transit
    else Generic
  }

  /** With more types present, the icon can only move up in priority. */
  lemma IconRankNotAfter(types1: seq<string>, types2: seq<string>)
    requires forall t :: t in types1 ==> t in types2
    ensures Rank(GetLocationIcon(types2)) <= Rank(GetLocationIcon(types1))
  {
    var icon := GetLocationIcon(types1);
    if icon != Generic {
      var w :| w in TypesFor(icon) && w in types1;
      assert w in types2;
      assert Categories[Rank(icon)] == icon;
      assert HasAny(types2, TypesFor(Categories[Rank(icon)]));
    }
  }

  /** The icon depends only on which types are present, not on their order
      or repetition. */
  lemma IconDependsOnPresence(types1: seq<string>, types2: seq<string>)
    requires forall t :: t in types1 <==> t in types2
    ensures GetLocationIcon(types1) == GetLocationIcon(types2)
  {
    IconRankNotAfter(types1, types2);
    IconRankNotAfter(types2, types1);
  }

  // ----------------------------------------------------- address components

  /** One entry of `address_components`. */
  datatype AddressComponent = AddressComponent(longName: string, types: seq<string>)

  /** The five fields reverse geocoding fills. */
  datatype AddressField = StreetNumber | Route | Locality | AdministrativeArea | Country

  /** The place type that selects each field. */
  function FieldType(f: AddressField): string {
    match f
    case StreetNumber => "street_number"
    case Route => "route"
    case Locality => "locality"
    case AdministrativeArea => "administrative_area_level_1"
    case Country => "country"
  }

  /** Position of a field in the else-if cascade. */
  function FieldRank(f: AddressField): nat {
    match f
    case StreetNumber => 0
    case Route => 1
    case Locality => 2
    case AdministrativeArea => 3
    case Country => 4
  }

  /** The field one component sets, if any: the first in cascade order whose
      type it carries. */
  function ComponentField(types: seq<string>): (f: Option<AddressField>)
    ensures f.Some? ==> FieldType(f.value) in types
    ensures f.Some? ==> forall g :: FieldRank(g) < FieldRank(f.value) ==> FieldType(g) !in types
    ensures f.None? <==> forall g :: FieldType(g) !in types
  {
    if "street_number" in types then Some(StreetNumber)
    else if "route" in types then Some(Route)
    else if "locality" in types then Some(Locality)
    else if "administrative_area_level_1" in types then Some(AdministrativeArea)
    else if "country" in types then Some(Country)
    else None
  }

  /** The `longName` of the last component that sets `f`, or `""` when none does. */
  function LastNameFor(components: seq<AddressComponent>, f: AddressField): string {
    if components == [] then ""
    else
      var last := components[|components| - 1];
      if ComponentField(last.types) == Some(f) then last.longName
      else LastNameFor(components[..|components| - 1], f)
  }

  /** A field keeps its initial `""` when no component sets it. */
  lemma {:induction false} LastNameForUnset(components: seq<AddressComponent>, f: AddressField)
    requires forall i :: 0 <= i < |components| ==> ComponentField(components[i].types) != Some(f)
    ensures LastNameFor(components, f) == ""
  {
    if components != [] {
      LastNameForUnset(components[..|components| - 1], f);
    }
  }

  /** Component `i`, at or after `k`, sets `f`, its name is the field's
      final value, and no later component sets `f`. */
  predicate LastSetter(components: seq<AddressComponent>, f: AddressField, k: nat, i: int) {
    && k <= i < |components|
    && ComponentField(components[i].types) == Some(f)
    && LastNameFor(components, f) == components[i].longName
    && forall j :: i < j < |components| ==> ComponentField(components[j].types) != Some(f)
  }

  /** When component `k` sets a field, the field ends up holding the name of
      component `k` or of a later one that sets it, with no component after
      that one setting it again. */
  lemma {:induction false} LastNameForSet(components: seq<AddressComponent>, f: AddressField, k: nat)
    requires k < |components| && ComponentField(components[k].types) == Some(f)
    ensures exists i :: LastSetter(components, f, k, i)
  {
    var n := |components| - 1;
    if ComponentField(components[n].types) == Some(f) {
      assert LastSetter(components, f, k, n);
    } else {
      var init := components[..n];
      LastNameForSet(init, f, k);
      var i :| LastSetter(init, f, k, i);
      assert LastNameFor(components, f) == LastNameFor(init, f);
      assert components[i] == init[i];
      assert forall j :: i < j < n ==> components[j] == init[j];
      assert LastSetter(components, f, k, i);
    }
  }

  /** The `forEach` over `address_components`: each component sets at most
      one of the five fields, and a later component overwrites an earlier one. */
  method ExtractAddressComponents(components: seq<AddressComponent>)
    returns (streetNumber: string, route: string, locality: string,
             administrativeArea: string, country: string)
    ensures streetNumber == LastNameFor(components, StreetNumber)
    ensures route == LastNameFor(components, Route)
    ensures locality == LastNameFor(components, Locality)
    ensures administrativeArea == LastNameFor(components, AdministrativeArea)
    ensures country == LastNameFor(components, Country)
  {
    streetNumber, route, locality, administrativeArea, country := "", "", "", "", "";
    var i := 0;
    while i < |components|
      invariant 0 <= i <= |components|
      invariant streetNumber == LastNameFor(components[..i], StreetNumber)
      invariant route == LastNameFor(components[..i], Route)
      invariant locality == LastNameFor(components[..i], Locality)
      invariant administrativeArea == LastNameFor(components[..i], AdministrativeArea)
      invariant country == LastNameFor(components[..i], Country)
    {
      var component := components[i];
      var types := component.types;
      assert components[..i + 1][..i] == components[..i];
      if "street_number" in types {
        streetNumber := component.longName;
      } else if "route" in types {
        route := component.longName;
      } else if "locality" in types {
        locality := component.longName;
      } else if "administrative_area_level_1" in types {
        administrativeArea := component.longName;
      } else if "country" in types {
        country := component.longName;
      }
      i := i + 1;
    }
    assert components[..i] == components;
  }

  const UnknownLocation: string := "Unknown Location"

  /** `shortAddress`: the trimmed street line when it has anything but
      whitespace, else the locality when it is not empty, else
      `'Unknown Location'`; never empty. */
  function ShortAddress(streetNumber: string, route: string, locality: string): (s: string)
    ensures s != []
    ensures var line := streetNumber + " " + route;
      && (!AllWhitespace(line) ==> s == Trim(line) && !IsJsWhitespace(s[0]) && !IsJsWhitespace(s[|s| - 1]))
      && (AllWhitespace(line) && locality != "" ==> s == locality)
      && (AllWhitespace(line) && locality == "" ==> s == UnknownLocation)
  {
    var street := Trim(streetNumber + " " + route);
    if street != "" then street
    else if locality != "" then locality
    else UnknownLocation
  }

  // ------------------------------------------------------------- suggestions

  /** Algiers, where search is centred when the caller gives no position. */
  const DefaultLatitude: real := 36.7538
  const DefaultLongitude: real := 3.0588

  /** At most this many results become suggestions. */
  const MaxSuggestions: nat := 8

  /** The search centre: each coordinate the caller gave (`None` when it was
      missing or empty), else the Algiers default. */
  function SearchOrigin(latitude: Option<real>, longitude: Option<real>): (origin: (real, real))
    ensures origin.0 == (if latitude.Some? then latitude.value else DefaultLatitude)
    ensures origin.1 == (if longitude.Some? then longitude.value else DefaultLongitude)
  {
    (if latitude.Some? then latitude.value else DefaultLatitude,
     if longitude.Some? then longitude.value else DefaultLongitude)
  }

  /** One search result of the places service. */
  datatype Place = Place(name: string, latitude: real, longitude: real, formattedAddress: string,
                         businessStatus: Option<string>, rating: Option<real>,
                         types: Option<seq<string>>, placeId: string)

  /** One suggestion in the search answer; `distance` is in whole metres. */
  datatype Suggestion = Suggestion(displayName: string, latitude: real, longitude: real, address: string,
                                   distance: int, businessStatus: string, rating: Option<real>,
                                   types: seq<string>, icon: Icon, placeId: string)

  /** The `map` step: distance rounded to metres, falsy business status and
      rating replaced by `''` and `null`, missing types by `[]`. The
      great-circle distance in kilometres is the parameter `distanceKm`. */
  function ToSuggestion(place: Place, origin: (real, real),
                        distanceKm: (real, real, real, real) -> real): (s: Suggestion)
    ensures s.distance == Round(distanceKm(origin.0, origin.1, place.latitude, place.longitude) * 1000.0)
    ensures s.rating.Some? <==> place.rating.Some? && place.rating.value != 0.0
    ensures s.rating.Some? ==> s.rating == place.rating
    ensures s.businessStatus == (if place.businessStatus.Some? then place.businessStatus.value else "")
    ensures s.types == (if place.types.Some? then place.types.value else [])
    ensures s.icon == GetLocationIcon(s.types)
    ensures (s.displayName, s.latitude, s.longitude, s.address, s.placeId)
         == (place.name, place.latitude, place.longitude, place.formattedAddress, place.placeId)
  {
    var types := if place.types.Some? then place.types.value else [];
    Suggestion(place.name, place.latitude, place.longitude, place.formattedAddress,
               Round(distanceKm(origin.0, origin.1, place.latitude, place.longitude) * 1000.0),
               if place.businessStatus.Some? then place.businessStatus.value else "",
               if place.rating.Some? && place.rating.value != 0.0 then place.rating else None,
               types, GetLocationIcon(types), place.placeId)
  }

  function ToSuggestions(places: seq<Place>, origin: (real, real),
                         distanceKm: (real, real, real, real) -> real): (r: seq<Suggestion>)
    ensures |r| == |places|
    ensures forall i :: 0 <= i < |places| ==> r[i] == ToSuggestion(places[i], origin, distanceKm)
  {
    seq(|places|, i requires 0 <= i < |places| => ToSuggestion(places[i], origin, distanceKm))
  }

  /** The sort key `a.distance - b.distance` compares. */
  function MetresKey(s: Suggestion): real {
    s.distance as real
  }

  /** The first eight results (none when the answer has no `results`),
      mapped to suggestions and sorted by distance. */
  function SearchSuggestions(results: Option<seq<Place>>, origin: (real, real),
                             distanceKm: (real, real, real, real) -> real): (r: seq<Suggestion>)
    ensures |r| <= MaxSuggestions
    ensures results.None? ==> r == []
    ensures SortedBy(r, MetresKey)
    ensures var places := if results.Some? then results.value else [];
      var firstEight := if |places| <= MaxSuggestions then places else places[..MaxSuggestions];
      multiset(r) == multiset(ToSuggestions(firstEight, origin, distanceKm))
  {
    var places := if results.Some? then results.value else [];
    var firstEight := if |places| <= MaxSuggestions then places else places[..MaxSuggestions];
    var mapped := ToSuggestions(firstEight, origin, distanceKm);
    SortByKeySorted(mapped, MetresKey);
    assert |multiset(SortByKey(mapped, MetresKey))| == |multiset(mapped)|;
    SortByKey(mapped, MetresKey)
  }

  /** Suggestions at the same rounded distance keep the order of the
      results they come from. */
  lemma SearchSuggestionsStable(results: Option<seq<Place>>, origin: (real, real),
                                 distanceKm: (real, real, real, real) -> real, metres: real)
    ensures var places := if results.Some? then results.value else [];
      var firstEight := if |places| <= MaxSuggestions then places else places[..MaxSuggestions];
      WithKey(SearchSuggestions(results, origin, distanceKm), MetresKey, metres)
        == WithKey(ToSuggestions(firstEight, origin, distanceKm), MetresKey, metres)
  {
    var places := if results.Some? then results.value else [];
    var firstEight := if |places| <= MaxSuggestions then places else places[..MaxSuggestions];
    SortByKeyStable(ToSuggestions(firstEight, origin, distanceKm), MetresKey, metres);
  }

  // ------------------------------------------------------------ tag removal

  /** Index of the first `c` in `s`. */
  function FirstIndex(s: string, c: char): (i: nat)
    requires c in s
    ensures i < |s| && s[i] == c && c !in s[..i]
  {
    if s[0] == c then 0
    else
      assert s == [s[0]] + s[1..];
      var j := FirstIndex(s[1..], c);
      assert s[..j + 1] == [s[0]] + s[1..][..j];
      j + 1
  }

  /** `replace(/<[^>]*>/g, '')`: scanning from the left, a `<` that has a
      `>` somewhere after it starts a tag, which runs to the first such `>`
      and is deleted; a `<` with no `>` after it is kept. */
  function StripTags(s: string): (r: string)
    ensures |r| <= |s|
    decreases |s|
  {
    if s == [] then []
    else if s[0] == '<' && '>' in s then StripTags(s[FirstIndex(s, '>') + 1..])
    else [s[0]] + StripTags(s[1..])
  }

  /** No `>` anywhere after a `<`. */
  predicate NoTagLeft(s: string) {
    forall i, j :: 0 <= i < j < |s| && s[i] == '<' ==> s[j] != '>'
  }

  /** Stripping only deletes: the output is no longer than the input and
      uses no character the input does not have. */
  lemma {:induction false} StripTagsDeletes(s: string)
    ensures |StripTags(s)| <= |s|
    ensures forall c :: c in StripTags(s) ==> c in s
    decreases |s|
  {
    if s == [] {
    } else if s[0] == '<' && '>' in s {
      var k := FirstIndex(s, '>') + 1;
      StripTagsDeletes(s[k..]);
      forall c | c in StripTags(s) ensures c in s {
        assert c in s[k..];
      }
    } else {
      StripTagsDeletes(s[1..]);
    }
  }

  /** Every tag is gone: the output has no `>` after a `<`. */
  lemma {:induction false} StripTagsLeavesNoTag(s: string)
    ensures NoTagLeft(StripTags(s))
    decreases |s|
  {
    if s == [] {
    } else if s[0] == '<' && '>' in s {
      StripTagsLeavesNoTag(s[FirstIndex(s, '>') + 1..]);
    } else {
      var rest := StripTags(s[1..]);
      StripTagsLeavesNoTag(s[1..]);
      StripTagsDeletes(s[1..]);
      var r := [s[0]] + rest;
      forall i, j | 0 <= i < j < |r| && r[i] == '<' ensures r[j] != '>' {
        if i == 0 {
          assert '>' !in s[1..] by { assert s == [s[0]] + s[1..]; }
          assert r[j] in rest;
        } else {
          assert r[i] == rest[i - 1] && r[j] == rest[j - 1];
        }
      }
    }
  }

  /** Text with no tag in it passes unchanged; so stripping twice is
      stripping once. */
  lemma {:induction false} StripTagsKeepsPlainText(s: string)
    requires NoTagLeft(s)
    ensures StripTags(s) == s
    decreases |s|
  {
    if s != [] {
      assert s[0] == '<' ==> '>' !in s[1..];
      assert s == [s[0]] + s[1..];
      assert NoTagLeft(s[1..]) by {
        forall i, j | 0 <= i < j < |s[1..]| && s[1..][i] == '<' ensures s[1..][j] != '>' {
          assert s[i + 1] == '<';
        }
      }
      StripTagsKeepsPlainText(s[1..]);
    }
  }

  /** Text before the first `<` is copied as it is. */
  lemma {:induction false} StripTagsKeepsPlainPrefix(p: string, q: string)
    requires '<' !in p
    ensures StripTags(p + q) == p + StripTags(q)
    decreases |p|
  {
    if p == [] {
      assert p + q == q;
    } else {
      assert (p + q)[1..] == p[1..] + q;
      assert '<' !in p[1..] by { assert p == [p[0]] + p[1..]; }
      StripTagsKeepsPlainPrefix(p[1..], q);
      assert (p + q)[0] == p[0] != '<';
      calc {
        StripTags(p + q);
        [p[0]] + StripTags(p[1..] + q);
        [p[0]] + (p[1..] + StripTags(q));
        { assert p == [p[0]] + p[1..]; }
        p + StripTags(q);
      }
    }
  }

  /** A `<`, text without `>`, and a `>` form one tag, deleted whole. */
  lemma StripTagsDropsTag(t: string, q: string)
    requires '>' !in t
    ensures StripTags(['<'] + t + ['>'] + q) == StripTags(q)
  {
    var s := ['<'] + t + ['>'] + q;
    assert s[|t| + 1] == '>';
    assert '>' !in s[..|t| + 1] by { assert s[..|t| + 1] == ['<'] + t; }
    assert FirstIndex(s, '>') == |t| + 1;
    assert s[|t| + 2..] == q;
  }

  lemma StripTagsIdempotent(s: string)
    ensures StripTags(StripTags(s)) == StripTags(s)
  {
    StripTagsLeavesNoTag(s);
    StripTagsKeepsPlainText(StripTags(s));
  }
}
