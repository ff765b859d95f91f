/** `getLocationName` in server.js: a coordinate named by the first city of a fixed table
    whose radius contains it, or else by a formatted fallback text. The search is stated for
    any table; `Cities` is the table the server uses. */
module Gazetteer {
  import opened Wrappers

  datatype City = City(name: string, lat: real, lon: real, radius: real)

  /** The server's table, in the insertion order `Object.entries` visits it. */
  const Cities: seq<City> := [
    City("서울", 37.5665, 126.9780, 0.3),
    City("부산", 35.1796, 129.0756, 0.3),
    City("대구", 35.8716, 128.5948, 0.3),
    City("대전", 36.3504, 127.3845, 0.3),
    City("광주", 35.1596, 126.8526, 0.3),
    City("인천", 37.2557, 126.7314, 0.3),
    City("제주", 33.4996, 126.5312, 0.4),
    City("강원", 37.2411, 128.5945, 0.5),
    City("경주", 35.8264, 129.2236, 0.2),
    City("전주", 35.8242, 127.1477, 0.2)
  ]

  function Sq(x: real): real {
    x * x
  }

  /** The source's `Math.sqrt(dLat² + dLon²) < radius`, without the square root. The two
      agree when the radius is positive, as every radius of `Cities` is; for a table with a
      non-positive radius this test is stated on squares and is not the source's. A point
      exactly on the circle is outside. */
  predicate Within(c: City, lat: real, lon: real) {
    Sq(lat - c.lat) + Sq(lon - c.lon) < Sq(c.radius)
  }

  /** Index of the first city of `table` whose circle contains the point. */
  function FirstMatch(table: seq<City>, lat: real, lon: real): (r: Option<nat>)
    ensures r.Some? ==>
      r.value < |table| && Within(table[r.value], lat, lon) &&
      forall j :: 0 <= j < r.value ==> !Within(table[j], lat, lon)
    ensures r.None? ==> forall j :: 0 <= j < |table| ==> !Within(table[j], lat, lon)
  {
    if table == [] then None
    else if Within(table[0], lat, lon) then Some(0)
    else match FirstMatch(table[1..], lat, lon)
      case None => None
      case Some(k) => Some(k + 1)
  }

  /** The text used when no city matches: `위도 <lat>, 경도 <lon> 지역`, each number written by
      `fixed2` (the source's `toFixed(2)`, kept abstract). */
  function Fallback(lat: real, lon: real, fixed2: real -> string): string {
    "위도 " + fixed2(lat) + ", 경도 " + fixed2(lon) + " 지역"
  }

  /** The specification of `getLocationName` over a table. */
  function LocationName(table: seq<City>, lat: real, lon: real, fixed2: real -> string): string {
    match FirstMatch(table, lat, lon)
    case Some(i) => table[i].name
    case None => Fallback(lat, lon, fixed2)
  }

  /** The for-of search with its early return. */
  method GetLocationName(table: seq<City>, lat: real, lon: real, fixed2: real -> string) returns (name: string)
    ensures name == LocationName(table, lat, lon, fixed2)
  {
    for i := 0 to |table|
      invariant forall j :: 0 <= j < i ==> !Within(table[j], lat, lon)
    {
      var info := table[i];
      if Within(info, lat, lon) {
        assert FirstMatch(table, lat, lon) == Some(i);
        return info.name;
      }
    }
    return "위도 " + fixed2(lat) + ", 경도 " + fixed2(lon) + " 지역";
  }

  /** The name is the city at index `i` exactly when `i` is the first city whose circle holds
      the point. */
  lemma {:induction false} LocationNameIsFirstCity(table: seq<City>, lat: real, lon: real, fixed2: real -> string, i: nat)
    requires i < |table|
    ensures FirstMatch(table, lat, lon) == Some(i) <==>
      Within(table[i], lat, lon) && forall j :: 0 <= j < i ==> !Within(table[j], lat, lon)
    ensures FirstMatch(table, lat, lon) == Some(i) ==> LocationName(table, lat, lon, fixed2) == table[i].name
  {
  }

  /** In a table whose city names are all shorter than any fallback text (the server's names
      have two letters), the fallback comes back only when no city matches, and the name is
      never empty. */
  lemma {:induction false} FallbackOnlyWhenNoCity(table: seq<City>, lat: real, lon: real, fixed2: real -> string)
    requires forall j :: 0 <= j < |table| ==> 0 < |table[j].name| <= 2
    ensures LocationName(table, lat, lon, fixed2) == Fallback(lat, lon, fixed2) <==>
      forall j :: 0 <= j < |table| ==> !Within(table[j], lat, lon)
    ensures LocationName(table, lat, lon, fixed2) != ""
  {
    var f := Fallback(lat, lon, fixed2);
    assert |f| > 2;
  }

  /** The server's table meets the condition of `FallbackOnlyWhenNoCity`, and its radii are
      positive, so `Within` is the source's test on it. */
  lemma CityNamesAreShort()
    ensures forall j :: 0 <= j < |Cities| ==> 0 < |Cities[j].name| <= 2
    ensures forall j :: 0 <= j < |Cities| ==> Cities[j].radius > 0.0
  {
  }

  /** A point exactly 0.3 degrees north of Seoul's centre is on its circle and therefore not
      in it; no other city is near enough, so the fallback is used. */
  lemma BoundaryIsExcluded(fixed2: real -> string)
    ensures LocationName(Cities, 37.8665, 126.9780, fixed2) == Fallback(37.8665, 126.9780, fixed2)
  {
    assert !Within(Cities[0], 37.8665, 126.9780);
    CityNamesAreShort();
    FallbackOnlyWhenNoCity(Cities, 37.8665, 126.9780, fixed2);
  }

  /** The circles of Seoul and Incheon overlap; a point in both is named Seoul, because Seoul
      comes first in the table. */
  lemma TableOrderDecidesOverlap(fixed2: real -> string)
    ensures Within(Cities[5], 37.4111, 126.8547)
    ensures LocationName(Cities, 37.4111, 126.8547, fixed2) == "서울"
  {
  }
}
