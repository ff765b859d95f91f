/** `generateDefaultTitle` in server.js: the title returned when the AI call fails. */
module DefaultTitle {
  import opened Wrappers
  import opened JsText
  import opened Gazetteer

  /** The text after `${location}` in each of the ten templates, in order. */
  const Suffixes: seq<string> := [
    "에서의 특별한 날들",
    "의 매력에 빠지다",
    " 여행, 잊지 못할 추억",
    "에서 만나는 설렘",
    "의 아름다운 순간들",
    " 여행의 시작",
    "에서의 새로운 경험",
    "의 숨겨진 매력",
    "에서 찾은 행복",
    " 여행, 마음이 움직이다"
  ]

  function Templates(location: string): (ts: seq<string>)
    ensures |ts| == 10
  {
    seq(|Suffixes|, k requires 0 <= k < |Suffixes| => location + Suffixes[k])
  }

  /** `currentTitle && currentTitle.trim()`: present, and not only whitespace. */
  predicate HasOwnTitle(currentTitle: Option<string>) {
    currentTitle.Some? && Trim(currentTitle.value) != ""
  }

  /** `generateDefaultTitle`, given `location`, the `getLocationName` result it computes
      first, and `choice`, the `Math.random()` value in [0, 1); `floor(choice * 10)` picks
      the template. A current title that is not blank comes back unchanged; otherwise the
      result is one of the ten templates for the location, so it starts with the location
      name. The result is never empty. */
  function GenerateDefaultTitle(location: string, currentTitle: Option<string>, choice: real): (r: string)
    requires 0.0 <= choice < 1.0
    ensures HasOwnTitle(currentTitle) ==> r == currentTitle.value
    ensures !HasOwnTitle(currentTitle) ==> r in Templates(location) && location <= r
    ensures r != ""
  {
    if currentTitle.Some? && currentTitle.value != "" && Trim(currentTitle.value) != "" then
      currentTitle.value
    else
      var k := (choice * 10.0).Floor;
      assert Templates(location)[k] == location + Suffixes[k];
      location + Suffixes[k]
  }

  /** The title for a coordinate, with the server's table. */
  lemma DefaultTitleNamesPlace(lat: real, lon: real, currentTitle: Option<string>, choice: real, fixed2: real -> string)
    requires 0.0 <= choice < 1.0 && !HasOwnTitle(currentTitle)
    ensures LocationName(Cities, lat, lon, fixed2) <= GenerateDefaultTitle(LocationName(Cities, lat, lon, fixed2), currentTitle, choice)
  {
  }
}
