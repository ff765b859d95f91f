/** Locating the JSON object in a generative model's reply, as `text.match(/\{[\s\S]*\}/)`
    does at the three call sites of the title endpoint. */
module AiResponse {
  import opened Wrappers
  import opened JsText

  /** Start and end (exclusive) of the matched text. The leftmost match starts at the first
      `{`, and the greedy `[\s\S]*` then runs to the last `}`; there is a match exactly when
      some `{` comes before some `}`. */
  function JsonSpan(text: string): (r: Option<(nat, nat)>)
    ensures r.Some? ==>
      r.value.0 < r.value.1 <= |text| &&
      text[r.value.0] == '{' && text[r.value.1 - 1] == '}' &&
      (forall k :: 0 <= k < r.value.0 ==> text[k] != '{') &&
      (forall k :: r.value.1 <= k < |text| ==> text[k] != '}')
    ensures r.None? <==>
      forall i, j :: 0 <= i < j < |text| && text[i] == '{' ==> text[j] != '}'
  {
    match (IndexOf(text, '{'), LastIndexOf(text, '}'))
    case (Some(open), Some(close)) =>
      if open < close then Some((open, close + 1)) else None
    case _ => None
  }

  /** `jsonMatch[0]`, or `None` where the source throws "Invalid response format". */
  function ExtractJson(text: string): (r: Option<string>)
    ensures r.Some? ==> |r.value| >= 2 && r.value[0] == '{' && r.value[|r.value| - 1] == '}'
    ensures r.None? <==> forall i, j :: 0 <= i < j < |text| && text[i] == '{' ==> text[j] != '}'
    ensures r.Some? ==> JsonSpan(text).Some? && r.value == text[JsonSpan(text).value.0..JsonSpan(text).value.1]
  {
    match JsonSpan(text)
    case Some((start, end)) => Some(text[start..end])
    case None => None
  }

  /** Text around the object is dropped, and a `}` before the first `{` gives no match. */
  lemma ExtractJsonExample()
    ensures ExtractJson("a{b}c") == Some("{b}")
    ensures ExtractJson("}{") == None
  {
    assert IndexOf("a{b}c", '{') == Some(1);
    assert LastIndexOf("a{b}c", '}') == Some(3);
    assert "a{b}c"[1..4] == "{b}";
  }
}
