/** Splitting an image sent as a data URL into its media type and base64 payload, as the
    title endpoint does with `/^data:([A-Za-z-+\/]+);base64,(.+)$/` — a subset of the
    `data:` URL syntax of section 3 of RFC 2397. */
module DataUrl {
  import opened Wrappers

  /** The characters of the regex's bracket class: ASCII letters, `-`, `+` and `/`. */
  predicate IsMimeChar(c: char) {
    ('A' <= c <= 'Z') || ('a' <= c <= 'z') || c == '-' || c == '+' || c == '/'
  }

  /** What `.` does not match without the `s` flag. */
  predicate IsLineTerminator(c: char) {
    c == '\n' || c == '\r' || c == '\U{2028}' || c == '\U{2029}'
  }

  predicate ValidMime(m: string) {
    |m| > 0 && forall k :: 0 <= k < |m| ==> IsMimeChar(m[k])
  }

  predicate ValidPayload(p: string) {
    |p| > 0 && forall k :: 0 <= k < |p| ==> !IsLineTerminator(p[k])
  }

  const Scheme := "data:"
  const Marker := ";base64,"

  /** Length of the longest prefix of `s` made of media-type characters. */
  function MimeRun(s: string): (n: nat)
    ensures n <= |s|
    ensures forall k :: 0 <= k < n ==> IsMimeChar(s[k])
    ensures n < |s| ==> !IsMimeChar(s[n])
  {
    if s != [] && IsMimeChar(s[0]) then 1 + MimeRun(s[1..]) else 0
  }

  function NoLineTerminator(s: string): (b: bool)
    ensures b <==> forall k :: 0 <= k < |s| ==> !IsLineTerminator(s[k])
  {
    s == [] || (!IsLineTerminator(s[0]) && NoLineTerminator(s[1..]))
  }

  /** The regex match: `Some((mime, payload))` for capture groups 1 and 2. Whenever it
      matches, the input is exactly the scheme, the media type, the marker and the payload,
      the media type is a non-empty run of its allowed characters, and the payload is
      non-empty and on one line. */
  function Match(s: string): (r: Option<(string, string)>)
    ensures r.Some? ==>
      s == Scheme + r.value.0 + Marker + r.value.1 &&
      ValidMime(r.value.0) && ValidPayload(r.value.1)
  {
    if |s| < |Scheme| || s[..|Scheme|] != Scheme then None
    else
      var rest := s[|Scheme|..];
      var n := MimeRun(rest);
      var tail := rest[n..];
      if n == 0 || |tail| <= |Marker| || tail[..|Marker|] != Marker then None
      else
        var payload := tail[|Marker|..];
        if !NoLineTerminator(payload) then None
        else
          assert s == Scheme + rest[..n] + Marker + payload by {
            assert s == s[..|Scheme|] + rest;
            assert rest == rest[..n] + tail;
            assert tail == tail[..|Marker|] + payload;
          }
          Some((rest[..n], payload))
  }

  /** The regex matches every string of the form it describes, with exactly those groups:
      the media type cannot contain `;`, so the split is unique. */
  lemma {:induction false} MatchComplete(mime: string, payload: string)
    requires ValidMime(mime) && ValidPayload(payload)
    ensures Match(Scheme + mime + Marker + payload) == Some((mime, payload))
  {
    var s := Scheme + mime + Marker + payload;
    var rest := s[|Scheme|..];
    assert rest == mime + (Marker + payload);
    MimeRunOfValid(mime, Marker + payload);
    assert rest[|mime|..] == Marker + payload;
    assert (Marker + payload)[|Marker|..] == payload;
  }

  lemma {:induction false} MimeRunOfValid(mime: string, after: string)
    requires forall k :: 0 <= k < |mime| ==> IsMimeChar(mime[k])
    requires after != [] && !IsMimeChar(after[0])
    ensures MimeRun(mime + after) == |mime|
  {
    if mime != [] {
      assert (mime + after)[1..] == mime[1..] + after;
      MimeRunOfValid(mime[1..], after);
    } else {
      assert mime + after == after;
    }
  }

  /** The default the source keeps when the regex does not match: JPEG, whole input. */
  const DefaultMime := "image/jpeg"

  /** `mimeType`/`base64Data` after the `match` block: the groups on a match, otherwise the
      JPEG default with the whole input as data. */
  function SplitDataUrl(s: string): (r: (string, string))
    ensures Match(s).Some? ==> Scheme + r.0 + Marker + r.1 == s && ValidMime(r.0) && ValidPayload(r.1)
    ensures Match(s).None? ==> r == (DefaultMime, s)
  {
    match Match(s)
    case Some(groups) => groups
    case None => (DefaultMime, s)
  }

  /** One `inlineData` entry of the request to the image model. */
  datatype InlineData = InlineData(mimeType: string, data: string)

  /** The `forEach` over `imageDataList` that pushes one `inlineData` part per image, in
      order (the `.data` string of each image is the input). */
  method BuildImageParts(images: seq<string>) returns (parts: seq<InlineData>)
    ensures |parts| == |images|
    ensures forall i :: 0 <= i < |images| ==>
      parts[i] == InlineData(SplitDataUrl(images[i]).0, SplitDataUrl(images[i]).1)
  {
    parts := [];
    for idx := 0 to |images|
      invariant |parts| == idx
      invariant forall i :: 0 <= i < idx ==>
        parts[i] == InlineData(SplitDataUrl(images[i]).0, SplitDataUrl(images[i]).1)
    {
      var mimeType := DefaultMime;
      var base64Data := images[idx];
      var matches := Match(images[idx]);
      if matches.Some? {
        mimeType := matches.value.0;
        base64Data := matches.value.1;
      }
      parts := parts + [InlineData(mimeType, base64Data)];
    }
  }
}
