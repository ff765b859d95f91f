/** The upload handler's tag field: `tags ? tags.split(',').map(t => t.trim()) : []`. */
module Tags {
  import opened Wrappers
  import opened JsText

  /** Number of occurrences of `c` in `s`. */
  function Count(s: string, c: char): nat {
    if s == [] then 0 else (if s[0] == c then 1 else 0) + Count(s[1..], c)
  }

  /** `parts.join(sep)`. */
  function Join(parts: seq<string>, sep: char): string {
    if |parts| <= 1 then (if parts == [] then "" else parts[0])
    else parts[0] + [sep] + Join(parts[1..], sep)
  }

  lemma {:induction false} CountAppend(a: string, b: string, c: char)
    ensures Count(a + b, c) == Count(a, c) + Count(b, c)
  {
    if a == [] {
      assert a + b == b;
    } else {
      assert (a + b)[1..] == a[1..] + b;
      CountAppend(a[1..], b, c);
    }
  }

  lemma {:induction false} CountAbsent(s: string, c: char)
    requires forall k :: 0 <= k < |s| ==> s[k] != c
    ensures Count(s, c) == 0
  {
    if s != [] {
      CountAbsent(s[1..], c);
    }
  }

  /** `s.split(sep)` for a one-character separator: the pieces between separators, in order,
      empty pieces included. */
  function Split(s: string, sep: char): (parts: seq<string>)
    ensures |parts| == Count(s, sep) + 1
    ensures forall i, k :: 0 <= i < |parts| && 0 <= k < |parts[i]| ==> parts[i][k] != sep
    ensures Join(parts, sep) == s
    decreases |s|
  {
    match IndexOf(s, sep)
    case None =>
      CountAbsent(s, sep);
      [s]
    case Some(k) =>
      var rest := Split(s[k + 1..], sep);
      assert s == s[..k] + [sep] + s[k + 1..];
      CountAppend(s[..k] + [sep], s[k + 1..], sep);
      CountAppend(s[..k], [sep], sep);
      CountAbsent(s[..k], sep);
      assert ([s[..k]] + rest)[1..] == rest;
      [s[..k]] + rest
  }

  /** The tag list of a new travel entry. A missing or empty field gives no tags; otherwise
      there is one entry per comma-separated piece, in order, each trimmed, none containing a
      comma, and empty entries kept. */
  function ParseTags(tags: Option<string>): (r: seq<string>)
    ensures !Truthy(tags) ==> r == []
    ensures Truthy(tags) ==>
      var pieces := Split(tags.value, ',');
      |r| == Count(tags.value, ',') + 1 &&
      Join(pieces, ',') == tags.value &&
      forall i :: 0 <= i < |r| ==> r[i] == Trim(pieces[i]) && ',' !in r[i]
  {
    if !Truthy(tags) then []
    else
      var pieces := Split(tags.value, ',');
      var r := seq(|pieces|, i requires 0 <= i < |pieces| => Trim(pieces[i]));
      assert forall i :: 0 <= i < |r| ==> ',' !in r[i] by {
        forall i | 0 <= i < |r| ensures ',' !in r[i] {
          TrimIsInfix(pieces[i]);
        }
      }
      r
  }

  /** Every character of a trimmed string occurs in the original. */
  lemma TrimIsInfix(s: string)
    ensures forall c :: c in Trim(s) ==> c in s
  {
    var t := TrimStart(s);
    assert forall c :: c in TrimEnd(t) ==> c in t;
    assert forall c :: c in t ==> c in s;
  }

  /** Concrete splitting: an empty piece between two commas is kept. */
  lemma SplitExample()
    ensures Split("a ,, b", ',') == ["a ", "", " b"]
  {
    var s := "a ,, b";
    assert IndexOf(s, ',') == Some(2);
    assert s[3..] == ", b" && IndexOf(", b", ',') == Some(0);
    assert ", b"[1..] == " b" && IndexOf(" b", ',') == None;
    assert Split(" b", ',') == [" b"];
    assert Split(", b", ',') == ["", " b"];
    assert s[..2] == "a ";
  }
}
