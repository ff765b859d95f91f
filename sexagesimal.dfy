/** The arithmetic every GPS converter in the application shares: an EXIF GPS latitude or
    longitude is a degrees/minutes/seconds magnitude plus a hemisphere reference tag
    ("N"/"S" for latitude, "E"/"W" for longitude), as in section 4.6.6 of Exif 2.3. */
module Sexagesimal {
  import opened Wrappers

  /** The unsigned decimal value of a degrees/minutes/seconds triple. */
  function DecimalDegrees(degrees: real, minutes: real, seconds: real): real {
    degrees + minutes / 60.0 + seconds / 3600.0
  }

  /** The converters compare the reference with `===` against "S" and "W" only, so any other
      value, and a missing tag, leave the sign alone. */
  predicate IsSouthOrWest(ref: Option<string>) {
    ref == Some("S") || ref == Some("W")
  }

  /** Applies the hemisphere reference to a magnitude. */
  function ApplyRef(magnitude: real, ref: Option<string>): (r: real)
    ensures IsSouthOrWest(ref) ==> r == -magnitude
    ensures !IsSouthOrWest(ref) ==> r == magnitude
    ensures IsSouthOrWest(ref) && magnitude > 0.0 ==> r < 0.0
  {
    if IsSouthOrWest(ref) then -magnitude else magnitude
  }

  /** A magnitude split into whole degrees, whole minutes and fractional seconds, the form
      cameras write. */
  datatype Dms = Dms(degrees: nat, minutes: nat, seconds: real)

  function Abs(x: real): real {
    if x < 0.0 then -x else x
  }

  /** Splits the magnitude of a decimal coordinate into degrees/minutes/seconds. */
  function ToDms(x: real): (d: Dms)
    ensures d.degrees as real <= Abs(x) < d.degrees as real + 1.0
    ensures d.minutes < 60 && 0.0 <= d.seconds < 60.0
  {
    var a := Abs(x);
    var deg := a.Floor;
    var rest := (a - deg as real) * 60.0;
    var min := rest.Floor;
    Dms(deg, min, (rest - min as real) * 60.0)
  }

  /** The reference tag a camera writes for a signed coordinate. */
  function HemisphereOf(x: real, positive: string, negative: string): string {
    if x < 0.0 then negative else positive
  }

  /** Encoding a signed coordinate as degrees/minutes/seconds plus its hemisphere reference,
      then decoding it the way the converters do, gives back the coordinate exactly. */
  lemma {:induction false} DmsRoundTrip(x: real, positive: string, negative: string)
    requires positive == "N" || positive == "E"
    requires negative == "S" || negative == "W"
    ensures var d := ToDms(x);
      ApplyRef(DecimalDegrees(d.degrees as real, d.minutes as real, d.seconds),
               Some(HemisphereOf(x, positive, negative))) == x
  {
    var d := ToDms(x);
    var a := Abs(x);
    var rest := (a - d.degrees as real) * 60.0;
    assert d.seconds == (rest - d.minutes as real) * 60.0;
    assert DecimalDegrees(d.degrees as real, d.minutes as real, d.seconds) == a;
    assert positive != "S" && positive != "W";
  }
}
