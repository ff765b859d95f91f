/** The server's authoritative GPS reading (`extractGPSFromImage` in server.js): the EXIF GPS
    directory of a stored image, already decoded by the EXIF library, turned into a rounded
    decimal coordinate or into "no coordinate". */
module ServerGps {
  import opened Wrappers
  import opened Sexagesimal

  /** An EXIF RATIONAL as the decoder hands it over: a `[numerator, denominator]` pair. */
  datatype Rational = Rational(num: int, den: int)

  function Value(q: Rational): real
    requires q.den != 0
  {
    q.num as real / q.den as real
  }

  /** The server never checks denominators; a zero one would give JavaScript's Infinity or
      NaN, which the model does not represent. Only the three entries read are constrained. */
  predicate DenominatorsNonzero(dms: seq<Rational>) {
    forall i :: 0 <= i < |dms| && i < 3 ==> dms[i].den != 0
  }

  /** The GPS directory fields the server reads; a tag the image lacks is `None`. */
  datatype GpsIfd = GpsIfd(
    latitude: Option<seq<Rational>>,
    latitudeRef: Option<string>,
    longitude: Option<seq<Rational>>,
    longitudeRef: Option<string>)

  /** What reading the file and decoding its EXIF block produced: `Unreadable` when either
      step threw (the file could not be read, or is not a parsable EXIF container), otherwise
      the GPS directory if there is one. */
  datatype ExifLoad = Unreadable | Loaded(gps: Option<GpsIfd>)

  datatype Coordinate = Coordinate(latitude: real, longitude: real)

  /** `convertDMS(dms, ref)`: each rational divided out, combined as degrees + minutes/60 +
      seconds/3600, negated for "S"/"W", then rounded by `round` (the source's
      `parseFloat(decimal.toFixed(6))`, kept abstract). A triple with fewer than three
      entries makes `dms[2][0]` throw; the model returns `None` for that. Entries past the
      third are ignored. */
  function ConvertDms(dms: seq<Rational>, ref: Option<string>, round: real -> real): (r: Option<real>)
    requires DenominatorsNonzero(dms)
    ensures r.None? <==> |dms| < 3
    ensures r.Some? ==>
      r.value == round(ApplyRef(DecimalDegrees(Value(dms[0]), Value(dms[1]), Value(dms[2])), ref))
  {
    if |dms| < 3 then None
    else
      var degrees := dms[0].num as real / dms[0].den as real;
      var minutes := dms[1].num as real / dms[1].den as real;
      var seconds := dms[2].num as real / dms[2].den as real;
      var decimal := degrees + minutes / 60.0 + seconds / 3600.0;
      Some(round(if ref == Some("S") || ref == Some("W") then -decimal else decimal))
  }

  predicate LoadWellFormed(load: ExifLoad) {
    load.Loaded? && load.gps.Some? ==>
      (load.gps.value.latitude.Some? ==> DenominatorsNonzero(load.gps.value.latitude.value)) &&
      (load.gps.value.longitude.Some? ==> DenominatorsNonzero(load.gps.value.longitude.value))
  }

  /** The decision around `convertDMS`: no directory, a missing latitude or longitude tag, or
      any exception (an unreadable file, a short triple) all yield `None`; the function never
      fails. A coordinate comes back exactly when the file decoded, has a GPS directory, and
      both position tags are present with at least three entries each; it is then the pair of
      converted values, so no partial coordinate is ever produced. */
  function ExtractGps(load: ExifLoad, round: real -> real): (r: Option<Coordinate>)
    requires LoadWellFormed(load)
    ensures r.Some? <==>
      load.Loaded? && load.gps.Some? &&
      load.gps.value.latitude.Some? && |load.gps.value.latitude.value| >= 3 &&
      load.gps.value.longitude.Some? && |load.gps.value.longitude.value| >= 3
    ensures r.Some? ==>
      Some(r.value.latitude) == ConvertDms(load.gps.value.latitude.value, load.gps.value.latitudeRef, round) &&
      Some(r.value.longitude) == ConvertDms(load.gps.value.longitude.value, load.gps.value.longitudeRef, round)
  {
    if load.Unreadable? || load.gps.None? then None
    else
      var gps := load.gps.value;
      if gps.latitude.None? || gps.longitude.None? then None
      else
        var latitude := ConvertDms(gps.latitude.value, gps.latitudeRef, round);
        var longitude := ConvertDms(gps.longitude.value, gps.longitudeRef, round);
        if latitude.None? || longitude.None? then None
        else Some(Coordinate(latitude.value, longitude.value))
  }

  /** With a rounding step that moves a value by at most half a unit in the sixth decimal
      place, the stored coordinate is within that distance of the exact conversion. */
  lemma ConvertDmsRoundingError(dms: seq<Rational>, ref: Option<string>, round: real -> real)
    requires DenominatorsNonzero(dms) && |dms| >= 3
    requires forall x :: Abs(round(x) - x) <= 0.0000005
    ensures var exact := ApplyRef(DecimalDegrees(Value(dms[0]), Value(dms[1]), Value(dms[2])), ref);
      Abs(ConvertDms(dms, ref, round).value - exact) <= 0.0000005
  {
    var exact := ApplyRef(DecimalDegrees(Value(dms[0]), Value(dms[1]), Value(dms[2])), ref);
    assert Abs(round(exact) - exact) <= 0.0000005;
  }

  /** A southern or western reference gives exactly the negation of the northern or eastern
      result for the same magnitudes, for any rounding that treats the sign separately, as
      `toFixed` does. */
  lemma ConvertDmsHemisphereSymmetry(dms: seq<Rational>, round: real -> real)
    requires DenominatorsNonzero(dms) && |dms| >= 3
    requires forall x :: round(-x) == -round(x)
    ensures ConvertDms(dms, Some("S"), round).value == -ConvertDms(dms, Some("N"), round).value
    ensures ConvertDms(dms, Some("W"), round).value == -ConvertDms(dms, Some("E"), round).value
    ensures ConvertDms(dms, None, round) == ConvertDms(dms, Some("N"), round)
  {
  }

  /** Round trip: a coordinate written by a camera as whole degrees, whole minutes and a
      rational number of seconds, with its hemisphere reference, converts back to the
      rounded coordinate. */
  lemma ConvertDmsRoundTrip(x: real, secondsNum: int, secondsDen: int, positive: string, negative: string, round: real -> real)
    requires positive == "N" || positive == "E"
    requires negative == "S" || negative == "W"
    requires secondsDen != 0 && secondsNum as real / secondsDen as real == ToDms(x).seconds
    ensures var d := ToDms(x);
      ConvertDms([Rational(d.degrees, 1), Rational(d.minutes, 1), Rational(secondsNum, secondsDen)],
                 Some(HemisphereOf(x, positive, negative)), round) == Some(round(x))
  {
    DmsRoundTrip(x, positive, negative);
  }

  /** Concrete readings: 37° 23' 45" N is 37.3958333…, and 127° 6' 19" W is -127.1052777…. */
  lemma ConvertDmsExamples()
    ensures ConvertDms([Rational(37, 1), Rational(23, 1), Rational(45, 1)], Some("N"), x => x)
      == Some(37.0 + 23.0 / 60.0 + 45.0 / 3600.0)
    ensures ConvertDms([Rational(127, 1), Rational(6, 1), Rational(19, 1)], Some("W"), x => x)
      == Some(-(127.0 + 6.0 / 60.0 + 19.0 / 3600.0))
    ensures ConvertDms([Rational(37, 1), Rational(23, 1)], Some("N"), x => x) == None
  {
  }
}
