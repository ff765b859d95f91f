/** The single-page upload form, `public/js/add.js`, which carries its own copy of the EXIF
    GPS reading. */
module AddPage {
  import opened Wrappers
  import opened Sexagesimal
  import opened ClientExif
  import TravelAddPage

  /** `convertDMSToDecimal(dms, ref)`: `None` for a missing triple or a missing or 0 first,
      second or third entry; otherwise degrees + minutes/60 + seconds/3600, unrounded,
      negated exactly for "S" and "W". */
  function ConvertDmsToDecimal(dms: Option<seq<real>>, ref: Option<string>): (r: Option<real>)
    ensures r.None? <==>
      dms.None? || |dms.value| < 3 || dms.value[0] == 0.0 || dms.value[1] == 0.0 || dms.value[2] == 0.0
    ensures r.Some? ==> r.value == ApplyRef(DecimalDegrees(dms.value[0], dms.value[1], dms.value[2]), ref)
  {
    if dms.None? || |dms.value| < 1 || dms.value[0] == 0.0 || |dms.value| < 2 || dms.value[1] == 0.0
       || |dms.value| < 3 || dms.value[2] == 0.0 then
      None
    else
      var decimal := dms.value[0] + dms.value[1] / 60.0 + dms.value[2] / 3600.0;
      Some(if ref == Some("S") || ref == Some("W") then -decimal else decimal)
  }

  /** The branch logic of `extractGPSFromImage`: `None` when the library is missing, reading
      throws, a position tag is missing or a conversion is `None`; otherwise both
      coordinates with each device field defaulted on its own. */
  function ExtractGps(read: TagRead): (r: Option<GpsReading>)
    ensures r.Some? <==>
      read.Read? &&
      ConvertDmsToDecimal(read.tags.gpsLatitude, read.tags.gpsLatitudeRef).Some? &&
      ConvertDmsToDecimal(read.tags.gpsLongitude, read.tags.gpsLongitudeRef).Some?
    ensures r.Some? ==>
      Some(r.value.latitude) == ConvertDmsToDecimal(read.tags.gpsLatitude, read.tags.gpsLatitudeRef) &&
      Some(r.value.longitude) == ConvertDmsToDecimal(read.tags.gpsLongitude, read.tags.gpsLongitudeRef) &&
      r.value.make == OrUnknown(read.tags.make) &&
      r.value.model == OrUnknown(read.tags.model) &&
      r.value.dateTime == OrUnknown(read.tags.dateTime)
  {
    if !read.Read? then None
    else
      var allMetaData := read.tags;
      if allMetaData.gpsLatitude.None? || allMetaData.gpsLongitude.None? then None
      else
        var latitude := ConvertDmsToDecimal(allMetaData.gpsLatitude, allMetaData.gpsLatitudeRef);
        var longitude := ConvertDmsToDecimal(allMetaData.gpsLongitude, allMetaData.gpsLongitudeRef);
        if latitude.Some? && longitude.Some? then
          Some(GpsReading(latitude.value, longitude.value,
                          OrUnknown(allMetaData.make), OrUnknown(allMetaData.model), OrUnknown(allMetaData.dateTime)))
        else None
  }

  /** The two pages' copies behave identically on every input. */
  lemma SameAsTravelAddPage(dms: Option<seq<real>>, ref: Option<string>, read: TagRead)
    ensures ConvertDmsToDecimal(dms, ref) == TravelAddPage.ConvertDmsToDecimal(dms, ref)
    ensures ExtractGps(read) == TravelAddPage.ExtractGps(read)
  {
    if read.Read? {
      var t := read.tags;
      assert ConvertDmsToDecimal(t.gpsLatitude, t.gpsLatitudeRef) == TravelAddPage.ConvertDmsToDecimal(t.gpsLatitude, t.gpsLatitudeRef);
      assert ConvertDmsToDecimal(t.gpsLongitude, t.gpsLongitudeRef) == TravelAddPage.ConvertDmsToDecimal(t.gpsLongitude, t.gpsLongitudeRef);
    }
  }

  /** A tag set carrying only a latitude gives no coordinate. */
  lemma LatitudeAloneGivesNone(lat: seq<real>, ref: Option<string>)
    ensures ExtractGps(Read(ExifTags(Some(lat), ref, None, None, None, None, None))) == None
  {
  }
}
