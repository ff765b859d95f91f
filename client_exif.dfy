/** The browser side's view of an image's EXIF tags, as the EXIF library hands them over.
    Both upload pages (`public/js/travel-add.js` and `public/js/add.js`) use these types. */
module ClientExif {
  import opened Wrappers

  /** The tags `extractGPSFromImage` reads from `EXIF.getAllTags`. Each rational has already
      been divided into a number; a tag the image lacks is `None`. */
  datatype ExifTags = ExifTags(
    gpsLatitude: Option<seq<real>>, gpsLatitudeRef: Option<string>,
    gpsLongitude: Option<seq<real>>, gpsLongitudeRef: Option<string>,
    make: Option<string>, model: Option<string>, dateTime: Option<string>)

  /** How reading the tags went: the library was not loaded (`typeof EXIF === 'undefined'`),
      reading threw inside the `try`, or the tags were read. */
  datatype TagRead = LibraryMissing | ReadFailed | Read(tags: ExifTags)

  /** What the promise resolves with on success. */
  datatype GpsReading = GpsReading(latitude: real, longitude: real, make: string, model: string, dateTime: string)

  const Unknown := "정보 없음"

  /** `tag || '정보 없음'`: a missing or empty device field gets the placeholder. */
  function OrUnknown(tag: Option<string>): (r: string)
    ensures tag.Some? && tag.value != "" ==> r == tag.value
    ensures tag.None? || tag.value == "" ==> r == Unknown
  {
    if tag.Some? && tag.value != "" then tag.value else Unknown
  }
}
