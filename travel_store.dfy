/** The travel entries of server.js held in memory: the record the upload handler builds,
    and the list operations of the upload, detail and delete routes (`push`, `find`,
    `findIndex` + `splice`). Reading and writing `travels.json` is not part of the model. */
module TravelStore {
  import opened Wrappers
  import opened JsText
  import opened ServerGps
  import Tags

  /** A file as the multipart middleware reports it. */
  datatype UploadedFile = UploadedFile(filename: string, originalName: string, size: nat, mimeType: string)

  /** One entry of a travel's `media` list; `gps` holds the optional `latitude`/`longitude`
      fields the handler sets on it. */
  datatype MediaFile = MediaFile(
    index: nat, filename: string, originalName: string, path: string, size: nat,
    mimeType: string, gps: Option<Coordinate>)

  datatype Travel = Travel(
    id: string, title: string, description: string,
    latitude: Option<real>, longitude: Option<real>,
    tags: seq<string>, media: seq<MediaFile>,
    uploadDate: string, createdAt: string)

  /** The form fields of an upload. `latitude` and `longitude` are what `parseFloat` made of
      the fields, `None` for NaN. */
  datatype UploadForm = UploadForm(
    title: Option<string>, description: Option<string>,
    latitude: Option<real>, longitude: Option<real>, tags: Option<string>)

  /** `x || null` on a parsed number: NaN and 0 are both falsy, so a coordinate of exactly 0
      is stored as null. */
  function OrNull(x: Option<real>): (r: Option<real>)
    ensures r.Some? <==> x.Some? && x.value != 0.0
    ensures r.Some? ==> r == x
  {
    if x.Some? && x.value != 0.0 then x else None
  }

  /** The record for the file at 0-based `position`: numbered from 1, served under
      `/uploads/`, and carrying the server-extracted coordinate only when it is an image whose
      EXIF yielded one. `load` is the decoded EXIF block of the stored file. */
  function NewMediaFile(file: UploadedFile, position: nat, load: ExifLoad, round: real -> real): (m: MediaFile)
    requires LoadWellFormed(load)
    ensures m.index == position + 1 && m.path == "/uploads/" + file.filename
    ensures m.filename == file.filename && m.originalName == file.originalName
    ensures m.size == file.size && m.mimeType == file.mimeType
    ensures m.gps.Some? <==> "image/" <= file.mimeType && ExtractGps(load, round).Some?
    ensures m.gps.Some? ==> m.gps == ExtractGps(load, round)
  {
    var gps := if "image/" <= file.mimeType then ExtractGps(load, round) else None;
    MediaFile(position + 1, file.filename, file.originalName, "/uploads/" + file.filename,
              file.size, file.mimeType, gps)
  }

  /** `req.files.map(...)`: one record per uploaded file, in upload order. */
  function UploadedMedia(files: seq<UploadedFile>, loads: seq<ExifLoad>, round: real -> real): (ms: seq<MediaFile>)
    requires |loads| == |files| && forall i :: 0 <= i < |loads| ==> LoadWellFormed(loads[i])
    ensures |ms| == |files|
    ensures forall i :: 0 <= i < |ms| ==> ms[i] == NewMediaFile(files[i], i, loads[i], round)
    ensures forall i :: 0 <= i < |ms| ==>
      ms[i].index == i + 1 && ms[i].filename == files[i].filename &&
      (ms[i].gps.Some? <==> "image/" <= files[i].mimeType && ExtractGps(loads[i], round).Some?)
  {
    seq(|files|, i requires 0 <= i < |files| => NewMediaFile(files[i], i, loads[i], round))
  }

  const UntitledTitle := "제목 없음"

  /** `newTravel`: `id`, `uploadDate` and `createdAt` come from the clock and are inputs. A
      missing or empty title becomes "제목 없음", a missing description the empty string,
      coordinates that parse to NaN or 0 become null, and the tag field is split as
      `Tags.ParseTags` says. */
  function NewTravel(id: string, form: UploadForm, media: seq<MediaFile>, uploadDate: string, createdAt: string): (t: Travel)
    ensures t.id == id && t.media == media
    ensures t.title == if Truthy(form.title) then form.title.value else UntitledTitle
    ensures t.title != ""
    ensures t.description == if Truthy(form.description) then form.description.value else ""
    ensures t.latitude == OrNull(form.latitude) && t.longitude == OrNull(form.longitude)
    ensures t.uploadDate == uploadDate && t.createdAt == createdAt
    ensures t.latitude.Some? <==> form.latitude.Some? && form.latitude.value != 0.0
    ensures t.longitude.Some? <==> form.longitude.Some? && form.longitude.value != 0.0
    ensures t.tags == Tags.ParseTags(form.tags)
  {
    Travel(
      id,
      if Truthy(form.title) then form.title.value else UntitledTitle,
      if Truthy(form.description) then form.description.value else "",
      OrNull(form.latitude), OrNull(form.longitude),
      Tags.ParseTags(form.tags), media, uploadDate, createdAt)
  }

  /** Position of the first travel with this id, -1 if none (`findIndex`). */
  function IndexOfId(ts: seq<Travel>, id: string): (k: int)
    ensures -1 <= k < |ts|
    ensures k >= 0 ==> ts[k].id == id && forall j :: 0 <= j < k ==> ts[j].id != id
    ensures k == -1 <==> forall j :: 0 <= j < |ts| ==> ts[j].id != id
  {
    if ts == [] then -1
    else if ts[0].id == id then 0
    else
      var k := IndexOfId(ts[1..], id);
      if k == -1 then -1 else k + 1
  }

  /** Number of travels with this id. */
  function CountId(ts: seq<Travel>, id: string): nat {
    if ts == [] then 0 else (if ts[0].id == id then 1 else 0) + CountId(ts[1..], id)
  }

  lemma {:induction false} CountIdAppend(a: seq<Travel>, b: seq<Travel>, id: string)
    ensures CountId(a + b, id) == CountId(a, id) + CountId(b, id)
  {
    if a == [] {
      assert a + b == b;
    } else {
      assert (a + b)[1..] == a[1..] + b;
      CountIdAppend(a[1..], b, id);
    }
  }

  /** Splicing out the first travel with a given id removes exactly one record with that id,
      no record with any other id, and keeps the others in their order. */
  lemma {:induction false} RemoveFirstMatch(ts: seq<Travel>, id: string, other: string)
    requires IndexOfId(ts, id) >= 0
    ensures var k := IndexOfId(ts, id);
      var rest := ts[..k] + ts[k + 1..];
      |rest| == |ts| - 1 &&
      CountId(rest, id) == CountId(ts, id) - 1 &&
      (other != id ==> CountId(rest, other) == CountId(ts, other))
  {
    var k := IndexOfId(ts, id);
    assert ts == ts[..k] + ([ts[k]] + ts[k + 1..]);
    CountIdAppend(ts[..k], [ts[k]] + ts[k + 1..], id);
    CountIdAppend([ts[k]], ts[k + 1..], id);
    CountIdAppend(ts[..k], ts[k + 1..], id);
    CountIdAppend(ts[..k], [ts[k]] + ts[k + 1..], other);
    CountIdAppend([ts[k]], ts[k + 1..], other);
    CountIdAppend(ts[..k], ts[k + 1..], other);
  }

  datatype DeleteStatus = Deleted | NotFound

  /** The list the routes work on, after `getTravels()` has read it; the constructor holds
      what `getTravels()` returned. */
  class TravelList {
    var travels: seq<Travel>

    constructor (initial: seq<Travel>)
      ensures travels == initial
    {
      travels := initial;
    }

    /** `travels.push(newTravel)` in the upload route. */
    method Add(t: Travel)
      modifies this
      ensures travels == old(travels) + [t]
    {
      travels := travels + [t];
    }

    /** `travels.findIndex(t => t.id === id)`. */
    method FindIndex(id: string) returns (k: int)
      ensures -1 <= k < |travels|
      ensures k >= 0 ==> travels[k].id == id && forall j :: 0 <= j < k ==> travels[j].id != id
      ensures k == -1 <==> forall j :: 0 <= j < |travels| ==> travels[j].id != id
    {
      var i := 0;
      while i < |travels|
        invariant 0 <= i <= |travels|
        invariant forall j :: 0 <= j < i ==> travels[j].id != id
      {
        if travels[i].id == id {
          return i;
        }
        i := i + 1;
      }
      return -1;
    }

    /** `travels.find(t => t.id === id)` in the detail route: the first travel with the id,
        or `None`, which the route answers with 404. */
    method Find(id: string) returns (t: Option<Travel>)
      ensures t.None? <==> forall j :: 0 <= j < |travels| ==> travels[j].id != id
      ensures t.Some? ==> t.value.id == id && t.value == travels[IndexOfId(travels, id)]
    {
      var k := FindIndex(id);
      if k == -1 {
        return None;
      }
      return Some(travels[k]);
    }

    /** The delete route: an unknown id answers 404 and changes nothing; otherwise the first
        travel with that id is spliced out. */
    method Delete(id: string) returns (status: DeleteStatus)
      modifies this
      ensures status == NotFound <==> forall j :: 0 <= j < |old(travels)| ==> old(travels)[j].id != id
      ensures status == NotFound ==> travels == old(travels)
      ensures status == Deleted ==>
        var k := IndexOfId(old(travels), id);
        travels == old(travels)[..k] + old(travels)[k + 1..]
    {
      var travelIndex := FindIndex(id);
      if travelIndex == -1 {
        return NotFound;
      }
      travels := travels[..travelIndex] + travels[travelIndex + 1..];
      return Deleted;
    }
  }
}
