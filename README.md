# MyTravelMap: the verifiable rules under a travel-diary web app

MyTravelMap is an Express server (`server.js`) with two browser pages
(`public/js/travel-add.js`, a step-by-step upload wizard, and `public/js/add.js`, a
single-form upload page). Users upload photos, the app reads the GPS position that cameras
store in a photo's EXIF block, names the place from a small table of Korean cities, asks a
generative model for a diary title and keeps the entries in a list.

This project models the deterministic rules underneath, in Dafny:

- **EXIF GPS conversion** (GPS attributes, section 4.6.6 of Exif 2.3). Three implementations
  of degrees/minutes/seconds plus hemisphere reference → signed decimal: the server's
  (`ServerGps`, over numerator/denominator pairs, rounded), and the two identical browser
  copies (`TravelAddPage`, `AddPage`, over already-divided numbers, unrounded), together
  with the "coordinate or nothing" decision around each. The shared arithmetic and an
  encode/decode round trip live in `Sexagesimal`.
- **Gazetteer** (`Gazetteer`): first match over an ordered city table with a strict
  radius test, else a formatted fallback; a specification function and the loop that
  implements it. Both are stated for any table; `Gazetteer.Cities` is the server's ten-city
  table, and the lemmas about particular points use it.
- **Server string parsing**: the comma-separated tag field (`Tags`, with the JavaScript
  `trim` of `JsText`), the `data:<mime>;base64,<payload>` split and the loop building the
  image parts (`DataUrl`, a subset of section 3 of RFC 2397), the `{ … }` extraction from a
  model reply (`AiResponse`) and the fallback title (`DefaultTitle`).
- **Travel list** (`TravelStore`): the record the upload route builds, and the in-memory list
  as a class whose methods push, find, and find-and-splice.
- **Step wizard** (`TravelAddPage.StepWizard`): `currentStep`, the panels' `active` class and
  the indicators' completed/active state.

Inputs the source obtains from the outside are parameters: the decoded EXIF tags (the
third-party decoders are not modelled), `toFixed` formatting (`fixed2: real -> string`) and
rounding (`round: real -> real`), `Math.random()` (`choice`), and the clock-derived id and
dates. Numbers are exact `real`s.

On these points the model keeps the code's own behaviour:

- a zero denominator is not rejected by the server; the model excludes it by a precondition rather than inventing a rejection;
- a triple with more than three entries is accepted, and the extra entries are ignored;
- the server returns `null` both when the file cannot be decoded and when it has no GPS
  directory, and so does `ServerGps.ExtractGps`;
- the browser copies reject a triple whose entry is `0`, because they test entries for
  truthiness.

## Model

| member | source | states |
|---|---|---|
| ServerGps.ConvertDms | server.js:482-494 | No result exactly when the triple has fewer than three entries (`dms[2][0]` throws); otherwise round(±(d + m/60 + s/3600)) of the divided rationals, negated exactly for "S"/"W" |
| ServerGps.ExtractGps | server.js:458-507 | A coordinate exactly when the file decoded, has a GPS directory, and both position tags are present with at least three entries; it is the pair of conversions, never a partial one, and every other case (unreadable file, no directory, missing tag, short triple) is `None` rather than a failure |
| ServerGps.ConvertDmsRoundingError | server.js:493 | If rounding moves a value by at most 5e-7, the stored value is within 5e-7 of the exact conversion |
| ServerGps.ConvertDmsHemisphereSymmetry | server.js:489-491 | For any rounding that treats the sign separately (as `toFixed` does), "S" gives the negation of "N", "W" the negation of "E", and a missing reference the same as "N" |
| ServerGps.ConvertDmsRoundTrip | server.js:482-497 | A coordinate written as whole degrees, whole minutes, rational seconds and its hemisphere converts back to the rounded coordinate |
| ServerGps.ConvertDmsExamples | server.js:482-497 | 37°23'45" N gives 37 + 23/60 + 45/3600, 127°6'19" W its negation of 127 + 6/60 + 19/3600, and a two-entry triple nothing |
| Sexagesimal.ApplyRef | server.js:489-491 | The magnitude is negated exactly for an "S" or "W" reference and kept for any other (or none), whatever its sign; a positive magnitude with "S"/"W" becomes negative |
| Sexagesimal.DmsRoundTrip | server.js:487-491 | Splitting a signed coordinate into degrees/minutes/seconds plus reference and recombining gives the coordinate exactly |
| Gazetteer.FirstMatch | server.js:447-452 | The index found is a city whose circle strictly contains the point with no earlier one that does; none found means no city contains it |
| Gazetteer.GetLocationName | server.js:432-455 | The for-of loop with early return computes exactly the specified name |
| Gazetteer.LocationNameIsFirstCity | server.js:447-452 | City i is chosen if and only if its circle contains the point and no earlier city's does |
| Gazetteer.FallbackOnlyWhenNoCity | server.js:454 | For a table whose names have one or two characters, the `위도 …, 경도 … 지역` text is returned if and only if no city matches, and the name is never empty |
| Gazetteer.CityNamesAreShort | server.js:434-445 | Every name in the server's table has one or two characters, so the fallback text can never be mistaken for a city name, and every radius is positive, so the squared test is the source's square-root test |
| Gazetteer.BoundaryIsExcluded | server.js:448-449 | A point exactly on Seoul's radius does not match it |
| Gazetteer.TableOrderDecidesOverlap | server.js:434-452 | A point inside both Seoul's and Incheon's circles is named Seoul, the earlier entry |
| JsText.Trim | server.js:140 | The result is a contiguous part of the input with only whitespace before and after it, neither starts nor ends with whitespace, and is empty exactly when the input is all whitespace |
| Tags.Split | server.js:140 | `split(',')` gives count-of-commas + 1 pieces, none containing a comma, which joined with commas give back the input |
| Tags.ParseTags | server.js:140 | A missing or empty field gives `[]`; otherwise one trimmed entry per piece, in order, comma-free, empty entries kept |
| Tags.SplitExample | server.js:140 | `"a ,, b"` splits into `"a "`, `""`, `" b"` |
| DataUrl.Match | server.js:187 | On a match the input is exactly `data:` + mime + `;base64,` + payload, the mime a non-empty run of letters, `-`, `+`, `/`, the payload non-empty and on one line |
| DataUrl.MatchComplete | server.js:266 | Every string of that form matches, with exactly that mime and payload |
| DataUrl.SplitDataUrl | server.js:263-270 | The groups on a match, otherwise `image/jpeg` with the whole input as data |
| DataUrl.BuildImageParts | server.js:182-199 | One inline-data part per image, in order, each the split of that image's data URL |
| AiResponse.JsonSpan | server.js:237 | The match runs from the first `{` to the last `}`; there is one exactly when some `{` precedes some `}` |
| AiResponse.ExtractJson | server.js:237-241 | The extracted text is the input from the first `{` through the last `}` (as `JsonSpan` locates them), and is absent (the source throws) exactly when no `{` precedes a `}` |
| AiResponse.ExtractJsonExample | server.js:316-320 | `"a{b}c"` yields `"{b}"`; `"}{"` yields nothing |
| DefaultTitle.GenerateDefaultTitle | server.js:407-429 | Given the location name computed by `getLocationName`: a title whose trim is non-empty comes back unchanged; otherwise one of the ten templates, which begins with the location name; never empty |
| DefaultTitle.DefaultTitleNamesPlace | server.js:409-428 | With no own title, the generated title for a coordinate begins with the name the server's city table gives that coordinate |
| TravelStore.OrNull | server.js:138-139 | Falling back to null keeps a parsed number only when it is not NaN and not 0 |
| TravelStore.NewMediaFile | server.js:109-131 | Numbered from 1, served under `/uploads/`, with the file's stored name, original name, size and MIME type copied, and carrying the extracted coordinate exactly when it is an image whose EXIF yielded one |
| TravelStore.UploadedMedia | server.js:109-132 | One record per uploaded file, in order: record i is `NewMediaFile` of file i and its EXIF, so it is numbered i + 1, keeps the filename and carries that file's extracted coordinate |
| TravelStore.NewTravel | server.js:134-144 | Empty title becomes `제목 없음`, missing description `""`, each coordinate is kept exactly unless it is NaN or 0 (then null), the tags are the parsed tag field, and the id, media and both dates are the given ones |
| TravelStore.IndexOfId | server.js:511 | The first position with the id, or -1 exactly when no record has it |
| TravelStore.RemoveFirstMatch | server.js:526 | Splicing out the first match shortens the list by one, removes exactly one record with that id and none with another |
| TravelStore.TravelList.constructor | server.js:60-68 | The list holds exactly the travels `getTravels()` returned; reading the file, and the `[]` it falls back to on a read error, are I/O and are given as the initial list |
| TravelStore.TravelList.Add | server.js:146 | The new travel is appended after the existing ones |
| TravelStore.TravelList.FindIndex | server.js:511-515 | The loop returns the first index with the id, or -1 exactly when there is none |
| TravelStore.TravelList.Find | server.js:92-97 | The first travel with the id, or none (the 404 case) exactly when no record has it |
| TravelStore.TravelList.Delete | server.js:508-529 | Unknown id: 404 and the list unchanged; otherwise the list without its first record with that id |
| ClientExif.OrUnknown | public/js/travel-add.js:113-115 | A missing or empty device field becomes `정보 없음`, any other value is kept |
| TravelAddPage.ConvertDmsToDecimal | public/js/travel-add.js:70-86 | No result exactly when the triple is missing or any of its first three entries is missing or 0; otherwise d + m/60 + s/3600, unrounded, negated exactly for "S"/"W" |
| TravelAddPage.ExtractGps | public/js/travel-add.js:89-126 | A reading exactly when the library is loaded, reading did not throw, both tags are present and both convert; it holds both conversions and the defaulted device fields |
| TravelAddPage.DeviceFieldsNeverBlock | public/js/travel-add.js:109-116 | Make, model and date never decide whether a coordinate is returned |
| TravelAddPage.ZeroEntryGivesNone | public/js/travel-add.js:71-73 | A triple with a 0 entry (37°30'0", or 0 degrees) gives no coordinate |
| TravelAddPage.AgreesWithServer | public/js/travel-add.js:75-85 | On the divided-out values of a triple with no zero entry, the browser result equals the server's unrounded result |
| TravelAddPage.ConvertRoundTrip | public/js/travel-add.js:79-85 | A coordinate split into non-zero degrees/minutes/seconds plus its hemisphere converts back to itself exactly |
| TravelAddPage.OneActiveStep | public/js/travel-add.js:385-395 | With indicators numbered 1..n and current step c, exactly one is active and c - 1 are completed |
| TravelAddPage.StepWizard.constructor | public/js/travel-add.js:2 | The page starts on step 1 |
| TravelAddPage.StepWizard.UpdateStepIndicator | public/js/travel-add.js:385-396 | Each indicator below the current step is completed, the current one active, later ones neither |
| TravelAddPage.StepWizard.GoToStep | public/js/travel-add.js:365-374 | `currentStep` becomes n, the old panel loses `active`, panel n gains it, and the indicators are redrawn for n |
| AddPage.ConvertDmsToDecimal | public/js/add.js:44-60 | No result exactly when the triple is missing, shorter than three or has a 0 among its first three entries; otherwise d + m/60 + s/3600, unrounded, negated exactly for "S"/"W" |
| AddPage.ExtractGps | public/js/add.js:63-107 | A reading exactly when the tags were read and both axes convert; it holds both conversions and each device field defaulted to `정보 없음` on its own |
| AddPage.SameAsTravelAddPage | public/js/add.js:44-107 | This page's conversion and extraction equal the wizard page's on every input |
| AddPage.LatitudeAloneGivesNone | public/js/add.js:77-81 | Tags with a latitude but no longitude give no coordinate |

## Left out

- ServerGps.ConvertDms: requires nonzero denominators; the source does not check them, and JavaScript would produce Infinity or NaN, which exact reals cannot represent.
- ServerGps.ConvertDms: each rational is taken to be a two-entry pair, as the EXIF decoder produces; a one-entry pair (NaN in JavaScript) is not modelled.
- ServerGps.ConvertDms: `parseFloat(decimal.toFixed(6))` is the abstract `round` parameter; IEEE-754 arithmetic and decimal formatting are not modelled.
- TravelAddPage.ConvertDmsToDecimal: entries are exact reals, so a NaN entry (also falsy in JavaScript) and non-numeric entries are not modelled; the same holds for AddPage.ConvertDmsToDecimal. Whether a 0 entry reaches these functions as a falsy primitive depends on the EXIF decoder, which is not part of the model.
- Gazetteer.GetLocationName: coordinates are numbers; string coordinates from a request body (coerced by `-`, but breaking `toFixed`) and floating-point rounding of the distance are not modelled. `toFixed(2)` is the `fixed2` parameter.
- TravelStore.NewTravel: the id (`Date.now()`), the upload date and the creation time are inputs; `parseFloat` is modelled only by its result (`None` for NaN).
- TravelAddPage.StepWizard.GoToStep: requires the target panel to exist (`getElementById` would return null and throw); the step-4 summary and the scroll to the top are page rendering.
- TravelAddPage.StepWizard.UpdateStepIndicator: indicator numbers are integers; a `data-step` that parses to NaN is not modelled.
- Express routing, multer disk storage and reading/writing `travels.json`: HTTP and file I/O; only the in-memory list is modelled.
- Deleting the media files of a removed travel (`existsSync`/`unlinkSync`): file-system I/O.
- The generative-model calls, prompts, `JSON.parse` of their replies, the fallback suggestions list and the reverse-geocoding route: network calls with non-deterministic output.
- `piexif.load`, `EXIF.getData` and `EXIF.getAllTags`: third-party binary decoders; their decoded tags are inputs, and so is a failure of `piexif.load`, which the server's `try` turns into `null`.
- TravelAddPage.ExtractGps and AddPage.ExtractGps: an exception thrown inside `EXIF.getData` happens before the `try` in the Promise executor, so it rejects the promise instead of resolving `null`; the model does not represent that case (`ReadFailed` is only a throw inside the `try`).
- `compressImage`: canvas resizing and floating-point quality search.
- The `uploadedPhotos` list, map and marker widgets, DOM rendering, `FileReader` callbacks and `fetch` calls of both pages: browser UI and asynchronous plumbing.
