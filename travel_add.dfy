/** The step-by-step upload page, `public/js/travel-add.js`: its EXIF GPS reading and its
    step wizard. */
module TravelAddPage {
  import opened Wrappers
  import opened Sexagesimal
  import opened ClientExif
  import ServerGps

  /** JavaScript truthiness of the entry `dms[i]`: present and not 0. */
  predicate EntryTruthy(dms: seq<real>, i: nat) {
    i < |dms| && dms[i] != 0.0
  }

  /** `convertDMSToDecimal(dms, ref)`. A missing triple, or a first, second or third entry
      that is missing or 0 (falsy), gives `None`; otherwise degrees + minutes/60 +
      seconds/3600, unrounded, negated exactly for "S" and "W". */
  function ConvertDmsToDecimal(dms: Option<seq<real>>, ref: Option<string>): (r: Option<real>)
    ensures r.None? <==>
      dms.None? || !EntryTruthy(dms.value, 0) || !EntryTruthy(dms.value, 1) || !EntryTruthy(dms.value, 2)
    ensures r.Some? ==> r.value == ApplyRef(DecimalDegrees(dms.value[0], dms.value[1], dms.value[2]), ref)
  {
    if dms.None? || !EntryTruthy(dms.value, 0) || !EntryTruthy(dms.value, 1) || !EntryTruthy(dms.value, 2) then
      None
    else
      var degrees := dms.value[0];
      var minutes := dms.value[1];
      var seconds := dms.value[2];
      var decimal := degrees + minutes / 60.0 + seconds / 3600.0;
      Some(if ref == Some("S") || ref == Some("W") then -decimal else decimal)
  }

  /** The branch logic of `extractGPSFromImage`. It resolves `None` when the library is
      missing, reading throws, either position tag is missing, or either conversion is
      `None`, so a partial coordinate never comes back. On success the coordinate is the
      pair of conversions and each device field defaults on its own. */
  function ExtractGps(read: TagRead): (r: Option<GpsReading>)
    ensures r.Some? <==>
      read.Read? &&
      read.tags.gpsLatitude.Some? && read.tags.gpsLongitude.Some? &&
      ConvertDmsToDecimal(read.tags.gpsLatitude, read.tags.gpsLatitudeRef).Some? &&
      ConvertDmsToDecimal(read.tags.gpsLongitude, read.tags.gpsLongitudeRef).Some?
    ensures r.Some? ==>
      Some(r.value.latitude) == ConvertDmsToDecimal(read.tags.gpsLatitude, read.tags.gpsLatitudeRef) &&
      Some(r.value.longitude) == ConvertDmsToDecimal(read.tags.gpsLongitude, read.tags.gpsLongitudeRef) &&
      r.value.make == OrUnknown(read.tags.make) &&
      r.value.model == OrUnknown(read.tags.model) &&
      r.value.dateTime == OrUnknown(read.tags.dateTime)
  {
    match read
    case LibraryMissing => None
    case ReadFailed => None
    case Read(all) =>
      if all.gpsLatitude.None? || all.gpsLongitude.None? then None
      else
        var latitude := ConvertDmsToDecimal(all.gpsLatitude, all.gpsLatitudeRef);
        var longitude := ConvertDmsToDecimal(all.gpsLongitude, all.gpsLongitudeRef);
        if latitude.Some? && longitude.Some? then
          Some(GpsReading(latitude.value, longitude.value,
                          OrUnknown(all.make), OrUnknown(all.model), OrUnknown(all.dateTime)))
        else None
  }

  /** The device fields never decide whether a coordinate comes back. */
  lemma DeviceFieldsNeverBlock(tags: ExifTags, make: Option<string>, model: Option<string>, dateTime: Option<string>)
    ensures ExtractGps(Read(tags)).Some? ==
            ExtractGps(Read(tags.(make := make, model := model, dateTime := dateTime))).Some?
  {
  }

  /** Because the entries are tested for truthiness, a well-formed reading with a zero entry —
      a point on the equator or the prime meridian, or a whole number of minutes — yields no
      coordinate when the decoder hands over plain numbers. */
  lemma ZeroEntryGivesNone()
    ensures ConvertDmsToDecimal(Some([37.0, 30.0, 0.0]), Some("N")) == None
    ensures ConvertDmsToDecimal(Some([0.0, 30.0, 15.0]), Some("S")) == None
  {
  }

  /** The browser conversion agrees with the server's exact conversion (before rounding) on
      the divided-out values, whenever no entry is zero. */
  lemma {:induction false} AgreesWithServer(dms: seq<ServerGps.Rational>, ref: Option<string>)
    requires |dms| >= 3 && ServerGps.DenominatorsNonzero(dms)
    requires dms[0].num != 0 && dms[1].num != 0 && dms[2].num != 0
    ensures var divided := [ServerGps.Value(dms[0]), ServerGps.Value(dms[1]), ServerGps.Value(dms[2])];
      ConvertDmsToDecimal(Some(divided), ref) == ServerGps.ConvertDms(dms, ref, x => x)
  {
    var divided := [ServerGps.Value(dms[0]), ServerGps.Value(dms[1]), ServerGps.Value(dms[2])];
    assert divided[0] != 0.0 && divided[1] != 0.0 && divided[2] != 0.0;
  }

  /** Round trip: a signed coordinate whose degrees/minutes/seconds split has no zero part,
      written out with its hemisphere reference, converts back to itself exactly. */
  lemma {:induction false} ConvertRoundTrip(x: real, positive: string, negative: string)
    requires positive == "N" || positive == "E"
    requires negative == "S" || negative == "W"
    requires var d := ToDms(x); d.degrees != 0 && d.minutes != 0 && d.seconds != 0.0
    ensures var d := ToDms(x);
      ConvertDmsToDecimal(Some([d.degrees as real, d.minutes as real, d.seconds]),
                          Some(HemisphereOf(x, positive, negative))) == Some(x)
  {
    DmsRoundTrip(x, positive, negative);
  }

  /** The class a step indicator ends up with after `updateStepIndicator`. */
  datatype Mark = Completed | Active | Plain

  /** Steps numbered below the current one are completed, the current one is active, later
      ones (and unnumbered ones) neither. */
  function MarkFor(stepNum: int, currentStep: int): Mark {
    if stepNum < currentStep then Completed else if stepNum == currentStep then Active else Plain
  }

  /** Number of indicators, numbered by `labels`, that carry mark `m` for `current`. */
  function CountMark(labels: seq<int>, current: int, m: Mark): nat {
    if labels == [] then 0
    else CountMark(labels[..|labels| - 1], current, m) + (if MarkFor(labels[|labels| - 1], current) == m then 1 else 0)
  }

  /** The indicators numbered 1..n, in order. */
  function Numbered(n: nat): (labels: seq<int>)
    ensures |labels| == n && forall i :: 0 <= i < n ==> labels[i] == i + 1
  {
    seq(n, i => i + 1)
  }

  /** With indicators numbered 1..n and current step c in 1..n, exactly one is active and
      exactly c - 1 are completed. */
  lemma {:induction false} OneActiveStep(n: nat, c: int)
    requires 1 <= c <= n
    ensures CountMark(Numbered(n), c, Active) == 1
    ensures CountMark(Numbered(n), c, Completed) == c - 1
  {
    if n > c {
      OneActiveStep(n - 1, c);
      assert Numbered(n)[..n - 1] == Numbered(n - 1);
    } else {
      NoneActiveBelow(n - 1, c);
      assert Numbered(n)[..n - 1] == Numbered(n - 1);
    }
  }

  lemma {:induction false} NoneActiveBelow(n: nat, c: int)
    requires n < c
    ensures CountMark(Numbered(n), c, Active) == 0
    ensures CountMark(Numbered(n), c, Completed) == n
  {
    if n > 0 {
      NoneActiveBelow(n - 1, c);
      assert Numbered(n)[..n - 1] == Numbered(n - 1);
    }
  }

  /** The page's wizard state: the global `currentStep`, the `active` class of each step
      panel (`panels[k - 1]` is the element with id `step<k>`), and the class of each
      `.step` indicator, whose `data-step` numbers are `labels`. */
  class StepWizard {
    var currentStep: int
    const panels: array<bool>
    const labels: seq<int>
    const marks: array<Mark>

    ghost predicate Valid()
      reads this
    {
      1 <= currentStep <= panels.Length && marks.Length == |labels|
    }

    /** The page as loaded: `currentStep = 1`; the markup's initial classes are given. */
    constructor (initialPanels: seq<bool>, labels: seq<int>, initialMarks: seq<Mark>)
      requires |initialPanels| >= 1 && |initialMarks| == |labels|
      ensures Valid() && currentStep == 1 && this.labels == labels
      ensures panels[..] == initialPanels && marks[..] == initialMarks
      ensures fresh(panels) && fresh(marks)
    {
      currentStep := 1;
      panels := new bool[|initialPanels|](i requires 0 <= i < |initialPanels| => initialPanels[i]);
      this.labels := labels;
      marks := new Mark[|initialMarks|](i requires 0 <= i < |initialMarks| => initialMarks[i]);
    }

    /** `updateStepIndicator`: every indicator loses both classes and gets the one its number
        calls for. */
    method UpdateStepIndicator()
      requires Valid()
      modifies marks
      ensures forall i :: 0 <= i < marks.Length ==> marks[i] == MarkFor(labels[i], currentStep)
    {
      for i := 0 to marks.Length
        invariant forall j :: 0 <= j < i ==> marks[j] == MarkFor(labels[j], currentStep)
      {
        var stepNum := labels[i];
        if stepNum < currentStep {
          marks[i] := Completed;
        } else if stepNum == currentStep {
          marks[i] := Active;
        } else {
          marks[i] := Plain;
        }
      }
    }

    /** `goToStep(n)`: the current panel loses `active`, panel n gains it, `currentStep`
        becomes n, and the indicators are redrawn for n. */
    method GoToStep(stepNumber: int)
      requires Valid() && 1 <= stepNumber <= panels.Length
      modifies this, panels, marks
      ensures Valid() && currentStep == stepNumber
      ensures panels[..] == old(panels[..])[old(currentStep) - 1 := false][stepNumber - 1 := true]
      ensures forall i :: 0 <= i < marks.Length ==> marks[i] == MarkFor(labels[i], stepNumber)
    {
      panels[currentStep - 1] := false;
      panels[stepNumber - 1] := true;
      currentStep := stepNumber;
      UpdateStepIndicator();
    }
  }
}
