/**
 * The device location form (location.go): validating the submitted
 * values, writing the location file only when they are valid, clearing it,
 * and reading it back, where a missing file is the zero location.
 *
 * The location file is the `file` field of a `LocationStore`: `None` when
 * it does not exist. YAML encoding is taken to round-trip; marshalling,
 * write and read errors are not modelled.
 */
module Location {
  import opened Wrappers
  import opened Helpers

  const MaxLatitude: real := 90.0
  const MaxLongitude: real := 180.0
  const MinAltitude: real := 0.0
  const MaxAltitude: real := 10000.0
  const MinAccuracy: real := 0.0
  const MaxAccuracy: real := 10000.0

  const LatitudeError := "Invalid latitude. Should be between -90 and 90"
  const LongitudeError := "Invalid longitude. Should be between -180 and 180"
  const TimestampError := "Invalid timestamp"
  const AltitudeError := "Invalid altitude. Should be between 0 and 10000"
  const AccuracyError := "Invalid accuracy. Should be between 0 and 10000"

  /** `locationData`: the validated location. */
  datatype LocationData = LocationData(latitude: Float, longitude: Float, timestamp: Time,
                                       altitude: Float, accuracy: Float)

  /** `new(locationData)`: every field zero. */
  const ZeroLocation := LocationData(Zero, Zero, ZeroTime, Zero, Zero)

  /** `rawLocationData`: the trimmed form values. */
  datatype RawLocationData = RawLocationData(latitude: string, longitude: string, timestamp: string,
                                             altitude: string, accuracy: string)

  const EmptyRaw := RawLocationData("", "", "", "", "")

  /** The range test of the validator. As written (`strict` false) a value
      is rejected when it is below `lo` or above `hi`, which NaN never is;
      the corrected test (`strict` true) also requires a finite value. */
  predicate Accepts(f: Float, lo: real, hi: real, strict: bool)
  {
    if strict then f.Finite? && lo <= f.value <= hi
    else !Less(f, Finite(lo)) && !Less(Finite(hi), f)
  }

  /** The two tests differ only on NaN: both accept exactly the finite
      values within the bounds, and reject the infinities. */
  lemma AcceptsAgree(f: Float, lo: real, hi: real)
    requires lo <= hi
    ensures f != NaN ==> (Accepts(f, lo, hi, false) <==> Accepts(f, lo, hi, true))
    ensures Accepts(NaN, lo, hi, false) && !Accepts(NaN, lo, hi, true)
  {
  }

  /** `rawLocationData.locationData`: the fields are checked in the order
      latitude, longitude, timestamp, altitude, accuracy, and the first
      that fails names the error. An empty timestamp is `now`; an empty
      altitude or accuracy is zero. */
  function Validate(raw: RawLocationData, now: Time, parse: string -> Option<Float>,
                    parseRFC3339: string -> Option<Time>, strict: bool): (r: Result<LocationData>)
    ensures r.Failure? ==>
      r.error in {LatitudeError, LongitudeError, TimestampError, AltitudeError, AccuracyError}
    ensures r.Ok? ==>
      Accepts(r.value.latitude, -MaxLatitude, MaxLatitude, strict)
      && Accepts(r.value.longitude, -MaxLongitude, MaxLongitude, strict)
      && Accepts(r.value.altitude, MinAltitude, MaxAltitude, strict)
      && Accepts(r.value.accuracy, MinAccuracy, MaxAccuracy, strict)
    ensures r.Ok? && raw.timestamp == "" ==> r.value.timestamp == now
    ensures r.Ok? && raw.timestamp != "" ==> parseRFC3339(raw.timestamp) == Some(r.value.timestamp)
  {
    var (lat, latOk) := ParseFloat(raw.latitude, parse);
    var (lon, lonOk) := ParseFloat(raw.longitude, parse);
    var (ts, tsOk) := ParseTimestamp(raw.timestamp, now, parseRFC3339);
    var (alt, altOk) := ParseOptionalFloat(raw.altitude, parse);
    var (acc, accOk) := ParseOptionalFloat(raw.accuracy, parse);
    if !latOk || !Accepts(lat, -MaxLatitude, MaxLatitude, strict) then Failure(LatitudeError)
    else if !lonOk || !Accepts(lon, -MaxLongitude, MaxLongitude, strict) then Failure(LongitudeError)
    else if !tsOk then Failure(TimestampError)
    else if !altOk || !Accepts(alt, MinAltitude, MaxAltitude, strict) then Failure(AltitudeError)
    else if !accOk || !Accepts(acc, MinAccuracy, MaxAccuracy, strict) then Failure(AccuracyError)
    else Ok(LocationData(lat, lon, ts, alt, acc))
  }

  /** A value within the bounds, or NaN, which the comparisons of the
      validator as written cannot reject. */
  predicate InRangeOrNaN(f: Float, lo: real, hi: real)
  {
    f == NaN || (f.Finite? && lo <= f.value <= hi)
  }

  /** The validator as written: every accepted value lies within its
      bounds, unless it is NaN. */
  function LocationDataOf(raw: RawLocationData, now: Time, parse: string -> Option<Float>,
                          parseRFC3339: string -> Option<Time>): (r: Result<LocationData>)
    ensures r.Ok? ==>
      InRangeOrNaN(r.value.latitude, -MaxLatitude, MaxLatitude)
      && InRangeOrNaN(r.value.longitude, -MaxLongitude, MaxLongitude)
      && InRangeOrNaN(r.value.altitude, MinAltitude, MaxAltitude)
      && InRangeOrNaN(r.value.accuracy, MinAccuracy, MaxAccuracy)
  {
    var r := Validate(raw, now, parse, parseRFC3339, false);
    if r.Failure? then r
    else
      AcceptsAgree(r.value.latitude, -MaxLatitude, MaxLatitude);
      AcceptsAgree(r.value.longitude, -MaxLongitude, MaxLongitude);
      AcceptsAgree(r.value.altitude, MinAltitude, MaxAltitude);
      AcceptsAgree(r.value.accuracy, MinAccuracy, MaxAccuracy);
      r
  }

  /** The validator with the range tests rejecting NaN: it accepts only
      what the validator as written accepts, with the same values. */
  function LocationDataChecked(raw: RawLocationData, now: Time, parse: string -> Option<Float>,
                               parseRFC3339: string -> Option<Time>): (r: Result<LocationData>)
    ensures r.Ok? ==> LocationDataOf(raw, now, parse, parseRFC3339) == r
  {
    ValidationOrder(raw, now, parse, parseRFC3339, false);
    ValidationOrder(raw, now, parse, parseRFC3339, true);
    Validate(raw, now, parse, parseRFC3339, true)
  }

  /** Whether each field passes on its own. */
  predicate LatitudeOk(raw: RawLocationData, parse: string -> Option<Float>, strict: bool)
  {
    parse(raw.latitude).Some? && Accepts(parse(raw.latitude).value, -MaxLatitude, MaxLatitude, strict)
  }

  predicate LongitudeOk(raw: RawLocationData, parse: string -> Option<Float>, strict: bool)
  {
    parse(raw.longitude).Some? && Accepts(parse(raw.longitude).value, -MaxLongitude, MaxLongitude, strict)
  }

  predicate TimestampOk(raw: RawLocationData, parseRFC3339: string -> Option<Time>)
  {
    raw.timestamp == "" || parseRFC3339(raw.timestamp).Some?
  }

  predicate OptionalOk(val: string, parse: string -> Option<Float>, lo: real, hi: real, strict: bool)
  {
    val == "" || (parse(val).Some? && Accepts(parse(val).value, lo, hi, strict))
  }

  /** The validator accepts iff every field passes, and otherwise reports
      the first field that fails; an accepted location holds the parsed
      values, with the defaults for empty optional fields. */
  lemma ValidationOrder(raw: RawLocationData, now: Time, parse: string -> Option<Float>,
                        parseRFC3339: string -> Option<Time>, strict: bool)
    ensures var r := Validate(raw, now, parse, parseRFC3339, strict);
      var latOk := LatitudeOk(raw, parse, strict);
      var lonOk := LongitudeOk(raw, parse, strict);
      var tsOk := TimestampOk(raw, parseRFC3339);
      var altOk := OptionalOk(raw.altitude, parse, MinAltitude, MaxAltitude, strict);
      var accOk := OptionalOk(raw.accuracy, parse, MinAccuracy, MaxAccuracy, strict);
      (r.Ok? <==> latOk && lonOk && tsOk && altOk && accOk)
      && (!latOk ==> r == Failure(LatitudeError))
      && (latOk && !lonOk ==> r == Failure(LongitudeError))
      && (latOk && lonOk && !tsOk ==> r == Failure(TimestampError))
      && (latOk && lonOk && tsOk && !altOk ==> r == Failure(AltitudeError))
      && (latOk && lonOk && tsOk && altOk && !accOk ==> r == Failure(AccuracyError))
      && (r.Ok? ==> r.value.latitude == parse(raw.latitude).value
                    && r.value.longitude == parse(raw.longitude).value
                    && r.value.timestamp == (if raw.timestamp == "" then now else parseRFC3339(raw.timestamp).value)
                    && r.value.altitude == (if raw.altitude == "" then Zero else parse(raw.altitude).value)
                    && r.value.accuracy == (if raw.accuracy == "" then Zero else parse(raw.accuracy).value))
  {
  }

  /** Every location the corrected validator accepts lies within the
      documented ranges, all bounds included. */
  lemma CheckedInRange(raw: RawLocationData, now: Time, parse: string -> Option<Float>,
                       parseRFC3339: string -> Option<Time>)
    ensures var r := LocationDataChecked(raw, now, parse, parseRFC3339);
      r.Ok? ==>
        r.value.latitude.Finite? && -90.0 <= r.value.latitude.value <= 90.0
        && r.value.longitude.Finite? && -180.0 <= r.value.longitude.value <= 180.0
        && r.value.altitude.Finite? && 0.0 <= r.value.altitude.value <= 10000.0
        && r.value.accuracy.Finite? && 0.0 <= r.value.accuracy.value <= 10000.0
  {
  }

  /** Unless some field parses to NaN, the validator as written and the
      corrected one agree. */
  lemma CheckedAgrees(raw: RawLocationData, now: Time, parse: string -> Option<Float>,
                      parseRFC3339: string -> Option<Time>)
    requires parse(raw.latitude) != Some(NaN) && parse(raw.longitude) != Some(NaN)
    requires parse(raw.altitude) != Some(NaN) && parse(raw.accuracy) != Some(NaN)
    ensures LocationDataChecked(raw, now, parse, parseRFC3339) == LocationDataOf(raw, now, parse, parseRFC3339)
  {
    ValidationOrder(raw, now, parse, parseRFC3339, false);
    ValidationOrder(raw, now, parse, parseRFC3339, true);
    if parse(raw.latitude).Some? {
      AcceptsAgree(parse(raw.latitude).value, -MaxLatitude, MaxLatitude);
    }
    if parse(raw.longitude).Some? {
      AcceptsAgree(parse(raw.longitude).value, -MaxLongitude, MaxLongitude);
    }
    if parse(raw.altitude).Some? {
      AcceptsAgree(parse(raw.altitude).value, MinAltitude, MaxAltitude);
    }
    if parse(raw.accuracy).Some? {
      AcceptsAgree(parse(raw.accuracy).value, MinAccuracy, MaxAccuracy);
    }
  }

  /** `strconv.ParseFloat` accepts "NaN", and the validator as written
      then accepts a NaN latitude, which the corrected one rejects. */
  lemma NaNLatitudeAccepted(now: Time, parse: string -> Option<Float>, parseRFC3339: string -> Option<Time>)
    requires parse("NaN") == Some(NaN) && parse("0") == Some(Zero)
    ensures LocationDataOf(RawLocationData("NaN", "0", "", "", ""), now, parse, parseRFC3339)
      == Ok(LocationData(NaN, Zero, now, Zero, Zero))
    ensures LocationDataChecked(RawLocationData("NaN", "0", "", "", ""), now, parse, parseRFC3339)
      == Failure(LatitudeError)
  {
  }

  /** The device's location file. */
  class LocationStore {
    /** The stored location, or `None` when the file does not exist. */
    var file: Option<LocationData>

    constructor (file: Option<LocationData>)
      ensures this.file == file
    {
      this.file := file;
    }

    /** `readLocationFile`: a missing file is the zero location. */
    method ReadLocationFile() returns (location: LocationData)
      ensures file.None? ==> location == ZeroLocation
      ensures file.Some? ==> location == file.value
    {
      if file.None? {
        return ZeroLocation;
      }
      return file.value;
    }

    /** `handleLocationPostRequest`: the "clear" action stores the zero
        location without validation; otherwise the form's timestamp is
        replaced by the current time, and the location is validated and
        stored only when valid. Returns the values to show and the error.
        The program validates as written (`strict` false); `strict` true
        is the corrected validator. */
    method HandleLocationPostRequest(action: string, form: RawLocationData, now: Time,
                                     format: Time -> string, parse: string -> Option<Float>,
                                     parseRFC3339: string -> Option<Time>, strict: bool)
      returns (shown: RawLocationData, err: Option<Error>)
      modifies this
      ensures action == "clear" ==> shown == EmptyRaw && err == None && file == Some(ZeroLocation)
      ensures action != "clear" ==>
        var raw := form.(timestamp := format(now));
        shown == raw &&
        match Validate(raw, now, parse, parseRFC3339, strict)
        case Failure(e) => err == Some(ClientError(e)) && file == old(file)
        case Ok(l) => err == None && file == Some(l)
    {
      if action == "clear" {
        file := Some(ZeroLocation);
        return EmptyRaw, None;
      }
      shown := form.(timestamp := format(now));
      var location := Validate(shown, now, parse, parseRFC3339, strict);
      if location.Failure? {
        return shown, Some(ClientError(location.error));
      }
      file := Some(location.value);
      err := None;
    }
  }

  /** Posting the form and reading the file back: a valid form's location
      is read back, an invalid one leaves what was read before, and a
      cleared location reads as zero. */
  method PostThenRead(initial: Option<LocationData>, action: string, form: RawLocationData, now: Time,
                      format: Time -> string, parse: string -> Option<Float>,
                      parseRFC3339: string -> Option<Time>, strict: bool)
    returns (err: Option<Error>, location: LocationData)
    ensures action == "clear" ==> err == None && location == ZeroLocation
    ensures action != "clear" ==>
      (err.None? <==> Validate(form.(timestamp := format(now)), now, parse, parseRFC3339, strict).Ok?)
    ensures action != "clear" && err.None? ==>
      Ok(location) == Validate(form.(timestamp := format(now)), now, parse, parseRFC3339, strict)
    ensures err.Some? ==>
      err.value.ClientError? && location == (if initial.None? then ZeroLocation else initial.value)
  {
    var store := new LocationStore(initial);
    var _, e := store.HandleLocationPostRequest(action, form, now, format, parse, parseRFC3339, strict);
    err := e;
    location := store.ReadLocationFile();
  }

  /** Posting latitude "NaN" with the handler as written stores the NaN
      location and reads it back; the corrected handler rejects the post
      and keeps the earlier file. */
  method NaNPostStored(initial: Option<LocationData>, now: Time, format: Time -> string,
                       parse: string -> Option<Float>, parseRFC3339: string -> Option<Time>)
    returns (written: LocationData, corrected: Option<Error>)
    requires parse("NaN") == Some(NaN) && parse("0") == Some(Zero)
    requires parseRFC3339(format(now)).Some?
    ensures written.latitude == NaN && written.longitude == Zero
    ensures written.timestamp == (if format(now) == "" then now else parseRFC3339(format(now)).value)
    ensures corrected == Some(ClientError(LatitudeError))
  {
    var form := RawLocationData("NaN", "0", "", "", "");
    var err, location := PostThenRead(initial, "save", form, now, format, parse, parseRFC3339, false);
    assert Validate(form.(timestamp := format(now)), now, parse, parseRFC3339, false)
      == Ok(LocationData(NaN, Zero, if format(now) == "" then now else parseRFC3339(format(now)).value,
                         Zero, Zero));
    written := location;
    var store := new LocationStore(initial);
    var _, e := store.HandleLocationPostRequest("save", form, now, format, parse, parseRFC3339, true);
    corrected := e;
  }
}
