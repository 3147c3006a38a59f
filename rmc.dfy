/**
 * Decoding one NMEA 0183 RMC sentence ("$GNRMC,hhmmss,A,ddmm.mmmm,N,dddmm.mmmm,E,...")
 * into a signed latitude and longitude in decimal degrees, the way
 * `readGPSData` does it for each line read from the receiver.
 */
module Rmc {
  import opened Wrappers
  import Strings
  import opened Decimal

  /** The only sentence the tracker accepts: RMC from a multi-constellation receiver. */
  const SentenceId: string := "$GNRMC"
  /** Fields 0 to 6 must be present. */
  const MinFields: nat := 7
  /** Width of the degree prefix of a latitude field (ddmm.mmmm). */
  const LatitudeDegreeDigits: nat := 2
  /** Width of the degree prefix of a longitude field (dddmm.mmmm). */
  const LongitudeDegreeDigits: nat := 3

  /** The width of the degree prefix of position field k: field 3 is the latitude, field 5 the longitude. */
  function DegreeDigits(k: nat): nat
  {
    if k == 3 then LatitudeDegreeDigits else LongitudeDegreeDigits
  }

  /** Why a line yields no position. */
  datatype DecodeError =
    | InvalidLine      // not a $GNRMC sentence, or fewer than 7 fields
    | IncompleteData   // latitude, its hemisphere, longitude or its hemisphere is empty
    | MalformedNumber  // a magnitude that is not a decimal literal

  /** The object `readGPSData` resolves with, its numbers as JavaScript has them (NaN included). */
  datatype RawLocation = RawLocation(latitude: Num, longitude: Num)

  /** A decoded position in signed decimal degrees: north and east are positive. */
  datatype Location = Location(latitude: real, longitude: real)

  predicate NoCommas(fields: seq<string>)
  {
    forall i :: 0 <= i < |fields| ==> ',' !in fields[i]
  }

  /** The sentence test: the first field is exactly $GNRMC and there are at least 7 fields. */
  predicate IsRmc(fields: seq<string>)
  {
    |fields| >= MinFields && fields[0] == SentenceId
  }

  /** The four position fields (3 to 6) are all non-empty. */
  predicate HasPosition(fields: seq<string>)
    requires |fields| >= MinFields
  {
    fields[3] != [] && fields[4] != [] && fields[5] != [] && fields[6] != []
  }

  /**
   * `parseFloat(f.slice(0, w)) + parseFloat(f.slice(w)) / 60`: the first w
   * characters are whole degrees and the rest are minutes.
   */
  function Magnitude(field: string, degreeDigits: nat): (m: Num)
    ensures m.Finite? ==> m.value >= 0.0
  {
    Plus(ParseFloat(Strings.Take(field, degreeDigits)),
         Over(ParseFloat(Strings.Drop(field, degreeDigits)), 60.0))
  }

  /** The hemisphere rule: the magnitude is kept when the flag is exactly the positive one, negated otherwise. */
  function Signed(flag: string, positive: string, m: Num): Num
  {
    if flag == positive then m else Negate(m)
  }

  /**
   * The decoder with the checks and arithmetic of `readGPSData`: a line that
   * passes both checks resolves with a location even when a magnitude is not a
   * number (NaN). Magnitudes are read by the strict `ParseFloat`, so a part
   * with a numeric prefix and trailing junk is NaN here.
   */
  function DecodeAsWritten(line: string): (r: Result<RawLocation, DecodeError>)
    ensures r.Err? ==> r.error != MalformedNumber
    ensures r.Ok? ==> IsRmc(Strings.Split(line, ',')) && HasPosition(Strings.Split(line, ','))
  {
    var fields := Strings.Split(line, ',');
    if fields[0] == SentenceId && |fields| >= MinFields then
      if fields[3] != [] && fields[4] != [] && fields[5] != [] && fields[6] != [] then
        Ok(RawLocation(
          Signed(fields[4], "N", Magnitude(fields[3], LatitudeDegreeDigits)),
          Signed(fields[6], "E", Magnitude(fields[5], LongitudeDegreeDigits))))
      else
        Err(IncompleteData)
    else
      Err(InvalidLine)
  }

  /**
   * The decoder with the NaN case surfaced as MalformedNumber: it agrees with
   * DecodeAsWritten on every line, except that a location with a NaN in it
   * becomes an error instead.
   */
  function Decode(line: string): (r: Result<Location, DecodeError>)
    ensures r.Ok? ==> DecodeAsWritten(line) == Ok(RawLocation(Finite(r.value.latitude), Finite(r.value.longitude)))
    ensures r.Err? && r.error != MalformedNumber ==> DecodeAsWritten(line) == Err(r.error)
    ensures r == Err(MalformedNumber) <==>
      DecodeAsWritten(line).Ok? && (DecodeAsWritten(line).value.latitude.NaN? || DecodeAsWritten(line).value.longitude.NaN?)
  {
    match DecodeAsWritten(line)
    case Err(e) => Err(e)
    case Ok(raw) =>
      if raw.latitude.Finite? && raw.longitude.Finite? then Ok(Location(raw.latitude.value, raw.longitude.value))
      else Err(MalformedNumber)
  }

  /** A line whose first field is not $GNRMC, or that has fewer than 7 fields, is an invalid line. */
  lemma RejectsUnrecognised(fields: seq<string>)
    requires |fields| >= 1 && NoCommas(fields)
    requires !IsRmc(fields)
    ensures DecodeAsWritten(Strings.Join(fields, ',')) == Err(InvalidLine)
    ensures Decode(Strings.Join(fields, ',')) == Err(InvalidLine)
  {
    Strings.SplitJoin(fields, ',');
  }

  /** A $GNRMC line with 7 or more fields but an empty position field is incomplete. */
  lemma RejectsIncomplete(fields: seq<string>)
    requires NoCommas(fields) && IsRmc(fields)
    requires !HasPosition(fields)
    ensures DecodeAsWritten(Strings.Join(fields, ',')) == Err(IncompleteData)
    ensures Decode(Strings.Join(fields, ',')) == Err(IncompleteData)
  {
    Strings.SplitJoin(fields, ',');
  }

  /** A complete $GNRMC line resolves with the signed degree-minute values of fields 3 to 6. */
  lemma DecodeFields(fields: seq<string>)
    requires NoCommas(fields) && IsRmc(fields) && HasPosition(fields)
    ensures DecodeAsWritten(Strings.Join(fields, ',')) == Ok(RawLocation(
      Signed(fields[4], "N", Magnitude(fields[3], LatitudeDegreeDigits)),
      Signed(fields[6], "E", Magnitude(fields[5], LongitudeDegreeDigits))))
  {
    Strings.SplitJoin(fields, ',');
  }

  lemma SignedFinite(flag: string, positive: string, v: real)
    ensures Signed(flag, positive, Finite(v)) == Finite(if flag == positive then v else -v)
  {
  }

  /** Every line lands in exactly one outcome, and the sentence test comes before the emptiness test. */
  lemma Classification(line: string)
    ensures var fields := Strings.Split(line, ',');
      && (Decode(line) == Err(InvalidLine) <==> !IsRmc(fields))
      && (Decode(line) == Err(IncompleteData) <==> IsRmc(fields) && !HasPosition(fields))
      && (Decode(line).Ok? || Decode(line) == Err(MalformedNumber) ==> IsRmc(fields) && HasPosition(fields))
  {
  }

  /** The sign of each coordinate follows its flag: only "N" (resp. "E") gives a non-negative value. */
  lemma HemisphereSign(line: string)
    requires Decode(line).Ok?
    ensures var fields, loc := Strings.Split(line, ','), Decode(line).value;
      && (fields[4] == "N" ==> loc.latitude >= 0.0)
      && (fields[4] != "N" ==> loc.latitude <= 0.0)
      && (fields[6] == "E" ==> loc.longitude >= 0.0)
      && (fields[6] != "E" ==> loc.longitude <= 0.0)
  {
  }

  // ---------------------------------------------------------------------------
  // Magnitudes that are not numbers.

  /**
   * A magnitude is NaN when its degree prefix or its minutes open with a
   * character no number can begin with (not white space, a sign, "I", a digit
   * or a point): `parseFloat` reads nothing from that part.
   */
  lemma MagnitudeNaN(field: string, degreeDigits: nat, i: nat)
    requires i < |field| && (i == 0 || i == degreeDigits) && !MayOpenNumber(field[i])
    ensures Magnitude(field, degreeDigits) == NaN
  {
    var head, tail := Strings.Take(field, degreeDigits), Strings.Drop(field, degreeDigits);
    assert field == head + tail;
    if i < |head| {
      assert head[i] == field[i];
      ParseRejects(head, i);
    } else {
      assert tail[i - |head|] == field[i];
      ParseRejects(tail, i - |head|);
    }
  }

  /** A magnitude field no longer than its degree prefix has no minutes, and parseFloat("") is NaN. */
  lemma MagnitudeWithoutMinutes(field: string, degreeDigits: nat)
    requires |field| <= degreeDigits
    ensures Magnitude(field, degreeDigits) == NaN
  {
  }

  /**
   * As written, a complete $GNRMC line whose latitude (field 3) or longitude
   * (field 5) has a degree prefix or minutes opening with a character no
   * number can begin with still resolves, with NaN in place of that coordinate.
   */
  lemma AsWrittenResolvesNaN(fields: seq<string>, k: nat, i: nat)
    requires NoCommas(fields) && IsRmc(fields) && HasPosition(fields)
    requires k == 3 || k == 5
    requires i < |fields[k]| && (i == 0 || i == DegreeDigits(k)) && !MayOpenNumber(fields[k][i])
    ensures DecodeAsWritten(Strings.Join(fields, ',')).Ok?
    ensures k == 3 ==> DecodeAsWritten(Strings.Join(fields, ',')).value.latitude == NaN
    ensures k == 5 ==> DecodeAsWritten(Strings.Join(fields, ',')).value.longitude == NaN
  {
    DecodeFields(fields);
    MagnitudeNaN(fields[k], DegreeDigits(k), i);
  }

  /** The same line is rejected as MalformedNumber by the corrected decoder. */
  lemma RejectsMalformed(fields: seq<string>, k: nat, i: nat)
    requires NoCommas(fields) && IsRmc(fields) && HasPosition(fields)
    requires k == 3 || k == 5
    requires i < |fields[k]| && (i == 0 || i == DegreeDigits(k)) && !MayOpenNumber(fields[k][i])
    ensures Decode(Strings.Join(fields, ',')) == Err(MalformedNumber)
  {
    AsWrittenResolvesNaN(fields, k, i);
  }

  /**
   * A receiver line with a latitude of "48" and no minutes: as written it
   * resolves with a NaN latitude; the corrected decoder rejects it.
   */
  lemma NaNExample()
    ensures DecodeAsWritten(Strings.Join(["$GNRMC", "", "", "48", "N", "01131.000", "E"], ',')).Ok?
    ensures DecodeAsWritten(Strings.Join(["$GNRMC", "", "", "48", "N", "01131.000", "E"], ',')).value.latitude == NaN
    ensures Decode(Strings.Join(["$GNRMC", "", "", "48", "N", "01131.000", "E"], ',')) == Err(MalformedNumber)
  {
    var fields := ["$GNRMC", "", "", "48", "N", "01131.000", "E"];
    assert NoCommas(fields) && IsRmc(fields) && HasPosition(fields);
    DecodeFields(fields);
    MagnitudeWithoutMinutes(fields[3], LatitudeDegreeDigits);
  }

  // ---------------------------------------------------------------------------
  // The other direction: writing a sentence, to state what decoding recovers.

  /** An angle as a receiver writes it: whole degrees, then minutes with an optional fraction. */
  datatype Angle = Angle(degrees: nat, minutes: string, fraction: string)

  predicate ValidAngle(a: Angle, degreeDigits: nat)
  {
    && a.degrees < Pow10(degreeDigits)
    && IsDigits(a.minutes) && IsDigits(a.fraction)
    && |a.minutes| + |a.fraction| > 0
  }

  /** The angle in decimal degrees: degrees + minutes / 60. */
  function AngleDegrees(a: Angle): real
    requires IsDigits(a.minutes) && IsDigits(a.fraction)
  {
    a.degrees as real + Value(a.minutes, a.fraction) / 60.0
  }

  /** The field text, degrees padded to their fixed width: Angle(48, "07", "038") is "4807.038". */
  function AngleText(a: Angle, degreeDigits: nat): (s: string)
    requires ValidAngle(a, degreeDigits)
    ensures ',' !in s && s != []
  {
    var s := PadDigits(a.degrees, degreeDigits) + a.minutes + "." + a.fraction;
    assert s[|s| - 1 - |a.fraction|] == '.';
    assert forall i :: 0 <= i < |s| ==> IsDigit(s[i]) || s[i] == '.';
    s
  }

  /** An RMC sentence; `rest` stands for speed, course, date and whatever follows. */
  datatype Sentence = Sentence(
    time: string, status: string,
    latitude: Angle, latitudeFlag: string,
    longitude: Angle, longitudeFlag: string,
    rest: seq<string>)

  predicate ValidSentence(s: Sentence)
  {
    && ValidAngle(s.latitude, LatitudeDegreeDigits)
    && ValidAngle(s.longitude, LongitudeDegreeDigits)
    && s.latitudeFlag != [] && s.longitudeFlag != []
    && ',' !in s.time && ',' !in s.status
    && ',' !in s.latitudeFlag && ',' !in s.longitudeFlag
    && NoCommas(s.rest)
  }

  function Fields(s: Sentence): (fields: seq<string>)
    requires ValidSentence(s)
    ensures NoCommas(fields) && IsRmc(fields) && HasPosition(fields)
  {
    var fields := [SentenceId, s.time, s.status,
                   AngleText(s.latitude, LatitudeDegreeDigits), s.latitudeFlag,
                   AngleText(s.longitude, LongitudeDegreeDigits), s.longitudeFlag] + s.rest;
    forall i | 0 <= i < |fields| ensures ',' !in fields[i] {
      if i >= 7 {
        assert fields[i] == s.rest[i - 7];
      }
    }
    fields
  }

  /** The line a receiver sends for s. */
  function Format(s: Sentence): string
    requires ValidSentence(s)
  {
    Strings.Join(Fields(s), ',')
  }

  /** Slicing an angle's text at its degree width separates degrees from minutes. */
  lemma SliceAngleText(a: Angle, degreeDigits: nat)
    requires ValidAngle(a, degreeDigits)
    ensures Strings.Take(AngleText(a, degreeDigits), degreeDigits) == PadDigits(a.degrees, degreeDigits)
    ensures Strings.Drop(AngleText(a, degreeDigits), degreeDigits) == a.minutes + "." + a.fraction
  {
    var prefix := PadDigits(a.degrees, degreeDigits);
    var suffix := a.minutes + "." + a.fraction;
    assert AngleText(a, degreeDigits) == prefix + suffix;
    Strings.TakeDropAppend(prefix, suffix);
  }

  /** The degree-minute conversion recovers the angle: "4807.038" is 48 + 7.038 / 60. */
  lemma {:induction false} MagnitudeOfAngle(a: Angle, degreeDigits: nat)
    requires ValidAngle(a, degreeDigits) && degreeDigits > 0
    ensures Magnitude(AngleText(a, degreeDigits), degreeDigits) == Finite(AngleDegrees(a))
  {
    DegreesOfAngleText(a, degreeDigits);
    MinutesOfAngleText(a, degreeDigits);
    MagnitudeOfParts(AngleText(a, degreeDigits), degreeDigits, a.degrees as real, Value(a.minutes, a.fraction));
  }

  /** The degree prefix of a written angle reads as its whole degrees. */
  lemma DegreesOfAngleText(a: Angle, degreeDigits: nat)
    requires ValidAngle(a, degreeDigits) && degreeDigits > 0
    ensures ParseFloat(Strings.Take(AngleText(a, degreeDigits), degreeDigits)) == Finite(a.degrees as real)
  {
    SliceAngleText(a, degreeDigits);
    ParseDigits(PadDigits(a.degrees, degreeDigits));
  }

  /** The rest of a written angle reads as its minutes. */
  lemma MinutesOfAngleText(a: Angle, degreeDigits: nat)
    requires ValidAngle(a, degreeDigits)
    ensures ParseFloat(Strings.Drop(AngleText(a, degreeDigits), degreeDigits)) == Finite(Value(a.minutes, a.fraction))
  {
    SliceAngleText(a, degreeDigits);
    ParsePointed(a.minutes, a.fraction);
  }

  /** Degrees and minutes that parse combine as degrees + minutes / 60. */
  lemma MagnitudeOfParts(field: string, degreeDigits: nat, degrees: real, minutes: real)
    requires ParseFloat(Strings.Take(field, degreeDigits)) == Finite(degrees)
    requires ParseFloat(Strings.Drop(field, degreeDigits)) == Finite(minutes)
    ensures Magnitude(field, degreeDigits) == Finite(degrees + minutes / 60.0)
  {
  }

  /** The signed decimal degrees a flag gives an angle. */
  function SignedDegrees(a: Angle, flag: string, positive: string): real
    requires IsDigits(a.minutes) && IsDigits(a.fraction)
  {
    if flag == positive then AngleDegrees(a) else -AngleDegrees(a)
  }

  /** As written, a well-formed sentence resolves with finite values. */
  lemma DecodeAsWrittenFormat(s: Sentence)
    requires ValidSentence(s)
    ensures DecodeAsWritten(Format(s)) == Ok(RawLocation(
      Finite(SignedDegrees(s.latitude, s.latitudeFlag, "N")),
      Finite(SignedDegrees(s.longitude, s.longitudeFlag, "E"))))
  {
    var fields := Fields(s);
    var dlat, dlon := AngleDegrees(s.latitude), AngleDegrees(s.longitude);
    var mlat := Magnitude(fields[3], LatitudeDegreeDigits);
    var mlon := Magnitude(fields[5], LongitudeDegreeDigits);
    assert mlat == Finite(dlat) by {
      MagnitudeOfAngle(s.latitude, LatitudeDegreeDigits);
    }
    assert mlon == Finite(dlon) by {
      MagnitudeOfAngle(s.longitude, LongitudeDegreeDigits);
    }
    assert DecodeAsWritten(Format(s)) == Ok(RawLocation(Signed(fields[4], "N", mlat), Signed(fields[6], "E", mlon))) by {
      DecodeFields(fields);
    }
    SignedFinite(fields[4], "N", dlat);
    SignedFinite(fields[6], "E", dlon);
    assert fields[4] == s.latitudeFlag && fields[6] == s.longitudeFlag;
    assert SignedDegrees(s.latitude, s.latitudeFlag, "N") == if fields[4] == "N" then dlat else -dlat;
    assert SignedDegrees(s.longitude, s.longitudeFlag, "E") == if fields[6] == "E" then dlon else -dlon;
  }

  /** Decoding a well-formed sentence gives back its angles, signed by their flags. */
  lemma DecodeFormat(s: Sentence)
    requires ValidSentence(s)
    ensures Decode(Format(s)) == Ok(Location(
      SignedDegrees(s.latitude, s.latitudeFlag, "N"),
      SignedDegrees(s.longitude, s.longitudeFlag, "E")))
  {
    DecodeAsWrittenFormat(s);
  }

  /**
   * Angles within range decode within range: fewer than 90 (resp. 180) degrees
   * and fewer than 60 whole minutes give a latitude strictly between -90 and 90
   * (resp. a longitude strictly between -180 and 180).
   */
  lemma DecodeInRange(s: Sentence)
    requires ValidSentence(s)
    requires s.latitude.degrees < 90 && DigitsValue(s.latitude.minutes) < 60
    requires s.longitude.degrees < 180 && DigitsValue(s.longitude.minutes) < 60
    ensures Decode(Format(s)).Ok?
    ensures -90.0 < Decode(Format(s)).value.latitude < 90.0
    ensures -180.0 < Decode(Format(s)).value.longitude < 180.0
  {
    DecodeFormat(s);
    FractionBelowOne(s.latitude.minutes, s.latitude.fraction);
    FractionBelowOne(s.longitude.minutes, s.longitude.fraction);
  }

  /**
   * The decoder checks no range: a latitude field of 90 degrees or more is
   * decoded as it stands, to 90 or beyond.
   */
  lemma NoRangeCheck(s: Sentence)
    requires ValidSentence(s) && s.latitudeFlag == "N" && s.latitude.degrees >= 90
    ensures Decode(Format(s)).Ok? && Decode(Format(s)).value.latitude >= 90.0
  {
    DecodeFormat(s);
    FractionBelowOne(s.latitude.minutes, s.latitude.fraction);
  }

  /** "4807.038" is 48 + 7.038 / 60 degrees and "01131.000" is 11 + 31 / 60 degrees. */
  lemma ExampleAngles()
    ensures AngleDegrees(Angle(48, "07", "038")) == 48.0 + 7.038 / 60.0
    ensures AngleDegrees(Angle(11, "31", "000")) == 11.0 + 31.0 / 60.0
  {
    assert Value("07", "038") == 7.038 by {
      assert DigitsValue("07") == 7 && DigitsValue("038") == 38;
      assert Pow10(|"038"|) == 1000;
    }
    assert Value("31", "000") == 31.0 by {
      assert DigitsValue("31") == 31 && DigitsValue("000") == 0;
      assert Pow10(|"000"|) == 1000;
    }
  }

  /** The degree-minute conversion of the example latitude field, read from the text itself. */
  lemma ExampleLatitude()
    ensures Magnitude("4807.038", LatitudeDegreeDigits) == Finite(48.0 + 7.038 / 60.0)
  {
    var a := Angle(48, "07", "038");
    ExampleTexts();
    MagnitudeOfAngle(a, LatitudeDegreeDigits);
    ExampleAngles();
  }

  /** The degree-minute conversion of the example longitude field, read from the text itself. */
  lemma ExampleLongitude()
    ensures Magnitude("01131.000", LongitudeDegreeDigits) == Finite(11.0 + 31.0 / 60.0)
  {
    var a := Angle(11, "31", "000");
    ExampleTexts();
    MagnitudeOfAngle(a, LongitudeDegreeDigits);
    ExampleAngles();
  }

  /** The fields of the sentence every RMC description quotes. */
  lemma ExampleFields()
    ensures Fields(Sentence("123519", "A", Angle(48, "07", "038"), "N", Angle(11, "31", "000"), "E",
                            ["022.4", "084.4", "230394", "003.1", "W"]))
         == ["$GNRMC", "123519", "A", "4807.038", "N", "01131.000", "E",
             "022.4", "084.4", "230394", "003.1", "W"]
  {
    ExampleTexts();
  }

  /** How the receiver writes the two example angles. */
  lemma ExampleTexts()
    ensures AngleText(Angle(48, "07", "038"), LatitudeDegreeDigits) == "4807.038"
    ensures AngleText(Angle(11, "31", "000"), LongitudeDegreeDigits) == "01131.000"
  {
    assert PadDigits(48, 2) == "48";
    assert PadDigits(11, 3) == "011";
  }

  /** The sentence every RMC description quotes, with its position decoded. */
  lemma ReceiverExample()
    ensures Decode(Strings.Join(["$GNRMC", "123519", "A", "4807.038", "N", "01131.000", "E",
                                 "022.4", "084.4", "230394", "003.1", "W"], ','))
         == Ok(Location(48.0 + 7.038 / 60.0, 11.0 + 31.0 / 60.0))
  {
    var s := Sentence("123519", "A", Angle(48, "07", "038"), "N", Angle(11, "31", "000"), "E",
                      ["022.4", "084.4", "230394", "003.1", "W"]);
    ExampleFields();
    DecodeFormat(s);
    ExampleAngles();
  }
}
