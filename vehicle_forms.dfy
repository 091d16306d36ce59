/**
 * The vehicle form (web/veiculo/forms.py): `clean_ano`, `clean_chassi` and
 * the plate field, each on its own and inside the chain Django runs for a
 * field of a model form: strip the input, apply the form field's own checks
 * (required, maximum length, validators; validators are skipped for an
 * empty value), then the `clean_<field>` method, then the model field's
 * validators on what the method returned.
 */
module VehicleForms {
  import opened Wrappers
  import opened Text
  import Vehicles

  // ---------------------------------------------------------------------
  // clean_ano

  datatype YearError = YearRequired | YearOutOfRange(maxYear: int) | YearBelowMinimum | YearAboveMaximum

  /** `clean_ano`: rejects a truthy year outside 1900..currentYear+1; a
      missing year or 0 (falsy in Python) passes untouched. */
  function CleanYear(year: Option<int>, currentYear: int): (r: Result<Option<int>, YearError>)
    ensures r.Failure? <==>
      year.Some? && year.value != 0 && (year.value < Vehicles.MinYear || year.value > currentYear + 1)
    ensures r.Failure? ==> r.error == YearOutOfRange(currentYear + 1)
    ensures r.Success? ==> r.value == year
  {
    if year.Some? && year.value != 0 && (year.value < 1900 || year.value > currentYear + 1) then
      Failure(YearOutOfRange(currentYear + 1))
    else
      Success(year)
  }

  /** The year field of the form: required by the model (no `blank=True`),
      then `clean_ano`, then the model's year validators, whose upper bound
      was fixed in `bootYear`. */
  function YearField(input: Option<int>, currentYear: int, bootYear: int): (r: Result<int, YearError>)
    ensures r.Success? <==>
      input.Some? && Vehicles.ValidYear(input.value, bootYear) && input.value <= currentYear + 1
    ensures r.Success? ==> r.value == input.value
  {
    if input.None? then Failure(YearRequired)
    else match CleanYear(input, currentYear)
      case Failure(e) => Failure(e)
      case Success(y) =>
        if y.value < Vehicles.MinYear then Failure(YearBelowMinimum)
        else if y.value > bootYear + 1 then Failure(YearAboveMaximum)
        else Success(y.value)
  }

  /** 0 slips through `clean_ano` but the model's minimum rejects it. */
  lemma ZeroYearCaughtByModel(currentYear: int, bootYear: int)
    ensures CleanYear(Some(0), currentYear) == Success(Some(0))
    ensures YearField(Some(0), currentYear, bootYear) == Failure(YearBelowMinimum)
  {
  }

  // ---------------------------------------------------------------------
  // clean_chassi

  datatype ChassisError = ForbiddenLetter | WrongLength | ChassisTooLong | ChassisNullCharacter | ChassisPattern

  /** `chassi.upper().replace(' ', '').replace('-', '')`: the upper-cased
      characters of the input other than spaces and hyphens. */
  function NormalizeChassis(s: string): (r: string)
    ensures ' ' !in r && '-' !in r
    ensures |r| <= |s|
    ensures (' ' in s || '-' in s) ==> |r| < |s|
    ensures forall i :: 0 <= i < |r| ==> NotLower(r[i])
    ensures forall x :: x in r <==> x in Upper(s) && x != ' ' && x != '-'
  {
    var u := Upper(s);
    assert forall x :: x in u ==> NotLower(x) by {
      forall x | x in u ensures NotLower(x) {
        var j :| 0 <= j < |u| && u[j] == x;
        UpperCharIdempotent(s[j]);
      }
    }
    assert ' ' in s ==> ' ' in u by {
      if ' ' in s { var i :| 0 <= i < |s| && s[i] == ' '; assert u[i] == ' '; }
    }
    assert '-' in s ==> '-' in u by {
      if '-' in s { var i :| 0 <= i < |s| && s[i] == '-'; assert u[i] == '-'; }
    }
    var nospace := RemoveAll(u, ' ');
    assert '-' in u ==> '-' in nospace;
    RemoveAll(nospace, '-')
  }

  predicate HasForbiddenLetter(s: string) {
    'I' in s || 'O' in s || 'Q' in s
  }

  /** `clean_chassi`: an empty or absent chassis comes back as it was;
      otherwise the normalised text is rejected first for I, O or Q, then
      for a length other than 17, and returned when it passes both. */
  function CleanChassis(chassis: Option<string>): (r: Result<Option<string>, ChassisError>)
    ensures (chassis.None? || chassis.value == "") ==> r == Success(chassis)
    ensures chassis.Some? && chassis.value != "" ==>
      var n := NormalizeChassis(chassis.value);
      && (r.Failure? <==> HasForbiddenLetter(n) || |n| != 17)
      && (HasForbiddenLetter(n) ==> r == Failure(ForbiddenLetter))
      && (!HasForbiddenLetter(n) && |n| != 17 ==> r == Failure(WrongLength))
      && (r.Success? ==> r.value == Some(n))
  {
    if chassis.Some? && chassis.value != "" then
      var n := NormalizeChassis(chassis.value);
      if HasForbiddenLetter(n) then Failure(ForbiddenLetter)
      else if |n| != 17 then Failure(WrongLength)
      else Success(Some(n))
    else
      Success(chassis)
  }

  /** A character that `upper()` leaves alone. */
  predicate NotLower(c: char) {
    UpperChar(c) == c
  }

  lemma UpperCharIdempotent(c: char)
    ensures NotLower(UpperChar(c))
  {
  }

  /** What `clean_chassi` returns for a non-empty chassis is upper case,
      has no spaces or hyphens, has 17 characters and none is I, O or Q. */
  lemma {:induction false} CleanChassisOutput(chassis: string)
    requires CleanChassis(Some(chassis)).Success?
    requires chassis != ""
    ensures var out := CleanChassis(Some(chassis)).value;
      && out.Some?
      && |out.value| == 17
      && ' ' !in out.value && '-' !in out.value
      && !HasForbiddenLetter(out.value)
      && forall i :: 0 <= i < |out.value| ==> NotLower(out.value[i])
  {
    var u := Upper(chassis);
    forall i | 0 <= i < |u| ensures NotLower(u[i]) {
      UpperCharIdempotent(chassis[i]);
    }
    var n := NormalizeChassis(chassis);
    assert n == RemoveAll(RemoveAll(u, ' '), '-');
    forall i | 0 <= i < |n| ensures NotLower(n[i]) {
      assert n[i] in n;
      assert n[i] in u;
    }
  }

  /** Cleaning an accepted chassis again returns it unchanged. */
  lemma {:induction false} CleanChassisIdempotent(chassis: string)
    requires chassis != ""
    requires CleanChassis(Some(chassis)).Success?
    ensures CleanChassis(CleanChassis(Some(chassis)).value) == CleanChassis(Some(chassis))
  {
    CleanChassisOutput(chassis);
    var out := CleanChassis(Some(chassis)).value.value;
    assert Upper(out) == out;
    assert NormalizeChassis(out) == out;
  }

  /** Text that is already upper case and free of spaces and hyphens is
      its own normal form. */
  lemma NormalizeFixed(s: string)
    requires forall i :: 0 <= i < |s| ==> NotLower(s[i])
    requires ' ' !in s && '-' !in s
    ensures NormalizeChassis(s) == s
  {
    assert Upper(s) == s;
  }

  /** The forbidden-letter check runs before the length check: a chassis
      with I, O or Q (after upper-casing) reports the letter, whatever its
      length. */
  lemma ForbiddenLetterReportedFirst(s: string)
    requires HasForbiddenLetter(Upper(s))
    ensures CleanChassis(Some(s)) == Failure(ForbiddenLetter)
  {
    var u := Upper(s);
    var n := NormalizeChassis(s);
    assert n == RemoveAll(RemoveAll(u, ' '), '-');
    assert HasForbiddenLetter(RemoveAll(u, ' '));
    assert HasForbiddenLetter(n);
  }

  /** Text already in normal form and free of I, O and Q is accepted
      unchanged when it has 17 characters and rejected for its length
      otherwise. With `CleanChassisOutput`, the values `clean_chassi`
      returns for a non-empty chassis are exactly these. */
  lemma CleanChassisOfNormalForm(s: string)
    requires s != ""
    requires forall i :: 0 <= i < |s| ==> NotLower(s[i])
    requires ' ' !in s && '-' !in s && !HasForbiddenLetter(s)
    ensures CleanChassis(Some(s)) == if |s| == 17 then Success(Some(s)) else Failure(WrongLength)
  {
    NormalizeFixed(s);
  }

  /** A string of digits is in normal form and free of I, O and Q. */
  lemma DigitsAreNormal(s: string)
    requires forall i :: 0 <= i < |s| ==> IsAsciiDigit(s[i])
    ensures forall i :: 0 <= i < |s| ==> NotLower(s[i])
    ensures ' ' !in s && '-' !in s && !HasForbiddenLetter(s)
  {
  }

  /** The chassis field of the form: the input is stripped; an empty one
      becomes `None` (the model field is `null=True`); the form field's
      `max_length=17` applies to the stripped text; then `clean_chassi`;
      then the model field's pattern. */
  function ChassisField(raw: string): (r: Result<Option<string>, seq<ChassisError>>)
    ensures Strip(raw) == "" ==> r == Success(None)
    ensures r.Success? && r.value.Some? ==> Vehicles.ValidChassis(r.value.value)
    ensures |Strip(raw)| > 17 ==> r.Failure? && ChassisTooLong in r.error
    ensures '\0' in Strip(raw) ==> r.Failure? && ChassisNullCharacter in r.error
    ensures r.Success? && r.value.Some? ==> r.value.value == NormalizeChassis(Strip(raw))
    ensures 0 < |Strip(raw)| <= 17 && '\0' !in Strip(raw) ==>
      (r.Success? <==>
        CleanChassis(Some(Strip(raw))).Success? && Vehicles.ValidChassis(NormalizeChassis(Strip(raw))))
  {
    var s := Strip(raw);
    if s == "" then Success(None)
    else
      if |s| > 17 && '\0' in s then Failure([ChassisTooLong, ChassisNullCharacter])
      else if |s| > 17 then Failure([ChassisTooLong])
      else if '\0' in s then Failure([ChassisNullCharacter])
      else match CleanChassis(Some(s))
        case Failure(e) => Failure([e])
        case Success(c) =>
          if Vehicles.ValidChassis(c.value) then Success(c) else Failure([ChassisPattern])
  }

  /** Because the length limit applies before `clean_chassi` strips spaces
      and hyphens, a chassis typed with a space or hyphen inside can never
      be accepted: removing them leaves fewer than 17 characters. */
  lemma ChassisWithSeparatorRejected(raw: string)
    requires ' ' in Strip(raw) || '-' in Strip(raw)
    ensures ChassisField(raw).Failure?
  {
  }

  /** The model's pattern catches what `clean_chassi` lets through: a
      chassis that `clean_chassi` returns unchanged and the pattern refuses
      fails the field. */
  lemma ChassisFieldAppliesModelPattern(s: string)
    requires Strip(s) == s && |s| == 17
    requires CleanChassis(Some(s)) == Success(Some(s))
    requires !Vehicles.ValidChassis(s)
    ensures '\0' !in s ==> ChassisField(s) == Failure([ChassisPattern])
  {
  }

  /** A null character in a chassis of at most 17 characters stops the
      field at Django's null-character check: that is its only error and
      `clean_chassi` does not run. */
  lemma ChassisNullCharacterAlone(raw: string)
    requires '\0' in Strip(raw) && |Strip(raw)| <= 17
    ensures ChassisField(raw) == Failure([ChassisNullCharacter])
  {
  }

  // ---------------------------------------------------------------------
  // Plate

  datatype PlateError = PlatePattern | PlateTooLong | PlateNullCharacter

  /** The plate field of the form (`max_length=8`, not required, the plate
      pattern), followed by the model field's own copy of the same pattern.
      The field's validators run in order (the pattern, `max_length`, the
      null-character check) and their errors are collected. An empty plate
      is stored as the empty string. */
  function PlateField(raw: string): (r: Result<string, seq<PlateError>>)
    ensures r.Success? <==> Strip(raw) == "" || Vehicles.ValidPlate(Strip(raw))
    ensures r.Success? ==> r.value == Strip(raw)
    ensures r.Success? && r.value != "" ==> |r.value| == 7 || |r.value| == 8
    ensures r.Failure? ==> PlatePattern in r.error
    ensures |Strip(raw)| > 8 ==> r.Failure? && PlateTooLong in r.error
    ensures '\0' in Strip(raw) ==> r.Failure? && PlateNullCharacter in r.error
  {
    var s := Strip(raw);
    Vehicles.PlateCharacters(s);
    if s == "" then Success(s)
    else if Vehicles.ValidPlate(s) then Success(s)
    else if |s| > 8 && '\0' in s then Failure([PlatePattern, PlateTooLong, PlateNullCharacter])
    else if |s| > 8 then Failure([PlatePattern, PlateTooLong])
    else if '\0' in s then Failure([PlatePattern, PlateNullCharacter])
    else Failure([PlatePattern])
  }
}

/**
 * Worked cases of the vehicle form: concrete chassis values that show the
 * order of the checks and where `clean_chassi` and the model pattern differ.
 */
module VehicleFormCases {
  import opened Wrappers
  import opened Text
  import opened VehicleForms
  import Vehicles

  /** A plate typed with a trailing no-break space is stripped and
      accepted. */
  lemma PaddedPlateAccepted(raw: string)
    requires raw == "ABC1D23\U{00A0}"
    ensures PlateField(raw) == Success("ABC1D23")
  {
    assert raw[..7] == "ABC1D23";
    assert TrimEnd(raw) == "ABC1D23";
    assert Strip(raw) == "ABC1D23";
  }

  /** Seventeen digits are accepted as they are. */
  lemma SeventeenDigitsAccepted()
    ensures CleanChassis(Some("12345678901234567")) == Success(Some("12345678901234567"))
  {
    var ok := "12345678901234567";
    assert forall i :: 0 <= i < |ok| ==> IsAsciiDigit(ok[i]);
    DigitsAreNormal(ok);
    CleanChassisOfNormalForm(ok);
  }

  /** Sixteen digits are rejected for their length. */
  lemma SixteenDigitsRejected()
    ensures CleanChassis(Some("1234567890123456")) == Failure(WrongLength)
  {
    var short := "1234567890123456";
    assert forall i :: 0 <= i < |short| ==> IsAsciiDigit(short[i]);
    DigitsAreNormal(short);
    CleanChassisOfNormalForm(short);
  }

  /** A chassis with `*` in ninth place: upper case, 17 characters, no
      separator and no I, O or Q. */
  lemma StarChassisCleaned()
    ensures CleanChassis(Some("ABCDEFGH*JKLMNPRS")) == Success(Some("ABCDEFGH*JKLMNPRS"))
  {
    var s := "ABCDEFGH*JKLMNPRS";
    assert forall i :: 0 <= i < |s| ==> IsAsciiUpper(s[i]) || s[i] == '*';
    CleanChassisOfNormalForm(s);
  }

  /** That chassis has no null character and does not match the model's
      pattern. */
  lemma StarChassisOffPattern()
    ensures '\0' !in "ABCDEFGH*JKLMNPRS"
    ensures !Vehicles.ValidChassis("ABCDEFGH*JKLMNPRS")
  {
    var s := "ABCDEFGH*JKLMNPRS";
    assert forall i :: 0 <= i < |s| ==> s[i] == '*' || IsAsciiUpper(s[i]);
    assert !Vehicles.IsChassisChar(s[8]);
  }

  /** `clean_chassi` does not check every character against the model's
      pattern: this value passes it and is then rejected by the model. */
  lemma CleanChassisLooserThanModel(s: string)
    requires s == "ABCDEFGH*JKLMNPRS"
    ensures ChassisField(s) == Failure([ChassisPattern])
  {
    StarChassisCleaned();
    StarChassisOffPattern();
    StripUnpadded(s);
    ChassisFieldAppliesModelPattern(s);
  }
}
