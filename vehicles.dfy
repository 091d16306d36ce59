/**
 * The vehicle record (web/veiculo/models.py): its fields, the model-level
 * validators of year, plate and chassis, and the derived attributes
 * (years of use, new / nearly-new flags, age category, summary sheet).
 * The current year is a parameter wherever the source reads the clock.
 */
module Vehicles {
  import opened Wrappers
  import opened Text
  import Choices

  /** A row of the vehicle table. `createdAt` is a timestamp in seconds;
      the photo and `updated_at` are not modelled. */
  datatype Vehicle = Vehicle(
    id: int,
    brand: int,
    model: string,
    year: int,
    color: int,
    fuel: int,
    mileage: nat,
    plate: Option<string>,
    chassis: Option<string>,
    createdAt: int)

  // ---------------------------------------------------------------------
  // Model-level validators

  const MinYear: int := 1900

  /** The year validators. `bootYear` is the year in which the module was
      loaded: the upper bound `timezone.now().year + 1` is evaluated once,
      when the class is defined, not at each validation. */
  predicate ValidYear(year: int, bootYear: int) {
    MinYear <= year <= bootYear + 1
  }

  predicate IsUpperOrDigit(c: char) { IsAsciiUpper(c) || IsAsciiDigit(c) }

  /** The plate pattern `^[A-Z]{3}[\-]?[0-9][0-9A-Z][0-9]{2}$`, the same
      pattern the model field and the vehicle form validate with. */
  predicate ValidPlate(s: string) {
    (|s| == 7 && PlateShape(s))
    || (|s| == 8 && s[3] == '-' && PlateShape(s[..3] + s[4..]))
  }

  /** Three letters, a digit, a digit or letter, two digits: seven characters
      with no separator. */
  predicate PlateShape(s: string)
    requires |s| == 7
  {
    IsAsciiUpper(s[0]) && IsAsciiUpper(s[1]) && IsAsciiUpper(s[2])
    && IsAsciiDigit(s[3]) && IsUpperOrDigit(s[4])
    && IsAsciiDigit(s[5]) && IsAsciiDigit(s[6])
  }

  /** Every character of an accepted plate is an upper-case letter, a digit
      or the hyphen, so no accepted plate holds a null character. */
  lemma PlateCharacters(s: string)
    ensures ValidPlate(s) ==> forall i :: 0 <= i < |s| ==> IsUpperOrDigit(s[i]) || s[i] == '-'
    ensures ValidPlate(s) ==> '\0' !in s
  {
    if ValidPlate(s) && |s| == 8 {
      var t := s[..3] + s[4..];
      forall i | 0 <= i < |s| ensures IsUpperOrDigit(s[i]) || s[i] == '-' {
        if i < 3 { assert t[i] == s[i]; }
        else if i > 3 { assert t[i - 1] == s[i]; }
      }
    }
  }

  /** An accepted plate has 7 or 8 characters; with 8 the fourth is the
      hyphen; the letters are upper case. */
  lemma PlateFacts(s: string)
    requires ValidPlate(s)
    ensures |s| == 7 || |s| == 8
    ensures |s| == 8 <==> s[3] == '-'
    ensures forall i :: 0 <= i < 3 ==> IsAsciiUpper(s[i])
    ensures IsAsciiDigit(s[|s| - 1]) && IsAsciiDigit(s[|s| - 2]) && IsAsciiDigit(s[|s| - 4])
  {
    if |s| == 8 {
      var t := s[..3] + s[4..];
      assert t[0] == s[0] && t[1] == s[1] && t[2] == s[2];
      assert t[3] == s[4] && t[5] == s[6] && t[6] == s[7];
    }
  }

  /** A character of `[A-HJ-NPR-Z0-9]`. */
  predicate IsChassisChar(c: char) {
    ('A' <= c <= 'H') || ('J' <= c <= 'N') || c == 'P' || ('R' <= c <= 'Z') || IsAsciiDigit(c)
  }

  /** The chassis pattern `^[A-HJ-NPR-Z0-9]{17}$`. */
  predicate ValidChassis(s: string) {
    |s| == 17 && forall i :: 0 <= i < |s| ==> IsChassisChar(s[i])
  }

  /** An accepted chassis is 17 upper-case letters and digits, none of them
      I, O or Q. */
  lemma ChassisFacts(s: string)
    requires ValidChassis(s)
    ensures |s| == 17
    ensures 'I' !in s && 'O' !in s && 'Q' !in s
    ensures forall i :: 0 <= i < |s| ==> IsAsciiUpper(s[i]) || IsAsciiDigit(s[i])
  {
  }

  // ---------------------------------------------------------------------
  // Derived attributes

  /** `anos_de_uso()`: may be negative for next year's model. */
  function YearsOfUse(v: Vehicle, currentYear: int): int {
    currentYear - v.year
  }

  /** `veiculo_novo`: the vehicle is from the current year. */
  predicate IsNew(v: Vehicle, currentYear: int) {
    v.year == currentYear
  }

  /** `is_seminovo`: up to three years of use, but not new. */
  predicate IsNearlyNew(v: Vehicle, currentYear: int) {
    0 < YearsOfUse(v, currentYear) <= 3
  }

  datatype AgeCategory = Novo | Seminovo | Usado | Antigo {
    function Label(): string {
      match this
      case Novo => "Novo"
      case Seminovo => "Seminovo"
      case Usado => "Usado"
      case Antigo => "Antigo"
    }
  }

  /** `categoria_idade`: the category is a function of the years of use,
      over four disjoint ranges. A vehicle dated after the current year has
      negative age and lands in `Seminovo`. */
  function Category(v: Vehicle, currentYear: int): (c: AgeCategory)
    ensures c == Novo <==> YearsOfUse(v, currentYear) == 0
    ensures c == Seminovo <==> YearsOfUse(v, currentYear) < 0 || 1 <= YearsOfUse(v, currentYear) <= 3
    ensures c == Usado <==> 4 <= YearsOfUse(v, currentYear) <= 10
    ensures c == Antigo <==> YearsOfUse(v, currentYear) > 10
  {
    var age := YearsOfUse(v, currentYear);
    if age == 0 then Novo
    else if age <= 3 then Seminovo
    else if age <= 10 then Usado
    else Antigo
  }

  /** `veiculo_novo` holds exactly when the category is `Novo`. */
  lemma NewIffCategoryNovo(v: Vehicle, currentYear: int)
    ensures IsNew(v, currentYear) <==> Category(v, currentYear) == Novo
  {
  }

  /** `is_seminovo` implies the `Seminovo` category; the converse fails only
      for a vehicle dated after the current year. */
  lemma NearlyNewAndCategory(v: Vehicle, currentYear: int)
    ensures IsNearlyNew(v, currentYear) ==> Category(v, currentYear) == Seminovo
    ensures Category(v, currentYear) == Seminovo && !IsNearlyNew(v, currentYear)
      <==> v.year > currentYear
  {
  }

  /** Next year's model, which the year validators accept, is categorised
      `Seminovo` although it is neither new nor nearly new. */
  lemma NextYearModel(v: Vehicle, currentYear: int)
    requires v.year == currentYear + 1
    requires currentYear >= MinYear
    ensures ValidYear(v.year, currentYear)
    ensures Category(v, currentYear) == Seminovo
    ensures !IsNew(v, currentYear) && !IsNearlyNew(v, currentYear)
  {
  }

  // ---------------------------------------------------------------------
  // Summary sheet

  /** `get_<field>_display()`: the label of a known code, otherwise the code
      itself rendered as text. */
  function Display(known: Option<string>, code: int): (r: string)
    ensures known.Some? ==> r == known.value
    ensures known.None? ==> r == IntToString(code)
  {
    if known.Some? then known.value else IntToString(code)
  }

  /** `if self.placa:` - a plate that is present and non-empty. */
  predicate HasPlate(v: Vehicle) {
    v.plate.Some? && v.plate.value != ""
  }

  /** The segments `ficha_completa` joins: brand and model, year, colour,
      fuel, mileage and, when there is a plate, the plate. */
  function SheetSegments(v: Vehicle): seq<string> {
    var base := [
      Display(Choices.BrandLabel(v.brand), v.brand) + " " + v.model,
      "Ano: " + IntToString(v.year),
      "Cor: " + Display(Choices.ColorLabel(v.color), v.color),
      "Combust\U{00ED}vel: " + Display(Choices.FuelLabel(v.fuel), v.fuel),
      "Quilometragem: " + IntToString(v.mileage) + " km"
    ];
    if HasPlate(v) then base + ["Placa: " + v.plate.value] else base
  }

  /** The sheet has six segments with a plate and five without; the first
      starts with the brand's display text, only the last can be the plate. */
  lemma SheetSegmentsShape(v: Vehicle)
    ensures |SheetSegments(v)| == if HasPlate(v) then 6 else 5
    ensures IsPrefix(Display(Choices.BrandLabel(v.brand), v.brand) + " ", SheetSegments(v)[0])
    ensures forall i :: 1 <= i < 5 ==> !IsPrefix("Placa: ", SheetSegments(v)[i])
    ensures HasPlate(v) ==> SheetSegments(v)[5] == "Placa: " + v.plate.value
  {
    var r := SheetSegments(v);
    var brand := Display(Choices.BrandLabel(v.brand), v.brand) + " ";
    assert r[0][..|brand|] == brand;
    assert r[1][0] == 'A' && r[2][0] == 'C' && r[3][0] == 'C' && r[4][0] == 'Q';
    forall i | 1 <= i < 5 ensures !IsPrefix("Placa: ", r[i]) {
      FirstCharRulesOutPrefix("Placa: ", r[i]);
    }
  }

  /** The "Ano" segment reads back as the vehicle's year. */
  lemma SheetYearReadsBack(v: Vehicle)
    ensures IsPrefix("Ano: ", SheetSegments(v)[1])
    ensures ParseInt(SheetSegments(v)[1][5..]) == v.year
  {
    var seg := SheetSegments(v)[1];
    assert seg == "Ano: " + IntToString(v.year);
    assert seg[5..] == IntToString(v.year);
    IntToStringRoundTrip(v.year);
  }

  /** `ficha_completa`: appends the segments one by one and joins them with
      " | ". */
  method SummarySheet(v: Vehicle) returns (sheet: string)
    ensures sheet == Join(SheetSegments(v), " | ")
  {
    var ficha: seq<string> := [];
    ficha := ficha + [Display(Choices.BrandLabel(v.brand), v.brand) + " " + v.model];
    ficha := ficha + ["Ano: " + IntToString(v.year)];
    ficha := ficha + ["Cor: " + Display(Choices.ColorLabel(v.color), v.color)];
    ficha := ficha + ["Combust\U{00ED}vel: " + Display(Choices.FuelLabel(v.fuel), v.fuel)];
    ficha := ficha + ["Quilometragem: " + IntToString(v.mileage) + " km"];
    if v.plate.Some? && v.plate.value != "" {
      ficha := ficha + ["Placa: " + v.plate.value];
    }
    assert ficha == SheetSegments(v);
    sheet := Join(ficha, " | ");
  }
}
