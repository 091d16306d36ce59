/**
 * The code/label tables of the vehicle app (web/veiculo/consts.py): brands,
 * colours and fuel types, each a sequence of (code, label) pairs, with the
 * lookup Django does for `get_<field>_display()` and the brand search by
 * label that the vehicle list uses.
 */
module Choices {
  import opened Wrappers
  import opened Text

  type Table = seq<(int, string)>

  const Brands: Table := [
    (1, "AUDI"), (2, "BMW"), (3, "CHEVROLET - GM"), (4, "FERRARI"), (5, "FIAT"),
    (6, "FORD"), (7, "HONDA"), (8, "HYUNDAI"), (9, "VOLKSWAGEN"), (10, "JAGUAR"),
    (11, "JEEP"), (12, "KIA"), (13, "MERCEDES-BENZ"), (14, "NISSAN"), (15, "PEUGEOT"),
    (16, "RENAULT"), (17, "SUZUKI"), (18, "TOYOTA"), (19, "VOLVO"), (20, "BYD")
  ]

  const Colors: Table := [
    (1, "BRANCO"), (2, "AMARELO"), (3, "AZUL"), (4, "PRATA"), (5, "PRETO"), (6, "VERMELHO"),
    (7, "VERDE"), (8, "ROSA"), (9, "ROXO"), (10, "LARANJA"), (11, "BEGE"), (12, "GRAFITE")
  ]

  const Fuels: Table := [
    (1, "ETANOL"), (2, "DIESEL"), (3, "FLEX"), (4, "GASOLINA"), (5, "GNV"),
    (6, "EL\U{00C9}TRICO"), (7, "H\U{00CD}BRIDO"), (8, "BIOCOMBUST\U{00CD}VEL")
  ]

  /** The label of the first entry with this code, as `dict(table)[code]`. */
  function Label(table: Table, code: int): (r: Option<string>)
    ensures r.Some? ==> exists i :: 0 <= i < |table| && table[i] == (code, r.value)
    ensures r.None? ==> forall i :: 0 <= i < |table| ==> table[i].0 != code
  {
    if table == [] then None
    else if table[0].0 == code then Some(table[0].1)
    else
      var r := Label(table[1..], code);
      assert r.Some? ==> exists i :: 0 <= i < |table[1..]| && table[1..][i] == (code, r.value);
      assert forall i :: 0 < i < |table| ==> table[i] == table[1..][i - 1];
      r
  }

  /** The codes of `table` are `first`, `first + 1`, ... in order. */
  ghost predicate NumberedFrom(table: Table, first: int) {
    forall i :: 0 <= i < |table| ==> table[i].0 == first + i
  }

  /** On a table numbered consecutively, lookup is defined exactly on the
      code range and finds the entry at the code's position. */
  lemma {:induction false} LabelOfNumbered(table: Table, first: int, code: int)
    requires NumberedFrom(table, first)
    ensures Label(table, code).Some? <==> first <= code < first + |table|
    ensures first <= code < first + |table| ==> Label(table, code) == Some(table[code - first].1)
  {
    if table != [] && table[0].0 != code {
      assert NumberedFrom(table[1..], first + 1);
      LabelOfNumbered(table[1..], first + 1, code);
    }
  }

  lemma BrandsNumbered() ensures |Brands| == 20 && NumberedFrom(Brands, 1) {}
  lemma ColorsNumbered() ensures |Colors| == 12 && NumberedFrom(Colors, 1) {}
  lemma FuelsNumbered() ensures |Fuels| == 8 && NumberedFrom(Fuels, 1) {}

  /** Brand codes are exactly 1..20, pairwise distinct, and each names one label. */
  function BrandLabel(code: int): (r: Option<string>)
    ensures r.Some? <==> 1 <= code <= 20
    ensures r.Some? ==> r.value == Brands[code - 1].1 && r.value != ""
  {
    BrandsNumbered();
    LabelOfNumbered(Brands, 1, code);
    Label(Brands, code)
  }

  /** Colour codes are exactly 1..12. */
  function ColorLabel(code: int): (r: Option<string>)
    ensures r.Some? <==> 1 <= code <= 12
    ensures r.Some? ==> r.value == Colors[code - 1].1 && r.value != ""
  {
    ColorsNumbered();
    LabelOfNumbered(Colors, 1, code);
    Label(Colors, code)
  }

  /** Fuel codes are exactly 1..8. */
  function FuelLabel(code: int): (r: Option<string>)
    ensures r.Some? <==> 1 <= code <= 8
    ensures r.Some? ==> r.value == Fuels[code - 1].1 && r.value != ""
  {
    FuelsNumbered();
    LabelOfNumbered(Fuels, 1, code);
    Label(Fuels, code)
  }

  ghost predicate DistinctCodes(table: Table) {
    forall i, j :: 0 <= i < j < |table| ==> table[i].0 != table[j].0
  }

  lemma NumberedIsDistinct(table: Table, first: int)
    requires NumberedFrom(table, first)
    ensures DistinctCodes(table)
  {
  }

  lemma {:induction false} TablesHaveDistinctCodes()
    ensures DistinctCodes(Brands) && DistinctCodes(Colors) && DistinctCodes(Fuels)
  {
    BrandsNumbered();
    ColorsNumbered();
    FuelsNumbered();
    NumberedIsDistinct(Brands, 1);
    NumberedIsDistinct(Colors, 1);
    NumberedIsDistinct(Fuels, 1);
  }

  /** Entry `e` has code `c` and its upper-cased label contains `needle`. */
  predicate EntryMatches(e: (int, string), c: int, needle: string) {
    e.0 == c && Contains(Upper(e.1), needle)
  }

  /** `[code for code, label in table if needle in label.upper()]` */
  function CodesWhoseLabelContains(table: Table, needle: string): (r: seq<int>)
    ensures forall c :: c in r <==> exists i :: 0 <= i < |table| && EntryMatches(table[i], c, needle)
  {
    if table == [] then []
    else
      var rest := CodesWhoseLabelContains(table[1..], needle);
      assert forall i :: 0 < i < |table| ==> table[i] == table[1..][i - 1];
      assert forall c :: c in rest ==> exists i :: 0 <= i < |table| && EntryMatches(table[i], c, needle) by {
        forall c | c in rest ensures exists i :: 0 <= i < |table| && EntryMatches(table[i], c, needle) {
          var i :| 0 <= i < |table[1..]| && EntryMatches(table[1..][i], c, needle);
          assert EntryMatches(table[i + 1], c, needle);
        }
      }
      if Contains(Upper(table[0].1), needle) then [table[0].0] + rest else rest
  }

  /** The brand codes whose label contains `query.upper()`
      (web/veiculo/views.py:38-41): a subset of 1..20, and exactly the brands
      whose label contains the upper-cased query. */
  function BrandsMatching(query: string): (r: seq<int>)
    ensures forall c :: c in r ==> 1 <= c <= 20
    ensures forall c :: c in r <==> BrandLabel(c).Some? && Contains(Upper(BrandLabel(c).value), Upper(query))
  {
    BrandsNumbered();
    var r := CodesWhoseLabelContains(Brands, Upper(query));
    assert forall c :: c in r ==> 1 <= c <= 20 && Brands[c - 1].0 == c;
    r
  }
}
