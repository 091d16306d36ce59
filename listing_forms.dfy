/**
 * The listing form (web/anuncio/forms.py): `clean_preco`, `clean_contato_telefone`
 * and the phone pattern, each on its own and inside the chain Django runs
 * for a field of a model form: the form field's own checks, then the
 * `clean_<field>` method, then the model field's validators.
 *
 * Prices are whole numbers of cents: the form field accepts at most two
 * decimal places, so every price that reaches `clean_preco` is one.
 */
module ListingForms {
  import opened Wrappers
  import opened Text
  import opened Listings

  // ---------------------------------------------------------------------
  // Phone

  /** The phone pattern `^\(\d{2}\) \d{5}-\d{4}$`, shared by the form field
      and the model field: `(DD) DDDDD-DDDD`, fifteen characters. The input
      is stripped before the pattern is applied, so the newline that `$`
      would let through never reaches it. */
  predicate MatchesPhone(s: string) {
    && |s| == 15
    && s[0] == '(' && IsAsciiDigit(s[1]) && IsAsciiDigit(s[2]) && s[3] == ')' && s[4] == ' '
    && (forall i :: 5 <= i < 10 ==> IsAsciiDigit(s[i]))
    && s[10] == '-'
    && (forall i :: 11 <= i < 15 ==> IsAsciiDigit(s[i]))
  }

  /** A matching phone has digits at the eleven places the pattern reserves
      for them and nothing but digits and `(`, `)`, ` `, `-` anywhere. */
  lemma PhoneShape(s: string)
    requires MatchesPhone(s)
    ensures |s| == 15
    ensures forall i :: 0 <= i < |s| ==> IsAsciiDigit(s[i]) <==> i != 0 && i != 3 && i != 4 && i != 10
    ensures forall i :: 0 <= i < |s| ==> IsAsciiDigit(s[i]) || IsPhoneSeparator(s[i])
  {
  }

  predicate IsPhoneSeparator(c: char) {
    c == '(' || c == ')' || c == ' ' || c == '-'
  }

  /** `telefone.replace('(', '').replace(')', '').replace(' ', '').replace('-', '')` */
  function PhoneDigits(t: string): (r: string)
    ensures forall c :: c in r <==> c in t && !IsPhoneSeparator(c)
    ensures |r| <= |t|
  {
    RemoveAll(RemoveAll(RemoveAll(RemoveAll(t, '('), ')'), ' '), '-')
  }

  datatype PhoneError = PhonePattern | PhoneTooLong | PhoneNullCharacter | PhoneNotDigits

  /** `clean_contato_telefone`: an empty phone passes; a non-empty one passes
      exactly when what is left after removing `(`, `)`, spaces and hyphens
      is a non-empty run of digits, and is then returned unchanged. */
  function CleanPhone(t: string): (r: Result<string, PhoneError>)
    ensures r.Success? <==> t == "" || IsDigits(PhoneDigits(t))
    ensures r.Success? ==> r.value == t
    ensures r.Failure? ==> r.error == PhoneNotDigits
  {
    if t != "" && !IsDigits(PhoneDigits(t)) then Failure(PhoneNotDigits) else Success(t)
  }

  /** Every phone the pattern accepts passes `clean_contato_telefone`. */
  lemma MatchingPhonePassesClean(s: string)
    requires MatchesPhone(s)
    ensures CleanPhone(s) == Success(s)
  {
    PhoneShape(s);
    var d := PhoneDigits(s);
    assert s[1] in s;
    assert s[1] in d;
    forall i | 0 <= i < |d| ensures IsAsciiDigit(d[i]) {
      assert d[i] in d;
      var j :| 0 <= j < |s| && s[j] == d[i];
    }
  }

  /** `clean_contato_telefone` is looser than the pattern: eleven bare
      digits pass the method and fail the pattern. */
  lemma CleanPhoneLooserThanPattern()
    ensures CleanPhone("11987654321") == Success("11987654321")
    ensures !MatchesPhone("11987654321")
  {
    var t := "11987654321";
    assert forall i :: 0 <= i < |t| ==> IsAsciiDigit(t[i]);
    assert forall c :: c in t ==> IsAsciiDigit(c);
    assert PhoneDigits(t) == t;
  }

  /** A phone that is not only digits and separators fails the method. */
  lemma LetterInPhoneRejected(t: string, i: int)
    requires 0 <= i < |t| && !IsAsciiDigit(t[i]) && !IsPhoneSeparator(t[i])
    ensures CleanPhone(t) == Failure(PhoneNotDigits)
  {
    assert t[i] in t;
    var d := PhoneDigits(t);
    assert t[i] in d;
  }

  /** The validators of the phone field, in the order Django runs them (the
      pattern, then the `max_length` check and the null-character check
      that every form text field appends), each reporting its own error. */
  function PhoneValidatorErrors(s: string): (errs: seq<PhoneError>)
    ensures errs == [] <==> MatchesPhone(s)
    ensures |s| > 15 && '\0' !in s ==> errs == [PhonePattern, PhoneTooLong]
    ensures '\0' in s ==> PhonePattern in errs && PhoneNullCharacter in errs
    ensures PhoneNotDigits !in errs
  {
    (if MatchesPhone(s) then [] else [PhonePattern]) + (if |s| > 15 then [PhoneTooLong] else [])
      + (if '\0' in s then [PhoneNullCharacter] else [])
  }

  /** The phone field of the form (`max_length=15`, not required, the phone
      pattern): the input is stripped; an empty phone skips the validators;
      then `clean_contato_telefone`; then the model field's own pattern and
      length, which the model skips for a blank value. */
  function PhoneField(raw: string): (r: Result<string, seq<PhoneError>>)
    ensures r.Success? <==> Strip(raw) == "" || MatchesPhone(Strip(raw))
    ensures r.Success? ==> r.value == Strip(raw)
    ensures r.Failure? ==> r.error != [] && PhoneNotDigits !in r.error
  {
    var s := Strip(raw);
    if s == "" then Success(s)
    else
      var errs := PhoneValidatorErrors(s);
      if errs != [] then Failure(errs)
      else
        MatchingPhonePassesClean(s);
        match CleanPhone(s)
        case Failure(e) => Failure([e])
        case Success(t) =>
          var modelErrs := PhoneValidatorErrors(t);
          if modelErrs != [] then Failure(modelErrs) else Success(t)
  }

  /** An empty (or all-blank) phone is accepted as the empty string. */
  lemma EmptyPhoneAccepted(raw: string)
    requires forall i :: 0 <= i < |raw| ==> IsSpace(raw[i])
    ensures PhoneField(raw) == Success("")
  {
    StripEmpty(raw);
  }

  /** An accepted phone comes back unchanged when it is submitted again. */
  lemma PhoneFieldIdempotent(raw: string)
    requires PhoneField(raw).Success?
    ensures PhoneField(PhoneField(raw).value) == PhoneField(raw)
  {
    var s := Strip(raw);
    if s != "" {
      StripUnpadded(s);
    }
  }

  // ---------------------------------------------------------------------
  // Price

  /** `max_digits=10, decimal_places=2`: at most eight digits before the
      decimal point, so fewer than 10^10 cents either way. */
  const PriceCentsBound: int := 10_000_000_000

  datatype PriceError = PriceRequired | PriceTooManyDigits | PriceNotPositive | PriceBelowMinimum

  /** `clean_preco`: a truthy price that is not positive is rejected; 0 is
      falsy and passes, as does a missing price. */
  function CleanPrice(price: Option<int>): (r: Result<Option<int>, PriceError>)
    ensures r.Failure? <==> price.Some? && price.value < 0
    ensures r.Failure? ==> r.error == PriceNotPositive
    ensures r.Success? ==> r.value == price
  {
    if price.Some? && price.value != 0 && price.value <= 0 then Failure(PriceNotPositive) else Success(price)
  }

  /** `MinValueValidator(0.01)` as written: the bound is the float 0.01, which
      is 5764607523034235 / 2^59, slightly above one cent, and Python compares
      a `Decimal` with a float exactly. A price is below it when
      `cents / 100 < 5764607523034235 / 2^59`. */
  const FloatCentNumerator: int := 5764607523034235
  const FloatCentDenominator: int := 576460752303423488

  predicate BelowFloatCent(cents: int) {
    cents * FloatCentDenominator < 100 * FloatCentNumerator
  }

  /** The float bound excludes one cent as well as zero and below. */
  lemma BelowFloatCentIff(cents: int)
    ensures BelowFloatCent(cents) <==> cents <= 1
  {
  }

  /** The price field as written: required, at most ten digits, then
      `clean_preco`, then the model's minimum against the float 0.01. */
  function PriceFieldAsWritten(input: Option<int>): (r: Result<int, PriceError>)
    ensures r.Success? <==> input.Some? && 2 <= input.value < PriceCentsBound
    ensures r.Success? ==> r.value == input.value
  {
    BelowFloatCentIff(if input.Some? then input.value else 0);
    if input.None? then Failure(PriceRequired)
    else if input.value <= -PriceCentsBound || input.value >= PriceCentsBound then Failure(PriceTooManyDigits)
    else match CleanPrice(input)
      case Failure(e) => Failure(e)
      case Success(p) => if BelowFloatCent(p.value) then Failure(PriceBelowMinimum) else Success(p.value)
  }

  /** A price of one cent is refused by the form as written. */
  lemma OneCentRefusedAsWritten()
    ensures PriceFieldAsWritten(Some(1)) == Failure(PriceBelowMinimum)
  {
    BelowFloatCentIff(1);
  }

  /** The price field with the minimum the validator means: at least one
      cent. */
  function PriceField(input: Option<int>): (r: Result<int, PriceError>)
    ensures r.Success? <==> input.Some? && 0 < input.value < PriceCentsBound
    ensures r.Success? ==> r.value == input.value
    ensures input == Some(0) ==> r == Failure(PriceBelowMinimum)
    ensures input.Some? && -PriceCentsBound < input.value < 0 ==> r == Failure(PriceNotPositive)
  {
    if input.None? then Failure(PriceRequired)
    else if input.value <= -PriceCentsBound || input.value >= PriceCentsBound then Failure(PriceTooManyDigits)
    else match CleanPrice(input)
      case Failure(e) => Failure(e)
      case Success(p) => if p.value < 1 then Failure(PriceBelowMinimum) else Success(p.value)
  }

  /** The field as written and the corrected field part only at one cent:
      every other price is accepted by both or by neither, with the same
      value. The listing form and listing creation use the corrected
      field, so they accept one cent where the code as written refuses it. */
  lemma PriceFieldsDifferOnlyAtOneCent(input: Option<int>)
    ensures PriceFieldAsWritten(input).Success? <==> PriceField(input).Success? && input != Some(1)
    ensures PriceFieldAsWritten(input).Success? ==> PriceFieldAsWritten(input) == PriceField(input)
  {
  }

  /** One cent, the smallest price the widget offers, is accepted. */
  lemma OneCentAccepted()
    ensures PriceField(Some(1)) == Success(1)
  {
  }

  /** Zero slips through `clean_preco` and is stopped by the minimum. */
  lemma ZeroPriceCaughtByModel()
    ensures CleanPrice(Some(0)) == Success(Some(0))
    ensures PriceField(Some(0)) == Failure(PriceBelowMinimum)
  {
  }

  /** Both cleaners return an accepted value unchanged, so submitting it
      again is accepted with the same value. */
  lemma PriceFieldIdempotent(input: Option<int>)
    requires PriceField(input).Success?
    ensures PriceField(Some(PriceField(input).value)) == PriceField(input)
  {
  }

  // ---------------------------------------------------------------------
  // The whole form

  /** What the browser submits: the description and phone as typed, the
      price in cents (`None` when the field is empty), the status code, the
      two check boxes, the chosen vehicle's key and the expiration day. */
  datatype ListingFormInput = ListingFormInput(
    description: string,
    price: Option<int>,
    status: string,
    acceptsTrade: bool,
    phone: string,
    vehicle: Option<int>,
    featured: bool,
    expiration: Option<int>)

  /** The cleaned values of a valid form. */
  datatype ListingFormData = ListingFormData(
    description: string,
    priceCents: int,
    status: Status,
    acceptsTrade: bool,
    phone: string,
    vehicle: int,
    featured: bool,
    expiration: Option<int>)

  datatype FieldError =
    | DescriptionRequired
    | DescriptionTooLong
    | DescriptionNullCharacter
    | PriceInvalid(price: PriceError)
    | StatusRequired
    | StatusInvalid
    | PhoneInvalid(phone: seq<PhoneError>)
    | VehicleRequired
    | VehicleNotAllowed

  const DescriptionMaxLength: int := 2000

  /** The description field: stripped, required, then the `max_length`
      and null-character validators, whose errors are collected. */
  function DescriptionField(raw: string): (r: Result<string, seq<FieldError>>)
    ensures r.Success? <==> Strip(raw) != "" && |Strip(raw)| <= DescriptionMaxLength && '\0' !in Strip(raw)
    ensures r.Success? ==> r.value == Strip(raw)
    ensures r.Failure? ==> r.error != []
    ensures Strip(raw) == "" ==> r == Failure([DescriptionRequired])
  {
    var s := Strip(raw);
    if s == "" then Failure([DescriptionRequired])
    else
      var errs := (if |s| > DescriptionMaxLength then [DescriptionTooLong] else [])
        + (if '\0' in s then [DescriptionNullCharacter] else []);
      if errs == [] then Success(s) else Failure(errs)
  }

  /** A description that is only a no-break space is blank once stripped. */
  lemma NoBreakSpaceDescriptionRequired(raw: string)
    requires raw == "\U{00A0}"
    ensures DescriptionField(raw) == Failure([DescriptionRequired])
  {
    assert TrimStart(raw) == "";
  }

  /** A description holding a null character is refused even when it has
      other text. */
  lemma NullDescriptionRejected(raw: string)
    requires raw == "a\0"
    ensures DescriptionField(raw) == Failure([DescriptionNullCharacter])
  {
    StripUnpadded(raw);
    assert '\0' in Strip(raw) by {
      assert Strip(raw)[1] == '\0';
    }
    assert ([] + [DescriptionNullCharacter]) == [DescriptionNullCharacter];
  }

  /** The status field: a choice among the five codes, required. */
  function StatusField(code: string): (r: Result<Status, FieldError>)
    ensures r.Success? <==> StatusFromCode(code).Some?
    ensures r.Success? ==> r.value.Code() == code
  {
    if code == "" then Failure(StatusRequired)
    else match StatusFromCode(code)
      case None => Failure(StatusInvalid)
      case Some(st) => Success(st)
  }

  /** The vehicle field: required, and one of the offered vehicles. */
  function VehicleField(vehicle: Option<int>, choices: seq<int>): (r: Result<int, FieldError>)
    ensures r.Success? <==> vehicle.Some? && vehicle.value in choices
    ensures r.Success? ==> r.value == vehicle.value
  {
    if vehicle.None? then Failure(VehicleRequired)
    else if vehicle.value !in choices then Failure(VehicleNotAllowed)
    else Success(vehicle.value)
  }

  /** What `ModelChoiceField.to_python` finds for the submitted key: the
      `.get()` on the offered queryset either finds one row, finds none (a
      validation error) or finds several and raises
      `MultipleObjectsReturned`, which the field does not catch. `choices`
      lists the queryset's rows, a key once per row. */
  datatype ChoiceLookup = Chosen(id: int) | NotChosen(error: FieldError) | MultipleReturned

  /** The vehicle field over a queryset that may hold a vehicle more than
      once. */
  function VehicleFieldAsWritten(vehicle: Option<int>, choices: seq<int>): (r: ChoiceLookup)
    ensures r.Chosen? <==> vehicle.Some? && multiset(choices)[vehicle.value] == 1
    ensures r.MultipleReturned? <==> vehicle.Some? && multiset(choices)[vehicle.value] > 1
    ensures r.Chosen? ==> r.id == vehicle.value
    ensures vehicle.None? ==> r == NotChosen(VehicleRequired)
  {
    if vehicle.None? then NotChosen(VehicleRequired)
    else if multiset(choices)[vehicle.value] == 0 then NotChosen(VehicleNotAllowed)
    else if multiset(choices)[vehicle.value] == 1 then Chosen(vehicle.value)
    else MultipleReturned
  }

  /** The two vehicle fields part only where a key is offered several times:
      there the lookup raises, while the membership test accepts it.
      Elsewhere they accept the same keys. */
  lemma VehicleFieldAsWrittenAgrees(vehicle: Option<int>, choices: seq<int>)
    ensures VehicleFieldAsWritten(vehicle, choices).MultipleReturned? ==> VehicleField(vehicle, choices) == Success(vehicle.value)
    ensures !VehicleFieldAsWritten(vehicle, choices).MultipleReturned? ==>
      (VehicleFieldAsWritten(vehicle, choices).Chosen? <==> VehicleField(vehicle, choices).Success?)
  {
  }

  function ErrorsOf<T>(r: Result<T, FieldError>): seq<FieldError> {
    if r.Failure? then [r.error] else []
  }

  /** `form.is_valid()` for the listing form: every field is cleaned and the
      errors of all fields are collected, in the order the fields are
      declared. The form is valid when no field failed; `choices` are the
      vehicle keys the form offers. */
  function ValidateListingForm(input: ListingFormInput, choices: seq<int>): (r: Result<ListingFormData, seq<FieldError>>)
    ensures r.Success? <==>
      && DescriptionField(input.description).Success?
      && PriceField(input.price).Success?
      && StatusFromCode(input.status).Some?
      && PhoneField(input.phone).Success?
      && input.vehicle.Some? && input.vehicle.value in choices
    ensures r.Success? ==>
      && r.value.description == Strip(input.description)
      && 0 < r.value.priceCents < PriceCentsBound && Some(r.value.priceCents) == input.price
      && r.value.status.Code() == input.status
      && (r.value.phone == "" || MatchesPhone(r.value.phone))
      && Some(r.value.vehicle) == input.vehicle && r.value.vehicle in choices
      && r.value.acceptsTrade == input.acceptsTrade
      && r.value.featured == input.featured
      && r.value.expiration == input.expiration
    ensures r.Failure? ==> r.error != []
  {
    var d := DescriptionField(input.description);
    var p := PriceField(input.price);
    var st := StatusField(input.status);
    var ph := PhoneField(input.phone);
    var v := VehicleField(input.vehicle, choices);
    if d.Success? && p.Success? && st.Success? && ph.Success? && v.Success? then
      Success(ListingFormData(d.value, p.value, st.value, input.acceptsTrade, ph.value, v.value, input.featured, input.expiration))
    else
      var rest := (if p.Failure? then [PriceInvalid(p.error)] else []) + ErrorsOf(st)
        + (if ph.Failure? then [PhoneInvalid(ph.error)] else []) + ErrorsOf(v);
      assert d.Success? ==> rest != [];
      Failure((if d.Failure? then d.error else []) + rest)
  }
}
