# Vehicle classifieds: a Dafny model of the listing and vehicle logic

This project models the logic of a small Django site for vehicle
classified ads. The site has two record types:

- a **vehicle** (`Veiculo`), with a brand, model, year, colour, fuel, mileage, plate and chassis;
- a **listing** (`Anuncio`), which offers one vehicle for sale and names its owner, price, status, view count, featured flag and expiration date.

The model covers:

- the code-to-label choice tables for brands, colours and fuels (`Choices`);
- the vehicle record, its model validators and its derived attributes: years of use, the age category and the summary sheet (`Vehicles`);
- the vehicle form's year, chassis and plate cleaning (`VehicleForms`, with concrete cases in `VehicleFormCases`);
- the listing record (`Listings`):
  - its five statuses;
  - a loaded listing as a class whose lifecycle methods (count a view, expire, mark sold, reactivate) update its fields;
- the listing form's price, phone, description, status and vehicle fields (`ListingForms`);
- the listing views (`ListingViews`):
  - the bulk expiry step;
  - the web list and the API list as filter pipelines over the store;
  - the ordering parameters;
  - the owner and visibility checks;
  - the API detail view and the web detail page;
  - the mark-as-sold endpoint and its JSON replies;
  - listing creation.
  A `Database` class holds the listing and vehicle tables. The views that write to the store are its methods;
- the vehicle views (`VehicleViews`):
  - the web list with its free-text search;
  - the owner check of the edit and delete pages;
  - the API list with its exact filters and ordering.

Shared helpers:

- `Text` holds ASCII/Latin-1 upper-casing, `strip`, substring search, joining and integer printing.
- `Sequences` holds a filter, an insertion sort proved sorted and a permutation, and lemmas that follow a filter chain.
- `Users` describes the requesting user.
- `Wrappers` holds `Option` and `Result`.

Conventions:

- Dates are day numbers, and timestamps are seconds.
- "Today" and the current year are parameters.
- Prices are whole cents.
- Query parameters arrive already parsed. A number parameter is `None` when absent or empty. Because `"0"` is a non-empty string, it still applies its filter.
- The requesting user is `Option<User>`, where `None` means anonymous.

Where the code and its description disagree, the model follows the code:

- The web detail page counts two views per visit, not one (see Findings).
- The web detail page has no permission check.
- The listing form lets the owner set the status and, when creating, the featured flag.
- Under the model's upper-casing, where every character has a one-character upper case, a chassis typed with a space or hyphen is normalised by `clean_chassi` but can never be accepted: the 17-character limit applies before the separators are removed (`ChassisWithSeparatorRejected`). Python's `upper()` can lengthen text (`ß` becomes `SS`), so the source accepts such an input: `"ABCDEFGH-JKLMNPRß"` has 17 characters and cleans to `"ABCDEFGHJKLMNPRSS"`.
- The model's upper year bound is fixed when the module is loaded.
- A non-staff user with no listings is offered no vehicle in the create form, so that user cannot create a listing.

Where the code as written is evidently wrong, the model records the code as written and then uses the corrected behaviour (see Findings):

- The listing form (`ValidateListingForm`) and listing creation (`CreateListing`, `NewListing`) use the corrected price field, which accepts 0.01. As written, the form refuses a price of 0.01 (`PriceFieldAsWritten`, `PriceFieldsDifferOnlyAtOneCent`).
- Listing creation offers each allowed vehicle once (`VehicleChoices`). As written, the queryset holds a vehicle once per listing of the user (`VehicleChoicesAsWritten`), and choosing such a vehicle raises a server error (`VehicleFieldAsWritten`).
- The vehicle edit and delete pages send an anonymous user to log in (`OpenVehiclePage`). As written, they answer 403 (`OpenVehiclePageAsWritten`).

## Model

| member | source | states |
|---|---|---|
| Choices.Label | web/veiculo/consts.py:3-50 | a label is returned only if the table pairs it with the code; none is returned only if no entry has that code |
| Choices.LabelOfNumbered | web/veiculo/consts.py:3-50 | for a table numbered consecutively from `first`, a label exists exactly for the codes first..first+len-1, and it is the entry at code-first |
| Choices.BrandsNumbered | web/veiculo/consts.py:3-24 | the brand table has 20 entries numbered 1..20 |
| Choices.ColorsNumbered | web/veiculo/consts.py:26-39 | the colour table has 12 entries numbered 1..12 |
| Choices.FuelsNumbered | web/veiculo/consts.py:41-50 | the fuel table has 8 entries numbered 1..8 |
| Choices.BrandLabel | web/veiculo/consts.py:3-24 | a brand label exists iff 1 <= code <= 20; it is that entry's non-empty label |
| Choices.ColorLabel | web/veiculo/consts.py:26-39 | a colour label exists iff 1 <= code <= 12; it is that entry's non-empty label |
| Choices.FuelLabel | web/veiculo/consts.py:41-50 | a fuel label exists iff 1 <= code <= 8; it is that entry's non-empty label |
| Choices.NumberedIsDistinct | web/veiculo/consts.py:3-50 | a consecutively numbered table has pairwise distinct codes |
| Choices.TablesHaveDistinctCodes | web/veiculo/consts.py:3-50 | the brand, colour and fuel tables each have pairwise distinct codes |
| Choices.CodesWhoseLabelContains | web/veiculo/views.py:38-41 | a code is in the result iff some entry has that code and its upper-cased label contains the needle |
| Choices.BrandsMatching | web/veiculo/views.py:38-41 | the result holds only codes in 1..20; a code is in it iff it has a brand label whose upper-case form contains the upper-cased query |
| Vehicles.PlateFacts | web/veiculo/models.py:62-68 | an accepted plate has 7 or 8 characters, has 8 exactly when the fourth is a hyphen, starts with three capitals and has digits in the required positions |
| Vehicles.PlateCharacters | web/veiculo/models.py:62-68 | every character of an accepted plate is a capital, a digit or the hyphen, so no accepted plate holds a null character |
| Vehicles.ValidPlate | web/veiculo/models.py:62-68 | the plate pattern: three capitals, an optional hyphen, a digit, a digit or capital, two digits |
| Vehicles.ValidChassis | web/veiculo/models.py:77-83 | the chassis pattern: 17 characters among A-H, J-N, P, R-Z and digits |
| Vehicles.ValidYear | web/veiculo/models.py:21-25 | the year validators: 1900 up to the year the module was loaded plus one |
| Vehicles.YearsOfUse | web/veiculo/models.py:91-98 | `anos_de_uso`: the current year minus the model year |
| Vehicles.IsNew | web/veiculo/models.py:100-108 | `veiculo_novo`: the model year is the current year |
| Vehicles.IsNearlyNew | web/veiculo/models.py:110-118 | `is_seminovo`: one to three years of use |
| Vehicles.SheetSegments | web/veiculo/models.py:146-154 | the segments of `ficha_completa`, the plate segment only when a plate is set |
| Vehicles.ChassisFacts | web/veiculo/models.py:77-83 | an accepted chassis has 17 characters, all capitals or digits, and none of them is I, O or Q |
| Vehicles.Category | web/veiculo/models.py:120-136 | Novo iff age 0; Seminovo iff age < 0 or 1..3; Usado iff 4..10; Antigo iff > 10 |
| Vehicles.NewIffCategoryNovo | web/veiculo/models.py:100-130 | `veiculo_novo` holds iff the category is Novo |
| Vehicles.NearlyNewAndCategory | web/veiculo/models.py:110-136 | `is_seminovo` implies category Seminovo; a Seminovo vehicle that is not `is_seminovo` has a negative age |
| Vehicles.NextYearModel | web/veiculo/models.py:21-25 | a vehicle of next year's model passes the year validators, has category Seminovo, and is neither new nor nearly new |
| Vehicles.Display | web/veiculo/models.py:147-150 | a known code shows its label; an unknown code shows the code as text |
| Vehicles.SheetSegmentsShape | web/veiculo/models.py:146-154 | the sheet has 6 segments with a plate and 5 without; it starts with the brand's display text; only the sixth segment is the plate |
| Vehicles.SheetYearReadsBack | web/veiculo/models.py:148 | the year segment starts with "Ano: ", and what follows parses back to the vehicle's year |
| Vehicles.SummarySheet | web/veiculo/models.py:146-154 | the appended segments joined with " \| " are the specified segment list joined |
| VehicleForms.CleanYear | web/veiculo/forms.py:56-68 | fails iff a non-zero year lies outside 1900..currentYear+1, with that maximum in the error; otherwise the year is returned unchanged |
| VehicleForms.YearField | web/veiculo/forms.py:56-68 | the year field accepts iff a year is given, the form check passes and the model validators accept it; the accepted year is unchanged |
| VehicleForms.ZeroYearCaughtByModel | web/veiculo/forms.py:63 | year 0 passes `clean_ano`, and the model's minimum rejects it afterwards |
| VehicleForms.NormalizeChassis | web/veiculo/forms.py:77 | every character is upper case; the characters of the result are exactly those of the upper-cased input other than spaces and hyphens; it is never longer, and strictly shorter when the input had a separator |
| VehicleForms.CleanChassis | web/veiculo/forms.py:70-92 | an empty or absent chassis is returned as is; otherwise a forbidden letter is rejected, then a length other than 17, else the normalised value is returned |
| VehicleForms.CleanChassisOutput | web/veiculo/forms.py:70-92 | an accepted output is upper case, has no spaces or hyphens, has 17 characters and no I, O or Q |
| VehicleForms.CleanChassisIdempotent | web/veiculo/forms.py:77-92 | cleaning an accepted output again returns the same result |
| VehicleForms.NormalizeFixed | web/veiculo/forms.py:77 | normalisation leaves an upper-case string without separators unchanged |
| VehicleForms.ForbiddenLetterReportedFirst | web/veiculo/forms.py:79-90 | an I, O or Q after upper-casing is the error reported, whatever the length |
| VehicleForms.CleanChassisOfNormalForm | web/veiculo/forms.py:79-92 | an already normal chassis is accepted iff it has 17 characters, else rejected for its length |
| VehicleForms.ChassisField | web/veiculo/models.py:70-84 | a blank input gives no chassis; more than 17 characters is a length error; a null character is a null-character error, reported with the length error when both apply; otherwise the field accepts iff `clean_chassi` accepts and the normalised text matches the model pattern; the accepted chassis is the normalised stripped input and matches the model pattern |
| VehicleForms.ChassisWithSeparatorRejected | web/veiculo/models.py:70-71 | an input whose stripped form contains a space or hyphen is rejected by the whole field, under the model's length-preserving upper-casing |
| VehicleForms.ChassisFieldAppliesModelPattern | web/veiculo/models.py:77-83 | a value without a null character that `clean_chassi` accepts but the model pattern refuses is rejected with the pattern error alone |
| VehicleForms.ChassisNullCharacterAlone | web/veiculo/models.py:70-71 | a null character in a stripped chassis of at most 17 characters is the field's only error, and `clean_chassi` does not run |
| VehicleForms.PlateField | web/veiculo/forms.py:17-28 | the plate field accepts iff the stripped input is blank or matches the plate pattern; it returns the stripped input, which has 7 or 8 characters when not blank; every failure carries the pattern error, joined by the length error over 8 characters and the null-character error when the input holds one |
| VehicleFormCases.SeventeenDigitsAccepted | web/veiculo/forms.py:87-92 | "12345678901234567" is accepted unchanged |
| VehicleFormCases.SixteenDigitsRejected | web/veiculo/forms.py:87-90 | a 16-digit chassis is rejected for its length |
| VehicleFormCases.PaddedPlateAccepted | web/veiculo/forms.py:17-28 | a plate typed with a trailing no-break space is stripped and accepted |
| VehicleFormCases.StarChassisCleaned | web/veiculo/forms.py:70-92 | a 17-character chassis containing `*` passes `clean_chassi` |
| VehicleFormCases.StarChassisOffPattern | web/veiculo/models.py:79 | that chassis holds no null character and does not match the model pattern |
| VehicleFormCases.CleanChassisLooserThanModel | web/veiculo/models.py:77-83 | the field as a whole rejects that chassis, which `clean_chassi` accepts, with the pattern error alone |
| Listings.Status.Code | web/anuncio/models.py:9-17 | every stored status code is non-empty and fits the 10-character column |
| Listings.StatusFromCode | web/anuncio/models.py:9-17 | a status is returned only if its code is the given text; none is returned only if no status has that code |
| Listings.StatusCodeRoundTrip | web/anuncio/models.py:9-17 | every status reads back from its code, and no two statuses share a code |
| Listings.CreationDay | web/anuncio/models.py:135 | the day is the one whose 86400-second span contains the timestamp |
| Listings.ApplyExpiry | web/anuncio/models.py:154-158 | a row that should expire becomes Expirado; any other row is unchanged |
| Listings.ShouldExpire | web/anuncio/views.py:40-43 | a row should expire iff it is Ativo and its expiration day is before today |
| Listings.ApplyExpiryIdempotent | web/anuncio/models.py:147-158 | after expiry nothing is left to expire, a second pass changes nothing, and the only possible change is Ativo to Expirado |
| Listings.Reactivated | web/anuncio/models.py:177-181 | a paused or expired row becomes Ativo; any other row is unchanged |
| Listings.ReactivatedStatus | web/anuncio/models.py:170-181 | the result is Ativo iff the status was Ativo, Pausado or Expirado; sold and reserved rows are untouched; the operation is idempotent |
| Listings.Listing.New | web/anuncio/models.py:38-77 | a new listing is Ativo with 0 views, no trade, not featured, no phone and no expiration |
| Listings.Listing.Load | web/anuncio/views.py:376-377 | the loaded instance holds exactly the stored row |
| Listings.Listing.DaysPublished | web/anuncio/models.py:127-135 | the result is >= 0 iff the creation day is not after today, and 0 iff it is today |
| Listings.Listing.IncrementViews | web/anuncio/models.py:137-145 | the view count grows by exactly one and no other field changes |
| Listings.Listing.CheckExpiration | web/anuncio/models.py:147-158 | returns true iff an expiration is set, today is after it and the listing is active; the new state is the expired row then, and unchanged otherwise |
| Listings.Listing.MarkSold | web/anuncio/models.py:160-168 | the status becomes Vendido whatever it was; no other field changes |
| Listings.Listing.Reactivate | web/anuncio/models.py:170-181 | returns true iff the status was Pausado or Expirado, and the status then becomes Ativo; otherwise nothing changes |
| Listings.AtMostOneFlag | web/anuncio/models.py:97-125 | at most one of `is_ativo`, `is_vendido` and `is_reservado` holds |
| Listings.Listing.IsActive | web/anuncio/models.py:97-105 | `is_ativo`: the status is Ativo |
| Listings.Listing.IsSold | web/anuncio/models.py:107-115 | `is_vendido`: the status is Vendido |
| Listings.Listing.IsReserved | web/anuncio/models.py:117-125 | `is_reservado`: the status is Reservado |
| Listings.CheckExpirationTwice | web/anuncio/models.py:147-158 | a second immediate call reports false, and the state after both calls is that after one |
| ListingForms.PhoneShape | web/anuncio/forms.py:21-26 | a matching phone has 15 characters, with digits at every position except the four separator positions |
| ListingForms.MatchesPhone | web/anuncio/forms.py:21-26 | the phone pattern `(XX) XXXXX-XXXX` over ASCII digits |
| ListingForms.PhoneDigits | web/anuncio/forms.py:69 | the result holds exactly the input's characters other than the parentheses, spaces and hyphens |
| ListingForms.CleanPhone | web/anuncio/forms.py:64-71 | accepts iff the phone is empty or its separator-free remainder is a non-empty string of digits; an accepted phone is unchanged |
| ListingForms.MatchingPhonePassesClean | web/anuncio/forms.py:64-71 | every phone matching the pattern passes `clean_contato_telefone` unchanged |
| ListingForms.CleanPhoneLooserThanPattern | web/anuncio/forms.py:64-71 | "11987654321" passes `clean_contato_telefone` although it does not match the pattern |
| ListingForms.LetterInPhoneRejected | web/anuncio/forms.py:69-70 | a phone with any character that is neither a digit nor a separator is rejected |
| ListingForms.PhoneValidatorErrors | web/anuncio/forms.py:16-28 | no error iff the phone matches the pattern; over 15 characters without a null character it fails exactly the pattern and the length check; a null character adds the null-character error |
| ListingForms.PhoneField | web/anuncio/forms.py:16-28 | the phone field accepts iff the stripped input is blank or matches the pattern; it returns the stripped input |
| ListingForms.EmptyPhoneAccepted | web/anuncio/forms.py:16-18 | a blank phone is accepted as "" |
| ListingForms.PhoneFieldIdempotent | web/anuncio/forms.py:16-28 | feeding an accepted phone back in gives the same result |
| ListingForms.CleanPrice | web/anuncio/forms.py:55-62 | fails iff a price is given and it is negative; otherwise the price is returned unchanged |
| ListingForms.BelowFloatCentIff | web/anuncio/models.py:33 | a whole number of cents lies below the float nearest to 0.01 iff it is at most 1 cent |
| ListingForms.PriceFieldAsWritten | web/anuncio/models.py:30-37 | as written, the price field accepts exactly 2 cents up to the ten-digit bound, unchanged |
| ListingForms.OneCentRefusedAsWritten | web/anuncio/models.py:33 | as written, 0.01 is refused by the minimum validator |
| ListingForms.PriceFieldsDifferOnlyAtOneCent | web/anuncio/models.py:30-37 | as written and corrected, the price field accepts the same prices with the same value, except 0.01, which only the corrected field accepts |
| ListingForms.PriceField | web/anuncio/models.py:30-37 | accepts iff 0 < price < 10^10 cents and returns it unchanged; zero hits the minimum, small negatives hit the form's check |
| ListingForms.OneCentAccepted | web/anuncio/models.py:33 | with the intended minimum, one cent is accepted |
| ListingForms.ZeroPriceCaughtByModel | web/anuncio/forms.py:59-62 | zero passes `clean_preco` (it is falsy) and is refused by the model's minimum |
| ListingForms.PriceFieldIdempotent | web/anuncio/models.py:30-37 | an accepted price, entered again, is accepted unchanged |
| ListingForms.DescriptionField | web/anuncio/models.py:25-29 | accepts iff the stripped description is non-empty, at most 2000 characters and free of null characters; returns it stripped; a blank one fails with the required error alone; every failure carries an error |
| ListingForms.NoBreakSpaceDescriptionRequired | web/anuncio/models.py:25-29 | a description that is only a no-break space is blank and fails as required |
| ListingForms.NullDescriptionRejected | web/anuncio/models.py:25-29 | a description holding a null character fails with the null-character error alone |
| ListingForms.StatusField | web/anuncio/models.py:38-44 | accepts iff the code names a status, and returns that status |
| ListingForms.VehicleField | web/anuncio/views.py:193-196 | accepts iff a vehicle is chosen and it is among the offered choices |
| ListingForms.VehicleFieldAsWritten | web/anuncio/views.py:193-196 | as written, the chosen key is found iff the offered queryset holds it exactly once; held more than once, the lookup raises; none chosen is the required error |
| ListingForms.VehicleFieldAsWrittenAgrees | web/anuncio/views.py:193-196 | where the lookup raises, the membership test accepts the key; elsewhere the two fields accept the same keys |
| ListingForms.ValidateListingForm | web/anuncio/forms.py:73-79 | the form succeeds iff every field does (with the corrected price field); the cleaned data holds each field's value; a failure carries at least one error |
| ListingViews.FindListing | web/anuncio/views.py:348-351 | returns the first position holding the key; none only if no row has it |
| ListingViews.VehicleOf | web/anuncio/views.py:48-50 | returns a stored vehicle with that key; none only if no vehicle has it |
| ListingViews.SameKeysKeepIntegrity | web/anuncio/views.py:40-43 | an update that keeps every row's key and vehicle keeps the keys unique and the vehicles present |
| ListingViews.ExpireAllEffect | web/anuncio/views.py:39-43 | afterwards no row should expire; rows that should not expire are unchanged; the others become Expirado; keys are kept |
| ListingViews.ExpireAll | web/anuncio/views.py:39-43 | the bulk update: every row that should expire becomes Expirado |
| ListingViews.ExpireAllIdempotent | web/anuncio/views.py:40-43 | the bulk expiry run twice equals one run |
| ListingViews.OrderIsTotalPreorder | web/anuncio/views.py:76-82 | every listing ordering is total and transitive |
| ListingViews.WebOrder | web/anuncio/views.py:76-82 | "preco" iff ascending price; "-preco" iff descending price; anything else iff featured first, then newest |
| ListingViews.WebOrderMeaning | web/anuncio/views.py:76-82 | a list sorted by the web ordering has non-decreasing prices for "preco", non-increasing prices for "-preco", and otherwise featured before not featured and newer before older among equals |
| ListingViews.TwoPricesInOrder | web/anuncio/tests_api.py:101-126 | two listings with different prices come out cheap-first under "preco" and dear-first under "-preco" |
| ListingViews.StatusParam | web/anuncio/views.py:54-55 | a status iff the parameter is given and names one; its code is the parameter |
| ListingViews.RequestedStatus | web/anuncio/views.py:53-59 | a valid status parameter selects that status; a missing or invalid one selects Ativo |
| ListingViews.WebListingStatus | web/anuncio/views.py:45-73 | a shown listing is Ativo without a valid status parameter and has the requested status with one; it respects the price bounds and the brand |
| ListingViews.WebListingQuery | web/anuncio/views.py:36-84 | the result holds exactly the stored listings that pass the keyword, status, price and brand filters, each as often as stored, ordered by the `ordem` parameter |
| ListingViews.KeywordStep | web/anuncio/views.py:46-51 | the keyword step keeps exactly the rows whose description or vehicle model contains the keyword, ignoring case |
| ListingViews.KeywordMatches | web/anuncio/views.py:46-51 | the keyword filter: the description or the vehicle's model contains the keyword, ignoring case |
| ListingViews.InWebListing | web/anuncio/views.py:45-73 | the conjunction of the keyword, status, price and brand filters of the web list |
| ListingViews.WebResult | web/anuncio/views.py:45-73 | the keyword step followed by the status, price and brand filters and a reordering selects exactly the listings that pass all of them |
| ListingViews.ApiOrder | web/anuncio/views.py:272-275 | each allowed value ("preco", "-preco", "created_at", "visualizacoes", "-visualizacoes") gives its field and direction; no parameter, "-created_at" and any value naming no allowed field give the default newest first; the featured ordering is never used |
| ListingViews.ApiFieldFilters | web/anuncio/views.py:290-313 | the result is the stored rows that pass the status, price, brand and year filters |
| ListingViews.ApiVisible | web/anuncio/views.py:315-328 | the visibility rule of the API list: with `user_id`, staff or the same user see that user's listings; without it, non-staff see active listings and their own |
| ListingViews.InApiListing | web/anuncio/views.py:290-328 | the conjunction of the API list's field filters and the visibility rule |
| ListingViews.ApiListingQuery | web/anuncio/views.py:277-330 | holds exactly the visible listings that pass the filters, ordered; a non-staff user asking for another user's listings gets nothing; a non-staff user without `user_id` sees only active listings or their own |
| ListingViews.NothingVisible | web/anuncio/views.py:316-321 | a non-staff user asking for another user's listings can see none |
| ListingViews.PermissionsCompared | web/anuncio/views.py:120-129 | whoever may mark a listing sold may also edit it and read it in the API; a user with only the view-all permission may edit another user's listing but not mark it sold, and reads it in the API iff it is active |
| ListingViews.CanAccessListing | web/anuncio/views.py:120-129 | `AnuncioOwnerMixin.test_func`: staff, the view-all permission or the owner |
| ListingViews.ApiCanView | web/anuncio/views.py:353-361 | the API detail check: staff, the owner or an active listing |
| ListingViews.CanMarkSold | web/anuncio/views.py:380-381 | the mark-as-sold check: the owner or staff |
| ListingViews.VehicleChoices | web/anuncio/views.py:193-196 | staff are offered every vehicle; every offered key is a stored vehicle; a non-staff user is offered exactly the stored vehicles of their own listings, each at least once (corrected: see Findings) |
| ListingViews.NewUserCannotCreate | web/anuncio/views.py:193-196 | a non-staff user with no listings is offered no vehicle, so the create form cannot succeed |
| ListingViews.VehicleChoicesAsWritten | web/anuncio/views.py:193-196 | as written, staff are offered the same list as the corrected version |
| ListingViews.VehicleChoicesAsWrittenCount | web/anuncio/views.py:194-196 | as written, a non-staff user is offered each key as often as the number of stored vehicles with it times the number of their own listings that offer it |
| ListingViews.KeyCountPositive | web/anuncio/views.py:194-196 | a key is counted in the vehicle table iff some stored vehicle has it |
| ListingViews.OwnListingCountPositive | web/anuncio/views.py:194-196 | a user's listings of a vehicle are counted iff one exists |
| ListingViews.OwnListingRows | web/anuncio/views.py:194-196 | the join yields the vehicle's key once per listing of the user that offers it, and no other key |
| ListingViews.SecondListingBreaksChoiceAsWritten | web/anuncio/views.py:194-196 | a non-staff user with two listings of a stored vehicle gets a failing lookup as written, while the corrected choices accept the vehicle |
| ListingViews.NextId | web/anuncio/views.py:200-210 | the new key exceeds every key in use |
| ListingViews.SavedRow | web/anuncio/views.py:200-210 | the row `form_valid` saves: the form's values, the requester as owner, today+30 when no expiration is given |
| ListingViews.NewListing | web/anuncio/views.py:200-210 | creation over values: the form with the offered vehicles, then the saved row with a fresh key |
| ListingViews.Database.ExpireOverdue | web/anuncio/views.py:38-43 | the store becomes the bulk expiry of the old store and stays consistent |
| ListingViews.Database.ListAnuncios | web/anuncio/views.py:32-84 | expires overdue rows first, then returns exactly the matching listings of the new store, ordered, none of them overdue |
| ListingViews.Database.ApiListAnuncios | web/anuncio/views.py:259-330 | anonymous is 401 and changes nothing; otherwise the store is expired first and the reply holds exactly the matching visible listings, sorted by the requested ordering |
| ListingViews.Database.ApiDetail | web/anuncio/views.py:344-366 | 401 when anonymous; 404 for a missing key; forbidden iff the user is not staff, not the owner and the listing is not active; a visible listing is always returned, with one more view, and that is stored; nothing changes on failure |
| ListingViews.Database.DetailPageAsWritten | web/anuncio/views.py:146-159 | as written, one visit stores two more views and shows the row with one more |
| ListingViews.Database.DetailPage | web/anuncio/views.py:146-152 | one visit stores and shows exactly one more view; a missing key changes nothing |
| ListingViews.Database.MarkSoldView | web/anuncio/views.py:369-394 | 401 when anonymous; 404 for a missing key; 403 unless owner or staff; otherwise 200 with the listing stored as Vendido; nothing changes except on 200 |
| ListingViews.Database.CreateListing | web/anuncio/views.py:200-210 | on success the new row is appended and nothing else changes; on failure the store is unchanged (uses the corrected price field and vehicle choices: see Findings) |
| ListingViews.NewListingMeaning | web/anuncio/views.py:200-210 | creation succeeds iff the form is valid; the row then carries the form's values, the requester as owner, today+30 as the default expiration, 0 views, the current time, a fresh key and an existing vehicle (with the corrected price field and vehicle choices) |
| ListingViews.ChoiceHasVehicle | web/anuncio/views.py:193-196 | an offered vehicle key can be looked up |
| ListingViews.AppendKeepsIntegrity | web/anuncio/views.py:200-210 | appending a row with a fresh key and an existing vehicle keeps the store consistent |
| ListingViews.DetailPageCountsTwice | web/anuncio/views.py:146-159 | starting from 0 views, one visit leaves 2 as written |
| ListingViews.DetailPageCountsOnce | web/anuncio/views.py:146-152 | starting from 0 views, one visit leaves 1 once corrected |
| VehicleViews.OrderIsTotalPreorder | web/veiculo/views.py:62 | every vehicle ordering is total and transitive |
| VehicleViews.ApiOrder | web/veiculo/views.py:160-167 | "ano", "quilometragem" and "marca", each with or without `-`, give that field and direction; no parameter and any value naming no allowed field give the default newest first |
| VehicleViews.VehicleListFacts | web/veiculo/views.py:30-62 | a shown vehicle's model or brand label contains a non-empty search, ignoring case; it has the requested brand, year bounds and fuel |
| VehicleViews.SearchMatches | web/veiculo/views.py:34-42 | the search filter: the model or a matching brand label contains the query, ignoring case |
| VehicleViews.InVehicleList | web/veiculo/views.py:30-62 | the conjunction of the search, brand, year-range and fuel filters of the web list |
| VehicleViews.NoParametersShowAll | web/veiculo/views.py:30-62 | with a blank search and no other parameter every vehicle passes |
| VehicleViews.ListVehicles | web/veiculo/views.py:30-62 | the result holds exactly the stored vehicles that pass the search, brand, year-range and fuel filters, each as often as stored, newest first |
| VehicleViews.VehicleListResult | web/veiculo/views.py:33-60 | the search step followed by the field filters and a reordering selects exactly the vehicles that pass all of them |
| VehicleViews.ListWithoutParameters | web/veiculo/views.py:31-62 | with no parameters the list is a permutation of the whole table |
| VehicleViews.ChoicesAreAccessible | web/veiculo/views.py:82-92 | every vehicle the listing form offers a user passes that user's vehicle access check |
| VehicleViews.CanAccessVehicle | web/veiculo/views.py:82-92 | `VeiculoOwnerMixin.test_func`: staff, the detailed-information permission or a listing of the user for the vehicle |
| VehicleViews.PermissionWithoutListings | web/veiculo/views.py:82-92 | the detailed-information permission opens every vehicle, even for a user who is offered none |
| VehicleViews.FindVehicle | web/veiculo/views.py:124-141 | returns a position holding the key; none only if no vehicle has it |
| VehicleViews.OpenVehiclePage | web/veiculo/views.py:82-92 | corrected, with the login redirect of `LoginObrigatorio`: anonymous users are sent to log in; a missing key is 404; otherwise 403 or the page, by the access check |
| VehicleViews.OpenVehiclePageAsWritten | web/veiculo/views.py:94-98 | as written, no request is sent to log in; an anonymous user gets 403; a missing key is 404; the page is returned only to a user who passes the access check |
| VehicleViews.AnonymousVehiclePageForbiddenAsWritten | web/veiculo/views.py:126-141 | for an anonymous user the pages as written answer 403 and the corrected ones redirect to log in; for a signed-in user both agree |
| VehicleViews.ApiVehicleQuery | web/veiculo/views.py:171-189 | holds exactly the stored vehicles with the given brand, year and fuel, each as often as stored, ordered by the `ordering` parameter |
| VehicleViews.InApiVehicleList | web/veiculo/views.py:171-189 | the exact brand, year and fuel filters of the API list |
| VehicleViews.ApiListVehicles | web/veiculo/views.py:154-189 | 401 iff anonymous; otherwise exactly the vehicles with the given brand, year and fuel, in the requested order |

## Left out

- Photos and file serving (`FotoVeiculo`), templates, context data and widget styling: I/O and presentation.
- The "similar listings" box of the detail page: its order is random.
- Sessions, tokens and login internals. The requester is an `Option<User>` whose permission set already includes a superuser's implicit permissions.
- The DRF `SearchFilter` (`search` parameter) of both API lists: library behaviour.
- Multi-field `ordering` values of the API lists: library behaviour. Only a single field, with or without `-`, is modelled; anything else falls back to the default.
- Pagination: only the page-size constants (10, with a maximum of 50) are recorded.
- Serializers and URL routing.
- Decimal arithmetic: prices are whole cents, and a price bound compares in cents.
- Numeric query parameters that do not parse: the source fails with a server error. The model takes parameters already parsed.
- VehicleForms.ChassisWithSeparatorRejected: holds for the model's upper-casing only. Python's `upper()` turns `ß` into `SS`, so a 17-character input with a hyphen and a `ß`, such as `"ABCDEFGH-JKLMNPRß"`, is accepted by the source.
- Upper-casing follows ASCII and Latin-1 single-character rules only. Full Unicode case folding, and the database's own `icontains` collation, are not modelled.
- The end-of-string `$` of the regular expressions also accepts a trailing newline. The model matches the whole string.
- ListingForms.MatchesPhone: Python's `\d` also matches non-ASCII decimal digits (Arabic-Indic, Devanagari and others); the model's pattern accepts ASCII digits only.
- ListingForms.PhoneField: inherits that restriction from `MatchesPhone`, so a phone written with non-ASCII decimal digits is refused by the model and accepted by the source.
- ListingForms.CleanPhone: `str.isdigit()` also accepts non-ASCII decimal digits and digit-like characters such as superscripts; the model's `IsDigits` accepts ASCII digits only.
- ListingForms.PhoneValidatorErrors: for the same reason, the pattern error is reported for phones whose digits are not ASCII.
- `strip()` removes exactly the characters of Python's `str.isspace()`; that set is written out in `Text.IsSpace` for the current Unicode tables and not derived from them.
- The join `filter(anuncios__usuario=u)` returns rows in an order the database chooses; `VehicleChoicesAsWritten` lists them vehicle by vehicle, and only how often each key occurs is stated.
- Concurrency on the view counter: calls are sequential.
- `updated_at`, `__str__` and the duplicate creation column `data`.
- Database-level chassis uniqueness, cascading deletes and indexes.
- Creating, editing and deleting vehicles and editing and deleting listings beyond their access checks: form saving is framework behaviour.

## Findings

| source | as written | input that shows it | evidently intended | confidence | as-written member | corrected member |
|---|---|---|---|---|---|---|
| web/anuncio/views.py:146-159 | `get_object` counts a view, and `get_context_data` calls `get_object` a second time | one visit to the detail page of a listing with 0 views leaves 2 (`DetailPageCountsTwice`; `DetailPageCountsOnce` for the corrected page) | one view per visit | high, not executed | ListingViews.Database.DetailPageAsWritten | ListingViews.Database.DetailPage |
| web/anuncio/models.py:33 | `MinValueValidator(0.01)` compares the Decimal price with the float nearest to 0.01, which lies slightly above 0.01; the listing form and listing creation of this model use the corrected field | a price of 0.01 is refused (`OneCentRefusedAsWritten`; `OneCentAccepted` for the corrected field; `PriceFieldsDifferOnlyAtOneCent`) | the smallest price, 0.01, is accepted | medium, not executed | ListingForms.PriceFieldAsWritten | ListingForms.PriceField |
| web/anuncio/views.py:194-196 | `veiculos_qs.filter(anuncios__usuario=user)` joins through the user's listings, so the queryset holds a vehicle once per listing of the user; `ModelChoiceField` looks the chosen key up with `.get()`, which raises `MultipleObjectsReturned` | a non-staff user with two listings of the same vehicle submits the create form with that vehicle (`SecondListingBreaksChoiceAsWritten`) | each vehicle offered once, as with `.distinct()` | high, not executed | ListingViews.VehicleChoicesAsWritten | ListingViews.VehicleChoices |
| web/veiculo/views.py:94-98 | `VeiculoOwnerMixin.handle_no_permission` raises `PermissionDenied`, and in the method resolution order of `EditarVeiculos` and `DeletarVeiculos` it also replaces the login redirect that `LoginRequiredMixin.dispatch` starts for anonymous users; `AnuncioOwnerMixin.handle_no_permission` (web/anuncio/views.py:131-135) does the same for `EditarAnuncios` and `DeletarAnuncio`, whose access check is `CanAccessListing` | an anonymous request for the edit page of any vehicle gets 403 (`AnonymousVehiclePageForbiddenAsWritten`) | a redirect to the login page, as the docstring of `LoginObrigatorio` (web/sistema/bibliotecas.py:8-11) describes | medium, not executed | VehicleViews.OpenVehiclePageAsWritten | VehicleViews.OpenVehiclePage |
