/**
 * The listing views (web/anuncio/views.py): the web and API list pipelines
 * with their bulk expiry, the permission predicates, the detail views, the
 * "mark as sold" endpoint and listing creation.
 *
 * The database is a pair of tables held as sequences. A request's user is
 * `None` when it carries no valid credentials; query parameters arrive
 * already parsed (a number parameter is `None` when it is absent or empty,
 * so `"0"` is `Some(0)`, as it is truthy in Python).
 */
module ListingViews {
  import opened Wrappers
  import opened Text
  import opened Users
  import opened Sequences
  import opened Listings
  import opened ListingForms
  import Vehicles

  /** `paginate_by` of the web list and the page sizes of the API. */
  const WebPageSize: nat := 10
  const ApiPageSize: nat := 10
  const ApiMaxPageSize: nat := 50

  /** Days from today to the expiration date a new listing gets by default. */
  const DefaultExpiryDays: int := 30

  const ViewAllPermission: string := "anuncio.can_view_all_anuncios"

  // ---------------------------------------------------------------------
  // Lookups by primary key

  /** `Anuncio.objects.get(pk=id)`: the position of the row with this key. */
  function FindListing(rows: seq<ListingRow>, id: int): (r: Option<nat>)
    ensures r.Some? ==> r.value < |rows| && rows[r.value].id == id
    ensures r.Some? ==> forall j :: 0 <= j < r.value ==> rows[j].id != id
    ensures r.None? ==> forall j :: 0 <= j < |rows| ==> rows[j].id != id
  {
    if rows == [] then None
    else if rows[0].id == id then Some(0)
    else match FindListing(rows[1..], id)
      case None => None
      case Some(k) => Some(k + 1)
  }

  /** The vehicle a listing's foreign key points to. */
  function VehicleOf(vehicles: seq<Vehicles.Vehicle>, id: int): (r: Option<Vehicles.Vehicle>)
    ensures r.Some? ==> r.value in vehicles && r.value.id == id
    ensures r.None? ==> forall j :: 0 <= j < |vehicles| ==> vehicles[j].id != id
  {
    if vehicles == [] then None
    else if vehicles[0].id == id then Some(vehicles[0])
    else VehicleOf(vehicles[1..], id)
  }

  ghost predicate UniqueListingIds(rows: seq<ListingRow>) {
    forall i, j :: 0 <= i < j < |rows| ==> rows[i].id != rows[j].id
  }

  ghost predicate UniqueVehicleIds(vehicles: seq<Vehicles.Vehicle>) {
    forall i, j :: 0 <= i < j < |vehicles| ==> vehicles[i].id != vehicles[j].id
  }

  /** Every listing's vehicle exists (the foreign key holds). */
  ghost predicate VehiclesPresent(rows: seq<ListingRow>, vehicles: seq<Vehicles.Vehicle>) {
    forall i :: 0 <= i < |rows| ==> VehicleOf(vehicles, rows[i].vehicle).Some?
  }

  /** Two versions of the listing table that differ only in columns other
      than the keys. */
  ghost predicate SameKeys(a: seq<ListingRow>, b: seq<ListingRow>) {
    |a| == |b| && forall i :: 0 <= i < |a| ==> a[i].id == b[i].id && a[i].vehicle == b[i].vehicle
  }

  lemma SameKeysKeepIntegrity(a: seq<ListingRow>, b: seq<ListingRow>, vehicles: seq<Vehicles.Vehicle>)
    requires SameKeys(a, b)
    requires UniqueListingIds(a) && VehiclesPresent(a, vehicles)
    ensures UniqueListingIds(b) && VehiclesPresent(b, vehicles)
  {
    forall i | 0 <= i < |b| ensures VehicleOf(vehicles, b[i].vehicle).Some? {
      assert b[i].vehicle == a[i].vehicle;
    }
  }

  // ---------------------------------------------------------------------
  // Bulk expiry

  /** `Anuncio.objects.filter(status=ATIVO, data_expiracao__lt=hoje)
      .update(status=EXPIRADO)`: every overdue active row expires. */
  function ExpireAll(rows: seq<ListingRow>, today: int): seq<ListingRow> {
    seq(|rows|, i requires 0 <= i < |rows| => ApplyExpiry(rows[i], today))
  }

  /** After the bulk update no active row has an expiration date before
      today; rows that were not overdue are untouched; the keys stay. */
  lemma ExpireAllEffect(rows: seq<ListingRow>, today: int)
    ensures forall r :: r in ExpireAll(rows, today) ==> !ShouldExpire(r, today)
    ensures forall i :: 0 <= i < |rows| && !ShouldExpire(rows[i], today) ==> ExpireAll(rows, today)[i] == rows[i]
    ensures forall i :: 0 <= i < |rows| && ShouldExpire(rows[i], today) ==> ExpireAll(rows, today)[i] == rows[i].(status := Expirado)
    ensures SameKeys(rows, ExpireAll(rows, today))
  {
    forall r | r in ExpireAll(rows, today) ensures !ShouldExpire(r, today) {
      var i :| 0 <= i < |rows| && ExpireAll(rows, today)[i] == r;
      ApplyExpiryIdempotent(rows[i], today);
    }
  }

  /** Running the bulk update twice gives the table it gives once. */
  lemma ExpireAllIdempotent(rows: seq<ListingRow>, today: int)
    ensures ExpireAll(ExpireAll(rows, today), today) == ExpireAll(rows, today)
  {
    forall i | 0 <= i < |rows| ensures ExpireAll(ExpireAll(rows, today), today)[i] == ExpireAll(rows, today)[i] {
      ApplyExpiryIdempotent(rows[i], today);
    }
  }

  // ---------------------------------------------------------------------
  // Filters shared by the two list views

  predicate PriceInRange(r: ListingRow, lo: Option<int>, hi: Option<int>) {
    (lo.None? || r.priceCents >= lo.value) && (hi.None? || r.priceCents <= hi.value)
  }

  /** `veiculo__marca=marca` */
  predicate BrandIs(r: ListingRow, vehicles: seq<Vehicles.Vehicle>, brand: int) {
    VehicleOf(vehicles, r.vehicle).Some? && VehicleOf(vehicles, r.vehicle).value.brand == brand
  }

  /** `veiculo__ano=ano` */
  predicate YearIs(r: ListingRow, vehicles: seq<Vehicles.Vehicle>, year: int) {
    VehicleOf(vehicles, r.vehicle).Some? && VehicleOf(vehicles, r.vehicle).value.year == year
  }

  /** `Q(descricao__icontains=kw) | Q(veiculo__modelo__icontains=kw)` */
  predicate KeywordMatches(r: ListingRow, vehicles: seq<Vehicles.Vehicle>, kw: string) {
    || Contains(Upper(r.description), Upper(kw))
    || (VehicleOf(vehicles, r.vehicle).Some? && Contains(Upper(VehicleOf(vehicles, r.vehicle).value.model), Upper(kw)))
  }

  // ---------------------------------------------------------------------
  // Orderings

  datatype SortKey = ByPrice | ByCreation | ByViews

  datatype ListingOrder = Ascending(key: SortKey) | Descending(key: SortKey) | FeaturedThenNewest

  function Key(k: SortKey, r: ListingRow): int {
    match k
    case ByPrice => r.priceCents
    case ByCreation => r.createdAt
    case ByViews => r.views
  }

  /** `a` may come before `b` in `order_by(...)`. */
  predicate Precedes(o: ListingOrder, a: ListingRow, b: ListingRow) {
    match o
    case Ascending(k) => Key(k, a) <= Key(k, b)
    case Descending(k) => Key(k, a) >= Key(k, b)
    case FeaturedThenNewest => (a.featured && !b.featured) || (a.featured == b.featured && a.createdAt >= b.createdAt)
  }

  function Order(o: ListingOrder): (ListingRow, ListingRow) -> bool {
    (a: ListingRow, b: ListingRow) => Precedes(o, a, b)
  }

  /** Each ordering compares any two rows and is transitive, so sorting by
      it is well defined up to rows that compare equal. */
  lemma OrderIsTotalPreorder(o: ListingOrder)
    ensures TotalPreorder(Order(o))
  {
    forall a, b, c | Order(o)(a, b) && Order(o)(b, c) ensures Order(o)(a, c) {
      assert Precedes(o, a, b) && Precedes(o, b, c);
    }
  }

  /** The web list's `ordem`: `preco`, `-preco`, anything else (the default
      `-created_at` included) featured first, then newest. */
  function WebOrder(param: Option<string>): (o: ListingOrder)
    ensures param == Some("preco") <==> o == Ascending(ByPrice)
    ensures param == Some("-preco") <==> o == Descending(ByPrice)
    ensures param != Some("preco") && param != Some("-preco") <==> o == FeaturedThenNewest
  {
    if param == Some("preco") then Ascending(ByPrice)
    else if param == Some("-preco") then Descending(ByPrice)
    else FeaturedThenNewest
  }

  /** What a sorted result looks like under each web ordering. */
  lemma WebOrderMeaning(param: Option<string>, result: seq<ListingRow>)
    requires SortedBy(result, Order(WebOrder(param)))
    ensures param == Some("preco") ==> forall i, j :: 0 <= i < j < |result| ==> result[i].priceCents <= result[j].priceCents
    ensures param == Some("-preco") ==> forall i, j :: 0 <= i < j < |result| ==> result[i].priceCents >= result[j].priceCents
    ensures param != Some("preco") && param != Some("-preco") ==>
      forall i, j :: 0 <= i < j < |result| ==>
        (result[i].featured || !result[j].featured)
        && (result[i].featured == result[j].featured ==> result[i].createdAt >= result[j].createdAt)
  {
    forall i, j | 0 <= i < j < |result| ensures Precedes(WebOrder(param), result[i], result[j]) {
      assert Order(WebOrder(param))(result[i], result[j]);
    }
  }

  /** Two rows with different prices come out cheaper first under `preco`
      and dearer first under `-preco`, whatever order the table had. */
  lemma TwoPricesInOrder(result: seq<ListingRow>, cheap: ListingRow, dear: ListingRow, o: ListingOrder)
    requires cheap.priceCents < dear.priceCents
    requires multiset(result) == multiset{cheap, dear}
    requires o == Ascending(ByPrice) || o == Descending(ByPrice)
    requires SortedBy(result, Order(o))
    ensures result == if o == Ascending(ByPrice) then [cheap, dear] else [dear, cheap]
  {
    assert |result| == |multiset(result)| == 2;
    assert result[0] in multiset(result) && result[1] in multiset(result);
    assert Order(o)(result[0], result[1]);
  }

  // ---------------------------------------------------------------------
  // The web list (ListarAnuncios.get_queryset)

  /** `keyword` is `""` when absent. */
  datatype WebListingParams = WebListingParams(
    keyword: string,
    status: Option<string>,
    priceMin: Option<int>,
    priceMax: Option<int>,
    brand: Option<int>,
    order: Option<string>)

  /** The status a `status` parameter names: `None` when the parameter is
      absent or is not one of the five codes. */
  function StatusParam(param: Option<string>): (s: Option<Status>)
    ensures s.Some? <==> param.Some? && StatusFromCode(param.value).Some?
    ensures s.Some? ==> s.value.Code() == param.value
  {
    if param.Some? then StatusFromCode(param.value) else None
  }

  /** The status the web list shows: the requested one when it is valid,
      `Ativo` otherwise. */
  function RequestedStatus(param: Option<string>): (s: Status)
    ensures StatusParam(param).Some? ==> s == StatusParam(param).value
    ensures StatusParam(param).None? ==> s == Ativo
  {
    if StatusParam(param).Some? then StatusParam(param).value else Ativo
  }

  /** The keyword filter, applied only to a non-empty keyword. */
  predicate KeywordFilter(r: ListingRow, vehicles: seq<Vehicles.Vehicle>, kw: string) {
    kw == "" || KeywordMatches(r, vehicles, kw)
  }

  /** The rows the web list shows, stated as one condition. */
  predicate InWebListing(r: ListingRow, vehicles: seq<Vehicles.Vehicle>, q: WebListingParams) {
    && KeywordFilter(r, vehicles, Strip(q.keyword))
    && r.status == RequestedStatus(q.status)
    && PriceInRange(r, q.priceMin, q.priceMax)
    && (q.brand.None? || BrandIs(r, vehicles, q.brand.value))
  }

  /** Without a valid status every row shown is active; with one, every row
      shown has it; the price bounds are inclusive. */
  lemma WebListingStatus(r: ListingRow, vehicles: seq<Vehicles.Vehicle>, q: WebListingParams)
    requires InWebListing(r, vehicles, q)
    ensures q.status.None? || StatusFromCode(q.status.value).None? ==> r.status == Ativo
    ensures q.status.Some? && StatusFromCode(q.status.value).Some? ==> r.status.Code() == q.status.value
    ensures q.priceMin.Some? ==> r.priceCents >= q.priceMin.value
    ensures q.priceMax.Some? ==> r.priceCents <= q.priceMax.value
    ensures q.brand.Some? ==> BrandIs(r, vehicles, q.brand.value)
  {
  }

  /** The rows that survive the status filter and the next `k` field filters
      of the web list (minimum price, maximum price, brand). */
  predicate WebStage(r: ListingRow, vehicles: seq<Vehicles.Vehicle>, q: WebListingParams, k: nat) {
    && r.status == RequestedStatus(q.status)
    && (k >= 1 ==> q.priceMin.None? || r.priceCents >= q.priceMin.value)
    && (k >= 2 ==> q.priceMax.None? || r.priceCents <= q.priceMax.value)
    && (k >= 3 ==> q.brand.None? || BrandIs(r, vehicles, q.brand.value))
  }

  /** The filter chain of the web list, one narrowing at a time, then the
      ordering: the result holds exactly the rows of the table that satisfy
      `InWebListing`, each as often as in the table, in the requested order. */
  method WebListingQuery(rows: seq<ListingRow>, vehicles: seq<Vehicles.Vehicle>, q: WebListingParams)
    returns (result: seq<ListingRow>)
    ensures forall x :: multiset(result)[x] == if InWebListing(x, vehicles, q) then multiset(rows)[x] else 0
    ensures forall x :: x in result ==> x in rows && InWebListing(x, vehicles, q)
    ensures SortedBy(result, Order(WebOrder(q.order)))
  {
    var kw := Strip(q.keyword);
    var base := rows;
    if kw != "" {
      base := Filter(rows, (r: ListingRow) => KeywordMatches(r, vehicles, kw));
    }
    var wanted := RequestedStatus(q.status);
    var qs := Filter(base, (r: ListingRow) => r.status == wanted);
    NarrowedStart(base, (x: ListingRow) => true);
    FilterNarrows(base, base, (x: ListingRow) => true, (r: ListingRow) => r.status == wanted,
      (x: ListingRow) => WebStage(x, vehicles, q, 0));
    var before := qs;
    if q.priceMin.Some? {
      var lo := q.priceMin.value;
      qs := Filter(qs, (r: ListingRow) => r.priceCents >= lo);
      FilterNarrows(before, base, (x: ListingRow) => WebStage(x, vehicles, q, 0), (r: ListingRow) => r.priceCents >= lo,
        (x: ListingRow) => WebStage(x, vehicles, q, 1));
    } else {
      NarrowedSame(qs, base, (x: ListingRow) => WebStage(x, vehicles, q, 0), (x: ListingRow) => WebStage(x, vehicles, q, 1));
    }
    before := qs;
    if q.priceMax.Some? {
      var hi := q.priceMax.value;
      qs := Filter(qs, (r: ListingRow) => r.priceCents <= hi);
      FilterNarrows(before, base, (x: ListingRow) => WebStage(x, vehicles, q, 1), (r: ListingRow) => r.priceCents <= hi,
        (x: ListingRow) => WebStage(x, vehicles, q, 2));
    } else {
      NarrowedSame(qs, base, (x: ListingRow) => WebStage(x, vehicles, q, 1), (x: ListingRow) => WebStage(x, vehicles, q, 2));
    }
    before := qs;
    if q.brand.Some? {
      var b := q.brand.value;
      qs := Filter(qs, (r: ListingRow) => BrandIs(r, vehicles, b));
      FilterNarrows(before, base, (x: ListingRow) => WebStage(x, vehicles, q, 2), (r: ListingRow) => BrandIs(r, vehicles, b),
        (x: ListingRow) => WebStage(x, vehicles, q, 3));
    } else {
      NarrowedSame(qs, base, (x: ListingRow) => WebStage(x, vehicles, q, 2), (x: ListingRow) => WebStage(x, vehicles, q, 3));
    }
    var o := WebOrder(q.order);
    OrderIsTotalPreorder(o);
    result := Sort(qs, Order(o));
    WebResult(rows, base, qs, result, vehicles, q, kw);
  }

  /** What the keyword step leaves of the table. */
  lemma KeywordStep(rows: seq<ListingRow>, base: seq<ListingRow>, vehicles: seq<Vehicles.Vehicle>, kw: string)
    requires base == if kw != "" then Filter(rows, (r: ListingRow) => KeywordMatches(r, vehicles, kw)) else rows
    ensures forall x :: multiset(base)[x] == if KeywordFilter(x, vehicles, kw) then multiset(rows)[x] else 0
    ensures forall x :: x in base ==> x in rows
  {
    if kw != "" {
      FilterCount(rows, (r: ListingRow) => KeywordMatches(r, vehicles, kw));
      forall x | x in base ensures x in rows {
        assert multiset(base)[x] > 0;
      }
    }
  }

  /** The keyword step followed by the field filters and a reordering
      leaves exactly the rows of the table that satisfy `InWebListing`. */
  lemma WebResult(rows: seq<ListingRow>, base: seq<ListingRow>, qs: seq<ListingRow>, result: seq<ListingRow>,
                  vehicles: seq<Vehicles.Vehicle>, q: WebListingParams, kw: string)
    requires kw == Strip(q.keyword)
    requires base == if kw != "" then Filter(rows, (r: ListingRow) => KeywordMatches(r, vehicles, kw)) else rows
    requires Narrowed(qs, base, (x: ListingRow) => WebStage(x, vehicles, q, 3))
    requires multiset(result) == multiset(qs)
    ensures forall x :: multiset(result)[x] == if InWebListing(x, vehicles, q) then multiset(rows)[x] else 0
    ensures forall x :: x in result ==> x in rows && InWebListing(x, vehicles, q)
  {
    NarrowedPermuted(qs, result, base, (x: ListingRow) => WebStage(x, vehicles, q, 3));
    KeywordStep(rows, base, vehicles, kw);
    forall x ensures multiset(result)[x] == if InWebListing(x, vehicles, q) then multiset(rows)[x] else 0 {
      assert InWebListing(x, vehicles, q) <==> KeywordFilter(x, vehicles, kw) && WebStage(x, vehicles, q, 3);
    }
    forall x | x in result ensures x in rows && InWebListing(x, vehicles, q) {
      assert multiset(result)[x] > 0;
    }
  }

  // ---------------------------------------------------------------------
  // The API list (APIListarAnuncios.get_queryset and its ordering filter)

  datatype ApiListingParams = ApiListingParams(
    status: Option<string>,
    priceMin: Option<int>,
    priceMax: Option<int>,
    brand: Option<int>,
    year: Option<int>,
    userId: Option<int>,
    ordering: Option<string>)

  /** The visibility rule: with `user_id`, staff or the user themself see
      that user's listings and anyone else sees nothing; without it, staff
      see everything and others see active listings and their own. */
  predicate ApiVisible(r: ListingRow, u: User, userId: Option<int>) {
    if userId.Some? then (u.isStaff || userId.value == u.id) && r.owner == userId.value
    else u.isStaff || r.status == Ativo || r.owner == u.id
  }

  /** The rows the API list returns: an invalid status is ignored. */
  predicate InApiListing(r: ListingRow, vehicles: seq<Vehicles.Vehicle>, u: User, q: ApiListingParams) {
    && (StatusParam(q.status).None? || r.status == StatusParam(q.status).value)
    && PriceInRange(r, q.priceMin, q.priceMax)
    && (q.brand.None? || BrandIs(r, vehicles, q.brand.value))
    && (q.year.None? || YearIs(r, vehicles, q.year.value))
    && ApiVisible(r, u, q.userId)
  }

  /** The API's `ordering` parameter, one of the fields it allows with an
      optional `-`; anything else falls back to `-created_at`. */
  function ApiOrder(param: Option<string>): (o: ListingOrder)
    ensures o != FeaturedThenNewest
    ensures param == Some("preco") ==> o == Ascending(ByPrice)
    ensures param == Some("-preco") ==> o == Descending(ByPrice)
    ensures param == Some("created_at") ==> o == Ascending(ByCreation)
    ensures param == Some("visualizacoes") ==> o == Ascending(ByViews)
    ensures param == Some("-visualizacoes") ==> o == Descending(ByViews)
    ensures param.None? || param == Some("-created_at") ==> o == Descending(ByCreation)
    ensures o != Descending(ByCreation) ==>
      param.Some? && param.value in {"preco", "-preco", "created_at", "visualizacoes", "-visualizacoes"}
  {
    if param == Some("preco") then Ascending(ByPrice)
    else if param == Some("-preco") then Descending(ByPrice)
    else if param == Some("created_at") then Ascending(ByCreation)
    else if param == Some("visualizacoes") then Ascending(ByViews)
    else if param == Some("-visualizacoes") then Descending(ByViews)
    else Descending(ByCreation)
  }

  /** The rows that survive the first `k` field filters of the API list:
      status, minimum price, maximum price, brand, year. */
  predicate ApiStage(r: ListingRow, vehicles: seq<Vehicles.Vehicle>, q: ApiListingParams, k: nat) {
    && (k >= 1 ==> StatusParam(q.status).None? || r.status == StatusParam(q.status).value)
    && (k >= 2 ==> q.priceMin.None? || r.priceCents >= q.priceMin.value)
    && (k >= 3 ==> q.priceMax.None? || r.priceCents <= q.priceMax.value)
    && (k >= 4 ==> q.brand.None? || BrandIs(r, vehicles, q.brand.value))
    && (k >= 5 ==> q.year.None? || YearIs(r, vehicles, q.year.value))
  }

  /** The field filters of the API list, each applied only when its
      parameter is given. */
  method ApiFieldFilters(rows: seq<ListingRow>, vehicles: seq<Vehicles.Vehicle>, q: ApiListingParams)
    returns (qs: seq<ListingRow>)
    ensures Narrowed(qs, rows, (x: ListingRow) => ApiStage(x, vehicles, q, 5))
  {
    qs := rows;
    var before := qs;
    NarrowedStart(rows, (x: ListingRow) => ApiStage(x, vehicles, q, 0));
    var st := StatusParam(q.status);
    if st.Some? {
      var wanted := st.value;
      qs := Filter(qs, (r: ListingRow) => r.status == wanted);
      FilterNarrows(before, rows, (x: ListingRow) => ApiStage(x, vehicles, q, 0), (r: ListingRow) => r.status == wanted,
        (x: ListingRow) => ApiStage(x, vehicles, q, 1));
    } else {
      NarrowedSame(qs, rows, (x: ListingRow) => ApiStage(x, vehicles, q, 0), (x: ListingRow) => ApiStage(x, vehicles, q, 1));
    }
    before := qs;
    if q.priceMin.Some? {
      var lo := q.priceMin.value;
      qs := Filter(qs, (r: ListingRow) => r.priceCents >= lo);
      FilterNarrows(before, rows, (x: ListingRow) => ApiStage(x, vehicles, q, 1), (r: ListingRow) => r.priceCents >= lo,
        (x: ListingRow) => ApiStage(x, vehicles, q, 2));
    } else {
      NarrowedSame(qs, rows, (x: ListingRow) => ApiStage(x, vehicles, q, 1), (x: ListingRow) => ApiStage(x, vehicles, q, 2));
    }
    before := qs;
    if q.priceMax.Some? {
      var hi := q.priceMax.value;
      qs := Filter(qs, (r: ListingRow) => r.priceCents <= hi);
      FilterNarrows(before, rows, (x: ListingRow) => ApiStage(x, vehicles, q, 2), (r: ListingRow) => r.priceCents <= hi,
        (x: ListingRow) => ApiStage(x, vehicles, q, 3));
    } else {
      NarrowedSame(qs, rows, (x: ListingRow) => ApiStage(x, vehicles, q, 2), (x: ListingRow) => ApiStage(x, vehicles, q, 3));
    }
    before := qs;
    if q.brand.Some? {
      var b := q.brand.value;
      qs := Filter(qs, (r: ListingRow) => BrandIs(r, vehicles, b));
      FilterNarrows(before, rows, (x: ListingRow) => ApiStage(x, vehicles, q, 3), (r: ListingRow) => BrandIs(r, vehicles, b),
        (x: ListingRow) => ApiStage(x, vehicles, q, 4));
    } else {
      NarrowedSame(qs, rows, (x: ListingRow) => ApiStage(x, vehicles, q, 3), (x: ListingRow) => ApiStage(x, vehicles, q, 4));
    }
    before := qs;
    if q.year.Some? {
      var y := q.year.value;
      qs := Filter(qs, (r: ListingRow) => YearIs(r, vehicles, y));
      FilterNarrows(before, rows, (x: ListingRow) => ApiStage(x, vehicles, q, 4), (r: ListingRow) => YearIs(r, vehicles, y),
        (x: ListingRow) => ApiStage(x, vehicles, q, 5));
    } else {
      NarrowedSame(qs, rows, (x: ListingRow) => ApiStage(x, vehicles, q, 4), (x: ListingRow) => ApiStage(x, vehicles, q, 5));
    }
  }

  /** `APIListarAnuncios.get_queryset` for an authenticated user, followed by
      the ordering filter: the field filters, then the visibility rule, then
      the ordering. */
  method ApiListingQuery(rows: seq<ListingRow>, vehicles: seq<Vehicles.Vehicle>, u: User, q: ApiListingParams)
    returns (result: seq<ListingRow>)
    ensures forall x :: multiset(result)[x] == if InApiListing(x, vehicles, u, q) then multiset(rows)[x] else 0
    ensures SortedBy(result, Order(ApiOrder(q.ordering)))
    ensures !u.isStaff && q.userId.Some? && q.userId.value != u.id ==> result == []
    ensures !u.isStaff && q.userId.None? ==> forall x :: x in result ==> x.status == Ativo || x.owner == u.id
  {
    var fields := ApiFieldFilters(rows, vehicles, q);
    var qs := fields;
    if q.userId.Some? {
      if !(u.isStaff || q.userId.value == u.id) {
        NothingVisible(vehicles, u, q);
        return [];
      }
      var owner := q.userId.value;
      qs := Filter(qs, (r: ListingRow) => r.owner == owner);
      FilterNarrows(fields, rows, (x: ListingRow) => ApiStage(x, vehicles, q, 5), (r: ListingRow) => r.owner == owner,
        (x: ListingRow) => InApiListing(x, vehicles, u, q));
    } else if !u.isStaff {
      qs := Filter(qs, (r: ListingRow) => r.status == Ativo || r.owner == u.id);
      FilterNarrows(fields, rows, (x: ListingRow) => ApiStage(x, vehicles, q, 5), (r: ListingRow) => r.status == Ativo || r.owner == u.id,
        (x: ListingRow) => InApiListing(x, vehicles, u, q));
    } else {
      NarrowedSame(qs, rows, (x: ListingRow) => ApiStage(x, vehicles, q, 5), (x: ListingRow) => InApiListing(x, vehicles, u, q));
    }
    var o := ApiOrder(q.ordering);
    OrderIsTotalPreorder(o);
    result := Sort(qs, Order(o));
    NarrowedPermuted(qs, result, rows, (x: ListingRow) => InApiListing(x, vehicles, u, q));
  }

  /** A user who is not staff and asks for another user's listings is shown
      none of them. */
  lemma NothingVisible(vehicles: seq<Vehicles.Vehicle>, u: User, q: ApiListingParams)
    requires !u.isStaff && q.userId.Some? && q.userId.value != u.id
    ensures forall x :: !InApiListing(x, vehicles, u, q)
  {
  }

  // ---------------------------------------------------------------------
  // Permissions

  /** `AnuncioOwnerMixin.test_func`, used by the edit and delete views. */
  predicate CanAccessListing(u: User, r: ListingRow) {
    u.id == r.owner || u.isStaff || HasPerm(u, ViewAllPermission)
  }

  /** The check of `APIDetalheAnuncio.get_object`. */
  predicate ApiCanView(u: User, r: ListingRow) {
    u.isStaff || r.owner == u.id || r.status == Ativo
  }

  /** The check of `marcar_anuncio_vendido`. */
  predicate CanMarkSold(u: User, r: ListingRow) {
    r.owner == u.id || u.isStaff
  }

  /** Marking as sold is allowed to fewer users than editing: whoever may mark
      a listing sold may also edit it, while the "view all" permission lets a
      user edit but not mark as sold, and lets the API show them only active
      listings of others. */
  lemma PermissionsCompared(u: User, r: ListingRow)
    ensures CanMarkSold(u, r) ==> CanAccessListing(u, r) && ApiCanView(u, r)
    ensures HasPerm(u, ViewAllPermission) && !u.isStaff && u.id != r.owner ==>
      CanAccessListing(u, r) && !CanMarkSold(u, r) && (ApiCanView(u, r) <==> r.status == Ativo)
  {
  }

  // ---------------------------------------------------------------------
  // Vehicles a user may pick when creating a listing

  /** `CriarAnuncios.get_form`: staff may pick any vehicle; anyone else only a
      vehicle that already has a listing of theirs. */
  function VehicleChoices(u: User, rows: seq<ListingRow>, vehicles: seq<Vehicles.Vehicle>): (ids: seq<int>)
    ensures u.isStaff ==> forall v :: v in vehicles ==> v.id in ids
    ensures !u.isStaff ==> forall v, r :: v in vehicles && r in rows && r.vehicle == v.id && r.owner == u.id ==> v.id in ids
    ensures forall id :: id in ids ==> exists v :: v in vehicles && v.id == id
    ensures !u.isStaff ==> forall id :: id in ids ==> exists r :: r in rows && r.vehicle == id && r.owner == u.id
  {
    if vehicles == [] then []
    else
      var v := vehicles[0];
      var rest := VehicleChoices(u, rows, vehicles[1..]);
      if u.isStaff || exists r :: r in rows && r.vehicle == v.id && r.owner == u.id then [v.id] + rest else rest
  }

  /** How many rows of the table hold the key. */
  function KeyCount(vehicles: seq<Vehicles.Vehicle>, id: int): nat {
    if vehicles == [] then 0 else (if vehicles[0].id == id then 1 else 0) + KeyCount(vehicles[1..], id)
  }

  /** How many listings of `u` offer the vehicle `id`. */
  function OwnListingCount(u: User, rows: seq<ListingRow>, id: int): nat {
    if rows == [] then 0
    else (if rows[0].vehicle == id && rows[0].owner == u.id then 1 else 0) + OwnListingCount(u, rows[1..], id)
  }

  /** The rows the join `anuncios__usuario=u` yields for one vehicle: its
      key once per listing of `u` that offers it. */
  function OwnListingRows(u: User, rows: seq<ListingRow>, id: int): (ids: seq<int>)
    ensures forall x :: multiset(ids)[x] == if x == id then OwnListingCount(u, rows, id) else 0
  {
    if rows == [] then []
    else (if rows[0].vehicle == id && rows[0].owner == u.id then [id] else []) + OwnListingRows(u, rows[1..], id)
  }

  /** `CriarAnuncios.get_form` as written: `filter(anuncios__usuario=u)`
      filters through the listings, so the queryset holds a vehicle once
      per listing of `u` that offers it; staff keep the whole table. */
  function VehicleChoicesAsWritten(u: User, rows: seq<ListingRow>, vehicles: seq<Vehicles.Vehicle>): (ids: seq<int>)
    ensures u.isStaff ==> ids == VehicleChoices(u, rows, vehicles)
  {
    if vehicles == [] then []
    else
      var rest := VehicleChoicesAsWritten(u, rows, vehicles[1..]);
      if u.isStaff then [vehicles[0].id] + rest
      else OwnListingRows(u, rows, vehicles[0].id) + rest
  }

  lemma OneMoreTimes(k: nat, n: nat)
    ensures (1 + k) * n == n + k * n
  {
  }

  lemma {:induction false} TimesAtLeast(k: nat, n: nat)
    requires k >= 1
    ensures k * n >= n
  {
    if k > 1 {
      TimesAtLeast(k - 1, n);
      OneMoreTimes(k - 1, n);
    }
  }

  /** For a user who is not staff, the queryset as written holds each key
      once per pair of a stored vehicle with that key and a listing of the
      user that offers it. */
  lemma {:induction false} VehicleChoicesAsWrittenCount(u: User, rows: seq<ListingRow>, vehicles: seq<Vehicles.Vehicle>, id: int)
    requires !u.isStaff
    ensures multiset(VehicleChoicesAsWritten(u, rows, vehicles))[id] == KeyCount(vehicles, id) * OwnListingCount(u, rows, id)
  {
    if vehicles != [] {
      VehicleChoicesAsWrittenCount(u, rows, vehicles[1..], id);
      var n := OwnListingCount(u, rows, id);
      var kt := KeyCount(vehicles[1..], id);
      if vehicles[0].id == id {
        assert multiset(OwnListingRows(u, rows, vehicles[0].id))[id] == n;
        OneMoreTimes(kt, n);
      } else {
        assert multiset(OwnListingRows(u, rows, vehicles[0].id))[id] == 0;
      }
    }
  }

  /** A key occurs in the table iff it occurs at least once. */
  lemma {:induction false} KeyCountPositive(vehicles: seq<Vehicles.Vehicle>, id: int)
    ensures KeyCount(vehicles, id) > 0 <==> exists v :: v in vehicles && v.id == id
  {
    if vehicles != [] {
      KeyCountPositive(vehicles[1..], id);
      assert forall v :: v in vehicles <==> v == vehicles[0] || v in vehicles[1..];
    }
  }

  /** A user has a listing of the vehicle iff the count is positive. */
  lemma {:induction false} OwnListingCountPositive(u: User, rows: seq<ListingRow>, id: int)
    ensures OwnListingCount(u, rows, id) > 0 <==> exists r :: r in rows && r.vehicle == id && r.owner == u.id
  {
    if rows != [] {
      OwnListingCountPositive(u, rows[1..], id);
      assert forall r :: r in rows <==> r == rows[0] || r in rows[1..];
    }
  }

  /** A user who is not staff and has two listings of the same stored
      vehicle cannot create a third one for it as written: the lookup of
      the chosen key finds two rows and raises. The corrected queryset
      offers the key once and the form's vehicle field accepts it. */
  lemma SecondListingBreaksChoiceAsWritten(u: User, rows: seq<ListingRow>, vehicles: seq<Vehicles.Vehicle>, id: int)
    requires !u.isStaff
    requires exists v :: v in vehicles && v.id == id
    requires OwnListingCount(u, rows, id) >= 2
    ensures VehicleFieldAsWritten(Some(id), VehicleChoicesAsWritten(u, rows, vehicles)) == MultipleReturned
    ensures VehicleField(Some(id), VehicleChoices(u, rows, vehicles)) == Success(id)
  {
    KeyCountPositive(vehicles, id);
    OwnListingCountPositive(u, rows, id);
    VehicleChoicesAsWrittenCount(u, rows, vehicles, id);
    TimesAtLeast(KeyCount(vehicles, id), OwnListingCount(u, rows, id));
    var v :| v in vehicles && v.id == id;
    var r :| r in rows && r.vehicle == id && r.owner == u.id;
    assert id in VehicleChoices(u, rows, vehicles);
  }

  /** A user who is not staff and has no listing yet is offered no vehicle,
      so the creation form can never be valid for them. */
  lemma NewUserCannotCreate(u: User, rows: seq<ListingRow>, vehicles: seq<Vehicles.Vehicle>, input: ListingFormInput)
    requires !u.isStaff
    requires forall r :: r in rows ==> r.owner != u.id
    ensures VehicleChoices(u, rows, vehicles) == []
    ensures ValidateListingForm(input, VehicleChoices(u, rows, vehicles)).Failure?
  {
  }

  /** One more than the largest key in use, as an auto-increment key. */
  function NextId(rows: seq<ListingRow>): (id: int)
    ensures forall r :: r in rows ==> r.id < id
  {
    if rows == [] then 1
    else
      var rest := NextId(rows[1..]);
      assert forall r :: r in rows ==> r == rows[0] || r in rows[1..];
      if rows[0].id >= rest then rows[0].id + 1 else rest
  }

  // ---------------------------------------------------------------------
  // Responses

  datatype Response<T> = Unauthorized | NotFound | Forbidden | Ok(body: T)

  /** The body and HTTP code of a `JsonResponse`. */
  datatype JsonResponse = JsonResponse(code: int, status: string, message: string)

  const AuthRequiredMessage: string := "Autentica\U{00E7}\U{00E3}o necess\U{00E1}ria"
  const DeniedMessage: string := "Permiss\U{00E3}o negada"
  const SoldMessage: string := "An\U{00FA}ncio marcado como vendido com sucesso"
  const MissingMessage: string := "An\U{00FA}ncio n\U{00E3}o encontrado"

  // ---------------------------------------------------------------------
  // The database and the views that write to it

  class Database {
    var listings: seq<ListingRow>
    var vehicles: seq<Vehicles.Vehicle>

    /** Keys are unique and every listing's vehicle exists. */
    ghost predicate Valid()
      reads this
    {
      UniqueListingIds(listings) && UniqueVehicleIds(vehicles) && VehiclesPresent(listings, vehicles)
    }

    constructor (listings: seq<ListingRow>, vehicles: seq<Vehicles.Vehicle>)
      requires UniqueListingIds(listings) && UniqueVehicleIds(vehicles) && VehiclesPresent(listings, vehicles)
      ensures Valid() && this.listings == listings && this.vehicles == vehicles
    {
      this.listings := listings;
      this.vehicles := vehicles;
    }

    /** The bulk update both list views run before they query, one row at a
        time. */
    method ExpireOverdue(today: int)
      requires Valid()
      modifies this`listings
      ensures Valid()
      ensures listings == ExpireAll(old(listings), today)
    {
      var i := 0;
      while i < |listings|
        invariant 0 <= i <= |listings| == |old(listings)|
        invariant forall k :: 0 <= k < i ==> listings[k] == ApplyExpiry(old(listings)[k], today)
        invariant forall k :: i <= k < |listings| ==> listings[k] == old(listings)[k]
      {
        listings := listings[i := ApplyExpiry(listings[i], today)];
        i := i + 1;
      }
      assert listings == ExpireAll(old(listings), today);
      ExpireAllEffect(old(listings), today);
      SameKeysKeepIntegrity(old(listings), listings, vehicles);
    }

    /** `ListarAnuncios.get_queryset`: open to anyone; expires overdue rows,
        then filters and orders the updated table. */
    method ListAnuncios(today: int, q: WebListingParams) returns (result: seq<ListingRow>)
      requires Valid()
      modifies this`listings
      ensures Valid()
      ensures listings == ExpireAll(old(listings), today)
      ensures forall x :: multiset(result)[x] == if InWebListing(x, vehicles, q) then multiset(listings)[x] else 0
      ensures SortedBy(result, Order(WebOrder(q.order)))
      ensures forall x :: x in result ==> !ShouldExpire(x, today)
    {
      ExpireOverdue(today);
      result := WebListingQuery(listings, vehicles, q);
      ExpireAllEffect(old(listings), today);
    }

    /** `APIListarAnuncios`: the authentication check runs before the query,
        so an anonymous request is refused without expiring anything. */
    method ApiListAnuncios(user: Option<User>, today: int, q: ApiListingParams) returns (resp: Response<seq<ListingRow>>)
      requires Valid()
      modifies this`listings
      ensures Valid()
      ensures user.None? ==> resp == Unauthorized && listings == old(listings)
      ensures user.Some? ==> listings == ExpireAll(old(listings), today) && resp.Ok?
      ensures resp.Ok? ==>
        && user.Some?
        && (forall x :: multiset(resp.body)[x] == if InApiListing(x, vehicles, user.value, q) then multiset(listings)[x] else 0)
        && SortedBy(resp.body, Order(ApiOrder(q.ordering)))
    {
      if user.None? {
        return Unauthorized;
      }
      ExpireOverdue(today);
      var rows := ApiListingQuery(listings, vehicles, user.value, q);
      resp := Ok(rows);
    }

    /** `APIDetalheAnuncio.get_object`: 401 without credentials, 404 for a
        missing key, 403 unless staff, owner or active; otherwise one more
        view is saved and the listing is returned. */
    method ApiDetail(user: Option<User>, id: int) returns (resp: Response<ListingRow>)
      requires Valid()
      modifies this`listings
      ensures Valid()
      ensures user.None? ==> resp == Unauthorized
      ensures user.Some? && FindListing(old(listings), id).None? ==> resp == NotFound
      ensures user.Some? && FindListing(old(listings), id).Some? ==>
        var i := FindListing(old(listings), id).value;
        && (resp == Forbidden <==> !ApiCanView(user.value, old(listings)[i]))
        && (resp.Ok? ==> resp.body == old(listings)[i].(views := old(listings)[i].views + 1)
                         && listings == old(listings)[i := resp.body])
        && (ApiCanView(user.value, old(listings)[i]) ==> resp.Ok?)
      ensures !resp.Ok? ==> listings == old(listings)
    {
      if user.None? {
        return Unauthorized;
      }
      var found := FindListing(listings, id);
      if found.None? {
        return NotFound;
      }
      var i := found.value;
      if !(user.value.isStaff || listings[i].owner == user.value.id || listings[i].status == Ativo) {
        return Forbidden;
      }
      var l := new Listing.Load(listings[i]);
      l.IncrementViews();
      listings := listings[i := listings[i].(views := l.views)];
      SameKeysKeepIntegrity(old(listings), listings, vehicles);
      resp := Ok(l.Row());
    }

    /** `DetalharAnuncio` as written: the page calls `get_object` once to
        show the listing and again inside `get_context_data`, and each call
        loads the row and saves one more view. No permission is checked. */
    method DetailPageAsWritten(id: int) returns (shown: Option<ListingRow>)
      requires Valid()
      modifies this`listings
      ensures Valid()
      ensures FindListing(old(listings), id).None? ==> shown.None? && listings == old(listings)
      ensures FindListing(old(listings), id).Some? ==>
        var i := FindListing(old(listings), id).value;
        && shown == Some(old(listings)[i].(views := old(listings)[i].views + 1))
        && listings == old(listings)[i := old(listings)[i].(views := old(listings)[i].views + 2)]
    {
      var found := FindListing(listings, id);
      if found.None? {
        return None;
      }
      var i := found.value;
      var first := new Listing.Load(listings[i]);
      first.IncrementViews();
      listings := listings[i := listings[i].(views := first.views)];
      var second := new Listing.Load(listings[i]);
      second.IncrementViews();
      listings := listings[i := listings[i].(views := second.views)];
      SameKeysKeepIntegrity(old(listings), listings, vehicles);
      shown := Some(first.Row());
    }

    /** `DetalharAnuncio` with the view counted once per page. */
    method DetailPage(id: int) returns (shown: Option<ListingRow>)
      requires Valid()
      modifies this`listings
      ensures Valid()
      ensures FindListing(old(listings), id).None? ==> shown.None? && listings == old(listings)
      ensures FindListing(old(listings), id).Some? ==>
        var i := FindListing(old(listings), id).value;
        && shown == Some(old(listings)[i].(views := old(listings)[i].views + 1))
        && listings == old(listings)[i := shown.value]
    {
      var found := FindListing(listings, id);
      if found.None? {
        return None;
      }
      var i := found.value;
      var l := new Listing.Load(listings[i]);
      l.IncrementViews();
      listings := listings[i := listings[i].(views := l.views)];
      SameKeysKeepIntegrity(old(listings), listings, vehicles);
      shown := Some(l.Row());
    }

    /** `marcar_anuncio_vendido`: 401, 404, 403 unless owner or staff, and
        otherwise the listing is sold and 200 is returned. */
    method MarkSoldView(user: Option<User>, id: int) returns (resp: JsonResponse)
      requires Valid()
      modifies this`listings
      ensures Valid()
      ensures user.None? ==> resp == JsonResponse(401, "error", AuthRequiredMessage)
      ensures user.Some? && FindListing(old(listings), id).None? ==> resp == JsonResponse(404, "error", MissingMessage)
      ensures user.Some? && FindListing(old(listings), id).Some? ==>
        var i := FindListing(old(listings), id).value;
        && (!CanMarkSold(user.value, old(listings)[i]) ==> resp == JsonResponse(403, "error", DeniedMessage))
        && (CanMarkSold(user.value, old(listings)[i]) ==>
              resp == JsonResponse(200, "success", SoldMessage)
              && listings == old(listings)[i := old(listings)[i].(status := Vendido)])
      ensures resp.code != 200 ==> listings == old(listings)
    {
      if user.None? {
        return JsonResponse(401, "error", AuthRequiredMessage);
      }
      var found := FindListing(listings, id);
      if found.None? {
        return JsonResponse(404, "error", MissingMessage);
      }
      var i := found.value;
      if listings[i].owner != user.value.id && !user.value.isStaff {
        return JsonResponse(403, "error", DeniedMessage);
      }
      var l := new Listing.Load(listings[i]);
      l.MarkSold();
      listings := listings[i := listings[i].(status := l.status)];
      SameKeysKeepIntegrity(old(listings), listings, vehicles);
      resp := JsonResponse(200, "success", SoldMessage);
    }

    /** `CriarAnuncios`: the form is validated against the vehicles the user
        may pick, and a valid form is saved as a new row. */
    method CreateListing(user: User, input: ListingFormInput, today: int, now: int)
      returns (r: Result<ListingRow, seq<FieldError>>)
      requires Valid()
      modifies this`listings
      ensures Valid()
      ensures r == NewListing(user, old(listings), vehicles, input, today, now)
      ensures listings == if r.Success? then old(listings) + [r.value] else old(listings)
    {
      var choices := VehicleChoices(user, listings, vehicles);
      var form := ValidateListingForm(input, choices);
      if form.Failure? {
        return Failure(form.error);
      }
      var row := SavedRow(form.value, NextId(listings), user.id, today, now);
      NewListingMeaning(user, listings, vehicles, input, today, now);
      AppendKeepsIntegrity(listings, row, vehicles);
      listings := listings + [row];
      r := Success(row);
    }
  }

  /** The row `form.save()` stores for the cleaned data of a valid form, with
      the requester as owner. */
  function SavedRow(data: ListingFormData, id: int, owner: int, today: int, now: int): ListingRow {
    var expiration := if data.expiration.Some? then data.expiration else Some(today + DefaultExpiryDays);
    ListingRow(id, data.description, data.priceCents, data.status, data.acceptsTrade, data.phone, 0,
      data.featured, expiration, now, data.vehicle, owner)
  }

  /** The outcome of submitting the creation form: the form's errors, or the
      new row with the next free key. */
  function NewListing(user: User, rows: seq<ListingRow>, vehicles: seq<Vehicles.Vehicle>,
                      input: ListingFormInput, today: int, now: int): Result<ListingRow, seq<FieldError>> {
    var form := ValidateListingForm(input, VehicleChoices(user, rows, vehicles));
    if form.Failure? then Failure(form.error)
    else Success(SavedRow(form.value, NextId(rows), user.id, today, now))
  }

  /** A listing is created exactly when the form is valid for the vehicles
      the user may pick. The new row carries the cleaned values, belongs to
      the requester, expires 30 days from today unless a date was given,
      has no views, a key no row has, and a vehicle that exists. */
  lemma NewListingMeaning(user: User, rows: seq<ListingRow>, vehicles: seq<Vehicles.Vehicle>,
                          input: ListingFormInput, today: int, now: int)
    ensures NewListing(user, rows, vehicles, input, today, now).Success?
      <==> ValidateListingForm(input, VehicleChoices(user, rows, vehicles)).Success?
    ensures NewListing(user, rows, vehicles, input, today, now).Success? ==>
      var row := NewListing(user, rows, vehicles, input, today, now).value;
      var data := ValidateListingForm(input, VehicleChoices(user, rows, vehicles)).value;
      && row.description == Strip(input.description)
      && Some(row.priceCents) == input.price && 0 < row.priceCents
      && row.status.Code() == input.status
      && row.acceptsTrade == input.acceptsTrade
      && row.phone == data.phone
      && row.featured == input.featured
      && Some(row.vehicle) == input.vehicle
      && row.owner == user.id
      && row.expiration == (if input.expiration.Some? then input.expiration else Some(today + DefaultExpiryDays))
      && row.views == 0
      && row.createdAt == now
      && (forall x :: x in rows ==> x.id != row.id)
      && VehicleOf(vehicles, row.vehicle).Some?
  {
    var form := ValidateListingForm(input, VehicleChoices(user, rows, vehicles));
    if form.Success? {
      ChoiceHasVehicle(user, rows, vehicles, form.value.vehicle);
    }
  }

  /** Every vehicle offered exists. */
  lemma ChoiceHasVehicle(u: User, rows: seq<ListingRow>, vehicles: seq<Vehicles.Vehicle>, id: int)
    requires id in VehicleChoices(u, rows, vehicles)
    ensures VehicleOf(vehicles, id).Some?
  {
    var v :| v in vehicles && v.id == id;
    var j :| 0 <= j < |vehicles| && vehicles[j] == v;
  }

  /** Appending a row with a new key and an existing vehicle keeps the
      table's integrity. */
  lemma AppendKeepsIntegrity(rows: seq<ListingRow>, row: ListingRow, vehicles: seq<Vehicles.Vehicle>)
    requires UniqueListingIds(rows) && VehiclesPresent(rows, vehicles)
    requires forall x :: x in rows ==> x.id != row.id
    requires VehicleOf(vehicles, row.vehicle).Some?
    ensures UniqueListingIds(rows + [row]) && VehiclesPresent(rows + [row], vehicles)
  {
    var t := rows + [row];
    forall i, j | 0 <= i < j < |t| ensures t[i].id != t[j].id {
      if j == |rows| {
        assert t[i] in rows;
      } else {
        assert t[i] == rows[i] && t[j] == rows[j];
      }
    }
    forall i | 0 <= i < |t| ensures VehicleOf(vehicles, t[i].vehicle).Some? {
      if i < |rows| {
        assert t[i] == rows[i];
      }
    }
  }

  /** The detail page as written counts two views for one visit. */
  method DetailPageCountsTwice() returns (before: nat, after: nat)
    ensures before == 0 && after == 2
  {
    var row := ListingRow(1, "Onix", 4500000, Ativo, true, "", 0, false, None, 0, 7, 3);
    var car := Vehicles.Vehicle(7, 3, "Onix", 2020, 1, 3, 15000, None, None, 0);
    var db := new Database([row], [car]);
    before := db.listings[0].views;
    var shown := db.DetailPageAsWritten(1);
    after := db.listings[0].views;
  }

  /** The corrected detail page counts one view for one visit. */
  method DetailPageCountsOnce() returns (before: nat, after: nat)
    ensures before == 0 && after == 1
  {
    var row := ListingRow(1, "Onix", 4500000, Ativo, true, "", 0, false, None, 0, 7, 3);
    var car := Vehicles.Vehicle(7, 3, "Onix", 2020, 1, 3, 15000, None, None, 0);
    var db := new Database([row], [car]);
    before := db.listings[0].views;
    var shown := db.DetailPage(1);
    after := db.listings[0].views;
  }
}
