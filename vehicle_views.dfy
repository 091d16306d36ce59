/**
 * The vehicle views (web/veiculo/views.py): the web list with its search,
 * the owner check of the edit and delete views, and the API list.
 *
 * Query parameters arrive already parsed: a number parameter is `None` when
 * it is absent or empty.
 */
module VehicleViews {
  import opened Wrappers
  import opened Text
  import opened Users
  import opened Sequences
  import opened Vehicles
  import Choices
  import Listings
  import ListingViews

  const DetailedInfoPermission: string := "veiculo.can_view_detailed_info"

  /** `paginate_by` of the web list and the page sizes of the API. */
  const WebPageSize: nat := 10
  const ApiPageSize: nat := 10
  const ApiMaxPageSize: nat := 50

  // ---------------------------------------------------------------------
  // Orderings

  datatype VehicleKey = ByYear | ByMileage | ByBrand | ByCreation

  datatype VehicleOrder = Ascending(key: VehicleKey) | Descending(key: VehicleKey)

  function Key(k: VehicleKey, v: Vehicle): int {
    match k
    case ByYear => v.year
    case ByMileage => v.mileage
    case ByBrand => v.brand
    case ByCreation => v.createdAt
  }

  predicate Precedes(o: VehicleOrder, a: Vehicle, b: Vehicle) {
    match o
    case Ascending(k) => Key(k, a) <= Key(k, b)
    case Descending(k) => Key(k, a) >= Key(k, b)
  }

  function Order(o: VehicleOrder): (Vehicle, Vehicle) -> bool {
    (a: Vehicle, b: Vehicle) => Precedes(o, a, b)
  }

  lemma OrderIsTotalPreorder(o: VehicleOrder)
    ensures TotalPreorder(Order(o))
  {
    forall a, b, c | Order(o)(a, b) && Order(o)(b, c) ensures Order(o)(a, c) {
      assert Precedes(o, a, b) && Precedes(o, b, c);
    }
  }

  /** `order_by('-created_at')` of the web list. */
  const NewestFirst: VehicleOrder := Descending(ByCreation)

  /** The API's `ordering` parameter: one of the fields it allows, with an
      optional `-`; anything else falls back to `-created_at`. */
  function ApiOrder(param: Option<string>): (o: VehicleOrder)
    ensures param.None? ==> o == NewestFirst
    ensures param == Some("ano") ==> o == Ascending(ByYear)
    ensures param == Some("-ano") ==> o == Descending(ByYear)
    ensures param == Some("quilometragem") ==> o == Ascending(ByMileage)
    ensures param == Some("-quilometragem") ==> o == Descending(ByMileage)
    ensures param == Some("marca") ==> o == Ascending(ByBrand)
    ensures param == Some("-marca") ==> o == Descending(ByBrand)
    ensures o.key == ByCreation ==> o == NewestFirst
    ensures o != NewestFirst ==>
      param.Some? && param.value in {"ano", "-ano", "quilometragem", "-quilometragem", "marca", "-marca"}
  {
    if param == Some("ano") then Ascending(ByYear)
    else if param == Some("-ano") then Descending(ByYear)
    else if param == Some("quilometragem") then Ascending(ByMileage)
    else if param == Some("-quilometragem") then Descending(ByMileage)
    else if param == Some("marca") then Ascending(ByBrand)
    else if param == Some("-marca") then Descending(ByBrand)
    else NewestFirst
  }

  // ---------------------------------------------------------------------
  // The web list (ListarVeiculos.get_queryset)

  /** `search` is `""` when absent. */
  datatype VehicleListParams = VehicleListParams(
    search: string,
    brand: Option<int>,
    yearMin: Option<int>,
    yearMax: Option<int>,
    fuel: Option<int>)

  /** The search condition: the model contains the query, ignoring case, or
      the vehicle's brand is one whose label contains it. */
  predicate SearchMatches(v: Vehicle, query: string) {
    Contains(Upper(v.model), Upper(query)) || v.brand in Choices.BrandsMatching(query)
  }

  /** The search filter, applied only to a non-empty query. */
  predicate SearchFilter(v: Vehicle, query: string) {
    query == "" || SearchMatches(v, query)
  }

  /** The vehicles the web list shows, stated as one condition. */
  predicate InVehicleList(v: Vehicle, q: VehicleListParams) {
    && SearchFilter(v, Strip(q.search))
    && (q.brand.None? || v.brand == q.brand.value)
    && (q.yearMin.None? || v.year >= q.yearMin.value)
    && (q.yearMax.None? || v.year <= q.yearMax.value)
    && (q.fuel.None? || v.fuel == q.fuel.value)
  }

  /** What a vehicle shown by the web list satisfies: a non-empty search
      matches its model or its brand's label, and the given brand, year
      bounds and fuel hold for it. */
  lemma VehicleListFacts(v: Vehicle, q: VehicleListParams)
    requires InVehicleList(v, q)
    ensures Strip(q.search) != "" ==>
      || Contains(Upper(v.model), Upper(Strip(q.search)))
      || (Choices.BrandLabel(v.brand).Some? && Contains(Upper(Choices.BrandLabel(v.brand).value), Upper(Strip(q.search))))
    ensures Strip(q.search) != "" && !Contains(Upper(v.model), Upper(Strip(q.search))) ==> 1 <= v.brand <= 20
    ensures q.brand.Some? ==> v.brand == q.brand.value
    ensures q.yearMin.Some? ==> v.year >= q.yearMin.value
    ensures q.yearMax.Some? ==> v.year <= q.yearMax.value
    ensures q.fuel.Some? ==> v.fuel == q.fuel.value
  {
    var query := Strip(q.search);
    if query != "" && !Contains(Upper(v.model), Upper(query)) {
      assert v.brand in Choices.BrandsMatching(query);
    }
  }

  /** Without parameters every vehicle is shown. */
  lemma NoParametersShowAll(v: Vehicle, q: VehicleListParams)
    requires forall i :: 0 <= i < |q.search| ==> IsSpace(q.search[i])
    requires q.brand.None? && q.yearMin.None? && q.yearMax.None? && q.fuel.None?
    ensures InVehicleList(v, q)
  {
    StripEmpty(q.search);
  }

  /** The vehicles that survive the first `k` field filters of the web list:
      brand, minimum year, maximum year, fuel. */
  predicate VehicleStage(v: Vehicle, q: VehicleListParams, k: nat) {
    && (k >= 1 ==> q.brand.None? || v.brand == q.brand.value)
    && (k >= 2 ==> q.yearMin.None? || v.year >= q.yearMin.value)
    && (k >= 3 ==> q.yearMax.None? || v.year <= q.yearMax.value)
    && (k >= 4 ==> q.fuel.None? || v.fuel == q.fuel.value)
  }

  /** The filter chain of the web list, then `order_by('-created_at')`: the
      result holds exactly the stored vehicles that satisfy `InVehicleList`,
      each as often as stored, newest first. */
  method ListVehicles(vehicles: seq<Vehicle>, q: VehicleListParams) returns (result: seq<Vehicle>)
    ensures forall x :: multiset(result)[x] == if InVehicleList(x, q) then multiset(vehicles)[x] else 0
    ensures forall x :: x in result ==> x in vehicles && InVehicleList(x, q)
    ensures SortedBy(result, Order(NewestFirst))
  {
    var query := Strip(q.search);
    var base := vehicles;
    if query != "" {
      var brands := Choices.BrandsMatching(query);
      base := Filter(vehicles, (v: Vehicle) => Contains(Upper(v.model), Upper(query)) || v.brand in brands);
    }
    var qs := base;
    var before := qs;
    NarrowedStart(base, (x: Vehicle) => VehicleStage(x, q, 0));
    if q.brand.Some? {
      var b := q.brand.value;
      qs := Filter(qs, (v: Vehicle) => v.brand == b);
      FilterNarrows(before, base, (x: Vehicle) => VehicleStage(x, q, 0), (v: Vehicle) => v.brand == b,
        (x: Vehicle) => VehicleStage(x, q, 1));
    } else {
      NarrowedSame(qs, base, (x: Vehicle) => VehicleStage(x, q, 0), (x: Vehicle) => VehicleStage(x, q, 1));
    }
    before := qs;
    if q.yearMin.Some? {
      var lo := q.yearMin.value;
      qs := Filter(qs, (v: Vehicle) => v.year >= lo);
      FilterNarrows(before, base, (x: Vehicle) => VehicleStage(x, q, 1), (v: Vehicle) => v.year >= lo,
        (x: Vehicle) => VehicleStage(x, q, 2));
    } else {
      NarrowedSame(qs, base, (x: Vehicle) => VehicleStage(x, q, 1), (x: Vehicle) => VehicleStage(x, q, 2));
    }
    before := qs;
    if q.yearMax.Some? {
      var hi := q.yearMax.value;
      qs := Filter(qs, (v: Vehicle) => v.year <= hi);
      FilterNarrows(before, base, (x: Vehicle) => VehicleStage(x, q, 2), (v: Vehicle) => v.year <= hi,
        (x: Vehicle) => VehicleStage(x, q, 3));
    } else {
      NarrowedSame(qs, base, (x: Vehicle) => VehicleStage(x, q, 2), (x: Vehicle) => VehicleStage(x, q, 3));
    }
    before := qs;
    if q.fuel.Some? {
      var f := q.fuel.value;
      qs := Filter(qs, (v: Vehicle) => v.fuel == f);
      FilterNarrows(before, base, (x: Vehicle) => VehicleStage(x, q, 3), (v: Vehicle) => v.fuel == f,
        (x: Vehicle) => VehicleStage(x, q, 4));
    } else {
      NarrowedSame(qs, base, (x: Vehicle) => VehicleStage(x, q, 3), (x: Vehicle) => VehicleStage(x, q, 4));
    }
    OrderIsTotalPreorder(NewestFirst);
    result := Sort(qs, Order(NewestFirst));
    VehicleListResult(vehicles, base, qs, result, q, query);
  }

  /** The search step followed by the field filters and a reordering leaves
      exactly the stored vehicles that satisfy `InVehicleList`. */
  lemma VehicleListResult(vehicles: seq<Vehicle>, base: seq<Vehicle>, qs: seq<Vehicle>, result: seq<Vehicle>,
                          q: VehicleListParams, query: string)
    requires query == Strip(q.search)
    requires query != "" ==>
      base == Filter(vehicles, (v: Vehicle) => Contains(Upper(v.model), Upper(query)) || v.brand in Choices.BrandsMatching(query))
    requires query == "" ==> base == vehicles
    requires Narrowed(qs, base, (x: Vehicle) => VehicleStage(x, q, 4))
    requires multiset(result) == multiset(qs)
    ensures forall x :: multiset(result)[x] == if InVehicleList(x, q) then multiset(vehicles)[x] else 0
    ensures forall x :: x in result ==> x in vehicles && InVehicleList(x, q)
  {
    NarrowedPermuted(qs, result, base, (x: Vehicle) => VehicleStage(x, q, 4));
    if query != "" {
      FilterCount(vehicles, (v: Vehicle) => Contains(Upper(v.model), Upper(query)) || v.brand in Choices.BrandsMatching(query));
    }
    assert forall x :: multiset(base)[x] == if SearchFilter(x, query) then multiset(vehicles)[x] else 0;
    forall x ensures multiset(result)[x] == if InVehicleList(x, q) then multiset(vehicles)[x] else 0 {
      assert InVehicleList(x, q) <==> SearchFilter(x, query) && VehicleStage(x, q, 4);
    }
    forall x | x in result ensures x in vehicles && InVehicleList(x, q) {
      assert multiset(result)[x] > 0;
    }
  }

  /** With no parameters the web list is the whole table, newest first. */
  lemma ListWithoutParameters(vehicles: seq<Vehicle>, q: VehicleListParams, result: seq<Vehicle>)
    requires forall i :: 0 <= i < |q.search| ==> IsSpace(q.search[i])
    requires q.brand.None? && q.yearMin.None? && q.yearMax.None? && q.fuel.None?
    requires forall x :: multiset(result)[x] == if InVehicleList(x, q) then multiset(vehicles)[x] else 0
    ensures multiset(result) == multiset(vehicles)
  {
    forall x ensures multiset(result)[x] == multiset(vehicles)[x] {
      NoParametersShowAll(x, q);
    }
  }

  // ---------------------------------------------------------------------
  // The owner check of the edit and delete views

  /** `VeiculoOwnerMixin.test_func`: staff, the detailed-information
      permission, or a listing of this vehicle owned by the user. */
  predicate CanAccessVehicle(u: User, v: Vehicle, rows: seq<Listings.ListingRow>) {
    || u.isStaff
    || HasPerm(u, DetailedInfoPermission)
    || exists r :: r in rows && r.vehicle == v.id && r.owner == u.id
  }

  /** The vehicles the listing form offers a user are vehicles the user may
      edit. The converse fails: the detailed-information permission opens
      every vehicle but offers none to a user without listings. */
  lemma ChoicesAreAccessible(u: User, rows: seq<Listings.ListingRow>, vehicles: seq<Vehicle>, v: Vehicle)
    requires v in vehicles && v.id in ListingViews.VehicleChoices(u, rows, vehicles)
    ensures CanAccessVehicle(u, v, rows)
  {
    if !u.isStaff {
      var r :| r in rows && r.vehicle == v.id && r.owner == u.id;
    }
  }

  lemma PermissionWithoutListings(u: User, rows: seq<Listings.ListingRow>, vehicles: seq<Vehicle>, v: Vehicle)
    requires !u.isStaff && HasPerm(u, DetailedInfoPermission)
    requires forall r :: r in rows ==> r.owner != u.id
    ensures CanAccessVehicle(u, v, rows)
    ensures ListingViews.VehicleChoices(u, rows, vehicles) == []
  {
  }

  /** The position of the vehicle with this key. */
  function FindVehicle(vehicles: seq<Vehicle>, id: int): (r: Option<nat>)
    ensures r.Some? ==> r.value < |vehicles| && vehicles[r.value].id == id
    ensures r.None? ==> forall j :: 0 <= j < |vehicles| ==> vehicles[j].id != id
  {
    if vehicles == [] then None
    else if vehicles[0].id == id then Some(0)
    else match FindVehicle(vehicles[1..], id)
      case None => None
      case Some(k) => Some(k + 1)
  }

  /** Opening the edit or delete page of a vehicle with the login redirect
      `LoginObrigatorio` describes: an anonymous user is sent to the login
      page (`Unauthorized`), a missing key is 404, and the owner check
      decides between 403 and the page. */
  function OpenVehiclePage(user: Option<User>, vehicles: seq<Vehicle>, rows: seq<Listings.ListingRow>, id: int)
    : (r: ListingViews.Response<Vehicle>)
    ensures user.None? <==> r.Unauthorized?
    ensures r.NotFound? <==> user.Some? && forall j :: 0 <= j < |vehicles| ==> vehicles[j].id != id
    ensures r.Forbidden? ==> user.Some? && exists j :: 0 <= j < |vehicles| && vehicles[j].id == id && !CanAccessVehicle(user.value, vehicles[j], rows)
    ensures r.Ok? ==> user.Some? && r.body in vehicles && r.body.id == id && CanAccessVehicle(user.value, r.body, rows)
  {
    if user.None? then ListingViews.Unauthorized
    else match FindVehicle(vehicles, id)
      case None => ListingViews.NotFound
      case Some(i) =>
        if CanAccessVehicle(user.value, vehicles[i], rows) then ListingViews.Ok(vehicles[i]) else ListingViews.Forbidden
  }

  /** The edit and delete pages as written. `LoginRequiredMixin.dispatch`
      calls `handle_no_permission` for an anonymous user, and in the method
      resolution order of `EditarVeiculos` and `DeletarVeiculos` that name
      is the override in `VeiculoOwnerMixin`, which raises
      `PermissionDenied`: an anonymous user gets 403, before any lookup. */
  function OpenVehiclePageAsWritten(user: Option<User>, vehicles: seq<Vehicle>, rows: seq<Listings.ListingRow>, id: int)
    : (r: ListingViews.Response<Vehicle>)
    ensures !r.Unauthorized?
    ensures r.NotFound? <==> user.Some? && forall j :: 0 <= j < |vehicles| ==> vehicles[j].id != id
    ensures r.Forbidden? ==> user.None? || exists j :: 0 <= j < |vehicles| && vehicles[j].id == id && !CanAccessVehicle(user.value, vehicles[j], rows)
    ensures r.Ok? ==> user.Some? && r.body in vehicles && r.body.id == id && CanAccessVehicle(user.value, r.body, rows)
  {
    if user.None? then ListingViews.Forbidden else OpenVehiclePage(user, vehicles, rows, id)
  }

  /** The two versions differ only for anonymous users: 403 as written, the
      login redirect once corrected, whatever the key. */
  lemma AnonymousVehiclePageForbiddenAsWritten(user: Option<User>, vehicles: seq<Vehicle>, rows: seq<Listings.ListingRow>, id: int)
    ensures user.None? ==> OpenVehiclePageAsWritten(user, vehicles, rows, id) == ListingViews.Forbidden
    ensures user.None? ==> OpenVehiclePage(user, vehicles, rows, id) == ListingViews.Unauthorized
    ensures user.Some? ==> OpenVehiclePageAsWritten(user, vehicles, rows, id) == OpenVehiclePage(user, vehicles, rows, id)
  {
  }

  // ---------------------------------------------------------------------
  // The API list (APIListarVeiculos.get_queryset and its ordering filter)

  datatype ApiVehicleParams = ApiVehicleParams(
    brand: Option<int>,
    year: Option<int>,
    fuel: Option<int>,
    ordering: Option<string>)

  predicate InApiVehicleList(v: Vehicle, q: ApiVehicleParams) {
    && (q.brand.None? || v.brand == q.brand.value)
    && (q.year.None? || v.year == q.year.value)
    && (q.fuel.None? || v.fuel == q.fuel.value)
  }

  predicate ApiVehicleStage(v: Vehicle, q: ApiVehicleParams, k: nat) {
    && (k >= 1 ==> q.brand.None? || v.brand == q.brand.value)
    && (k >= 2 ==> q.year.None? || v.year == q.year.value)
    && (k >= 3 ==> q.fuel.None? || v.fuel == q.fuel.value)
  }

  /** The API list for an authenticated user: the exact brand, year and fuel
      filters, then the ordering. */
  method ApiVehicleQuery(vehicles: seq<Vehicle>, q: ApiVehicleParams) returns (result: seq<Vehicle>)
    ensures forall x :: multiset(result)[x] == if InApiVehicleList(x, q) then multiset(vehicles)[x] else 0
    ensures forall x :: x in result ==> x in vehicles
    ensures forall x :: x in result && q.brand.Some? ==> x.brand == q.brand.value
    ensures forall x :: x in result && q.year.Some? ==> x.year == q.year.value
    ensures forall x :: x in result && q.fuel.Some? ==> x.fuel == q.fuel.value
    ensures SortedBy(result, Order(ApiOrder(q.ordering)))
  {
    var qs := vehicles;
    var before := qs;
    NarrowedStart(vehicles, (x: Vehicle) => ApiVehicleStage(x, q, 0));
    if q.brand.Some? {
      var b := q.brand.value;
      qs := Filter(qs, (v: Vehicle) => v.brand == b);
      FilterNarrows(before, vehicles, (x: Vehicle) => ApiVehicleStage(x, q, 0), (v: Vehicle) => v.brand == b,
        (x: Vehicle) => ApiVehicleStage(x, q, 1));
    } else {
      NarrowedSame(qs, vehicles, (x: Vehicle) => ApiVehicleStage(x, q, 0), (x: Vehicle) => ApiVehicleStage(x, q, 1));
    }
    before := qs;
    if q.year.Some? {
      var y := q.year.value;
      qs := Filter(qs, (v: Vehicle) => v.year == y);
      FilterNarrows(before, vehicles, (x: Vehicle) => ApiVehicleStage(x, q, 1), (v: Vehicle) => v.year == y,
        (x: Vehicle) => ApiVehicleStage(x, q, 2));
    } else {
      NarrowedSame(qs, vehicles, (x: Vehicle) => ApiVehicleStage(x, q, 1), (x: Vehicle) => ApiVehicleStage(x, q, 2));
    }
    before := qs;
    if q.fuel.Some? {
      var f := q.fuel.value;
      qs := Filter(qs, (v: Vehicle) => v.fuel == f);
      FilterNarrows(before, vehicles, (x: Vehicle) => ApiVehicleStage(x, q, 2), (v: Vehicle) => v.fuel == f,
        (x: Vehicle) => InApiVehicleList(x, q));
    } else {
      NarrowedSame(qs, vehicles, (x: Vehicle) => ApiVehicleStage(x, q, 2), (x: Vehicle) => InApiVehicleList(x, q));
    }
    var o := ApiOrder(q.ordering);
    OrderIsTotalPreorder(o);
    result := Sort(qs, Order(o));
    NarrowedPermuted(qs, result, vehicles, (x: Vehicle) => InApiVehicleList(x, q));
  }

  /** `APIListarVeiculos`: 401 without credentials, otherwise the query. */
  method ApiListVehicles(user: Option<User>, vehicles: seq<Vehicle>, q: ApiVehicleParams)
    returns (resp: ListingViews.Response<seq<Vehicle>>)
    ensures user.None? <==> resp.Unauthorized?
    ensures user.Some? ==> resp.Ok?
    ensures resp.Ok? ==> forall x :: multiset(resp.body)[x] == if InApiVehicleList(x, q) then multiset(vehicles)[x] else 0
    ensures resp.Ok? ==> SortedBy(resp.body, Order(ApiOrder(q.ordering)))
  {
    if user.None? {
      return ListingViews.Unauthorized;
    }
    var rows := ApiVehicleQuery(vehicles, q);
    resp := ListingViews.Ok(rows);
  }
}
