/**
 * The listing record (web/anuncio/models.py): its five statuses, a row of
 * the listing table, and a loaded listing whose lifecycle methods change its
 * fields and save them.
 *
 * Dates are day numbers and `today` is a parameter wherever the source reads
 * the clock; the creation time is a timestamp in seconds (UTC, as Django
 * stores it). Prices are whole numbers of cents.
 */
module Listings {
  import opened Wrappers

  // ---------------------------------------------------------------------
  // StatusAnuncio

  datatype Status = Ativo | Vendido | Pausado | Expirado | Reservado {
    /** The value stored in the `status` column. */
    function Code(): (c: string)
      ensures 0 < |c| <= 10
    {
      match this
      case Ativo => "ativo"
      case Vendido => "vendido"
      case Pausado => "pausado"
      case Expirado => "expirado"
      case Reservado => "reservado"
    }

    /** The human-readable label (`get_status_display()`). */
    function Label(): string {
      match this
      case Ativo => "Ativo"
      case Vendido => "Vendido"
      case Pausado => "Pausado"
      case Expirado => "Expirado"
      case Reservado => "Reservado"
    }
  }

  /** `code in dict(StatusAnuncio.choices)`, returning the status named. */
  function StatusFromCode(code: string): (r: Option<Status>)
    ensures r.Some? ==> r.value.Code() == code
    ensures r.None? ==> forall s: Status :: s.Code() != code
  {
    if code == "ativo" then Some(Ativo)
    else if code == "vendido" then Some(Vendido)
    else if code == "pausado" then Some(Pausado)
    else if code == "expirado" then Some(Expirado)
    else if code == "reservado" then Some(Reservado)
    else None
  }

  /** Every status reads back from its stored code, so the five codes are
      distinct and fit the ten-character column. */
  lemma StatusCodeRoundTrip(s: Status)
    ensures StatusFromCode(s.Code()) == Some(s)
    ensures forall t: Status :: t.Code() == s.Code() ==> t == s
  {
  }

  // ---------------------------------------------------------------------
  // A row of the listing table

  /** The stored columns of a listing: `expiration` is a day number or
      null; `vehicle` and `owner` are the foreign keys. `updated_at` and the
      duplicate creation column `data` are not modelled. */
  datatype ListingRow = ListingRow(
    id: int,
    description: string,
    priceCents: int,
    status: Status,
    acceptsTrade: bool,
    phone: string,
    views: nat,
    featured: bool,
    expiration: Option<int>,
    createdAt: int,
    vehicle: int,
    owner: int)

  const SecondsPerDay: int := 86400

  /** `created_at.date()`: the day of a timestamp, counted from the epoch. */
  function CreationDay(createdAt: int): (day: int)
    ensures day * SecondsPerDay <= createdAt < (day + 1) * SecondsPerDay
  {
    createdAt / SecondsPerDay
  }

  /** The condition under which a listing expires: an expiration date is
      set, it lies before today, and the listing is active. The same
      condition selects the rows of the bulk update in the list views. */
  predicate ShouldExpire(r: ListingRow, today: int) {
    r.expiration.Some? && today > r.expiration.value && r.status == Ativo
  }

  /** The row after `verificar_expiracao` has run on it. */
  function ApplyExpiry(r: ListingRow, today: int): (r': ListingRow)
    ensures ShouldExpire(r, today) ==> r' == r.(status := Expirado)
    ensures !ShouldExpire(r, today) ==> r' == r
  {
    if ShouldExpire(r, today) then r.(status := Expirado) else r
  }

  /** Expiring is idempotent: afterwards nothing is left to expire and a
      second pass changes nothing. Only the status changes, and only from
      `Ativo` to `Expirado`. */
  lemma ApplyExpiryIdempotent(r: ListingRow, today: int)
    ensures !ShouldExpire(ApplyExpiry(r, today), today)
    ensures ApplyExpiry(ApplyExpiry(r, today), today) == ApplyExpiry(r, today)
    ensures ApplyExpiry(r, today).status != r.status ==> r.status == Ativo && ApplyExpiry(r, today).status == Expirado
  {
  }

  /** The row after `reativar`: paused and expired listings become active. */
  function Reactivated(r: ListingRow): (r': ListingRow)
    ensures r.status in {Pausado, Expirado} ==> r' == r.(status := Ativo)
    ensures r.status !in {Pausado, Expirado} ==> r' == r
  {
    if r.status == Pausado || r.status == Expirado then r.(status := Ativo) else r
  }

  /** Reactivation never touches a sold or reserved listing and leaves an
      active one as it was. */
  lemma ReactivatedStatus(r: ListingRow)
    ensures Reactivated(r).status == Ativo <==> r.status in {Ativo, Pausado, Expirado}
    ensures r.status in {Vendido, Reservado} ==> Reactivated(r) == r
    ensures Reactivated(Reactivated(r)) == Reactivated(r)
  {
  }

  // ---------------------------------------------------------------------
  // A loaded listing

  /** A listing instance as `Anuncio.objects.get(...)` returns it. Its
      methods change fields of the instance; each save writes back only the
      field it names (`update_fields`), which the views model by copying that
      one field into the stored row. */
  class Listing {
    var id: int
    var description: string
    var priceCents: int
    var status: Status
    var acceptsTrade: bool
    var phone: string
    var views: nat
    var featured: bool
    var expiration: Option<int>
    var createdAt: int
    var vehicle: int
    var owner: int

    /** A new listing with the model's defaults: active, no views, no trade,
        not featured, no phone and no expiration date. */
    constructor New(id: int, description: string, priceCents: int, vehicle: int, owner: int, createdAt: int)
      ensures Row() == ListingRow(id, description, priceCents, Ativo, false, "", 0, false, None, createdAt, vehicle, owner)
      ensures status == Ativo && views == 0
    {
      this.id := id;
      this.description := description;
      this.priceCents := priceCents;
      this.status := Ativo;
      this.acceptsTrade := false;
      this.phone := "";
      this.views := 0;
      this.featured := false;
      this.expiration := None;
      this.createdAt := createdAt;
      this.vehicle := vehicle;
      this.owner := owner;
    }

    /** A listing loaded from a stored row. */
    constructor Load(r: ListingRow)
      ensures Row() == r
    {
      id := r.id;
      description := r.description;
      priceCents := r.priceCents;
      status := r.status;
      acceptsTrade := r.acceptsTrade;
      phone := r.phone;
      views := r.views;
      featured := r.featured;
      expiration := r.expiration;
      createdAt := r.createdAt;
      vehicle := r.vehicle;
      owner := r.owner;
    }

    /** The instance's fields as a row. */
    function Row(): ListingRow
      reads this
    {
      ListingRow(id, description, priceCents, status, acceptsTrade, phone, views, featured, expiration, createdAt, vehicle, owner)
    }

    /** `is_ativo` */
    predicate IsActive() reads this { status == Ativo }

    /** `is_vendido` */
    predicate IsSold() reads this { status == Vendido }

    /** `is_reservado` */
    predicate IsReserved() reads this { status == Reservado }

    /** `dias_publicado`: whole days from the creation day to today. */
    function DaysPublished(today: int): (days: int)
      reads this
      ensures days >= 0 <==> CreationDay(createdAt) <= today
      ensures days == 0 <==> CreationDay(createdAt) == today
    {
      today - CreationDay(createdAt)
    }

    /** `incrementar_visualizacao`: one more view, nothing else changes. */
    method IncrementViews()
      modifies this`views
      ensures Row() == old(Row()).(views := old(views) + 1)
    {
      views := views + 1;
    }

    /** `verificar_expiracao`: expires the listing when it is active and its
        expiration date has passed, and says whether it did. */
    method CheckExpiration(today: int) returns (expired: bool)
      modifies this`status
      ensures expired == ShouldExpire(old(Row()), today)
      ensures Row() == ApplyExpiry(old(Row()), today)
    {
      if expiration.Some? && today > expiration.value && status == Ativo {
        status := Expirado;
        return true;
      }
      return false;
    }

    /** `marcar_como_vendido`: sold, whatever the status was. */
    method MarkSold()
      modifies this`status
      ensures Row() == old(Row()).(status := Vendido)
    {
      status := Vendido;
    }

    /** `reativar`: a paused or expired listing becomes active; the result
        says whether that happened. */
    method Reactivate() returns (reactivated: bool)
      modifies this`status
      ensures reactivated <==> old(status) == Pausado || old(status) == Expirado
      ensures Row() == Reactivated(old(Row()))
    {
      if status == Pausado || status == Expirado {
        status := Ativo;
        return true;
      }
      return false;
    }
  }

  /** At most one of `is_ativo`, `is_vendido` and `is_reservado` holds. */
  lemma AtMostOneFlag(l: Listing)
    ensures !(l.IsActive() && l.IsSold())
    ensures !(l.IsActive() && l.IsReserved())
    ensures !(l.IsSold() && l.IsReserved())
  {
  }

  /** `verificar_expiracao` called twice in a row: the second call reports
      nothing and changes nothing. */
  method CheckExpirationTwice(l: Listing, today: int) returns (first: bool, second: bool)
    modifies l`status
    ensures second == false
    ensures l.Row() == ApplyExpiry(old(l.Row()), today)
  {
    first := l.CheckExpiration(today);
    second := l.CheckExpiration(today);
    ApplyExpiryIdempotent(old(l.Row()), today);
  }
}
