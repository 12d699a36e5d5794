/**
 * The reservation side of app.py: the stock_items, stock_movements and
 * stock_reservations tables, the two reservation forms, the expire sweep,
 * the auto-release sweep and the per-brand item listing.
 */
module Reservations {
  import opened Wrappers
  import opened NameOrder

  datatype Status = Active | Expired | Cancelled

  /** A row of stock_items as the web app reads it. */
  datatype StockItem = StockItem(name: string, category: Option<string>, openingQty: real)

  /** A row of stock_movements as the web app reads it. */
  datatype Movement = Movement(item: string, qty: real, movementType: string)

  /** A row of stock_reservations; dates are day numbers. */
  datatype Reservation = Reservation(
    id: nat, item: string, reservedBy: string, qty: real, startDate: int, endDate: int, status: Status)

  function ItemName(it: StockItem): string {
    it.name
  }

  /** stock_items.name is the table's key: no two rows share a name. */
  ghost predicate UniqueNames(items: seq<StockItem>) {
    forall i, j :: 0 <= i < j < |items| ==> items[i].name != items[j].name
  }

  /** The stock_items row with the given name, if any. */
  function FindItem(items: seq<StockItem>, name: string): (r: Option<StockItem>)
    ensures r.Some? ==> r.value in items && r.value.name == name
    ensures r.None? <==> forall it :: it in items ==> it.name != name
  {
    if items == [] then None
    else if items[0].name == name then Some(items[0])
    else
      var r := FindItem(items[1..], name);
      assert items == [items[0]] + items[1..];
      r
  }

  /** With names as the key, looking an item's name up finds that very row. */
  lemma {:induction false} FindItemUnique(items: seq<StockItem>, i: int)
    requires UniqueNames(items) && 0 <= i < |items|
    ensures FindItem(items, items[i].name) == Some(items[i])
  {
    if i > 0 {
      assert items[0].name != items[i].name;
      assert UniqueNames(items[1..]) by {
        forall p, q | 0 <= p < q < |items[1..]| ensures items[1..][p].name != items[1..][q].name {
          assert items[1..][p] == items[p + 1] && items[1..][q] == items[q + 1];
        }
      }
      FindItemUnique(items[1..], i - 1);
    }
  }

  // ---------------------------------------------------------------------
  // Availability
  // ---------------------------------------------------------------------

  /** `IFNULL(SUM(m.qty), 0)` over the OUT movements of one item. */
  function SumOut(moves: seq<Movement>, name: string): real {
    if moves == [] then 0.0
    else (if moves[0].item == name && moves[0].movementType == "OUT" then moves[0].qty else 0.0) + SumOut(moves[1..], name)
  }

  /** The item has no OUT movement. */
  predicate NoOutMovements(moves: seq<Movement>, name: string) {
    forall m :: m in moves ==> !(m.item == name && m.movementType == "OUT")
  }

  /** With no OUT movement the sum is 0 (IFNULL of an empty group). */
  lemma {:induction false} SumOutEmpty(moves: seq<Movement>, name: string)
    requires NoOutMovements(moves, name)
    ensures SumOut(moves, name) == 0.0
  {
    if moves != [] {
      assert moves[0] in moves;
      SumOutEmpty(moves[1..], name);
    }
  }

  /**
   * The derived table of the auto-release UPDATE: `opening_qty` minus the OUT
   * quantities, for items that exist; no row at all for an unknown item.
   */
  function Available(items: seq<StockItem>, moves: seq<Movement>, name: string): Option<real> {
    match FindItem(items, name)
    case None => None
    case Some(it) => Some(it.openingQty - SumOut(moves, name))
  }

  /** Availability of an item without OUT movements is its opening quantity. */
  lemma AvailableWithoutOut(items: seq<StockItem>, moves: seq<Movement>, name: string)
    requires NoOutMovements(moves, name)
    ensures FindItem(items, name).Some? ==> Available(items, moves, name) == Some(FindItem(items, name).value.openingQty)
    ensures FindItem(items, name).None? ==> Available(items, moves, name) == None
  {
    SumOutEmpty(moves, name);
  }

  // ---------------------------------------------------------------------
  // How a reservation may change
  // ---------------------------------------------------------------------

  /** A status may stay, or go from ACTIVE to EXPIRED or CANCELLED; nothing leads back to ACTIVE. */
  predicate StatusStep(s: Status, t: Status) {
    s == t || (s == Active && t != Active)
  }

  /** The same reservation, with a status reached by one step. */
  predicate RowStep(a: Reservation, b: Reservation) {
    b == a.(status := b.status) && StatusStep(a.status, b.status)
  }

  /**
   * `b` is `a` after any mix of inserts and sweeps: the old rows keep every
   * field but the status, which only moves away from ACTIVE; new rows are
   * appended.
   */
  predicate Succeeds(a: seq<Reservation>, b: seq<Reservation>) {
    |a| <= |b| && forall i :: 0 <= i < |a| ==> RowStep(a[i], b[i])
  }

  lemma SucceedsTransitive(a: seq<Reservation>, b: seq<Reservation>, c: seq<Reservation>)
    requires Succeeds(a, b) && Succeeds(b, c)
    ensures Succeeds(a, c)
  {
  }

  /** Every ACTIVE reservation was already ACTIVE, or was inserted since. */
  lemma ActiveOnlyByInsert(a: seq<Reservation>, b: seq<Reservation>, i: int)
    requires Succeeds(a, b) && 0 <= i < |b| && b[i].status == Active
    ensures i >= |a| || (a[i].status == Active && a[i] == b[i])
  {
  }

  // ---------------------------------------------------------------------
  // The expire sweep
  // ---------------------------------------------------------------------

  /** `SET status='EXPIRED' WHERE status='ACTIVE' AND end_date < CURDATE()`, on one row. */
  function ExpireRow(r: Reservation, today: int): Reservation {
    if r.status == Active && r.endDate < today then r.(status := Expired) else r
  }

  function ExpireSweep(rs: seq<Reservation>, today: int): (out: seq<Reservation>) {
    seq(|rs|, i requires 0 <= i < |rs| => ExpireRow(rs[i], today))
  }

  /**
   * The sweep changes exactly the overdue ACTIVE rows, and those only in their
   * status; afterwards nothing ACTIVE is overdue.
   */
  lemma ExpireSweepSpec(rs: seq<Reservation>, today: int)
    ensures var out := ExpireSweep(rs, today);
      && Succeeds(rs, out) && |out| == |rs|
      && (forall i :: 0 <= i < |rs| ==>
            (out[i] != rs[i] <==> rs[i].status == Active && rs[i].endDate < today))
      && (forall i :: 0 <= i < |rs| && out[i] != rs[i] ==> out[i] == rs[i].(status := Expired))
      && (forall r :: r in out ==> !(r.status == Active && r.endDate < today))
  {
    var out := ExpireSweep(rs, today);
    forall r | r in out ensures !(r.status == Active && r.endDate < today) {
      var i :| 0 <= i < |out| && out[i] == r;
    }
  }

  /**
   * The end date of a new reservation comes from the app host's clock and the
   * sweep from the database's: when the database is ahead by more than the
   * reserved days, the reservation is expired by the very request that made it.
   */
  lemma ClockSkewExpiresNewReservation(rs: seq<Reservation>, r: Reservation, appToday: int, days: int, dbToday: int)
    requires r.status == Active && r.endDate == appToday + days && appToday + days < dbToday
    ensures ExpireSweep(rs + [r], dbToday)[|rs|] == r.(status := Expired)
  {
  }

  /** A second sweep with the same date changes nothing. */
  lemma ExpireSweepIdempotent(rs: seq<Reservation>, today: int)
    ensures ExpireSweep(ExpireSweep(rs, today), today) == ExpireSweep(rs, today)
  {
  }

  // ---------------------------------------------------------------------
  // The auto-release sweep
  // ---------------------------------------------------------------------

  /**
   * The auto-release UPDATE on one row: an ACTIVE reservation of a known item
   * whose OWN quantity exceeds the item's availability is cancelled. Each row
   * is compared on its own, not as a running total.
   */
  function ReleaseRow(r: Reservation, items: seq<StockItem>, moves: seq<Movement>): Reservation {
    match Available(items, moves, r.item)
    case Some(a) => if r.status == Active && r.qty > a then r.(status := Cancelled) else r
    case None => r
  }

  function AutoRelease(rs: seq<Reservation>, items: seq<StockItem>, moves: seq<Movement>): (out: seq<Reservation>) {
    seq(|rs|, i requires 0 <= i < |rs| => ReleaseRow(rs[i], items, moves))
  }

  /**
   * The sweep cancels exactly the ACTIVE reservations of known items whose
   * quantity exceeds availability, and changes nothing else.
   */
  lemma AutoReleaseSpec(rs: seq<Reservation>, items: seq<StockItem>, moves: seq<Movement>)
    ensures var out := AutoRelease(rs, items, moves);
      && Succeeds(rs, out) && |out| == |rs|
      && (forall i :: 0 <= i < |rs| ==>
            (out[i] != rs[i] <==>
               rs[i].status == Active && Available(items, moves, rs[i].item).Some? &&
               rs[i].qty > Available(items, moves, rs[i].item).value))
      && (forall i :: 0 <= i < |rs| && out[i] != rs[i] ==> out[i] == rs[i].(status := Cancelled))
  {
  }

  /** The inner join: a reservation whose item is not in stock_items is never cancelled. */
  lemma AutoReleaseSkipsUnknownItems(rs: seq<Reservation>, items: seq<StockItem>, moves: seq<Movement>, i: int)
    requires 0 <= i < |rs| && forall it :: it in items ==> it.name != rs[i].item
    ensures AutoRelease(rs, items, moves)[i] == rs[i]
  {
  }

  /** After the sweep, every ACTIVE reservation of a known item fits, on its own, in the availability. */
  lemma AutoReleaseLeavesFitting(rs: seq<Reservation>, items: seq<StockItem>, moves: seq<Movement>)
    ensures forall r :: r in AutoRelease(rs, items, moves) && r.status == Active && Available(items, moves, r.item).Some? ==>
      r.qty <= Available(items, moves, r.item).value
  {
    var out := AutoRelease(rs, items, moves);
    forall r | r in out && r.status == Active && Available(items, moves, r.item).Some?
      ensures r.qty <= Available(items, moves, r.item).value
    {
      var i :| 0 <= i < |out| && out[i] == r;
      assert r == ReleaseRow(rs[i], items, moves);
    }
  }

  /** A second sweep over the same stock changes nothing. */
  lemma AutoReleaseIdempotent(rs: seq<Reservation>, items: seq<StockItem>, moves: seq<Movement>)
    ensures AutoRelease(AutoRelease(rs, items, moves), items, moves) == AutoRelease(rs, items, moves)
  {
  }

  /**
   * The per-row rule does not bound the TOTAL: two ACTIVE reservations of 3 on
   * an item with 5 in stock both survive, holding 6.
   */
  lemma AutoReleaseKeepsOversubscription()
    ensures var items := [StockItem("X", Some("B"), 5.0)];
      var rs := [Reservation(1, "X", "a", 3.0, 0, 9, Active), Reservation(2, "X", "b", 3.0, 0, 9, Active)];
      && AutoRelease(rs, items, []) == rs
      && ReservedQty(rs, "X") == 6.0 && Available(items, [], "X") == Some(5.0)
  {
    var items := [StockItem("X", Some("B"), 5.0)];
    var rs := [Reservation(1, "X", "a", 3.0, 0, 9, Active), Reservation(2, "X", "b", 3.0, 0, 9, Active)];
    assert Available(items, [], "X") == Some(5.0);
    assert ReservedQty(rs[1..], "X") == 3.0;
  }

  // ---------------------------------------------------------------------
  // The per-brand listing
  // ---------------------------------------------------------------------

  /** The reservation takes part in the listing's LEFT JOIN for `name`. */
  predicate ActiveOn(r: Reservation, name: string) {
    r.status == Active && r.item == name
  }

  /** `IFNULL(SUM(r.qty), 0)` over the ACTIVE reservations of one item. */
  function ReservedQty(rs: seq<Reservation>, name: string): real {
    if rs == [] then 0.0
    else (if ActiveOn(rs[0], name) then rs[0].qty else 0.0) + ReservedQty(rs[1..], name)
  }

  /** Nothing ACTIVE on an item means nothing reserved. */
  lemma {:induction false} ReservedQtyNone(rs: seq<Reservation>, name: string)
    requires forall r :: r in rs ==> !ActiveOn(r, name)
    ensures ReservedQty(rs, name) == 0.0
  {
    if rs != [] {
      assert rs[0] in rs;
      ReservedQtyNone(rs[1..], name);
    }
  }

  /** `MAX(r.reserved_by)` over the ACTIVE reservations of one item; None for an empty group. */
  function MaxHolder(rs: seq<Reservation>, name: string): Option<string> {
    if rs == [] then None
    else
      var rest := MaxHolder(rs[1..], name);
      if !ActiveOn(rs[0], name) then rest
      else if rest.Some? && NameLe(rs[0].reservedBy, rest.value) then rest
      else Some(rs[0].reservedBy)
  }

  /** The holder shown is one of the item's ACTIVE holders and sorts no earlier than any of them. */
  lemma {:induction false} MaxHolderSpec(rs: seq<Reservation>, name: string)
    ensures MaxHolder(rs, name).None? <==> forall r :: r in rs ==> !ActiveOn(r, name)
    ensures MaxHolder(rs, name).Some? ==>
      && (exists r :: r in rs && ActiveOn(r, name) && r.reservedBy == MaxHolder(rs, name).value)
      && (forall r :: r in rs && ActiveOn(r, name) ==> NameLe(r.reservedBy, MaxHolder(rs, name).value))
  {
    if rs != [] {
      var rest := rs[1..];
      assert rs == [rs[0]] + rest;
      MaxHolderSpec(rest, name);
      var m := MaxHolder(rest, name);
      if ActiveOn(rs[0], name) {
        if m.Some? && NameLe(rs[0].reservedBy, m.value) {
        } else {
          NameLeReflexive(rs[0].reservedBy);
          if m.Some? {
            NameLeTotal(rs[0].reservedBy, m.value);
            forall r | r in rest && ActiveOn(r, name) ensures NameLe(r.reservedBy, rs[0].reservedBy) {
              NameLeTransitive(r.reservedBy, m.value, rs[0].reservedBy);
            }
          }
        }
      }
    }
  }

  /** `MAX(r.end_date)` over the ACTIVE reservations of one item; None for an empty group. */
  function MaxEnd(rs: seq<Reservation>, name: string): Option<int> {
    if rs == [] then None
    else
      var rest := MaxEnd(rs[1..], name);
      if !ActiveOn(rs[0], name) then rest
      else if rest.Some? && rest.value >= rs[0].endDate then rest
      else Some(rs[0].endDate)
  }

  /** The end date shown is the latest end date of the item's ACTIVE reservations. */
  lemma {:induction false} MaxEndSpec(rs: seq<Reservation>, name: string)
    ensures MaxEnd(rs, name).None? <==> forall r :: r in rs ==> !ActiveOn(r, name)
    ensures MaxEnd(rs, name).Some? ==>
      && (exists r :: r in rs && ActiveOn(r, name) && r.endDate == MaxEnd(rs, name).value)
      && (forall r :: r in rs && ActiveOn(r, name) ==> r.endDate <= MaxEnd(rs, name).value)
  {
    if rs != [] {
      assert rs == [rs[0]] + rs[1..];
      MaxEndSpec(rs[1..], name);
    }
  }

  /** One row of the listing. */
  datatype ListingRow = ListingRow(
    item: string, totalQty: real, reservedQty: real, availableQty: real,
    reservedBy: Option<string>, endDate: Option<int>)

  function ListingRowOf(it: StockItem, rs: seq<Reservation>): ListingRow {
    var reserved := ReservedQty(rs, it.name);
    ListingRow(it.name, it.openingQty, reserved, it.openingQty - reserved, MaxHolder(rs, it.name), MaxEnd(rs, it.name))
  }

  /** The items of a brand (`WHERE i.category=%s`; a NULL category matches no brand), in table order. */
  function InBrand(items: seq<StockItem>, brand: string): (r: seq<StockItem>)
    ensures forall it :: it in r <==> it in items && it.category == Some(brand)
  {
    if items == [] then []
    else
      assert items == [items[0]] + items[1..];
      (if items[0].category == Some(brand) then [items[0]] else []) + InBrand(items[1..], brand)
  }

  /** The listing query of `stock_items`, grouped by item and ordered by name. */
  function Listing(items: seq<StockItem>, rs: seq<Reservation>, brand: string): (rows: seq<ListingRow>) {
    var sorted := SortBy(InBrand(items, brand), ItemName);
    seq(|sorted|, k requires 0 <= k < |sorted| => ListingRowOf(sorted[k], rs))
  }

  /** One row per item of the brand, ordered by name. */
  lemma ListingOrdered(items: seq<StockItem>, rs: seq<Reservation>, brand: string)
    ensures var rows := Listing(items, rs, brand);
      && |rows| == |InBrand(items, brand)|
      && forall i, j :: 0 <= i < j < |rows| ==> NameLe(rows[i].item, rows[j].item)
  {
    var sorted := SortBy(InBrand(items, brand), ItemName);
    assert |sorted| == |multiset(sorted)| == |InBrand(items, brand)|;
  }

  /** Row k of the listing shows the k-th item of the brand in name order. */
  lemma ListingRowAt(items: seq<StockItem>, rs: seq<Reservation>, brand: string, k: int)
    requires 0 <= k < |Listing(items, rs, brand)|
    ensures var row := Listing(items, rs, brand)[k];
      exists it :: it in items && it.category == Some(brand) && it.name == row.item && it.openingQty == row.totalQty
  {
    var sorted := SortBy(InBrand(items, brand), ItemName);
    assert sorted[k] in multiset(sorted);
    assert sorted[k] in InBrand(items, brand);
  }

  /**
   * Each row shows an item of the brand with its opening quantity; the reserved
   * quantity is the sum over the item's ACTIVE reservations and the available
   * quantity is the opening quantity minus that sum, OUT movements playing no part.
   */
  lemma ListingRows(items: seq<StockItem>, rs: seq<Reservation>, brand: string)
    ensures forall row :: row in Listing(items, rs, brand) ==>
      && (exists it :: it in items && it.category == Some(brand) && it.name == row.item && it.openingQty == row.totalQty)
      && row.reservedQty == ReservedQty(rs, row.item)
      && row.availableQty == row.totalQty - row.reservedQty
  {
    var rows := Listing(items, rs, brand);
    forall row | row in rows
      ensures exists it :: it in items && it.category == Some(brand) && it.name == row.item && it.openingQty == row.totalQty
    {
      var k :| 0 <= k < |rows| && rows[k] == row;
      ListingRowAt(items, rs, brand, k);
    }
  }

  /** Every item of the brand has its row. */
  lemma ListingCoversBrand(items: seq<StockItem>, rs: seq<Reservation>, brand: string)
    ensures forall it :: it in items && it.category == Some(brand) ==>
      exists row :: row in Listing(items, rs, brand) && row.item == it.name
  {
    var sorted := SortBy(InBrand(items, brand), ItemName);
    var rows := Listing(items, rs, brand);
    forall it | it in items && it.category == Some(brand) ensures exists row :: row in rows && row.item == it.name {
      assert it in multiset(sorted);
      var k :| 0 <= k < |sorted| && sorted[k] == it;
      assert rows[k].item == it.name;
    }
  }

  // ---------------------------------------------------------------------
  // The tables and the request handlers
  // ---------------------------------------------------------------------

  /** The reservation form of `stock_summary`: item, quantity and an optional number of days. */
  datatype SummaryForm = SummaryForm(item: string, qty: real, days: Option<int>)

  /**
   * The reservation form of `stock_items`: item, quantity, and an optional holder
   * and end date (None stands for a missing or empty field).
   */
  datatype ItemsForm = ItemsForm(item: string, qty: real, reservedBy: Option<string>, endDate: Option<int>)

  /** `session.get("user", "SalesUser")` */
  function SessionUser(login: Option<string>): string {
    login.GetOr("SalesUser")
  }

  /** `request.form.get("reserved_by") or user`: a missing or empty holder falls back to the user. */
  function Holder(field: Option<string>, user: string): string {
    if field.Some? && field.value != "" then field.value else user
  }

  class Inventory {
    var items: seq<StockItem>
    var movements: seq<Movement>
    var reservations: seq<Reservation>
    /** The next AUTO_INCREMENT id of stock_reservations. */
    var nextId: nat

    ghost predicate Valid()
      reads this
    {
      && UniqueNames(items)
      && forall r :: r in reservations ==> r.id < nextId
    }

    constructor(items: seq<StockItem>, movements: seq<Movement>)
      requires UniqueNames(items)
      ensures Valid()
      ensures this.items == items && this.movements == movements && reservations == []
    {
      this.items, this.movements := items, movements;
      reservations, nextId := [], 1;
    }

    /** The reservation INSERT: one new ACTIVE row starting today, and no availability check. */
    method Reserve(item: string, holder: string, qty: real, today: int, endDate: int)
      modifies this
      requires Valid()
      ensures Valid()
      ensures reservations == old(reservations) + [Reservation(old(nextId), item, holder, qty, today, endDate, Active)]
      ensures nextId == old(nextId) + 1
      ensures items == old(items) && movements == old(movements)
      ensures Succeeds(old(reservations), reservations)
      ensures forall r :: r in old(reservations) ==> r.id != reservations[|reservations| - 1].id
    {
      reservations := reservations + [Reservation(nextId, item, holder, qty, today, endDate, Active)];
      nextId := nextId + 1;
    }

    /** The expire UPDATE. */
    method ExpireReservations(today: int)
      modifies this
      requires Valid()
      ensures Valid()
      ensures reservations == ExpireSweep(old(reservations), today)
      ensures items == old(items) && movements == old(movements) && nextId == old(nextId)
      ensures Succeeds(old(reservations), reservations)
      ensures forall r :: r in reservations ==> !(r.status == Active && r.endDate < today)
    {
      ExpireSweepSpec(reservations, today);
      reservations := ExpireSweep(reservations, today);
      assert forall r :: r in reservations ==> r.id < nextId by {
        forall r | r in reservations ensures r.id < nextId {
          var i :| 0 <= i < |reservations| && reservations[i] == r;
          assert old(reservations)[i] in old(reservations);
        }
      }
    }

    /** `auto_release_reservations` and the same UPDATE inside `stock_items`. */
    method AutoReleaseReservations()
      modifies this
      requires Valid()
      ensures Valid()
      ensures reservations == AutoRelease(old(reservations), items, movements)
      ensures items == old(items) && movements == old(movements) && nextId == old(nextId)
      ensures Succeeds(old(reservations), reservations)
    {
      AutoReleaseSpec(reservations, items, movements);
      reservations := AutoRelease(reservations, items, movements);
      assert forall r :: r in reservations ==> r.id < nextId by {
        forall r | r in reservations ensures r.id < nextId {
          var i :| 0 <= i < |reservations| && reservations[i] == r;
          assert old(reservations)[i] in old(reservations);
        }
      }
    }

    /**
     * The state changes of `stock_summary`: an optional reservation ending
     * `days` (default 2) after the app host's date and starting on the
     * database's date, then the expire sweep against the database's date.
     */
    method StockSummary(form: Option<SummaryForm>, login: Option<string>, appToday: int, dbToday: int)
      modifies this
      requires Valid()
      ensures Valid()
      ensures items == old(items) && movements == old(movements)
      ensures form.None? ==> reservations == ExpireSweep(old(reservations), dbToday)
      ensures form.Some? ==> reservations == ExpireSweep(old(reservations) +
        [Reservation(old(nextId), form.value.item, SessionUser(login), form.value.qty,
                     dbToday, appToday + form.value.days.GetOr(2), Active)], dbToday)
      ensures Succeeds(old(reservations), reservations)
    {
      if form.Some? {
        Reserve(form.value.item, SessionUser(login), form.value.qty, dbToday, appToday + form.value.days.GetOr(2));
      }
      ghost var inserted := reservations;
      ExpireReservations(dbToday);
      SucceedsTransitive(old(reservations), inserted, reservations);
    }

    /**
     * `stock_items`: an optional reservation (holder defaulting to the user,
     * end date to the app host's date + 3, start on the database's date), the
     * expire sweep against the database's date, the auto-release sweep, then
     * the listing of the brand's items.
     */
    method StockItemsPage(brand: string, form: Option<ItemsForm>, login: Option<string>, appToday: int, dbToday: int)
      returns (rows: seq<ListingRow>)
      modifies this
      requires Valid()
      ensures Valid()
      ensures items == old(items) && movements == old(movements)
      ensures form.None? ==> reservations == AutoRelease(ExpireSweep(old(reservations), dbToday), items, movements)
      ensures form.Some? ==> reservations == AutoRelease(ExpireSweep(old(reservations) +
        [Reservation(old(nextId), form.value.item, Holder(form.value.reservedBy, SessionUser(login)),
                     form.value.qty, dbToday, form.value.endDate.GetOr(appToday + 3), Active)], dbToday), items, movements)
      ensures rows == Listing(items, reservations, brand)
      ensures Succeeds(old(reservations), reservations)
    {
      if form.Some? {
        var f := form.value;
        Reserve(f.item, Holder(f.reservedBy, SessionUser(login)), f.qty, dbToday, f.endDate.GetOr(appToday + 3));
      }
      ghost var inserted := reservations;
      ExpireReservations(dbToday);
      ghost var expired := reservations;
      AutoReleaseReservations();
      SucceedsTransitive(old(reservations), inserted, expired);
      SucceedsTransitive(old(reservations), expired, reservations);
      rows := Listing(items, reservations, brand);
    }
  }
}
