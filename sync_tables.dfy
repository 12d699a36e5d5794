/**
 * What the two sync jobs move: the JSON records the gateway's /stock_items and
 * /stock_movements endpoints return, and the MySQL tables stock_items and
 * stock_movements the jobs truncate and refill.
 */
module SyncTables {
  import opened Wrappers
  import Gateway

  /** A member of a decoded JSON object: the key is missing, holds null, or holds a value. */
  datatype Field<T> = Absent | Null | Val(v: T)

  /** `d.get(key, default)`: the default replaces only a MISSING key; an explicit null stays None. */
  function GetOr<T>(f: Field<T>, default: T): Option<T> {
    match f
    case Absent => Some(default)
    case Null => None
    case Val(v) => Some(v)
  }

  /** `d.get(key)`: a missing key and an explicit null both read as None. */
  function Get<T>(f: Field<T>): Option<T> {
    if f.Val? then Some(f.v) else None
  }

  /** One element of the /stock_items JSON list. */
  datatype FetchedItem = FetchedItem(
    name: Field<string>, category: Field<string>, baseUnit: Field<string>,
    closingQty: Field<real>, closingRate: Field<real>)

  /** One element of the /stock_movements JSON list. */
  datatype FetchedMovement = FetchedMovement(
    date: Field<string>, voucherNo: Field<string>, company: Field<string>, item: Field<string>,
    qty: Field<real>, rate: Field<real>, amount: Field<real>, movementType: Field<string>)

  /** A row of stock_items (None is SQL NULL). */
  datatype ItemRow = ItemRow(
    name: Option<string>, category: Option<string>, baseUnit: Option<string>,
    openingQty: Option<real>, openingRate: Option<real>)

  /** A row of stock_movements (None is SQL NULL). */
  datatype MovementRow = MovementRow(
    date: Option<string>, voucherNo: Option<string>, company: Option<string>, item: Option<string>,
    qty: Option<real>, rate: Option<real>, amount: Option<real>, movementType: Option<string>)

  /**
   * The parameters of one stock_items INSERT: the closing quantity and rate of
   * the gateway become the opening ones, 0 when the key is missing.
   */
  function ItemRowOf(i: FetchedItem): (r: ItemRow)
    ensures r.name == Get(i.name) && r.category == Get(i.category) && r.baseUnit == Get(i.baseUnit)
    ensures i.closingQty.Absent? ==> r.openingQty == Some(0.0)
    ensures i.closingRate.Absent? ==> r.openingRate == Some(0.0)
    ensures i.closingQty.Val? ==> r.openingQty == Some(i.closingQty.v)
    ensures i.closingRate.Val? ==> r.openingRate == Some(i.closingRate.v)
    ensures r.openingQty.None? <==> i.closingQty.Null?
    ensures r.openingRate.None? <==> i.closingRate.Null?
  {
    ItemRow(Get(i.name), Get(i.category), Get(i.baseUnit), GetOr(i.closingQty, 0.0), GetOr(i.closingRate, 0.0))
  }

  /** The parameters of one stock_movements INSERT: quantity, rate and amount are 0 when the key is missing. */
  function MovementRowOf(m: FetchedMovement): (r: MovementRow)
    ensures r.date == Get(m.date) && r.voucherNo == Get(m.voucherNo) && r.company == Get(m.company)
    ensures r.item == Get(m.item) && r.movementType == Get(m.movementType)
    ensures m.qty.Absent? ==> r.qty == Some(0.0)
    ensures m.rate.Absent? ==> r.rate == Some(0.0)
    ensures m.amount.Absent? ==> r.amount == Some(0.0)
    ensures m.qty.Val? ==> r.qty == Some(m.qty.v)
    ensures m.rate.Val? ==> r.rate == Some(m.rate.v)
    ensures m.amount.Val? ==> r.amount == Some(m.amount.v)
    ensures (r.qty.None? <==> m.qty.Null?) && (r.rate.None? <==> m.rate.Null?) && (r.amount.None? <==> m.amount.Null?)
  {
    MovementRow(Get(m.date), Get(m.voucherNo), Get(m.company), Get(m.item),
                GetOr(m.qty, 0.0), GetOr(m.rate, 0.0), GetOr(m.amount, 0.0), Get(m.movementType))
  }

  /** The rows a reload of stock_items ends with: one per fetched item, in order. */
  function ItemRows(items: seq<FetchedItem>): (r: seq<ItemRow>) {
    seq(|items|, k requires 0 <= k < |items| => ItemRowOf(items[k]))
  }

  /** The rows a reload of stock_movements ends with: one per fetched movement, in order. */
  function MovementRows(moves: seq<FetchedMovement>): (r: seq<MovementRow>) {
    seq(|moves|, k requires 0 <= k < |moves| => MovementRowOf(moves[k]))
  }

  /** The contents of the two tables. */
  datatype Snapshot = Snapshot(stockItems: seq<ItemRow>, stockMovements: seq<MovementRow>)

  /** The two tables the sync jobs write. */
  class Tables {
    var stockItems: seq<ItemRow>
    var stockMovements: seq<MovementRow>

    constructor(items: seq<ItemRow>, moves: seq<MovementRow>)
      ensures stockItems == items && stockMovements == moves
    {
      stockItems, stockMovements := items, moves;
    }

    function Snap(): (s: Snapshot)
      reads this
      ensures s.stockItems == stockItems && s.stockMovements == stockMovements
    {
      Snapshot(stockItems, stockMovements)
    }
  }

  /**
   * How the database side of one load goes: it succeeds, the connection is
   * refused, the TRUNCATE of stock_items or of stock_movements raises, or the
   * database refuses the INSERT of row `n` (counting the item rows first, then
   * the movement rows; an `n` past the last row never fires).
   */
  datatype LoadFault = NoFault | ConnectFails | ItemsTruncateFails | MovementsTruncateFails | RowFails(n: nat)

  /** The fault lets both TRUNCATEs through. */
  predicate Truncated(fault: LoadFault) {
    fault.NoFault? || fault.RowFails?
  }

  /** Whether the fault makes one of `count` row INSERTs raise. */
  predicate FailsWithin(fault: LoadFault, count: nat) {
    fault.RowFails? && fault.n < count
  }

  /**
   * A truncate-and-reload of both tables. A refused connection or a failed first
   * TRUNCATE changes nothing. Each TRUNCATE commits at once in MySQL, so a
   * failed second TRUNCATE leaves stock_items empty and stock_movements as it
   * was, and a refused INSERT, which rolls back the uncommitted inserts, leaves
   * both tables empty. Otherwise the tables hold exactly the fetched records.
   */
  function Reload(s: Snapshot, items: seq<FetchedItem>, moves: seq<FetchedMovement>, fault: LoadFault): (r: Snapshot) {
    if fault.ConnectFails? || fault.ItemsTruncateFails? then s
    else if fault.MovementsTruncateFails? then Snapshot([], s.stockMovements)
    else if FailsWithin(fault, |items| + |moves|) then Snapshot([], [])
    else Snapshot(ItemRows(items), MovementRows(moves))
  }

  /**
   * Replace semantics: once both tables are truncated, what they held before
   * has no bearing on what they hold after; a failed second TRUNCATE keeps only
   * the old movements; and reloading the same records again changes nothing.
   */
  lemma ReloadReplaces(s: Snapshot, t: Snapshot, items: seq<FetchedItem>, moves: seq<FetchedMovement>, fault: LoadFault)
    ensures Truncated(fault) ==> Reload(s, items, moves, fault) == Reload(t, items, moves, fault)
    ensures fault.MovementsTruncateFails? ==>
      Reload(s, items, moves, fault).stockItems == [] && Reload(s, items, moves, fault).stockMovements == s.stockMovements
    ensures Reload(Reload(s, items, moves, fault), items, moves, fault) == Reload(s, items, moves, fault)
  {
  }

  /** After a reload that goes through, row k of each table is fetched record k with its defaults. */
  lemma ReloadContents(s: Snapshot, items: seq<FetchedItem>, moves: seq<FetchedMovement>, fault: LoadFault)
    requires Truncated(fault) && !FailsWithin(fault, |items| + |moves|)
    ensures var r := Reload(s, items, moves, fault);
      && |r.stockItems| == |items| && |r.stockMovements| == |moves|
      && (forall k :: 0 <= k < |items| ==> r.stockItems[k] == ItemRowOf(items[k]))
      && (forall k :: 0 <= k < |moves| ==> r.stockMovements[k] == MovementRowOf(moves[k]))
  {
  }

  /** The two GET requests of a sync: both JSON lists, or a failure (network, timeout, HTTP error, bad JSON). */
  datatype FetchOutcome = Fetched(items: seq<FetchedItem>, moves: seq<FetchedMovement>) | FetchFailed

  // ---------------------------------------------------------------------
  // From the gateway's responses to the sync job's fetch
  // ---------------------------------------------------------------------

  /** `jsonify` of a text that may be None. */
  function TextField(t: Option<string>): Field<string> {
    if t.Some? then Val(t.value) else Null
  }

  /** The JSON object the gateway sends for an item: every key present. */
  function ItemJson(g: Gateway.GatewayItem): FetchedItem {
    FetchedItem(TextField(g.name), TextField(g.category), TextField(g.baseUnit), Val(g.closingQty), Val(g.closingRate))
  }

  /** The JSON object the gateway sends for a movement: every key present. */
  function MovementJson(g: Gateway.GatewayMovement): FetchedMovement {
    FetchedMovement(TextField(g.date), TextField(g.voucherNo), TextField(g.company), TextField(g.item),
                    Val(g.qty), Val(g.rate), Val(g.amount), Val(g.movementType))
  }

  /**
   * `raise_for_status` on both responses, then `.json()` of each: an error
   * status on either one is a failed fetch.
   */
  function Transport(items: Gateway.Response<Gateway.GatewayItem>, moves: Gateway.Response<Gateway.GatewayMovement>): (r: FetchOutcome)
    ensures r.Fetched? <==> items.Ok? && moves.Ok?
    ensures r.Fetched? ==> |r.items| == |items.data| && |r.moves| == |moves.data|
  {
    if items.Ok? && moves.Ok? then
      Fetched(seq(|items.data|, k requires 0 <= k < |items.data| => ItemJson(items.data[k])),
              seq(|moves.data|, k requires 0 <= k < |moves.data| => MovementJson(moves.data[k])))
    else FetchFailed
  }

  /**
   * A reload from the gateway's own records keeps them field for field: names
   * and texts as sent, and the quantities and rates never fall back to the
   * default 0 or to NULL.
   */
  lemma GatewayRowsSurvive(items: Gateway.Response<Gateway.GatewayItem>, moves: Gateway.Response<Gateway.GatewayMovement>)
    requires items.Ok? && moves.Ok?
    ensures var f := Transport(items, moves);
      && |ItemRows(f.items)| == |items.data|
      && (forall k :: 0 <= k < |items.data| ==>
            var g := items.data[k];
            ItemRows(f.items)[k] == ItemRow(g.name, g.category, g.baseUnit, Some(g.closingQty), Some(g.closingRate)))
      && |MovementRows(f.moves)| == |moves.data|
      && (forall k :: 0 <= k < |moves.data| ==>
            var g := moves.data[k];
            MovementRows(f.moves)[k] ==
              MovementRow(g.date, g.voucherNo, g.company, g.item, Some(g.qty), Some(g.rate), Some(g.amount), Some(g.movementType)))
  {
    var f := Transport(items, moves);
    forall k | 0 <= k < |items.data| ensures ItemRows(f.items)[k].name == items.data[k].name {
      var t := items.data[k].name;
      assert Get(TextField(t)) == t;
    }
  }
}
