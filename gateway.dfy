/**
 * The Tally gateway (tally_gateway.py): an HTTP service beside the accounting
 * system that runs ODBC queries and returns their rows as JSON records. The
 * queries themselves are a parameter (`QueryOutcome`); what is modelled is the
 * conversion of each row and the shape of each response.
 */
module Gateway {
  import opened Wrappers
  import opened Cells

  // ---------------------------------------------------------------------
  // Request admission
  // ---------------------------------------------------------------------

  datatype Admission = Admitted | Rejected(status: int)

  /**
   * The before-request hook: when an API key is configured, a request passes
   * only if its X-API-KEY header (empty when absent) equals that key.
   */
  function RequireApiKey(apiKey: string, header: Option<string>): (r: Admission)
    ensures r.Rejected? ==> r.status == 401
    ensures apiKey == "" ==> r == Admitted
    ensures apiKey != "" ==> (r == Admitted <==> header == Some(apiKey))
  {
    if apiKey != "" && header.GetOr("") != apiKey then Rejected(401) else Admitted
  }

  datatype Response<T> = Ok(data: seq<T>) | HttpError(status: int)

  /** A response as the client sees it: the endpoint runs only for an admitted request. */
  function Guarded<T>(apiKey: string, header: Option<string>, endpoint: Response<T>): (r: Response<T>)
    ensures r.Ok? ==> RequireApiKey(apiKey, header) == Admitted && r == endpoint
    ensures RequireApiKey(apiKey, header) == Admitted ==> r == endpoint
    ensures RequireApiKey(apiKey, header) != Admitted ==> r == HttpError(401)
  {
    match RequireApiKey(apiKey, header)
    case Admitted => endpoint
    case Rejected(status) => HttpError(status)
  }

  // ---------------------------------------------------------------------
  // Cell converters
  // ---------------------------------------------------------------------

  /** `_to_iso`: a date becomes its ISO text, None stays None, anything else goes through `str()`. */
  function ToIso(c: Cell, b: Builtins): (r: Option<string>)
    ensures r == None <==> c == NullCell
    ensures c != NullCell ==> r == Some(Show(c, b))
  {
    match c
    case DateCell(d) => Some(IsoFormat(d))
    case NullCell => None
    case _ => Some(Show(c, b))
  }

  /**
   * `_safe_float`: never fails. None gives 0.0; a value `float()` accepts gives
   * that value; otherwise its text is parsed, and 0.0 is the last resort.
   */
  function SafeFloat(c: Cell, b: Builtins): (r: real)
    ensures c == NullCell ==> r == 0.0
    ensures forall x :: PyFloat(c, b) == Some(x) ==> r == x
    ensures r != 0.0 ==> PyFloat(c, b) == Some(r) || b.parseFloat(Show(c, b)) == Some(r)
  {
    if c == NullCell then 0.0
    else match PyFloat(c, b)
      case Some(x) => x
      case None => b.parseFloat(Show(c, b)).GetOr(0.0)
  }

  /** A cell as `_row_to_dict` stores it: dates become ISO text, everything else is kept. */
  function DictValue(c: Cell): Cell {
    if c.DateCell? then StrCell(IsoFormat(c.d)) else c
  }

  /** The value `_row_to_dict` gives column `i`: the cell, or None past the end of the row. */
  function ColumnValue(row: Row, i: nat): Cell {
    DictValue(CellAt(row, i).GetOr(NullCell))
  }

  /**
   * `_row_to_dict`: a record with exactly the column names as keys. A name
   * that occurs twice takes the value of its last position; a position past the
   * end of the row gives None; no date is left in the record.
   */
  method RowToDict(row: Row, cols: seq<string>) returns (out: map<string, Cell>)
    ensures out.Keys == set c | c in cols
    ensures forall i :: 0 <= i < |cols| && (forall j :: i < j < |cols| ==> cols[j] != cols[i]) ==>
      out[cols[i]] == ColumnValue(row, i)
    ensures forall k :: k in out ==> !out[k].DateCell?
  {
    out := map[];
    var i := 0;
    while i < |cols|
      invariant 0 <= i <= |cols|
      invariant out.Keys == set c | c in cols[..i]
      invariant forall p :: 0 <= p < i && (forall j :: p < j < i ==> cols[j] != cols[p]) ==>
        out[cols[p]] == ColumnValue(row, p)
      invariant forall k :: k in out ==> !out[k].DateCell?
    {
      var v := if i < |row| then row[i] else NullCell;
      out := out[cols[i] := DictValue(v)];
      assert cols[..i + 1] == cols[..i] + [cols[i]];
      i := i + 1;
    }
    assert cols[..i] == cols;
  }

  /** `str(v).strip() if v is not None else None` */
  function StrippedUnlessNone(c: Cell, b: Builtins): Option<string> {
    if c == NullCell then None else Some(Strip(Show(c, b)))
  }

  /** A text that is None or already stripped. */
  predicate IsStripped(t: Option<string>) {
    t.Some? ==> Strip(t.value) == t.value
  }

  // ---------------------------------------------------------------------
  // /stock_items
  // ---------------------------------------------------------------------

  datatype GatewayItem = GatewayItem(
    name: Option<string>, category: Option<string>, baseUnit: Option<string>,
    closingQty: real, closingRate: real)

  /** One StockItem row ($Name, $Parent, $BaseUnits, $_ClosingBalance, $_ClosingRate). */
  function ItemRecord(r: Row, b: Builtins): GatewayItem
    requires |r| >= 5
  {
    GatewayItem(StrippedUnlessNone(r[0], b), StrippedUnlessNone(r[1], b), StrippedUnlessNone(r[2], b),
                SafeFloat(r[3], b), SafeFloat(r[4], b))
  }

  /**
   * Name, category and unit are the stripped texts of columns 0 to 2, None
   * exactly where the cell is None; closing quantity and rate always come from
   * `_safe_float` of columns 3 and 4, so a missing one is 0.0.
   */
  lemma ItemRecordFields(r: Row, b: Builtins)
    requires |r| >= 5
    ensures var g := ItemRecord(r, b);
      && g.name == StrippedUnlessNone(r[0], b)
      && g.category == StrippedUnlessNone(r[1], b)
      && g.baseUnit == StrippedUnlessNone(r[2], b)
      && g.closingQty == SafeFloat(r[3], b) && g.closingRate == SafeFloat(r[4], b)
      && IsStripped(g.name) && IsStripped(g.category) && IsStripped(g.baseUnit)
      && (g.name == None <==> r[0] == NullCell)
      && (g.category == None <==> r[1] == NullCell)
      && (g.baseUnit == None <==> r[2] == NullCell)
      && (r[3] == NullCell ==> g.closingQty == 0.0)
      && (r[4] == NullCell ==> g.closingRate == 0.0)
  {
    StripIdempotent(Show(r[0], b));
    StripIdempotent(Show(r[1], b));
    StripIdempotent(Show(r[2], b));
  }

  /**
   * The /stock_items endpoint: one record per row, in order; a failed query, or
   * a row too short to index, gives a 500 response.
   */
  method StockItems(q: QueryOutcome, b: Builtins) returns (resp: Response<GatewayItem>)
    ensures resp.HttpError? ==> resp.status == 500
    ensures resp.Ok? <==> q.Rows? && forall i :: 0 <= i < |q.rows| ==> |q.rows[i]| >= 5
    ensures resp.Ok? ==> (|resp.data| == |q.rows| &&
      forall i :: 0 <= i < |q.rows| ==> resp.data[i] == ItemRecord(q.rows[i], b))
  {
    if q.QueryFailed? {
      return HttpError(500);
    }
    var data := [];
    var i := 0;
    while i < |q.rows|
      invariant 0 <= i <= |q.rows|
      invariant forall k :: 0 <= k < i ==> |q.rows[k]| >= 5
      invariant |data| == i && forall k :: 0 <= k < i ==> data[k] == ItemRecord(q.rows[k], b)
    {
      var r := q.rows[i];
      if |r| < 5 {
        return HttpError(500);
      }
      data := data + [ItemRecord(r, b)];
      i := i + 1;
    }
    return Ok(data);
  }

  // ---------------------------------------------------------------------
  // /stock_movements
  // ---------------------------------------------------------------------

  datatype GatewayMovement = GatewayMovement(
    date: Option<string>, voucherNo: Option<string>, company: Option<string>, item: Option<string>,
    qty: real, rate: real, amount: real, movementType: string)

  /** One VchStockItem row (date, party, item name, rate, qty, amount). */
  function MovementRecord(r: Row, b: Builtins): GatewayMovement
    requires |r| >= 6
  {
    var amount := SafeFloat(r[5], b);
    GatewayMovement(
      if r[0] != NullCell then ToIso(r[0], b) else None,
      None,
      StrippedUnlessNone(r[1], b),
      StrippedUnlessNone(r[2], b),
      SafeFloat(r[4], b),
      SafeFloat(r[3], b),
      amount,
      if amount > 0.0 then "OUT" else "IN")
  }

  /**
   * The columns are date, party, item, rate, qty, amount: the date is `_to_iso`
   * of column 0 and None only for None; the company is the party; quantity,
   * rate and amount are `_safe_float` of columns 4, 3 and 5; the direction is
   * OUT exactly when the amount is positive; there is never a voucher number.
   */
  lemma MovementRecordFields(r: Row, b: Builtins)
    requires |r| >= 6
    ensures var m := MovementRecord(r, b);
      && m.qty == SafeFloat(r[4], b) && m.rate == SafeFloat(r[3], b) && m.amount == SafeFloat(r[5], b)
      && (r[0] != NullCell ==> m.date == ToIso(r[0], b))
      && (m.movementType == "OUT" <==> m.amount > 0.0)
      && (m.movementType == "OUT" || m.movementType == "IN")
      && m.company == StrippedUnlessNone(r[1], b) && m.item == StrippedUnlessNone(r[2], b)
      && IsStripped(m.company) && IsStripped(m.item)
      && m.voucherNo == None
      && (m.date == None <==> r[0] == NullCell)
      && (r[5] == NullCell ==> m.movementType == "IN")
  {
    StripIdempotent(Show(r[1], b));
    StripIdempotent(Show(r[2], b));
  }

  /** The /stock_movements endpoint: one record per row, in order, or a 500 response. */
  method StockMovements(q: QueryOutcome, b: Builtins) returns (resp: Response<GatewayMovement>)
    ensures resp.HttpError? ==> resp.status == 500
    ensures resp.Ok? <==> q.Rows? && forall i :: 0 <= i < |q.rows| ==> |q.rows[i]| >= 6
    ensures resp.Ok? ==> (|resp.data| == |q.rows| &&
      forall i :: 0 <= i < |q.rows| ==> resp.data[i] == MovementRecord(q.rows[i], b))
  {
    if q.QueryFailed? {
      return HttpError(500);
    }
    var data := [];
    var i := 0;
    while i < |q.rows|
      invariant 0 <= i <= |q.rows|
      invariant forall k :: 0 <= k < i ==> |q.rows[k]| >= 6
      invariant |data| == i && forall k :: 0 <= k < i ==> data[k] == MovementRecord(q.rows[k], b)
    {
      var r := q.rows[i];
      if |r| < 6 {
        return HttpError(500);
      }
      data := data + [MovementRecord(r, b)];
      i := i + 1;
    }
    return Ok(data);
  }

  // ---------------------------------------------------------------------
  // /ledgers
  // ---------------------------------------------------------------------

  datatype LedgerRecord = LedgerRecord(name: Option<string>, parent: Option<string>)

  /** One Ledger row ($Name, $Parent). */
  function LedgerOf(r: Row, b: Builtins): LedgerRecord
    requires |r| >= 2
  {
    LedgerRecord(StrippedIfTruthy(r[0], b), StrippedIfTruthy(r[1], b))
  }

  /** Name and parent are the stripped texts of columns 0 and 1, and None exactly where the cell is falsy. */
  lemma LedgerFields(r: Row, b: Builtins)
    requires |r| >= 2
    ensures var l := LedgerOf(r, b);
      && l.name == StrippedIfTruthy(r[0], b) && l.parent == StrippedIfTruthy(r[1], b)
      && IsStripped(l.name) && IsStripped(l.parent)
      && (l.name == None <==> !Truthy(r[0]))
      && (l.parent == None <==> !Truthy(r[1]))
  {
    StripIdempotent(Show(r[0], b));
    StripIdempotent(Show(r[1], b));
  }

  /** The /ledgers endpoint (a list comprehension over the rows). */
  function Ledgers(q: QueryOutcome, b: Builtins): (resp: Response<LedgerRecord>)
    ensures resp.HttpError? ==> resp.status == 500
    ensures resp.Ok? <==> q.Rows? && forall i :: 0 <= i < |q.rows| ==> |q.rows[i]| >= 2
    ensures resp.Ok? ==> (|resp.data| == |q.rows| &&
      forall i :: 0 <= i < |q.rows| ==> resp.data[i] == LedgerOf(q.rows[i], b))
  {
    if q.Rows? && forall i :: 0 <= i < |q.rows| ==> |q.rows[i]| >= 2 then
      Ok(seq(|q.rows|, i requires 0 <= i < |q.rows| => LedgerOf(q.rows[i], b)))
    else HttpError(500)
  }
}
