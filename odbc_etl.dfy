/**
 * The ODBC extract-transform-load job (etl/pipeline.py): it reads stock items,
 * ledgers and voucher movements straight from the accounting system's ODBC
 * driver, normalises every row into a record with defaults, deduplicates by
 * name, and writes the result into a MySQL or SQLite store.
 */
module OdbcEtl {
  import opened Wrappers
  import opened Cells
  import opened Dedup

  function Min(a: int, b: int): int {
    if a <= b then a else b
  }

  /**
   * `_safe_date`: a date gives its ISO text, a falsy value gives today's, and
   * anything else the first ten characters of its text. Since the ISO text of a
   * date is exactly ten characters, every truthy value is cut the same way.
   */
  function SafeDate(c: Cell, today: ValidDate, b: Builtins): (r: string)
    ensures |r| <= 10
    ensures !Truthy(c) ==> r == IsoFormat(today)
    ensures Truthy(c) ==> r == Show(c, b)[..Min(10, |Show(c, b)|)]
  {
    if c.DateCell? then IsoFormat(c.d)
    else if !Truthy(c) then IsoFormat(today)
    else
      var t := Show(c, b);
      t[..Min(10, |t|)]
  }

  // ---------------------------------------------------------------------
  // Records
  // ---------------------------------------------------------------------

  datatype ItemRec = ItemRec(
    name: string, category: Option<string>, baseUnit: Option<string>,
    openingQty: real, openingRate: real)

  datatype Company = Company(name: string)

  datatype MovementRec = MovementRec(
    date: string, voucherNo: Option<string>, company: string, item: string,
    qty: real, rate: real, amount: real, movementType: string)

  function ItemName(i: ItemRec): string { i.name }

  function CompanyName(c: Company): string { c.name }

  // ---------------------------------------------------------------------
  // Stock items
  // ---------------------------------------------------------------------

  /** `str(v).strip() if v else default` */
  function StrippedOr(c: Cell, default: string, b: Builtins): string {
    if Truthy(c) then Strip(Show(c, b)) else default
  }

  /** `float(v) if v else 0.0`; None where `float()` raises. */
  function FloatIfTruthy(c: Cell, b: Builtins): Option<real> {
    if Truthy(c) then PyFloat(c, b) else Some(0.0)
  }

  /** One StockItem row, or None where the conversion raises. */
  function NormalizeItem(r: Row, b: Builtins): Option<ItemRec> {
    if |r| < 5 then None
    else
      var qty := FloatIfTruthy(r[3], b);
      var rate := FloatIfTruthy(r[4], b);
      if qty.None? || rate.None? then None
      else Some(ItemRec(StrippedOr(r[0], "Unknown Item", b), StrippedIfTruthy(r[1], b),
                        StrippedIfTruthy(r[2], b), qty.value, rate.value))
  }

  /**
   * A row fails exactly when it is short or holds a truthy quantity or rate that
   * `float()` rejects; otherwise a missing name is "Unknown Item", a missing
   * category or unit is None and a missing quantity or rate is 0.0.
   */
  lemma NormalizeItemDefaults(r: Row, b: Builtins)
    ensures NormalizeItem(r, b).None? <==>
      |r| < 5 || (Truthy(r[3]) && PyFloat(r[3], b).None?) || (Truthy(r[4]) && PyFloat(r[4], b).None?)
    ensures NormalizeItem(r, b).Some? ==>
      var it := NormalizeItem(r, b).value;
      && (!Truthy(r[0]) ==> it.name == "Unknown Item")
      && (Truthy(r[0]) ==> it.name == Strip(Show(r[0], b)))
      && (it.category == None <==> !Truthy(r[1]))
      && (it.baseUnit == None <==> !Truthy(r[2]))
      && (!Truthy(r[3]) ==> it.openingQty == 0.0)
      && (!Truthy(r[4]) ==> it.openingRate == 0.0)
      && (Truthy(r[3]) ==> PyFloat(r[3], b) == Some(it.openingQty))
      && (Truthy(r[4]) ==> PyFloat(r[4], b) == Some(it.openingRate))
      && (Truthy(r[1]) ==> it.category == Some(Strip(Show(r[1], b))))
      && (Truthy(r[2]) ==> it.baseUnit == Some(Strip(Show(r[2], b))))
  {
  }

  /**
   * The item loop: rows are converted in order, and the first row that raises
   * ends the loop, keeping the items converted before it.
   */
  function NormalizeItems(rows: seq<Row>, b: Builtins): (r: seq<ItemRec>)
    ensures |r| <= |rows|
  {
    if rows == [] then []
    else match NormalizeItem(rows[0], b)
      case None => []
      case Some(it) => [it] + NormalizeItems(rows[1..], b)
  }

  /**
   * The items are the conversions of the longest run of leading rows that
   * convert, one per row and in order; the row after that run fails.
   */
  lemma {:induction false} NormalizeItemsSpec(rows: seq<Row>, b: Builtins)
    ensures var r := NormalizeItems(rows, b);
      && (forall i :: 0 <= i < |r| ==> NormalizeItem(rows[i], b) == Some(r[i]))
      && (|r| < |rows| ==> NormalizeItem(rows[|r|], b).None?)
  {
    if rows != [] && NormalizeItem(rows[0], b).Some? {
      NormalizeItemsSpec(rows[1..], b);
      assert forall i :: 1 <= i < |rows| ==> rows[i] == rows[1..][i - 1];
    }
  }

  // ---------------------------------------------------------------------
  // Ledgers
  // ---------------------------------------------------------------------

  /**
   * `[{"name": r[0].strip()} for r in rows if r[0]]`, or None when the
   * comprehension raises: a row without columns, or a truthy first cell that is
   * not a string.
   */
  function LedgerCompanies(rows: seq<Row>): (r: Option<seq<Company>>)
    ensures r.Some? <==> forall i :: 0 <= i < |rows| ==>
      |rows[i]| > 0 && (Truthy(rows[i][0]) ==> rows[i][0].StrCell?)
    ensures r.Some? ==> |r.value| <= |rows|
    ensures r.Some? ==> forall c :: c in r.value ==> Strip(c.name) == c.name
  {
    if rows == [] then Some([])
    else if |rows[0]| == 0 then None
    else
      var c := rows[0][0];
      match LedgerCompanies(rows[1..])
      case None => None
      case Some(rest) =>
        if !Truthy(c) then Some(rest)
        else if c.StrCell? then (StripIdempotent(c.s); Some([Company(Strip(c.s))] + rest))
        else None
  }

  /** One ledger row: skipped when its name is falsy, its stripped name when it is text, a failure otherwise. */
  lemma LedgerCompaniesOne(row: Row)
    ensures |row| == 0 ==> LedgerCompanies([row]) == None
    ensures |row| > 0 && !Truthy(row[0]) ==> LedgerCompanies([row]) == Some([])
    ensures |row| > 0 && Truthy(row[0]) && row[0].StrCell? ==> LedgerCompanies([row]) == Some([Company(Strip(row[0].s))])
    ensures |row| > 0 && Truthy(row[0]) && !row[0].StrCell? ==> LedgerCompanies([row]) == None
  {
    assert [row][1..] == [];
    if |row| > 0 && row[0].StrCell? {
      assert [Company(Strip(row[0].s))] + [] == [Company(Strip(row[0].s))];
    }
  }

  /**
   * The comprehension works row by row: over two runs of rows it succeeds
   * exactly when it succeeds over each, and then gives the companies of the
   * first run followed by those of the second. With `LedgerCompaniesOne` this
   * fixes the result for every list of rows.
   */
  lemma {:induction false} LedgerCompaniesAppend(xs: seq<Row>, ys: seq<Row>)
    ensures LedgerCompanies(xs + ys).Some? <==> LedgerCompanies(xs).Some? && LedgerCompanies(ys).Some?
    ensures LedgerCompanies(xs + ys).Some? ==>
      LedgerCompanies(xs + ys).value == LedgerCompanies(xs).value + LedgerCompanies(ys).value
  {
    if xs == [] {
      assert xs + ys == ys;
    } else {
      assert (xs + ys)[0] == xs[0];
      assert (xs + ys)[1..] == xs[1..] + ys;
      LedgerCompaniesAppend(xs[1..], ys);
    }
  }

  // ---------------------------------------------------------------------
  // Voucher movements
  // ---------------------------------------------------------------------

  /** The first item with the given name (`next(..., None)`). */
  function FirstNamed(items: seq<ItemRec>, name: string): Option<ItemRec> {
    if items == [] then None
    else if items[0].name == name then Some(items[0])
    else FirstNamed(items[1..], name)
  }

  /** `FirstNamed` finds the item with the given name that comes first, and None only when there is none. */
  lemma {:induction false} FirstNamedSpec(items: seq<ItemRec>, name: string)
    ensures var r := FirstNamed(items, name);
      && (r.None? <==> forall it :: it in items ==> it.name != name)
      && (r.Some? ==> exists i :: (0 <= i < |items| && items[i] == r.value && items[i].name == name &&
           forall j :: 0 <= j < i ==> items[j].name != name))
  {
    if items != [] && items[0].name != name {
      var rest := items[1..];
      assert items == [items[0]] + rest;
      FirstNamedSpec(rest, name);
      var r := FirstNamed(rest, name);
      if r.Some? {
        var i :| 0 <= i < |rest| && rest[i] == r.value && rest[i].name == name &&
          forall j :: 0 <= j < i ==> rest[j].name != name;
        assert items[i + 1] == r.value;
      }
    }
  }

  /**
   * The brand of a movement: the category of the first item with its name when
   * that category is non-empty, else "Unknown".
   */
  function BrandOf(items: seq<ItemRec>, name: string): string {
    match FirstNamed(items, name)
    case Some(ItemRec(_, Some(category), _, _, _)) => if category != "" then category else "Unknown"
    case _ => "Unknown"
  }

  /**
   * The brand is the category of the FIRST item with that name when that
   * category is non-empty, and "Unknown" in every other case: no item has the
   * name, or the first one has no category or an empty one.
   */
  lemma BrandLookup(items: seq<ItemRec>, name: string)
    ensures (forall it :: it in items ==> it.name != name) ==> BrandOf(items, name) == "Unknown"
    ensures forall i :: 0 <= i < |items| && items[i].name == name && (forall j :: 0 <= j < i ==> items[j].name != name) ==>
      && (items[i].category.Some? && items[i].category.value != "" ==> BrandOf(items, name) == items[i].category.value)
      && (items[i].category.None? || items[i].category == Some("") ==> BrandOf(items, name) == "Unknown")
    ensures BrandOf(items, name) == "Unknown" ||
      exists it :: it in items && it.name == name && it.category == Some(BrandOf(items, name))
    ensures BrandOf(items, name) != ""
  {
    FirstNamedSpec(items, name);
    forall i | 0 <= i < |items| && items[i].name == name && (forall j :: 0 <= j < i ==> items[j].name != name)
      ensures FirstNamed(items, name) == Some(items[i])
    {
      assert items[i] in items;
      var k :| 0 <= k < |items| && items[k] == FirstNamed(items, name).value && items[k].name == name &&
        forall j :: 0 <= j < k ==> items[j].name != name;
      assert !(k < i) && !(i < k);
    }
  }

  /** `v in (None, "")` */
  predicate IsBlank(c: Cell) {
    c == NullCell || c == StrCell("")
  }

  /** One VchStockItem row, or None where the conversion raises (the row is skipped). */
  function NormalizeMovement(r: Row, items: seq<ItemRec>, today: ValidDate, b: Builtins): Option<MovementRec> {
    if |r| < 6 then None
    else
      var rate := if IsBlank(r[3]) then Some(0.0) else PyFloat(r[3], b);
      var qty := if IsBlank(r[4]) || r[4] == StrCell("Actual Qty") then Some(0.0) else PyFloat(r[4], b);
      if rate.None? || qty.None? then None
      else
        var amount := if IsBlank(r[5]) then Some(qty.value * rate.value) else PyFloat(r[5], b);
        if amount.None? then None
        else
          var itemName := StrippedOr(r[2], "Unknown Item", b);
          Some(MovementRec(
            SafeDate(r[0], today, b), None, BrandOf(items, itemName), "item_name",
            qty.value, rate.value, amount.value,
            if amount.value > 0.0 then "OUT" else "IN"))
  }

  /** Shape shared by every normalised movement. */
  predicate WellFormedMovement(m: MovementRec) {
    && |m.date| <= 10
    && m.voucherNo == None
    && m.item == "item_name"
    && m.company != ""
    && (m.movementType == "OUT" <==> m.amount > 0.0)
    && (m.movementType == "OUT" || m.movementType == "IN")
  }

  /**
   * A row fails exactly when it is short or holds a non-blank rate, quantity or
   * amount that `float()` rejects (the header text "Actual Qty" as quantity
   * reads as 0). Otherwise a blank or header quantity is 0, a blank rate is 0,
   * a blank amount is quantity times rate, every other number is its
   * `float()`, and the company is the brand of the named item.
   */
  lemma NormalizeMovementDefaults(r: Row, items: seq<ItemRec>, today: ValidDate, b: Builtins)
    ensures NormalizeMovement(r, items, today, b).None? <==>
      || |r| < 6
      || (!IsBlank(r[3]) && PyFloat(r[3], b).None?)
      || (!IsBlank(r[4]) && r[4] != StrCell("Actual Qty") && PyFloat(r[4], b).None?)
      || (!IsBlank(r[5]) && PyFloat(r[5], b).None?)
    ensures NormalizeMovement(r, items, today, b).Some? ==>
      var m := NormalizeMovement(r, items, today, b).value;
      && WellFormedMovement(m)
      && m.date == SafeDate(r[0], today, b)
      && (IsBlank(r[4]) || r[4] == StrCell("Actual Qty") ==> m.qty == 0.0)
      && (!IsBlank(r[4]) && r[4] != StrCell("Actual Qty") ==> PyFloat(r[4], b) == Some(m.qty))
      && (IsBlank(r[3]) ==> m.rate == 0.0)
      && (!IsBlank(r[3]) ==> PyFloat(r[3], b) == Some(m.rate))
      && (IsBlank(r[5]) ==> m.amount == m.qty * m.rate)
      && (!IsBlank(r[5]) ==> PyFloat(r[5], b) == Some(m.amount))
      && m.company == BrandOf(items, StrippedOr(r[2], "Unknown Item", b))
    ensures |r| < 6 ==> NormalizeMovement(r, items, today, b).None?
  {
    if |r| >= 6 {
      BrandLookup(items, StrippedOr(r[2], "Unknown Item", b));
    }
  }

  /** The records one row contributes: its conversion, or nothing when the conversion raises. */
  function MovementsOfRow(r: Row, items: seq<ItemRec>, today: ValidDate, b: Builtins): seq<MovementRec> {
    match NormalizeMovement(r, items, today, b)
    case None => []
    case Some(m) => [m]
  }

  /** The movement loop: each row that converts gives one record, in order; a row that raises is skipped. */
  function NormalizeMovements(rows: seq<Row>, items: seq<ItemRec>, today: ValidDate, b: Builtins): (r: seq<MovementRec>)
    ensures |r| <= |rows|
  {
    if rows == [] then []
    else MovementsOfRow(rows[0], items, today, b) + NormalizeMovements(rows[1..], items, today, b)
  }

  /** Every normalised movement has the shape of `WellFormedMovement`. */
  lemma {:induction false} NormalizeMovementsWellFormed(rows: seq<Row>, items: seq<ItemRec>, today: ValidDate, b: Builtins)
    ensures forall m :: m in NormalizeMovements(rows, items, today, b) ==> WellFormedMovement(m)
  {
    if rows != [] {
      NormalizeMovementDefaults(rows[0], items, today, b);
      NormalizeMovementsWellFormed(rows[1..], items, today, b);
    }
  }

  /** When every row converts, there is exactly one record per row, in order. */
  lemma {:induction false} NormalizeMovementsAllConvert(rows: seq<Row>, items: seq<ItemRec>, today: ValidDate, b: Builtins)
    requires forall i :: 0 <= i < |rows| ==> NormalizeMovement(rows[i], items, today, b).Some?
    ensures var r := NormalizeMovements(rows, items, today, b);
      |r| == |rows| && forall i :: 0 <= i < |rows| ==> Some(r[i]) == NormalizeMovement(rows[i], items, today, b)
  {
    if rows != [] {
      assert forall i :: 1 <= i < |rows| ==> rows[i] == rows[1..][i - 1];
      NormalizeMovementsAllConvert(rows[1..], items, today, b);
    }
  }

  /** Rows are converted independently: a failing row costs only itself. */
  lemma {:induction false} NormalizeMovementsAppend(xs: seq<Row>, ys: seq<Row>, items: seq<ItemRec>, today: ValidDate, b: Builtins)
    ensures NormalizeMovements(xs + ys, items, today, b) ==
      NormalizeMovements(xs, items, today, b) + NormalizeMovements(ys, items, today, b)
  {
    if xs == [] {
      assert xs + ys == ys;
    } else {
      assert (xs + ys)[0] == xs[0];
      assert (xs + ys)[1..] == xs[1..] + ys;
      NormalizeMovementsAppend(xs[1..], ys, items, today, b);
    }
  }

  /** Appending one row appends that row's records. */
  lemma NormalizeMovementsSnoc(xs: seq<Row>, x: Row, items: seq<ItemRec>, today: ValidDate, b: Builtins)
    ensures NormalizeMovements(xs + [x], items, today, b) ==
      NormalizeMovements(xs, items, today, b) + MovementsOfRow(x, items, today, b)
  {
    NormalizeMovementsAppend(xs, [x], items, today, b);
    assert [x][1..] == [];
  }

  lemma SkipFailingRow(xs: seq<Row>, bad: Row, ys: seq<Row>, items: seq<ItemRec>, today: ValidDate, b: Builtins)
    requires NormalizeMovement(bad, items, today, b).None?
    ensures NormalizeMovements(xs + [bad] + ys, items, today, b) ==
      NormalizeMovements(xs, items, today, b) + NormalizeMovements(ys, items, today, b)
  {
    var tail := [bad] + ys;
    assert tail[1..] == ys;
    assert NormalizeMovements(tail, items, today, b) == NormalizeMovements(ys, items, today, b);
    assert xs + [bad] + ys == xs + tail;
    NormalizeMovementsAppend(xs, tail, items, today, b);
  }

  // ---------------------------------------------------------------------
  // Transform and load
  // ---------------------------------------------------------------------

  /** Items with a truthy name (`if i.get("name")`), in order. */
  function NamedItems(xs: seq<ItemRec>): (r: seq<ItemRec>)
    ensures |r| <= |xs|
    ensures forall x :: x in r <==> x in xs && x.name != ""
  {
    if xs == [] then []
    else
      assert xs == [xs[0]] + xs[1..];
      (if xs[0].name != "" then [xs[0]] else []) + NamedItems(xs[1..])
  }

  /** Filtering distributes over concatenation. */
  lemma {:induction false} NamedItemsAppend(xs: seq<ItemRec>, ys: seq<ItemRec>)
    ensures NamedItems(xs + ys) == NamedItems(xs) + NamedItems(ys)
  {
    if xs == [] {
      assert xs + ys == ys;
    } else {
      assert (xs + ys)[0] == xs[0];
      assert (xs + ys)[1..] == xs[1..] + ys;
      NamedItemsAppend(xs[1..], ys);
    }
  }

  /**
   * The filter keeps the input order: the last kept item with a name is the
   * last input item with that name.
   */
  lemma {:induction false} NamedItemsLast(xs: seq<ItemRec>, i: int)
    requires IsLastWithKey(NamedItems(xs), i, ItemName)
    ensures exists j :: IsLastWithKey(xs, j, ItemName) && xs[j] == NamedItems(xs)[i]
    decreases |xs|
  {
    var init, x := xs[..|xs| - 1], xs[|xs| - 1];
    assert xs == init + [x];
    NamedItemsAppend(init, [x]);
    assert NamedItems([x]) == (if x.name != "" then [x] else []) by {
      assert [x][1..] == [];
    }
    var named := NamedItems(init);
    if x.name != "" && i == |named| {
      assert IsLastWithKey(xs, |xs| - 1, ItemName);
    } else {
      if x.name != "" {
        LastInPrefix(named, x, i, ItemName);
      } else {
        assert NamedItems(xs) == named + [] == named;
        assert named[i] in NamedItems(init);
      }
      NamedItemsLast(init, i);
      var j :| IsLastWithKey(init, j, ItemName) && init[j] == named[i];
      assert xs[j] == init[j];
      assert IsLastWithKey(xs, j, ItemName);
    }
  }

  /**
   * What `transform` makes of the items: names are non-empty and unique, every
   * non-empty input name is kept, and each kept item is the last input item
   * with its name.
   */
  lemma TransformItems(xs: seq<ItemRec>)
    ensures var r := DedupBy(NamedItems(xs), ItemName);
      && UniqueKeys(r, ItemName)
      && (forall it :: it in r ==> it in xs && it.name != "")
      && (forall it :: it in xs && it.name != "" ==> exists y :: y in r && y.name == it.name)
      && (forall y :: y in r ==> exists j :: IsLastWithKey(xs, j, ItemName) && y == xs[j])
  {
    var named := NamedItems(xs);
    var r := DedupBy(named, ItemName);
    DedupLastWins(named, ItemName);
    forall y | y in r ensures exists j :: IsLastWithKey(xs, j, ItemName) && y == xs[j] {
      var i :| IsLastWithKey(named, i, ItemName) && y == named[i];
      NamedItemsLast(xs, i);
    }
    forall it | it in xs && it.name != "" ensures exists y :: y in r && y.name == it.name {
      assert ItemName(it) in Keys(named, ItemName);
      assert ItemName(it) in Keys(r, ItemName);
    }
  }

  /**
   * The item upserts of the MySQL load (`ON DUPLICATE KEY UPDATE` on the name),
   * applied in order to a table keyed by name.
   */
  function Upsert(table: map<string, ItemRec>, xs: seq<ItemRec>): (r: map<string, ItemRec>)
    ensures r.Keys == table.Keys + Keys(xs, ItemName)
    ensures forall x :: x in xs ==> x.name in r
    decreases |xs|
  {
    if xs == [] then table
    else
      assert xs == [xs[0]] + xs[1..];
      assert Keys(xs, ItemName) == {ItemName(xs[0])} + Keys(xs[1..], ItemName);
      Upsert(table[xs[0].name := xs[0]], xs[1..])
  }

  /** Rows of the table whose name is not loaded are left as they were. */
  lemma {:induction false} UpsertKeepsOthers(table: map<string, ItemRec>, xs: seq<ItemRec>)
    ensures forall k :: k in table && k !in Keys(xs, ItemName) ==> Upsert(table, xs)[k] == table[k]
    decreases |xs|
  {
    if xs != [] {
      var rest := xs[1..];
      assert xs == [xs[0]] + rest;
      assert Keys(xs, ItemName) == {ItemName(xs[0])} + Keys(rest, ItemName);
      UpsertKeepsOthers(table[xs[0].name := xs[0]], rest);
    }
  }

  /** The first row is the last with its name when no later row has that name. */
  lemma FirstIsLast(xs: seq<ItemRec>)
    requires IsLastWithKey(xs, 0, ItemName)
    ensures xs[0].name !in Keys(xs[1..], ItemName)
  {
    var rest := xs[1..];
    forall y | y in rest ensures y.name != xs[0].name {
      var j :| 0 <= j < |rest| && rest[j] == y;
      assert xs[j + 1] == y;
    }
  }

  /** After the upserts each loaded name holds the last loaded row with that name. */
  lemma {:induction false} UpsertLastWins(table: map<string, ItemRec>, xs: seq<ItemRec>)
    ensures forall i :: IsLastWithKey(xs, i, ItemName) ==> Upsert(table, xs)[xs[i].name] == xs[i]
    decreases |xs|
  {
    if xs != [] {
      var t := table[xs[0].name := xs[0]];
      var rest := xs[1..];
      UpsertLastWins(t, rest);
      forall i | IsLastWithKey(xs, i, ItemName) ensures Upsert(table, xs)[xs[i].name] == xs[i] {
        if i == 0 {
          FirstIsLast(xs);
          UpsertKeepsOthers(t, rest);
        } else {
          assert xs[i] == rest[i - 1];
          assert IsLastWithKey(rest, i - 1, ItemName) by {
            forall j | i - 1 < j < |rest| ensures rest[j].name != rest[i - 1].name {
              assert rest[j] == xs[j + 1];
            }
          }
        }
      }
    }
  }

  /** Deduplicating before the upserts changes nothing in the table. */
  lemma UpsertAfterDedup(table: map<string, ItemRec>, xs: seq<ItemRec>)
    ensures Upsert(table, DedupBy(xs, ItemName)) == Upsert(table, xs)
  {
    var d := DedupBy(xs, ItemName);
    var u, v := Upsert(table, d), Upsert(table, xs);
    UpsertLastWins(table, xs);
    UpsertLastWins(table, d);
    UpsertKeepsOthers(table, xs);
    UpsertKeepsOthers(table, d);
    DedupKeepsLast(xs, ItemName);
    forall k | k in u ensures u[k] == v[k] {
      if k in Keys(xs, ItemName) {
        var i := LastIndexOf(xs, k, ItemName);
        assert xs[i] in d;
        var p :| 0 <= p < |d| && d[p] == xs[i];
        assert IsLastWithKey(d, p, ItemName);
      }
    }
  }

  /** The SQLite inserts succeed only when no loaded name is already taken (name is the key). */
  predicate FreshNames(table: map<string, ItemRec>, xs: seq<ItemRec>) {
    && (forall i, j :: 0 <= i < j < |xs| ==> xs[i].name != xs[j].name)
    && (forall x :: x in xs ==> x.name !in table)
  }

  /** The two databases the job can write to, as tables. */
  class Store {
    var items: map<string, ItemRec>
    var movements: seq<MovementRec>

    constructor(items: map<string, ItemRec>, movements: seq<MovementRec>)
      ensures this.items == items && this.movements == movements
    {
      this.items := items;
      this.movements := movements;
    }
  }

  /**
   * The item loop of `_extract_live`: append the conversion of each row; the
   * first row that raises ends the loop, and the items appended so far stay.
   */
  method ConvertItems(rows: seq<Row>, b: Builtins) returns (acc: seq<ItemRec>)
    ensures acc == NormalizeItems(rows, b)
  {
    acc := [];
    var k := 0;
    while k < |rows|
      invariant 0 <= k <= |rows|
      invariant acc + NormalizeItems(rows[k..], b) == NormalizeItems(rows, b)
    {
      var it := NormalizeItem(rows[k], b);
      assert rows[k..] == [rows[k]] + rows[k + 1..];
      if it.None? {
        break;
      }
      acc := acc + [it.value];
      k := k + 1;
    }
  }

  /** The voucher loop of `_extract_live`: a row whose conversion raises is logged and skipped. */
  method ConvertMovements(rows: seq<Row>, items: seq<ItemRec>, today: ValidDate, b: Builtins) returns (acc: seq<MovementRec>)
    ensures acc == NormalizeMovements(rows, items, today, b)
  {
    acc := [];
    var k := 0;
    while k < |rows|
      invariant 0 <= k <= |rows|
      invariant acc == NormalizeMovements(rows[..k], items, today, b)
    {
      var m := NormalizeMovement(rows[k], items, today, b);
      NormalizeMovementsSnoc(rows[..k], rows[k], items, today, b);
      assert rows[..k + 1] == rows[..k] + [rows[k]];
      if m.Some? {
        acc := acc + [m.value];
      }
      k := k + 1;
    }
    assert rows[..k] == rows;
  }

  /** A connection to the accounting system's ODBC driver, with the outcome of each of the three queries. */
  datatype OdbcSession =
    | Session(itemsQuery: QueryOutcome, ledgerQuery: QueryOutcome, voucherQuery: QueryOutcome)
    | ConnectFailed

  datatype LoadOutcome = Loaded | UnknownTarget | IntegrityError

  class Pipeline {
    var target: string
    var companies: seq<Company>
    var items: seq<ItemRec>
    var movements: seq<MovementRec>

    constructor(target: string)
      ensures this.target == target && companies == [] && items == [] && movements == []
    {
      this.target := target;
      companies, items, movements := [], [], [];
    }

    /**
     * `extract` / `_extract_live`. A failed connection raises and changes
     * nothing; a failed query leaves its own field as it was.
     */
    method Extract(session: OdbcSession, today: ValidDate, b: Builtins) returns (connected: bool)
      modifies this
      ensures connected <==> session.Session?
      ensures target == old(target)
      ensures !connected ==> companies == old(companies) && items == old(items) && movements == old(movements)
      ensures connected ==> (items ==
        if session.itemsQuery.Rows? then NormalizeItems(session.itemsQuery.rows, b) else old(items))
      ensures connected ==> (companies ==
        if session.ledgerQuery.Rows? && LedgerCompanies(session.ledgerQuery.rows).Some?
        then LedgerCompanies(session.ledgerQuery.rows).value else old(companies))
      ensures connected ==> (movements ==
        if session.voucherQuery.Rows? then NormalizeMovements(session.voucherQuery.rows, items, today, b)
        else old(movements))
    {
      if session.ConnectFailed? {
        return false;
      }
      connected := true;

      if session.itemsQuery.Rows? {
        items := ConvertItems(session.itemsQuery.rows, b);
      }

      if session.ledgerQuery.Rows? {
        var cs := LedgerCompanies(session.ledgerQuery.rows);
        if cs.Some? {
          companies := cs.value;
        }
      }

      if session.voucherQuery.Rows? {
        movements := ConvertMovements(session.voucherQuery.rows, items, today, b);
      }
    }

    /** `transform`: last-wins deduplication of companies and of named items; movements are untouched. */
    method Transform()
      modifies this
      ensures target == old(target) && movements == old(movements)
      ensures companies == DedupBy(old(companies), CompanyName)
      ensures items == DedupBy(NamedItems(old(items)), ItemName)
    {
      companies := DedupBy(companies, CompanyName);
      items := DedupBy(NamedItems(items), ItemName);
    }

    /**
     * `load`: dispatch on the target. MySQL appends the movements and upserts
     * the items; SQLite appends both and fails with nothing written when a name
     * is already taken; any other target raises and writes nothing. With
     * `reset`, both tables are dropped first (that part is committed at once).
     */
    method Load(store: Store, reset: bool) returns (outcome: LoadOutcome)
      modifies store
      ensures outcome == UnknownTarget <==> target != "mysql" && target != "sqlite"
      ensures outcome == UnknownTarget ==> store.items == old(store.items) && store.movements == old(store.movements)
      ensures target == "mysql" ==> (outcome == Loaded &&
        store.items == Upsert(if reset then map[] else old(store.items), items) &&
        store.movements == (if reset then [] else old(store.movements)) + movements)
      ensures target == "sqlite" ==>
        var base := if reset then map[] else old(store.items);
        var baseMoves := if reset then [] else old(store.movements);
        if FreshNames(base, items) then
          outcome == Loaded && store.items == Upsert(base, items) && store.movements == baseMoves + movements
        else
          outcome == IntegrityError && store.items == base && store.movements == baseMoves
    {
      if target == "mysql" {
        if reset {
          store.items, store.movements := map[], [];
        }
        if movements != [] {
          store.movements := store.movements + movements;
        }
        if items != [] {
          store.items := Upsert(store.items, items);
        }
        outcome := Loaded;
      } else if target == "sqlite" {
        if reset {
          store.items, store.movements := map[], [];
        }
        if FreshNames(store.items, items) {
          store.movements := store.movements + movements;
          store.items := Upsert(store.items, items);
          outcome := Loaded;
        } else {
          outcome := IntegrityError;
        }
      } else {
        outcome := UnknownTarget;
      }
    }
  }
}
