/**
 * `ETLPipeline` of elt_pipeline.py: the same fetch as etl_pipeline.py, but the
 * load inserts row by row and has no empty-guard of its own.
 */
module EltSync {
  import opened SyncTables
  import EtlSync

  class Pipeline {
    var items: seq<FetchedItem>
    var movements: seq<FetchedMovement>

    constructor()
      ensures items == [] && movements == []
    {
      items, movements := [], [];
    }

    /** `extract`: both lists as fetched, or both empty when anything about the fetch fails. */
    method Extract(fetch: FetchOutcome)
      modifies this
      ensures fetch.Fetched? ==> items == fetch.items && movements == fetch.moves
      ensures fetch.FetchFailed? ==> items == [] && movements == []
    {
      if fetch.FetchFailed? {
        items, movements := [], [];
      } else {
        items, movements := fetch.items, fetch.moves;
      }
    }

    /**
     * `load`: always a truncate-and-reload, so with both lists empty it leaves
     * both tables empty. A database error is logged, not raised.
     */
    method Load(db: Tables, fault: LoadFault)
      modifies db
      ensures db.Snap() == Reload(old(db.Snap()), items, movements, fault)
    {
      if fault.ConnectFails? {
        return;
      }
      if fault.ItemsTruncateFails? {
        return;
      }
      db.stockItems := [];
      if fault.MovementsTruncateFails? {
        return;
      }
      db.stockMovements := [];
      var k := 0;
      while k < |items|
        invariant 0 <= k <= |items|
        invariant !FailsWithin(fault, k)
        invariant db.stockMovements == []
        invariant |db.stockItems| == k
        invariant forall j :: 0 <= j < k ==> db.stockItems[j] == ItemRowOf(items[j])
      {
        if fault == RowFails(k) {
          // the uncommitted rows are rolled back; the truncation stays
          db.stockItems := [];
          return;
        }
        db.stockItems := db.stockItems + [ItemRowOf(items[k])];
        k := k + 1;
      }
      assert db.stockItems == ItemRows(items);
      k := 0;
      while k < |movements|
        invariant 0 <= k <= |movements|
        invariant !FailsWithin(fault, |items| + k)
        invariant db.stockItems == ItemRows(items)
        invariant |db.stockMovements| == k
        invariant forall j :: 0 <= j < k ==> db.stockMovements[j] == MovementRowOf(movements[j])
      {
        if fault == RowFails(|items| + k) {
          db.stockItems, db.stockMovements := [], [];
          return;
        }
        db.stockMovements := db.stockMovements + [MovementRowOf(movements[k])];
        k := k + 1;
      }
      assert db.stockMovements == MovementRows(movements);
    }

    /** `run_once`: extract, then load only when something was extracted. */
    method RunOnce(fetch: FetchOutcome, db: Tables, fault: LoadFault)
      modifies this, db
      ensures fetch.Fetched? ==> items == fetch.items && movements == fetch.moves
      ensures fetch.FetchFailed? ==> items == [] && movements == []
      ensures items == [] && movements == [] ==> unchanged(db)
      ensures items != [] || movements != [] ==> db.Snap() == Reload(old(db.Snap()), items, movements, fault)
    {
      Extract(fetch);
      if items != [] || movements != [] {
        Load(db, fault);
      }
    }
  }

  /**
   * The one behavioural difference between the two jobs: called directly with
   * nothing to load, the batch job leaves the tables as they were, and the
   * row-by-row job empties them.
   */
  method EmptyLoadDiffers(rows: seq<ItemRow>, moves: seq<MovementRow>) returns (batch: Snapshot, rowByRow: Snapshot)
    ensures batch == Snapshot(rows, moves)
    ensures rowByRow == Snapshot([], [])
  {
    var e := new EtlSync.Pipeline();
    var db1 := new Tables(rows, moves);
    e.Load(db1, NoFault);
    batch := db1.Snap();
    var r := new Pipeline();
    var db2 := new Tables(rows, moves);
    r.Load(db2, NoFault);
    rowByRow := db2.Snap();
  }

  /**
   * Through `run_once` the difference disappears: from the same tables, the
   * same fetch and the same database behaviour, both jobs end with the same
   * fields and the same tables.
   */
  method RunOnceAgree(fetch: FetchOutcome, rows: seq<ItemRow>, moves: seq<MovementRow>, fault: LoadFault)
    returns (batch: Snapshot, rowByRow: Snapshot)
    ensures batch == rowByRow
    ensures fetch.FetchFailed? || fetch == Fetched([], []) ==> batch == Snapshot(rows, moves)
  {
    var e := new EtlSync.Pipeline();
    var db1 := new Tables(rows, moves);
    e.RunOnce(fetch, db1, fault);
    batch := db1.Snap();
    var r := new Pipeline();
    var db2 := new Tables(rows, moves);
    r.RunOnce(fetch, db2, fault);
    rowByRow := db2.Snap();
  }
}
