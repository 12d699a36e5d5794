/**
 * `ETLPipeline` of etl_pipeline.py: fetch both lists from the gateway, then
 * truncate the two MySQL tables and refill them with one batch INSERT each.
 */
module EtlSync {
  import opened SyncTables

  class Pipeline {
    var items: seq<FetchedItem>
    var movements: seq<FetchedMovement>

    constructor()
      ensures items == [] && movements == []
    {
      items, movements := [], [];
    }

    /** `extract`: both lists as fetched, or both empty when anything about the fetch fails. */
    method Extract(fetch: FetchOutcome)
      modifies this
      ensures fetch.Fetched? ==> items == fetch.items && movements == fetch.moves
      ensures fetch.FetchFailed? ==> items == [] && movements == []
    {
      if fetch.FetchFailed? {
        items, movements := [], [];
      } else {
        items, movements := fetch.items, fetch.moves;
      }
    }

    /**
     * `load`: with nothing to load, the tables are not touched; otherwise a
     * truncate-and-reload. A database error is logged, not raised.
     */
    method Load(db: Tables, fault: LoadFault)
      modifies db
      ensures items == [] && movements == [] ==> unchanged(db)
      ensures items != [] || movements != [] ==> db.Snap() == Reload(old(db.Snap()), items, movements, fault)
    {
      if items == [] && movements == [] {
        return;
      }
      if fault.ConnectFails? {
        return;
      }
      if fault.ItemsTruncateFails? {
        return;
      }
      db.stockItems := [];
      if fault.MovementsTruncateFails? {
        return;
      }
      db.stockMovements := [];
      if items != [] {
        if FailsWithin(fault, |items|) {
          return;
        }
        db.stockItems := ItemRows(items);
      }
      if movements != [] {
        if FailsWithin(fault, |items| + |movements|) {
          // the uncommitted item rows are rolled back
          db.stockItems := [];
          return;
        }
        db.stockMovements := MovementRows(movements);
      }
    }

    /** `run_once`: extract, then load only when something was extracted. */
    method RunOnce(fetch: FetchOutcome, db: Tables, fault: LoadFault)
      modifies this, db
      ensures fetch.Fetched? ==> items == fetch.items && movements == fetch.moves
      ensures fetch.FetchFailed? ==> items == [] && movements == []
      ensures items == [] && movements == [] ==> unchanged(db)
      ensures items != [] || movements != [] ==> db.Snap() == Reload(old(db.Snap()), items, movements, fault)
    {
      Extract(fetch);
      if items != [] || movements != [] {
        Load(db, fault);
      }
    }
  }
}
