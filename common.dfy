/** Result and failure types shared by every store of the model, and the
    unordered table scan that the stores' list queries are built on. */
module Common {

  datatype Option<+T> = None | Some(value: T)

  /** Why a store call failed. */
  datatype StoreError =
    | IoError         // the database driver reported a failure
    | NoRows          // a single-row query matched nothing (sql.ErrNoRows)
    | NothingDeleted  // a DELETE matched no row and the operation reports it
    | NullScan        // a NULL column was scanned into a plain Go string
    | BadQuery        // the SQL text does not parse, so preparing it fails

  datatype Result<+T> = Ok(value: T) | Err(error: StoreError)

  /** The stand-in for the driver's I/O errors. An operation issues its SQL
      statements one after the other; FailAt(k) makes the k-th of them
      (counting from 0) fail, and a step the operation never reaches has no
      effect. NoFault lets every statement succeed. */
  datatype Fault = NoFault | FailAt(step: nat)

  /** Reading a nullable TEXT column through sql.NullString and taking its
      `.String`: NULL becomes the empty string. */
  function TextOrEmpty(s: Option<string>): string
  {
    match s
    case Some(x) => x
    case None => ""
  }

  /** The ids of a table in the order a SELECT without ORDER BY returns
      them: each stored id exactly once. SQL leaves that order open; the scan
      below walks the id range upwards, as SQLite walks a rowid table, and
      its contract promises no order. Every id of a table lies in
      [1, limit). */
  method ScanIds<R>(table: map<int, R>, limit: int) returns (ids: seq<int>)
    requires forall k :: k in table ==> 1 <= k < limit
    ensures forall i :: 0 <= i < |ids| ==> ids[i] in table
    ensures forall k :: k in table ==> k in ids
    ensures forall i, j :: 0 <= i < j < |ids| ==> ids[i] != ids[j]
  {
    ids := [];
    var k := 1;
    while k < limit
      invariant forall i :: 0 <= i < |ids| ==> ids[i] in table && ids[i] < k
      invariant forall x :: x in table && x < k ==> x in ids
      invariant forall i, j :: 0 <= i < j < |ids| ==> ids[i] < ids[j]
    {
      if k in table {
        ids := ids + [k];
      }
      k := k + 1;
    }
  }
}
