/** internal/models/statement.go: the `statements` table, content with a
    priority. Deleting an id that has no row is not an error. */
module Statements {
  import opened Common

  datatype StatementRow = StatementRow(content: string, priority: int)

  /** models.Statement. */
  datatype Statement = Statement(id: int, content: string, priority: int)

  function StatementOf(rows: map<int, StatementRow>, id: int): (s: Statement)
    requires id in rows
    ensures s.id == id && s.content == rows[id].content && s.priority == rows[id].priority
  {
    Statement(id, rows[id].content, rows[id].priority)
  }

  function StatementIds(ss: seq<Statement>): (ids: seq<int>)
    ensures |ids| == |ss| && forall i :: 0 <= i < |ss| ==> ids[i] == ss[i].id
  {
    seq(|ss|, i requires 0 <= i < |ss| => ss[i].id)
  }

  /** A list that holds every stored statement exactly once, as scanned. */
  predicate AllStatements(rows: map<int, StatementRow>, ss: seq<Statement>) {
    && (forall i :: 0 <= i < |ss| ==> ss[i].id in rows && ss[i] == StatementOf(rows, ss[i].id))
    && (forall k :: k in rows ==> k in StatementIds(ss))
    && (forall i, j :: 0 <= i < j < |ss| ==> ss[i].id != ss[j].id)
  }

  class StatementStore {
    var rows: map<int, StatementRow>
    var nextId: int

    ghost predicate Valid()
      reads this
    {
      1 <= nextId && forall k :: k in rows ==> 1 <= k < nextId
    }

    constructor ()
      ensures Valid() && rows == map[] && nextId == 1
    {
      rows, nextId := map[], 1;
    }

    /** CreateStatement(content, priority): a new row under a fresh id. */
    method CreateStatement(content: string, priority: int, fault: Fault) returns (id: int, err: Option<StoreError>)
      requires Valid()
      modifies this
      ensures Valid()
      ensures fault == FailAt(0) ==> id == 0 && err == Some(IoError) && rows == old(rows) && nextId == old(nextId)
      ensures fault != FailAt(0) ==>
        && id == old(nextId) && err == None && id !in old(rows)
        && rows == old(rows)[id := StatementRow(content, priority)]
        && nextId == old(nextId) + 1
    {
      if fault == FailAt(0) {
        return 0, Some(IoError);
      }
      id := nextId;
      rows := rows[id := StatementRow(content, priority)];
      nextId := nextId + 1;
      err := None;
    }

    /** GetAllStatements(): every statement exactly once, with its content
        and priority. */
    method GetAllStatements(fault: Fault) returns (r: Result<seq<Statement>>)
      requires Valid()
      ensures r.Err? <==> fault == FailAt(0)
      ensures r.Err? ==> r.error == IoError
      ensures r.Ok? ==> AllStatements(rows, r.value)
    {
      if fault == FailAt(0) {
        return Err(IoError);
      }
      var ids := ScanIds(rows, nextId);
      var statements: seq<Statement> := [];
      var i := 0;
      while i < |ids|
        invariant 0 <= i <= |ids|
        invariant StatementIds(statements) == ids[..i]
        invariant forall m :: 0 <= m < |statements| ==> statements[m].id in rows && statements[m] == StatementOf(rows, statements[m].id)
      {
        var s := StatementOf(rows, ids[i]);
        assert StatementIds(statements + [s]) == StatementIds(statements) + [s.id];
        assert ids[..i + 1] == ids[..i] + [ids[i]];
        statements := statements + [s];
        i := i + 1;
      }
      assert ids[..i] == ids;
      r := Ok(statements);
    }

    /** DeleteStatement(id): removes only that row; an id without a row is
        not an error. */
    method DeleteStatement(id: int, fault: Fault) returns (err: Option<StoreError>)
      requires Valid()
      modifies this
      ensures Valid() && nextId == old(nextId)
      ensures fault == FailAt(0) ==> err == Some(IoError) && rows == old(rows)
      ensures fault != FailAt(0) ==> err == None && rows == old(rows) - {id}
    {
      if fault == FailAt(0) {
        return Some(IoError);
      }
      rows := rows - {id};
      return None;
    }
  }
}
