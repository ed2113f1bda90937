/** internal/models/journal.go: the `journals` table. Lists come back newest
    first (ORDER BY created_at DESC), a NULL content reads as "", and deleting
    an id with no row is reported. The clock behind CURRENT_TIMESTAMP is the
    caller-supplied `now`. */
module Journals {
  import opened Common

  /** A stored row; content admits NULL. */
  datatype JournalRow = JournalRow(title: string, content: Option<string>, journalType: string, createdAt: int, updatedAt: int)

  /** models.Journal. */
  datatype Journal = Journal(id: int, title: string, content: string, journalType: string, createdAt: int, updatedAt: int)

  /** The Journal scanned from the row with this id. */
  function JournalOf(rows: map<int, JournalRow>, id: int): (j: Journal)
    requires id in rows
    ensures j.id == id && j.title == rows[id].title && j.journalType == rows[id].journalType
    ensures j.content == TextOrEmpty(rows[id].content)
    ensures j.createdAt == rows[id].createdAt && j.updatedAt == rows[id].updatedAt
  {
    var row := rows[id];
    Journal(id, row.title, TextOrEmpty(row.content), row.journalType, row.createdAt, row.updatedAt)
  }

  function JournalIds(js: seq<Journal>): (ids: seq<int>)
    ensures |ids| == |js| && forall i :: 0 <= i < |js| ==> ids[i] == js[i].id
  {
    seq(|js|, i requires 0 <= i < |js| => js[i].id)
  }

  /** ORDER BY created_at DESC. */
  predicate NewestFirst(js: seq<Journal>) {
    forall i, k :: 0 <= i < k < |js| ==> js[i].createdAt >= js[k].createdAt
  }

  predicate DistinctIds(js: seq<Journal>) {
    forall i, k :: 0 <= i < k < |js| ==> js[i].id != js[k].id
  }

  /** The WHERE clause: no filter, or journal_type = t. */
  predicate OfType(row: JournalRow, journalType: Option<string>) {
    journalType.None? || row.journalType == journalType.value
  }

  /** j is the scan of a stored row that the filter selects. */
  predicate Listed(rows: map<int, JournalRow>, journalType: Option<string>, j: Journal) {
    j.id in rows && j == JournalOf(rows, j.id) && OfType(rows[j.id], journalType)
  }

  /** Places j into a newest-first list after every entry at least as new. */
  function InsertByDate(js: seq<Journal>, j: Journal): (r: seq<Journal>)
    requires NewestFirst(js)
    ensures NewestFirst(r)
    ensures |r| == |js| + 1
    ensures forall x :: x in r <==> x in js || x == j
    ensures DistinctIds(js) && (forall i :: 0 <= i < |js| ==> js[i].id != j.id) ==> DistinctIds(r)
  {
    if |js| == 0 || j.createdAt >= js[0].createdAt then
      InsertedFirst(js, j);
      [j] + js
    else
      var rest := InsertByDate(js[1..], j);
      NewerThanRest(js, j, rest);
      [js[0]] + rest
  }

  /** j at least as new as the head of a newest-first list can go first. */
  lemma InsertedFirst(js: seq<Journal>, j: Journal)
    requires NewestFirst(js) && (|js| == 0 || j.createdAt >= js[0].createdAt)
    ensures NewestFirst([j] + js)
    ensures DistinctIds(js) && (forall i :: 0 <= i < |js| ==> js[i].id != j.id) ==> DistinctIds([j] + js)
  {
    var r := [j] + js;
    assert forall k :: 1 <= k < |r| ==> r[k] == js[k - 1];
  }

  /** The head of a newest-first list that j does not go before stays ahead
      of everything the rest becomes, and keeps its id apart from it. */
  lemma NewerThanRest(js: seq<Journal>, j: Journal, rest: seq<Journal>)
    requires NewestFirst(js) && |js| > 0 && j.createdAt < js[0].createdAt
    requires forall x :: x in rest <==> x in js[1..] || x == j
    requires NewestFirst(rest)
    requires DistinctIds(js[1..]) && (forall i :: 0 <= i < |js[1..]| ==> js[1..][i].id != j.id) ==> DistinctIds(rest)
    ensures NewestFirst([js[0]] + rest)
    ensures forall x :: x in [js[0]] + rest <==> x in js || x == j
    ensures DistinctIds(js) && (forall i :: 0 <= i < |js| ==> js[i].id != j.id) ==> DistinctIds([js[0]] + rest)
  {
    assert js == [js[0]] + js[1..];
    BelowHead(js, j, rest);
    AheadOfAll(js[0], rest);
    if DistinctIds(js) && (forall i :: 0 <= i < |js| ==> js[i].id != j.id) {
      assert forall i :: 0 <= i < |js[1..]| ==> js[1..][i] == js[i + 1];
      ApartFromAll(js[0], rest);
    }
  }

  /** Everything the rest holds is no newer than the head, and, when the ids
      are distinct and j's is new, has an id other than the head's. */
  lemma BelowHead(js: seq<Journal>, j: Journal, rest: seq<Journal>)
    requires NewestFirst(js) && |js| > 0 && j.createdAt < js[0].createdAt
    requires forall x :: x in rest <==> x in js[1..] || x == j
    ensures forall x :: x in rest ==> js[0].createdAt >= x.createdAt
    ensures DistinctIds(js) && (forall i :: 0 <= i < |js| ==> js[i].id != j.id) ==> forall x :: x in rest ==> js[0].id != x.id
  {
    forall x | x in rest && x != j ensures js[0].createdAt >= x.createdAt && (DistinctIds(js) ==> js[0].id != x.id) {
      var p :| 0 <= p < |js[1..]| && js[1..][p] == x;
      assert js[p + 1] == x;
    }
  }

  lemma AheadOfAll(h: Journal, rest: seq<Journal>)
    requires NewestFirst(rest) && forall x :: x in rest ==> h.createdAt >= x.createdAt
    ensures NewestFirst([h] + rest)
  {
    var r := [h] + rest;
    assert forall k :: 1 <= k < |r| ==> r[k] == rest[k - 1];
  }

  lemma ApartFromAll(h: Journal, rest: seq<Journal>)
    requires DistinctIds(rest) && forall x :: x in rest ==> h.id != x.id
    ensures DistinctIds([h] + rest)
  {
    var r := [h] + rest;
    assert forall k :: 1 <= k < |r| ==> r[k] == rest[k - 1];
  }

  /** The id scanned at position i is none of the ids already collected. */
  lemma FreshId(journals: seq<Journal>, ids: seq<int>, i: int)
    requires 0 <= i < |ids|
    requires forall p, q :: 0 <= p < q < |ids| ==> ids[p] != ids[q]
    requires forall m :: 0 <= m < |journals| ==> journals[m].id in ids[..i]
    ensures forall m :: 0 <= m < |journals| ==> journals[m].id != ids[i]
  {
    forall m | 0 <= m < |journals| ensures journals[m].id != ids[i] {
      var p :| 0 <= p < i && ids[p] == journals[m].id;
    }
  }

  /** Adding the journal of ids[i] keeps the collected list exactly the
      selected rows among ids[..i + 1]. */
  lemma StillListed(rows: map<int, JournalRow>, journalType: Option<string>, journals: seq<Journal>, j: Journal, next: seq<Journal>, ids: seq<int>, i: int)
    requires 0 <= i < |ids| && ids[i] in rows && j == JournalOf(rows, ids[i]) && OfType(rows[ids[i]], journalType)
    requires forall x :: x in next <==> x in journals || x == j
    requires forall m :: 0 <= m < |journals| ==> Listed(rows, journalType, journals[m]) && journals[m].id in ids[..i]
    requires forall p :: 0 <= p < |ids| ==> ids[p] in rows
    requires forall p :: 0 <= p < i && OfType(rows[ids[p]], journalType) ==> ids[p] in JournalIds(journals)
    ensures forall m :: 0 <= m < |next| ==> Listed(rows, journalType, next[m]) && next[m].id in ids[..i + 1]
    ensures forall p :: 0 <= p < i + 1 && OfType(rows[ids[p]], journalType) ==> ids[p] in JournalIds(next)
  {
    assert ids[..i + 1] == ids[..i] + [ids[i]];
    forall m | 0 <= m < |next| ensures Listed(rows, journalType, next[m]) && next[m].id in ids[..i + 1] {
      assert next[m] in next;
      if next[m] != j {
        var q :| 0 <= q < |journals| && journals[q] == next[m];
      }
    }
    forall p | 0 <= p < i + 1 && OfType(rows[ids[p]], journalType) ensures ids[p] in JournalIds(next) {
      if p < i {
        var m :| 0 <= m < |journals| && journals[m].id == ids[p];
        assert journals[m] in next;
        var q :| 0 <= q < |next| && next[q] == journals[m];
        assert JournalIds(next)[q] == ids[p];
      } else {
        assert j in next;
        var q :| 0 <= q < |next| && next[q] == j;
        assert JournalIds(next)[q] == ids[p];
      }
    }
  }

  class JournalStore {
    var rows: map<int, JournalRow>
    var nextId: int

    ghost predicate Valid()
      reads this
    {
      1 <= nextId && forall k :: k in rows ==> 1 <= k < nextId
    }

    constructor ()
      ensures Valid() && rows == map[] && nextId == 1
    {
      rows, nextId := map[], 1;
    }

    /** The query both list operations run: the rows the filter selects,
        each once, newest first. */
    method Query(journalType: Option<string>, fault: Fault) returns (r: Result<seq<Journal>>)
      requires Valid()
      ensures r.Err? <==> fault == FailAt(0)
      ensures r.Err? ==> r.error == IoError
      ensures r.Ok? ==> NewestFirst(r.value) && DistinctIds(r.value)
      ensures r.Ok? ==> forall i :: 0 <= i < |r.value| ==> Listed(rows, journalType, r.value[i])
      ensures r.Ok? ==> forall k :: k in rows && OfType(rows[k], journalType) ==> k in JournalIds(r.value)
    {
      if fault == FailAt(0) {
        return Err(IoError);
      }
      var ids := ScanIds(rows, nextId);
      var journals: seq<Journal> := [];
      var i := 0;
      while i < |ids|
        invariant 0 <= i <= |ids|
        invariant NewestFirst(journals) && DistinctIds(journals)
        invariant forall m :: 0 <= m < |journals| ==> Listed(rows, journalType, journals[m]) && journals[m].id in ids[..i]
        invariant forall p :: 0 <= p < i && OfType(rows[ids[p]], journalType) ==> ids[p] in JournalIds(journals)
      {
        var k := ids[i];
        if OfType(rows[k], journalType) {
          var j := JournalOf(rows, k);
          FreshId(journals, ids, i);
          var next := InsertByDate(journals, j);
          StillListed(rows, journalType, journals, j, next, ids, i);
          journals := next;
        } else {
          assert ids[..i + 1] == ids[..i] + [k];
        }
        i := i + 1;
      }
      return Ok(journals);
    }

    /** GetAllJournals(): every journal once, newest first. */
    method GetAllJournals(fault: Fault) returns (r: Result<seq<Journal>>)
      requires Valid()
      ensures r.Err? <==> fault == FailAt(0)
      ensures r.Ok? ==> NewestFirst(r.value) && DistinctIds(r.value)
      ensures r.Ok? ==> forall i :: 0 <= i < |r.value| ==> Listed(rows, None, r.value[i])
      ensures r.Ok? ==> forall k :: k in rows ==> k in JournalIds(r.value)
    {
      r := Query(None, fault);
    }

    /** GetJournalsByType(t): exactly the journals of type t, each once,
        newest first. */
    method GetJournalsByType(journalType: string, fault: Fault) returns (r: Result<seq<Journal>>)
      requires Valid()
      ensures r.Err? <==> fault == FailAt(0)
      ensures r.Ok? ==> NewestFirst(r.value) && DistinctIds(r.value)
      ensures r.Ok? ==> forall i :: 0 <= i < |r.value| ==> r.value[i].journalType == journalType && Listed(rows, None, r.value[i])
      ensures r.Ok? ==> forall k :: k in rows && rows[k].journalType == journalType ==> k in JournalIds(r.value)
    {
      r := Query(Some(journalType), fault);
    }

    /** GetJournal(id): the row with that id, or sql.ErrNoRows. */
    method GetJournal(id: int, fault: Fault) returns (r: Result<Journal>)
      requires Valid()
      ensures fault == FailAt(0) ==> r == Err(IoError)
      ensures fault != FailAt(0) ==> (r.Ok? <==> id in rows)
      ensures fault != FailAt(0) && id !in rows ==> r == Err(NoRows)
      ensures r.Ok? ==> r.value.id == id && id in rows && r.value == JournalOf(rows, id)
    {
      if fault == FailAt(0) {
        return Err(IoError);
      }
      if id !in rows {
        return Err(NoRows);
      }
      return Ok(JournalOf(rows, id));
    }

    /** CreateJournal(title, content, journalType): a new row under a fresh
        id, stamped `now` on both timestamps. */
    method CreateJournal(title: string, content: string, journalType: string, now: int, fault: Fault)
      returns (id: int, err: Option<StoreError>)
      requires Valid()
      modifies this
      ensures Valid()
      ensures fault == FailAt(0) ==> id == 0 && err == Some(IoError) && rows == old(rows) && nextId == old(nextId)
      ensures fault != FailAt(0) ==>
        && id == old(nextId) && err == None && id !in old(rows)
        && rows == old(rows)[id := JournalRow(title, Some(content), journalType, now, now)]
        && nextId == old(nextId) + 1
    {
      if fault == FailAt(0) {
        return 0, Some(IoError);
      }
      id := nextId;
      rows := rows[id := JournalRow(title, Some(content), journalType, now, now)];
      nextId := nextId + 1;
      err := None;
    }

    /** UpdateJournal(id, ...): overwrites title, content and type and sets
        updated_at; an id without a row is not an error and changes nothing. */
    method UpdateJournal(id: int, title: string, content: string, journalType: string, now: int, fault: Fault)
      returns (err: Option<StoreError>)
      requires Valid()
      modifies this
      ensures Valid() && nextId == old(nextId)
      ensures fault == FailAt(0) ==> err == Some(IoError) && rows == old(rows)
      ensures fault != FailAt(0) ==> err == None
      ensures fault != FailAt(0) && id in old(rows) ==>
        rows == old(rows)[id := JournalRow(title, Some(content), journalType, old(rows)[id].createdAt, now)]
      ensures id !in old(rows) ==> rows == old(rows)
    {
      if fault == FailAt(0) {
        return Some(IoError);
      }
      if id in rows {
        rows := rows[id := JournalRow(title, Some(content), journalType, rows[id].createdAt, now)];
      }
      return None;
    }

    /** DeleteJournal(id): removes the row; no row affected is an error. */
    method DeleteJournal(id: int, fault: Fault) returns (err: Option<StoreError>)
      requires Valid()
      modifies this
      ensures Valid() && nextId == old(nextId)
      ensures fault == FailAt(0) ==> err == Some(IoError) && rows == old(rows)
      ensures fault != FailAt(0) ==> rows == old(rows) - {id}
      ensures fault != FailAt(0) ==> err == (if id in old(rows) then None else Some(NothingDeleted))
    {
      if fault == FailAt(0) {
        return Some(IoError);
      }
      var found := id in rows;
      rows := rows - {id};
      if !found {
        return Some(NothingDeleted);
      }
      return None;
    }
  }

  /** A journal read back right after it was created carries what was
      written. */
  method CreateThenGet(store: JournalStore, title: string, content: string, journalType: string, now: int)
    returns (r: Result<Journal>)
    requires store.Valid()
    modifies store
    ensures r.Ok?
    ensures r.value.title == title && r.value.content == content && r.value.journalType == journalType
    ensures r.value.createdAt == now && r.value.updatedAt == now
  {
    var id, err := store.CreateJournal(title, content, journalType, now, NoFault);
    r := store.GetJournal(id, NoFault);
  }

  /** Deleting twice: success, then an error. */
  method DeleteTwice(store: JournalStore, id: int) returns (first: Option<StoreError>, second: Option<StoreError>)
    requires store.Valid() && id in store.rows
    modifies store
    ensures first == None && second == Some(NothingDeleted)
  {
    first := store.DeleteJournal(id, NoFault);
    second := store.DeleteJournal(id, NoFault);
  }
}
