/** internal/models/behaviour.go: the `behaviours` table, listed with the
    name of the aim each behaviour conflicts with (a LEFT JOIN on the `aims`
    table of internal/models/aim.go). */
module Behaviours {
  import opened Common
  import Graph

  datatype BehaviourRow = BehaviourRow(name: string, description: string, mark: string, conflictingAimId: int)

  /** models.Behaviour. */
  datatype Behaviour = Behaviour(id: int, name: string, description: string, mark: string,
                                 conflictingAimID: int, conflictingAimName: string)

  /** The joined row of behaviour id when its aim exists. */
  function BehaviourOf(rows: map<int, BehaviourRow>, aims: map<int, Graph.NodeRow>, id: int): (b: Behaviour)
    requires id in rows && rows[id].conflictingAimId in aims
    ensures b.id == id && b.name == rows[id].name && b.description == rows[id].description && b.mark == rows[id].mark
    ensures b.conflictingAimID == rows[id].conflictingAimId && b.conflictingAimName == aims[b.conflictingAimID].name
  {
    var row := rows[id];
    Behaviour(id, row.name, row.description, row.mark, row.conflictingAimId, aims[row.conflictingAimId].name)
  }

  function BehaviourIds(bs: seq<Behaviour>): (ids: seq<int>)
    ensures |ids| == |bs| && forall i :: 0 <= i < |bs| ==> ids[i] == bs[i].id
  {
    seq(|bs|, i requires 0 <= i < |bs| => bs[i].id)
  }

  /** Every behaviour names an aim that exists, so the LEFT JOIN produces no
      NULL name. */
  predicate AimsPresent(rows: map<int, BehaviourRow>, aims: map<int, Graph.NodeRow>) {
    forall k :: k in rows ==> rows[k].conflictingAimId in aims
  }

  /** A list that holds every stored behaviour exactly once, joined to the
      name of its aim. */
  predicate AllBehaviours(rows: map<int, BehaviourRow>, aims: map<int, Graph.NodeRow>, bs: seq<Behaviour>) {
    && (forall i :: 0 <= i < |bs| ==>
         var id := bs[i].id; id in rows && rows[id].conflictingAimId in aims && bs[i] == BehaviourOf(rows, aims, id))
    && (forall k :: k in rows ==> k in BehaviourIds(bs))
    && (forall i, j :: 0 <= i < j < |bs| ==> bs[i].id != bs[j].id)
  }

  class BehaviourStore {
    var rows: map<int, BehaviourRow>
    var nextId: int

    ghost predicate Valid()
      reads this
    {
      1 <= nextId && forall k :: k in rows ==> 1 <= k < nextId
    }

    constructor ()
      ensures Valid() && rows == map[] && nextId == 1
    {
      rows, nextId := map[], 1;
    }

    /** CreateBehaviour(name, description, mark, conflictingAimID): a new row
        under a fresh id; the aim is not checked. */
    method CreateBehaviour(name: string, description: string, mark: string, conflictingAimID: int, fault: Fault)
      returns (id: int, err: Option<StoreError>)
      requires Valid()
      modifies this
      ensures Valid()
      ensures fault == FailAt(0) ==> id == 0 && err == Some(IoError) && rows == old(rows) && nextId == old(nextId)
      ensures fault != FailAt(0) ==>
        && id == old(nextId) && err == None && id !in old(rows)
        && rows == old(rows)[id := BehaviourRow(name, description, mark, conflictingAimID)]
        && nextId == old(nextId) + 1
    {
      if fault == FailAt(0) {
        return 0, Some(IoError);
      }
      id := nextId;
      rows := rows[id := BehaviourRow(name, description, mark, conflictingAimID)];
      nextId := nextId + 1;
      err := None;
    }

    /** GetAllBehaviours(): one entry per behaviour with the name of its aim.
        A behaviour whose aim is gone joins to a NULL name, which cannot be
        scanned into a string, and the whole list fails. */
    method GetAllBehaviours(aims: map<int, Graph.NodeRow>, fault: Fault) returns (r: Result<seq<Behaviour>>)
      requires Valid()
      ensures fault == FailAt(0) ==> r == Err(IoError)
      ensures fault != FailAt(0) ==> (r.Ok? <==> AimsPresent(rows, aims))
      ensures fault != FailAt(0) && !AimsPresent(rows, aims) ==> r == Err(NullScan)
      ensures r.Ok? ==> AllBehaviours(rows, aims, r.value)
    {
      if fault == FailAt(0) {
        return Err(IoError);
      }
      var ids := ScanIds(rows, nextId);
      var behaviours: seq<Behaviour> := [];
      var i := 0;
      while i < |ids|
        invariant 0 <= i <= |ids|
        invariant BehaviourIds(behaviours) == ids[..i]
        invariant forall m :: 0 <= m < i ==> rows[ids[m]].conflictingAimId in aims
        invariant forall m :: 0 <= m < |behaviours| ==>
          var id := behaviours[m].id; id in rows && rows[id].conflictingAimId in aims && behaviours[m] == BehaviourOf(rows, aims, id)
      {
        if rows[ids[i]].conflictingAimId !in aims {
          return Err(NullScan);
        }
        var b := BehaviourOf(rows, aims, ids[i]);
        assert BehaviourIds(behaviours + [b]) == BehaviourIds(behaviours) + [b.id];
        assert ids[..i + 1] == ids[..i] + [ids[i]];
        behaviours := behaviours + [b];
        i := i + 1;
      }
      assert ids[..i] == ids;
      r := Ok(behaviours);
    }

    /** DeleteBehaviour(id): removes only that row; an id without a row is
        not an error. */
    method DeleteBehaviour(id: int, fault: Fault) returns (err: Option<StoreError>)
      requires Valid()
      modifies this
      ensures Valid() && nextId == old(nextId)
      ensures fault == FailAt(0) ==> err == Some(IoError) && rows == old(rows)
      ensures fault != FailAt(0) ==> err == None && rows == old(rows) - {id}
    {
      if fault == FailAt(0) {
        return Some(IoError);
      }
      rows := rows - {id};
      return None;
    }
  }
}
