/** internal/models/value.go: the older variant of the value graph, over the
    `values` table and the `value_parents` edge table. Descriptions keep
    their NULL, and deleting an id that has no row is not an error. */
module Values {
  import opened Common
  import opened Graph
  import Strconv

  /** models.Value. The three queries fill only ID, Name and Description;
      ParentIDs keeps its zero value. */
  datatype Value = Value(id: int, name: string, description: Option<string>, parentIDs: seq<int>)

  /** The Value scanned from the row of node id: the nullable description is
      kept as it is stored. */
  function ValueOf(nodes: map<int, NodeRow>, id: int): (a: Value)
    requires id in nodes
    ensures a.id == id && a.name == nodes[id].name
    ensures a.description == nodes[id].description
    ensures a.parentIDs == []
  {
    Value(id, nodes[id].name, nodes[id].description, [])
  }

  function ValueIds(xs: seq<Value>): (ids: seq<int>)
    ensures |ids| == |xs| && forall i :: 0 <= i < |xs| ==> ids[i] == xs[i].id
  {
    seq(|xs|, i requires 0 <= i < |xs| => xs[i].id)
  }

  /** Every entry is the scan of the node row it names. */
  predicate Scanned(nodes: map<int, NodeRow>, xs: seq<Value>) {
    forall i :: 0 <= i < |xs| ==> xs[i].id in nodes && xs[i] == ValueOf(nodes, xs[i].id)
  }

  /** A list that holds every stored node exactly once, as scanned. */
  predicate AllValues(nodes: map<int, NodeRow>, xs: seq<Value>) {
    && Scanned(nodes, xs)
    && (forall k :: k in nodes ==> k in ValueIds(xs))
    && (forall i, j :: 0 <= i < j < |xs| ==> xs[i].id != xs[j].id)
  }

  /** Appending the scan of a stored row keeps a list scanned and adds
      that row's id at the end. */
  lemma ScannedAppend(nodes: map<int, NodeRow>, xs: seq<Value>, id: int)
    requires id in nodes && Scanned(nodes, xs)
    ensures ValueIds(xs + [ValueOf(nodes, id)]) == ValueIds(xs) + [id]
    ensures Scanned(nodes, xs + [ValueOf(nodes, id)])
  {
    var ys := xs + [ValueOf(nodes, id)];
    assert forall i :: 0 <= i < |xs| ==> ys[i] == xs[i];
  }

  class ValueStore {
    var nodes: map<int, NodeRow>
    var edges: seq<Edge>
    var nextId: int

    /** Every stored id was handed out before nextId. */
    ghost predicate Valid()
      reads this
    {
      1 <= nextId && forall k :: k in nodes ==> 1 <= k < nextId
    }

    constructor ()
      ensures Valid() && nodes == map[] && edges == [] && nextId == 1
    {
      nodes, edges, nextId := map[], [], 1;
    }

    /** GetChildren(valueID) as written: its query reads `FROM values v`
        without quoting the table name. VALUES is an SQL keyword that SQLite
        does not accept as a table name, so preparing the query fails on every
        call, whatever the tables hold. */
    method GetChildren(valueID: int) returns (r: Result<seq<Value>>)
      ensures r == Err(BadQuery)
    {
      r := Err(BadQuery);
    }

    /** GetParents(valueID) as written: the same unquoted `FROM values v`, so
        it fails on every call too. */
    method GetParents(valueID: int) returns (r: Result<seq<Value>>)
      ensures r == Err(BadQuery)
    {
      r := Err(BadQuery);
    }

    /** GetChildren with the table name quoted, as the module's other
        queries write it: the existing nodes x with an edge (x, valueID), one
        per matching edge row. */
    method GetChildrenQuoted(valueID: int, fault: Fault) returns (r: Result<seq<Value>>)
      requires Valid()
      ensures r.Err? <==> fault == FailAt(0)
      ensures r.Err? ==> r.error == IoError
      ensures r.Ok? ==> ValueIds(r.value) == ChildIds(nodes, edges, valueID) && Scanned(nodes, r.value)
      ensures r.Ok? ==> forall x :: x in ValueIds(r.value) <==> x in nodes && Edge(x, IdKey(valueID)) in edges
    {
      if fault == FailAt(0) {
        return Err(IoError);
      }
      var children: seq<Value> := [];
      var i := 0;
      while i < |edges|
        invariant 0 <= i <= |edges|
        invariant ValueIds(children) == ChildIds(nodes, edges[..i], valueID)
        invariant Scanned(nodes, children)
      {
        var e := edges[i];
        ChildIdsSnoc(nodes, edges[..i], e, valueID);
        assert edges[..i + 1] == edges[..i] + [e];
        if e.parent == IdKey(valueID) && e.child in nodes {
          var a := ValueOf(nodes, e.child);
          ScannedAppend(nodes, children, a.id);
          children := children + [a];
        }
        i := i + 1;
      }
      assert edges[..i] == edges;
      forall x ensures x in ValueIds(children) <==> x in nodes && Edge(x, IdKey(valueID)) in edges {
        ChildIdsMembers(nodes, edges, valueID, x);
      }
      r := Ok(children);
    }

    /** GetParents with the table name quoted: the existing nodes p with an
        edge (valueID, p), one per matching edge row. */
    method GetParentsQuoted(valueID: int, fault: Fault) returns (r: Result<seq<Value>>)
      requires Valid()
      ensures r.Err? <==> fault == FailAt(0)
      ensures r.Err? ==> r.error == IoError
      ensures r.Ok? ==> ValueIds(r.value) == ParentIds(nodes, edges, valueID) && Scanned(nodes, r.value)
      ensures r.Ok? ==> forall p :: p in ValueIds(r.value) <==> p in nodes && Edge(valueID, IdKey(p)) in edges
    {
      if fault == FailAt(0) {
        return Err(IoError);
      }
      var parents: seq<Value> := [];
      var i := 0;
      while i < |edges|
        invariant 0 <= i <= |edges|
        invariant ValueIds(parents) == ParentIds(nodes, edges[..i], valueID)
        invariant Scanned(nodes, parents)
      {
        var e := edges[i];
        ParentIdsSnoc(nodes, edges[..i], e, valueID);
        assert edges[..i + 1] == edges[..i] + [e];
        if e.child == valueID && e.parent.IdKey? && e.parent.id in nodes {
          var a := ValueOf(nodes, e.parent.id);
          ScannedAppend(nodes, parents, a.id);
          parents := parents + [a];
        }
        i := i + 1;
      }
      assert edges[..i] == edges;
      forall p ensures p in ValueIds(parents) <==> p in nodes && Edge(valueID, IdKey(p)) in edges {
        ParentIdsMembers(nodes, edges, valueID, p);
      }
      r := Ok(parents);
    }

    /** GetAllValues(): every node row exactly once, with its description
        as stored. */
    method GetAllValues(fault: Fault) returns (r: Result<seq<Value>>)
      requires Valid()
      ensures r.Err? <==> fault == FailAt(0)
      ensures r.Err? ==> r.error == IoError
      ensures r.Ok? ==> AllValues(nodes, r.value)
    {
      if fault == FailAt(0) {
        return Err(IoError);
      }
      var ids := ScanIds(nodes, nextId);
      var values: seq<Value> := [];
      var i := 0;
      while i < |ids|
        invariant 0 <= i <= |ids|
        invariant ValueIds(values) == ids[..i]
        invariant Scanned(nodes, values)
      {
        var a := ValueOf(nodes, ids[i]);
        ScannedAppend(nodes, values, a.id);
        assert ids[..i + 1] == ids[..i] + [ids[i]];
        values := values + [a];
        i := i + 1;
      }
      assert ids[..i] == ids;
      r := Ok(values);
    }

    /** CreateValue(name, description, parentIDs): insert the node under a
        fresh id, then one edge per parent id in order, without checking that
        the parents exist. There is no transaction: a failing edge INSERT
        leaves the node and the earlier edges behind, and every failure
        returns id 0. */
    method CreateValue(name: string, description: string, parentIDs: seq<string>, fault: Fault)
      returns (id: int, err: Option<StoreError>)
      requires Valid()
      modifies this
      ensures Valid()
      ensures err.None? <==> !(fault.FailAt? && fault.step <= |parentIDs|)
      ensures err.Some? ==> err == Some(IoError) && id == 0
      ensures err.None? ==> id == old(nextId) && old(nextId) !in old(nodes)
      ensures fault == FailAt(0) ==> nodes == old(nodes) && edges == old(edges) && nextId == old(nextId)
      ensures fault != FailAt(0) ==>
        && nodes == old(nodes)[old(nextId) := NodeRow(name, Some(description))]
        && nextId == old(nextId) + 1
        && edges == old(edges) + EdgesFrom(old(nextId), parentIDs[..EdgesInserted(fault, |parentIDs|)])
    {
      if fault == FailAt(0) {
        return 0, Some(IoError);
      }
      var valueID := nextId;
      nodes := nodes[valueID := NodeRow(name, Some(description))];
      nextId := nextId + 1;
      var i := 0;
      while i < |parentIDs|
        invariant 0 <= i <= |parentIDs|
        invariant i <= EdgesInserted(fault, |parentIDs|)
        invariant Valid() && nextId == valueID + 1
        invariant nodes == old(nodes)[valueID := NodeRow(name, Some(description))]
        invariant edges == old(edges) + EdgesFrom(valueID, parentIDs[..i])
      {
        if fault == FailAt(i + 1) {
          return 0, Some(IoError);
        }
        assert EdgesFrom(valueID, parentIDs[..i + 1]) == EdgesFrom(valueID, parentIDs[..i]) + [Edge(valueID, StoredParent(parentIDs[i]))];
        edges := edges + [Edge(valueID, StoredParent(parentIDs[i]))];
        i := i + 1;
      }
      assert parentIDs[..i] == parentIDs;
      return valueID, None;
    }

    /** DeleteValue(valueID): first the edges touching the node, then its row.
        Whether a row was deleted is not looked at. */
    method DeleteValue(valueID: int, fault: Fault) returns (err: Option<StoreError>)
      requires Valid()
      modifies this
      ensures Valid() && nextId == old(nextId)
      ensures fault == FailAt(0) ==> err == Some(IoError) && nodes == old(nodes) && edges == old(edges)
      ensures fault == FailAt(1) ==> err == Some(IoError) && nodes == old(nodes) && edges == Detach(old(edges), valueID)
      ensures fault != FailAt(0) && fault != FailAt(1) ==>
        && nodes == old(nodes) - {valueID}
        && edges == Detach(old(edges), valueID)
        && err == None
      ensures fault != FailAt(0) ==> forall e :: e in edges ==> !Touches(e, valueID)
    {
      if fault == FailAt(0) {
        return Some(IoError);
      }
      edges := Detach(edges, valueID);
      if fault == FailAt(1) {
        return Some(IoError);
      }
      nodes := nodes - {valueID};
      return None;
    }
  }

  /** Deleting the same id twice: both calls succeed, whether or not the
      node was there. */
  method DeleteTwice(store: ValueStore, valueID: int) returns (first: Option<StoreError>, second: Option<StoreError>)
    requires store.Valid()
    modifies store
    ensures first == None && second == None
    ensures store.nodes == old(store.nodes) - {valueID}
  {
    first := store.DeleteValue(valueID, NoFault);
    second := store.DeleteValue(valueID, NoFault);
  }

  /** Creating a value and then listing the children of one of its parents
      through the quoted query shows the new value among them. */
  method CreateThenChildren(store: ValueStore, name: string, description: string, parent: int)
    returns (id: int, children: Result<seq<Value>>)
    requires store.Valid()
    requires parent in store.nodes && parent <= Strconv.MaxInt64
    modifies store
    ensures id == old(store.nextId)
    ensures children.Ok? && id in ValueIds(children.value)
  {
    var err;
    id, err := store.CreateValue(name, description, [Strconv.FormatInt(parent)], NoFault);
    Strconv.ParseFormat(parent);
    assert Edge(id, IdKey(parent)) in store.edges by {
      assert [Strconv.FormatInt(parent)][..1] == [Strconv.FormatInt(parent)];
      assert EdgesFrom(id, [Strconv.FormatInt(parent)]) == [Edge(id, IdKey(parent))];
      assert store.edges[|store.edges| - 1] == Edge(id, IdKey(parent));
    }
    children := store.GetChildrenQuoted(parent, NoFault);
  }
}
