/** The relational content of the Value/Aim graph, shared by the two store
    variants (internal/models/aim.go over table `aims`, internal/models/value.go
    over table `values`): node rows keyed by id, the `value_parents` edge
    table, and what the two inner joins and the cascading DELETE compute. */
module Graph {
  import opened Common
  import Strconv

  /** A row of the node table; the description column admits NULL. */
  datatype NodeRow = NodeRow(name: string, description: Option<string>)

  /** The stored parent_value_id. CreateValue binds the parent ids as the
      strings the form sent; with the column's integer affinity a decimal
      integer is stored as that integer, and anything else stays text, which
      equals no node id. */
  datatype ParentKey = IdKey(id: int) | TextKey(text: string)

  /** A row of value_parents: value_id is the child, parent_value_id the parent. */
  datatype Edge = Edge(child: int, parent: ParentKey)

  function StoredParent(s: string): ParentKey {
    match Strconv.ParseInt(s)
    case Some(n) => IdKey(n)
    case None => TextKey(s)
  }

  /** The edges CreateValue inserts for a new node, one per parent, in order. */
  function EdgesFrom(child: int, parentIDs: seq<string>): seq<Edge> {
    seq(|parentIDs|, i requires 0 <= i < |parentIDs| => Edge(child, StoredParent(parentIDs[i])))
  }

  /** The WHERE clause of the cascade: value_id = v OR parent_value_id = v. */
  predicate Touches(e: Edge, v: int) {
    e.child == v || e.parent == IdKey(v)
  }

  /** The edge table after DELETE FROM value_parents WHERE value_id = v OR
      parent_value_id = v: the surviving rows in their order. */
  function Detach(es: seq<Edge>, v: int): (r: seq<Edge>)
    ensures forall e :: e in r ==> e in es && !Touches(e, v)
    ensures |r| <= |es|
  {
    if |es| == 0 then []
    else
      var e := es[|es| - 1];
      Detach(es[..|es| - 1], v) + (if Touches(e, v) then [] else [e])
  }

  /** The cascade removes exactly the edges touching v and keeps every other. */
  lemma {:induction false} DetachKeeps(es: seq<Edge>, v: int, e: Edge)
    ensures e in Detach(es, v) <==> e in es && !Touches(e, v)
  {
    if |es| > 0 {
      DetachKeeps(es[..|es| - 1], v, e);
      assert es == es[..|es| - 1] + [es[|es| - 1]];
    }
  }

  /** A table with no edge touching v is left exactly as it is, so running
      the cascade twice removes nothing more. */
  lemma {:induction false} DetachUntouched(es: seq<Edge>, v: int)
    requires forall i :: 0 <= i < |es| ==> !Touches(es[i], v)
    ensures Detach(es, v) == es
  {
    if |es| > 0 {
      var init := es[..|es| - 1];
      assert forall i :: 0 <= i < |init| ==> init[i] == es[i];
      DetachUntouched(init, v);
      assert init + [es[|es| - 1]] == es;
    }
  }

  lemma DetachIdempotent(es: seq<Edge>, v: int)
    ensures Detach(Detach(es, v), v) == Detach(es, v)
  {
    var d := Detach(es, v);
    assert forall i :: 0 <= i < |d| ==> d[i] in d;
    DetachUntouched(d, v);
  }

  /** GetChildren's join: for every edge (x, v), the child x when a node x
      exists (the inner join drops dangling children). The query has no
      ORDER BY; listing in edge-table order is a choice of this model, and
      what the query does promise is the membership stated by
      ChildIdsMembers. */
  function ChildIds(nodes: map<int, NodeRow>, es: seq<Edge>, v: int): (r: seq<int>)
    ensures forall x :: x in r ==> x in nodes
  {
    if |es| == 0 then []
    else
      var e := es[|es| - 1];
      ChildIds(nodes, es[..|es| - 1], v) + (if e.parent == IdKey(v) && e.child in nodes then [e.child] else [])
  }

  /** GetParents' join: for every edge (v, p), the parent p when a node p
      exists. As for ChildIds, the edge-table order is a choice of this
      model; ParentIdsMembers states the promised membership. */
  function ParentIds(nodes: map<int, NodeRow>, es: seq<Edge>, v: int): (r: seq<int>)
    ensures forall p :: p in r ==> p in nodes
  {
    if |es| == 0 then []
    else
      var e := es[|es| - 1];
      ParentIds(nodes, es[..|es| - 1], v) + (if e.child == v && e.parent.IdKey? && e.parent.id in nodes then [e.parent.id] else [])
  }

  /** x is listed among v's children exactly when node x exists and an edge
      records x as a child of v. */
  lemma {:induction false} ChildIdsMembers(nodes: map<int, NodeRow>, es: seq<Edge>, v: int, x: int)
    ensures x in ChildIds(nodes, es, v) <==> x in nodes && Edge(x, IdKey(v)) in es
  {
    if |es| > 0 {
      ChildIdsMembers(nodes, es[..|es| - 1], v, x);
      assert es == es[..|es| - 1] + [es[|es| - 1]];
    }
  }

  /** p is listed among v's parents exactly when node p exists and an edge
      records p as a parent of v. */
  lemma {:induction false} ParentIdsMembers(nodes: map<int, NodeRow>, es: seq<Edge>, v: int, p: int)
    ensures p in ParentIds(nodes, es, v) <==> p in nodes && Edge(v, IdKey(p)) in es
  {
    if |es| > 0 {
      ParentIdsMembers(nodes, es[..|es| - 1], v, p);
      assert es == es[..|es| - 1] + [es[|es| - 1]];
    }
  }

  /** The two joins are the two directions of one relation: between existing
      nodes, x is a child of v exactly when v is a parent of x. */
  lemma ChildParentSymmetry(nodes: map<int, NodeRow>, es: seq<Edge>, x: int, v: int)
    requires x in nodes && v in nodes
    ensures x in ChildIds(nodes, es, v) <==> v in ParentIds(nodes, es, x)
  {
    ChildIdsMembers(nodes, es, v, x);
    ParentIdsMembers(nodes, es, x, v);
  }

  /** The ids of a list other than v, in order. */
  function Without(ids: seq<int>, v: int): seq<int> {
    if |ids| == 0 then []
    else Without(ids[..|ids| - 1], v) + (if ids[|ids| - 1] == v then [] else [ids[|ids| - 1]])
  }

  lemma WithoutAppend(a: seq<int>, b: seq<int>, v: int)
    ensures Without(a + b, v) == Without(a, v) + Without(b, v)
    decreases |b|
  {
    if |b| > 0 {
      assert (a + b)[..|a + b| - 1] == a + b[..|b| - 1];
      WithoutAppend(a, b[..|b| - 1], v);
    } else {
      assert a + b == a;
    }
  }

  lemma DetachSnoc(es: seq<Edge>, e: Edge, v: int)
    ensures Detach(es + [e], v) == Detach(es, v) + (if Touches(e, v) then [] else [e])
  {
    assert (es + [e])[..|es|] == es;
  }

  lemma ChildIdsSnoc(nodes: map<int, NodeRow>, es: seq<Edge>, e: Edge, w: int)
    ensures ChildIds(nodes, es + [e], w) == ChildIds(nodes, es, w) + (if e.parent == IdKey(w) && e.child in nodes then [e.child] else [])
  {
    assert (es + [e])[..|es|] == es;
  }

  lemma ParentIdsSnoc(nodes: map<int, NodeRow>, es: seq<Edge>, e: Edge, w: int)
    ensures ParentIds(nodes, es + [e], w) == ParentIds(nodes, es, w) + (if e.child == w && e.parent.IdKey? && e.parent.id in nodes then [e.parent.id] else [])
  {
    assert (es + [e])[..|es|] == es;
  }

  lemma WithoutOne(x: int, v: int)
    ensures Without([x], v) == if x == v then [] else [x]
  {
    assert [x][..0] == [];
  }

  /** Deleting node v (its edges, then its row) changes the children of any
      other node w only by dropping v from them. */
  lemma {:induction false} DeleteKeepsOtherChildren(nodes: map<int, NodeRow>, es: seq<Edge>, v: int, w: int)
    requires w != v
    ensures ChildIds(nodes - {v}, Detach(es, v), w) == Without(ChildIds(nodes, es, w), v)
  {
    if |es| > 0 {
      var init, e := es[..|es| - 1], es[|es| - 1];
      assert es == init + [e];
      var d, before := Detach(init, v), ChildIds(nodes, init, w);
      DeleteKeepsOtherChildren(nodes, init, v, w);
      DetachSnoc(init, e, v);
      ChildIdsSnoc(nodes, init, e, w);
      var here := if e.parent == IdKey(w) && e.child in nodes then [e.child] else [];
      assert ChildIds(nodes, es, w) == before + here;
      WithoutAppend(before, here, v);
      if Touches(e, v) {
        assert Detach(es, v) == d + [] == d;
        if here != [] {
          WithoutOne(e.child, v);
        }
        assert Without(here, v) == [];
        assert Without(before, v) + [] == Without(before, v);
      } else {
        assert Detach(es, v) == d + [e];
        ChildIdsSnoc(nodes - {v}, d, e, w);
        if here != [] {
          WithoutOne(e.child, v);
        }
        assert Without(here, v) == here;
      }
    }
  }

  /** Deleting node v changes the parents of any other node w only by
      dropping v from them. */
  lemma {:induction false} DeleteKeepsOtherParents(nodes: map<int, NodeRow>, es: seq<Edge>, v: int, w: int)
    requires w != v
    ensures ParentIds(nodes - {v}, Detach(es, v), w) == Without(ParentIds(nodes, es, w), v)
  {
    if |es| > 0 {
      var init, e := es[..|es| - 1], es[|es| - 1];
      assert es == init + [e];
      var d, before := Detach(init, v), ParentIds(nodes, init, w);
      DeleteKeepsOtherParents(nodes, init, v, w);
      DetachSnoc(init, e, v);
      ParentIdsSnoc(nodes, init, e, w);
      var here := if e.child == w && e.parent.IdKey? && e.parent.id in nodes then [e.parent.id] else [];
      assert ParentIds(nodes, es, w) == before + here;
      WithoutAppend(before, here, v);
      if Touches(e, v) {
        assert Detach(es, v) == d + [] == d;
        if here != [] {
          WithoutOne(e.parent.id, v);
        }
        assert Without(here, v) == [];
        assert Without(before, v) + [] == Without(before, v);
      } else {
        assert Detach(es, v) == d + [e];
        ParentIdsSnoc(nodes - {v}, d, e, w);
        if here != [] {
          WithoutOne(e.parent.id, v);
        }
        assert Without(here, v) == here;
      }
    }
  }

  /** With no edge touching v, v has neither children nor parents. */
  lemma {:induction false} UntouchedHasNoRelatives(nodes: map<int, NodeRow>, es: seq<Edge>, v: int)
    requires forall i :: 0 <= i < |es| ==> !Touches(es[i], v)
    ensures ChildIds(nodes, es, v) == [] && ParentIds(nodes, es, v) == []
  {
    if |es| > 0 {
      var init := es[..|es| - 1];
      assert forall i :: 0 <= i < |init| ==> init[i] == es[i];
      UntouchedHasNoRelatives(nodes, init, v);
    }
  }

  /** After the cascade the deleted node has no children and no parents left,
      even before its own row is removed. */
  lemma DetachedIsIsolated(nodes: map<int, NodeRow>, es: seq<Edge>, v: int)
    ensures ChildIds(nodes, Detach(es, v), v) == []
    ensures ParentIds(nodes, Detach(es, v), v) == []
  {
    var d := Detach(es, v);
    assert forall i :: 0 <= i < |d| ==> d[i] in d;
    UntouchedHasNoRelatives(nodes, d, v);
  }

  /** The number of edge INSERTs that succeed when CreateValue is given n
      parents: statement 0 inserts the node, statement k (1 <= k <= n) the
      k-th edge. */
  function EdgesInserted(fault: Fault, n: nat): (k: nat)
    ensures k <= n
  {
    match fault
    case FailAt(step) => if step == 0 then 0 else if step <= n then step - 1 else n
    case NoFault => n
  }
}
