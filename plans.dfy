/** internal/models/plan.go: the `plans` table. Every plan refers to a value
    by value_id, which nothing checks. Updating or deleting an id that has
    no row is not an error. */
module Plans {
  import opened Common

  datatype PlanRow = PlanRow(name: string, description: string, resourcesRequired: string, valueId: int)

  /** models.Plan. */
  datatype Plan = Plan(id: int, name: string, description: string, resourcesRequired: string, valueID: int)

  function PlanOf(rows: map<int, PlanRow>, id: int): (p: Plan)
    requires id in rows
    ensures p.id == id && p.name == rows[id].name && p.description == rows[id].description
    ensures p.resourcesRequired == rows[id].resourcesRequired && p.valueID == rows[id].valueId
  {
    Plan(id, rows[id].name, rows[id].description, rows[id].resourcesRequired, rows[id].valueId)
  }

  function PlanIds(ps: seq<Plan>): (ids: seq<int>)
    ensures |ids| == |ps| && forall i :: 0 <= i < |ps| ==> ids[i] == ps[i].id
  {
    seq(|ps|, i requires 0 <= i < |ps| => ps[i].id)
  }

  /** A list that holds every stored plan exactly once, as scanned. */
  predicate AllPlans(rows: map<int, PlanRow>, ps: seq<Plan>) {
    && (forall i :: 0 <= i < |ps| ==> ps[i].id in rows && ps[i] == PlanOf(rows, ps[i].id))
    && (forall k :: k in rows ==> k in PlanIds(ps))
    && (forall i, j :: 0 <= i < j < |ps| ==> ps[i].id != ps[j].id)
  }

  class PlanStore {
    var rows: map<int, PlanRow>
    var nextId: int

    ghost predicate Valid()
      reads this
    {
      1 <= nextId && forall k :: k in rows ==> 1 <= k < nextId
    }

    constructor ()
      ensures Valid() && rows == map[] && nextId == 1
    {
      rows, nextId := map[], 1;
    }

    /** CreatePlan(name, description, resourcesRequired, valueID): a new row
        under a fresh id. */
    method CreatePlan(name: string, description: string, resourcesRequired: string, valueID: int, fault: Fault)
      returns (id: int, err: Option<StoreError>)
      requires Valid()
      modifies this
      ensures Valid()
      ensures fault == FailAt(0) ==> id == 0 && err == Some(IoError) && rows == old(rows) && nextId == old(nextId)
      ensures fault != FailAt(0) ==>
        && id == old(nextId) && err == None && id !in old(rows)
        && rows == old(rows)[id := PlanRow(name, description, resourcesRequired, valueID)]
        && nextId == old(nextId) + 1
    {
      if fault == FailAt(0) {
        return 0, Some(IoError);
      }
      id := nextId;
      rows := rows[id := PlanRow(name, description, resourcesRequired, valueID)];
      nextId := nextId + 1;
      err := None;
    }

    /** GetPlan(id): the row with that id, or sql.ErrNoRows. */
    method GetPlan(id: int, fault: Fault) returns (r: Result<Plan>)
      requires Valid()
      ensures fault == FailAt(0) ==> r == Err(IoError)
      ensures fault != FailAt(0) ==> (r.Ok? <==> id in rows)
      ensures fault != FailAt(0) && id !in rows ==> r == Err(NoRows)
      ensures r.Ok? ==> id in rows && r.value == PlanOf(rows, id)
    {
      if fault == FailAt(0) {
        return Err(IoError);
      }
      if id !in rows {
        return Err(NoRows);
      }
      return Ok(PlanOf(rows, id));
    }

    /** GetAllPlans(): every stored plan exactly once. */
    method GetAllPlans(fault: Fault) returns (r: Result<seq<Plan>>)
      requires Valid()
      ensures r.Err? <==> fault == FailAt(0)
      ensures r.Err? ==> r.error == IoError
      ensures r.Ok? ==> AllPlans(rows, r.value)
    {
      if fault == FailAt(0) {
        return Err(IoError);
      }
      var ids := ScanIds(rows, nextId);
      var plans: seq<Plan> := [];
      var i := 0;
      while i < |ids|
        invariant 0 <= i <= |ids|
        invariant PlanIds(plans) == ids[..i]
        invariant forall m :: 0 <= m < |plans| ==> plans[m].id in rows && plans[m] == PlanOf(rows, plans[m].id)
      {
        var p := PlanOf(rows, ids[i]);
        assert PlanIds(plans + [p]) == PlanIds(plans) + [p.id];
        assert ids[..i + 1] == ids[..i] + [ids[i]];
        plans := plans + [p];
        i := i + 1;
      }
      assert ids[..i] == ids;
      r := Ok(plans);
    }

    /** UpdatePlan(id, ...): all four fields of that row are replaced and its
        id is kept; an id without a row is not an error and changes nothing. */
    method UpdatePlan(id: int, name: string, description: string, resourcesRequired: string, valueID: int, fault: Fault)
      returns (err: Option<StoreError>)
      requires Valid()
      modifies this
      ensures Valid() && nextId == old(nextId)
      ensures fault == FailAt(0) ==> err == Some(IoError) && rows == old(rows)
      ensures fault != FailAt(0) ==> err == None
      ensures fault != FailAt(0) && id in old(rows) ==>
        rows == old(rows)[id := PlanRow(name, description, resourcesRequired, valueID)]
      ensures id !in old(rows) ==> rows == old(rows)
    {
      if fault == FailAt(0) {
        return Some(IoError);
      }
      if id in rows {
        rows := rows[id := PlanRow(name, description, resourcesRequired, valueID)];
      }
      return None;
    }

    /** DeletePlan(id): removes only that row; an id without a row is not an
        error. */
    method DeletePlan(id: int, fault: Fault) returns (err: Option<StoreError>)
      requires Valid()
      modifies this
      ensures Valid() && nextId == old(nextId)
      ensures fault == FailAt(0) ==> err == Some(IoError) && rows == old(rows)
      ensures fault != FailAt(0) ==> err == None && rows == old(rows) - {id}
    {
      if fault == FailAt(0) {
        return Some(IoError);
      }
      rows := rows - {id};
      return None;
    }
  }

  /** A plan read back after it was created, or after an update, carries
      exactly the four fields last written. */
  method CreateUpdateGet(store: PlanStore, name: string, description: string, resourcesRequired: string, valueID: int,
                         name2: string, description2: string, resourcesRequired2: string, valueID2: int)
    returns (created: Result<Plan>, updated: Result<Plan>)
    requires store.Valid()
    modifies store
    ensures created.Ok? && created.value == Plan(created.value.id, name, description, resourcesRequired, valueID)
    ensures updated.Ok? && updated.value == Plan(created.value.id, name2, description2, resourcesRequired2, valueID2)
  {
    var id, err := store.CreatePlan(name, description, resourcesRequired, valueID, NoFault);
    created := store.GetPlan(id, NoFault);
    err := store.UpdatePlan(id, name2, description2, resourcesRequired2, valueID2, NoFault);
    updated := store.GetPlan(id, NoFault);
  }
}
