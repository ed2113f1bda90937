/** internal/viewmodels/value.go: what the Values, Children and Parents pages
    show of a models.Value. */
module ViewModels {
  import opened Common
  import Values

  /** viewmodels.Value. */
  datatype ViewValue = ViewValue(id: int, name: string, description: string, parentNames: string)

  /** ConvertModelsToViewValues(values): a result slice of the same length,
      filled position by position. Id and name are copied, a NULL
      description shows as "", and parent names are left empty. */
  method ConvertModelsToViewValues(values: seq<Values.Value>) returns (result: seq<ViewValue>)
    ensures |result| == |values|
    ensures forall i :: 0 <= i < |values| ==>
      && result[i].id == values[i].id
      && result[i].name == values[i].name
      && result[i].description == TextOrEmpty(values[i].description)
      && result[i].parentNames == ""
  {
    var a := new ViewValue[|values|];
    var i := 0;
    while i < |values|
      invariant 0 <= i <= |values|
      invariant forall k :: 0 <= k < i ==>
        a[k] == ViewValue(values[k].id, values[k].name, TextOrEmpty(values[k].description), "")
    {
      a[i] := ViewValue(values[i].id, values[i].name, TextOrEmpty(values[i].description), "");
      i := i + 1;
    }
    result := a[..];
  }
}
