/** What the classifier reads of its training data: the summaries of the numeric
    attributes (NumericAttributesHandle) and the per-class weights (DatasetInfo). */
module Catalog {
  import opened Wrappers
  import opened Seqs

  /** One non-class attribute of the training data. `min` and `max` are the
      numeric statistics Weka computes for it; they mean nothing for a nominal one. */
  datatype AttributeInfo = AttributeInfo(name: string, isNumeric: bool, min: real, max: real)

  /** What the classifier reads of the training instances. */
  datatype Dataset = Dataset(
    attributes: seq<AttributeInfo>,  // every attribute except the class, in declaration order
    classValues: seq<string>,        // the labels of the nominal class attribute, in order
    classWeights: seq<real>,         // the summed instance weight of each label
    sumOfWeights: real)              // the summed weight of all instances

  /** Weka keeps exactly one weight per class label. */
  predicate WellFormed(ds: Dataset) {
    |ds.classWeights| == |ds.classValues|
  }

  /** The rule metrics divide by the total weight and by the weight outside the
      predicted class; both are positive when some instance has weight and no
      single class holds all of it. */
  predicate MetricsDefined(ds: Dataset) {
    && ds.sumOfWeights > 0.0
    && forall i :: 0 <= i < |ds.classWeights| ==> ds.classWeights[i] < ds.sumOfWeights
  }

  // ---------------------------------------------------------------- numeric attributes

  /** NumericAttributesHandle's item: an attribute's name, minimum, maximum and midpoint. */
  datatype NumericItem = NumericItem(name: string, min: real, max: real, mean: real)

  function ItemOf(a: AttributeInfo): NumericItem {
    NumericItem(a.name, a.min, a.max, (a.max + a.min) / 2.0)
  }

  /** The catalog of numeric attributes, in attribute order. */
  function NumericItems(atts: seq<AttributeInfo>): seq<NumericItem>
  {
    if atts == [] then []
    else NumericItems(atts[..|atts| - 1])
         + (if atts[|atts| - 1].isNumeric then [ItemOf(atts[|atts| - 1])] else [])
  }

  /** readAtts: one item per numeric attribute, built in a loop. */
  method ReadAtts(atts: seq<AttributeInfo>) returns (items: seq<NumericItem>)
    ensures items == NumericItems(atts)
  {
    items := [];
    var i := 0;
    while i < |atts|
      invariant 0 <= i <= |atts|
      invariant items == NumericItems(atts[..i])
    {
      assert atts[..i + 1][..i] == atts[..i];
      if atts[i].isNumeric {
        var a := atts[i];
        items := items + [NumericItem(a.name, a.min, a.max, (a.max + a.min) / 2.0)];
      }
      i := i + 1;
    }
    assert atts[..|atts|] == atts;
  }

  /** The catalog holds an item for exactly the numeric attributes, and each
      item carries its attribute's own bounds and midpoint. */
  lemma {:induction false} NumericItemsExact(atts: seq<AttributeInfo>, it: NumericItem)
    ensures it in NumericItems(atts) <==> exists a :: a in atts && a.isNumeric && it == ItemOf(a)
  {
    if atts != [] {
      var init, last := atts[..|atts| - 1], atts[|atts| - 1];
      assert atts == init + [last];
      NumericItemsExact(init, it);
      if it in NumericItems(init) {
        var a :| a in init && a.isNumeric && it == ItemOf(a);
        assert a in atts;
      }
      if exists a :: a in atts && a.isNumeric && it == ItemOf(a) {
        var a :| a in atts && a.isNumeric && it == ItemOf(a);
        if a != last { assert a in init; }
      }
    }
  }

  /** getAtt: the first catalog item with that name. Java returns null when none
      exists, and the caller then fails on it. */
  function GetAtt(items: seq<NumericItem>, name: string): (r: Option<NumericItem>)
    ensures r.Some? ==> r.value in items && r.value.name == name
    ensures r.Some? ==> exists j :: 0 <= j < |items| && items[j] == r.value
                                    && forall k :: 0 <= k < j ==> items[k].name != name
    ensures r.None? <==> forall j :: 0 <= j < |items| ==> items[j].name != name
  {
    if items == [] then None
    else if items[0].name == name then Some(items[0])
    else
      var r := GetAtt(items[1..], name);
      assert forall j :: 1 <= j < |items| ==> items[j] == items[1..][j - 1];
      r
  }

  /** Looking up a numeric attribute of the data succeeds and yields its bounds;
      a name that is not a numeric attribute is not found. */
  lemma GetAttOfData(atts: seq<AttributeInfo>, name: string)
    ensures GetAtt(NumericItems(atts), name).Some? <==> exists a :: a in atts && a.isNumeric && a.name == name
    ensures GetAtt(NumericItems(atts), name).Some? ==>
      exists a :: a in atts && a.isNumeric && GetAtt(NumericItems(atts), name).value == ItemOf(a)
  {
    var items := NumericItems(atts);
    var r := GetAtt(items, name);
    if r.Some? {
      NumericItemsExact(atts, r.value);
    }
    if exists a :: a in atts && a.isNumeric && a.name == name {
      var a :| a in atts && a.isNumeric && a.name == name;
      NumericItemsExact(atts, ItemOf(a));
    }
  }

  // ---------------------------------------------------------------- class weights

  /** DatasetInfo's item: a class label and the summed weight of its instances. */
  datatype WeightByClassValueItem = WeightByClassValueItem(valueClass: string, weight: real)

  datatype DatasetInfo = DatasetInfo(
    weightByClassValue: seq<WeightByClassValueItem>,
    numClasses: nat,
    sumOfWeights: real)

  /** calcWeightByClassValue: pairs every label with its weight, in label order. */
  method CalcWeightByClassValue(values: seq<string>, nominalWeights: seq<real>)
    returns (items: seq<WeightByClassValueItem>)
    requires |nominalWeights| == |values|
    ensures |items| == |values|
    ensures forall i :: 0 <= i < |values| ==>
      items[i].valueClass == values[i] && items[i].weight == nominalWeights[i]
  {
    items := [];
    var i := 0;
    while i < |values|
      invariant 0 <= i <= |values|
      invariant |items| == i
      invariant forall j :: 0 <= j < i ==>
        items[j].valueClass == values[j] && items[j].weight == nominalWeights[j]
    {
      items := items + [WeightByClassValueItem(values[i], nominalWeights[i])];
      i := i + 1;
    }
  }

  /** The DatasetInfo of a data set: its class-weight table, the number of
      classes and the total weight. */
  method NewDatasetInfo(ds: Dataset) returns (info: DatasetInfo)
    requires WellFormed(ds)
    ensures info.numClasses == |ds.classValues| && info.sumOfWeights == ds.sumOfWeights
    ensures |info.weightByClassValue| == |ds.classValues|
    ensures forall i :: 0 <= i < |ds.classValues| ==>
      info.weightByClassValue[i] == WeightByClassValueItem(ds.classValues[i], ds.classWeights[i])
  {
    var items := CalcWeightByClassValue(ds.classValues, ds.classWeights);
    info := DatasetInfo(items, |ds.classValues|, ds.sumOfWeights);
  }

  /** The table `NewDatasetInfo` builds, as a value. */
  predicate InfoOf(ds: Dataset, info: DatasetInfo) {
    && info.numClasses == |ds.classValues| && info.sumOfWeights == ds.sumOfWeights
    && |info.weightByClassValue| == |ds.classValues| == |ds.classWeights|
    && forall i :: 0 <= i < |ds.classValues| ==>
         info.weightByClassValue[i] == WeightByClassValueItem(ds.classValues[i], ds.classWeights[i])
  }

  /** getWeightByClassValue: the weight of the first entry with that label
      (Java returns null when there is none). */
  function GetWeightByClassValue(info: DatasetInfo, value: string): (r: Option<real>)
    ensures r.Some? <==> exists j :: 0 <= j < |info.weightByClassValue| && info.weightByClassValue[j].valueClass == value
    ensures r.Some? ==>
      exists j :: 0 <= j < |info.weightByClassValue| && info.weightByClassValue[j] == WeightByClassValueItem(value, r.value)
                  && forall k :: 0 <= k < j ==> info.weightByClassValue[k].valueClass != value
  {
    WeightIn(info.weightByClassValue, value)
  }

  function WeightIn(items: seq<WeightByClassValueItem>, value: string): (r: Option<real>)
    ensures r.Some? <==> exists j :: 0 <= j < |items| && items[j].valueClass == value
    ensures r.Some? ==> exists j :: 0 <= j < |items| && items[j] == WeightByClassValueItem(value, r.value)
                                    && forall k :: 0 <= k < j ==> items[k].valueClass != value
  {
    if items == [] then None
    else if items[0].valueClass == value then Some(items[0].weight)
    else
      var r := WeightIn(items[1..], value);
      assert forall j :: 1 <= j < |items| ==> items[j] == items[1..][j - 1];
      r
  }

  /** Every label of the class attribute is found, with the weight of the first
      label equal to it (its own weight when no other label repeats it); under
      MetricsDefined that weight is below the total weight. */
  lemma {:induction false} ClassWeightFound(ds: Dataset, info: DatasetInfo, i: nat)
    requires InfoOf(ds, info) && i < |ds.classValues|
    ensures GetWeightByClassValue(info, ds.classValues[i]).Some?
    ensures exists j :: 0 <= j <= i && ds.classValues[j] == ds.classValues[i]
                        && (forall k :: 0 <= k < j ==> ds.classValues[k] != ds.classValues[i])
                        && GetWeightByClassValue(info, ds.classValues[i]).value == ds.classWeights[j]
    ensures (forall k :: 0 <= k < |ds.classValues| && k != i ==> ds.classValues[k] != ds.classValues[i]) ==>
              GetWeightByClassValue(info, ds.classValues[i]).value == ds.classWeights[i]
    ensures MetricsDefined(ds) ==> GetWeightByClassValue(info, ds.classValues[i]).value < info.sumOfWeights
  {
    assert info.weightByClassValue[i].valueClass == ds.classValues[i];
    var r := GetWeightByClassValue(info, ds.classValues[i]);
    var j :| 0 <= j < |info.weightByClassValue| && info.weightByClassValue[j] == WeightByClassValueItem(ds.classValues[i], r.value)
             && forall k :: 0 <= k < j ==> info.weightByClassValue[k].valueClass != ds.classValues[i];
    assert r.value == ds.classWeights[j];
    assert j <= i;  // entry i carries the label, so the first such entry is no later
    assert forall k :: 0 <= k < j ==> ds.classValues[k] == info.weightByClassValue[k].valueClass;
  }
}
