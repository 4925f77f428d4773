/** TreeAsARFF: the meta data set a tree's rules give. Every rule that passes
    the weighting strategy's filter becomes one or two instances over the
    original (non-class) attributes, labelled with the rule's class and
    weighted by the selected metric. */
module MetaData {
  import opened Wrappers
  import opened Catalog
  import opened Conditions
  import opened Metrics
  import opened RootToLeaf

  /** A cell of a meta instance: missing, a nominal label or a number. */
  datatype Value = Missing | Label(text: string) | Number(number: real)

  /** A DenseInstance of the meta data: one value per non-class attribute, in
      attribute order, the class label and the instance weight. */
  datatype MetaRow = MetaRow(values: seq<Value>, classValue: string, weight: real)

  /** What a numeric condition contributes to a row: the interval's minimum,
      its maximum or its midpoint. `AsGiven` is the encoding of a rule without
      numeric attribute, which holds no numeric condition (PlainRowsHoldNoNumber),
      so its numeric case is never reached. A nominal condition always gives
      its label. */
  datatype Encoding = AsGiven | AtMin | AtMax | AtMid

  /** The strategy code for numeric attributes that asks for two rows per rule. */
  const IntervalStrategy: string := "I"

  /** The cell of one attribute: missing when no condition of the rule is on
      it, otherwise taken from the first condition on it. */
  function Cell(path: seq<SubTree>, name: string, enc: Encoding): (v: Value)
    ensures v.Missing? <==> forall j :: 0 <= j < |path| ==> path[j].attribute != name
    ensures v.Label? <==> GetTreeByAttribute(path, name).Some? && GetTreeByAttribute(path, name).value.Nominal?
    ensures enc == AtMid && v.Number? && GetTreeByAttribute(path, name).value.minInterval <= GetTreeByAttribute(path, name).value.maxInterval
      ==> GetTreeByAttribute(path, name).value.minInterval <= v.number <= GetTreeByAttribute(path, name).value.maxInterval
  {
    match GetTreeByAttribute(path, name)
    case None => Missing
    case Some(st) =>
      match st
      case Nominal(_, value) => Label(value)
      case Numeric(_, _, split, lo, hi) =>
        match enc
        case AsGiven => Number(split)
        case AtMin => Number(lo)
        case AtMax => Number(hi)
        case AtMid => Number(AvgInterval(st))
  }

  /** The cells of a row, one per attribute. */
  function Columns(path: seq<SubTree>, atts: seq<AttributeInfo>, enc: Encoding): (values: seq<Value>)
    ensures |values| == |atts|
    ensures forall i :: 0 <= i < |atts| ==> values[i] == Cell(path, atts[i].name, enc)
  {
    seq(|atts|, i requires 0 <= i < |atts| => Cell(path, atts[i].name, enc))
  }

  /** GetWeightByParam: the weighted metric the strategy code selects; P, L, N
      and S pick precision, Laplace, novelty and satisfaction, and any other
      code falls back to precision. */
  function WeightByParam(r: LeafRule, code: string): (w: real)
    ensures code == "L" ==> w == r.metrics.weightLaplace
    ensures code == "N" ==> w == r.metrics.weightNovelty
    ensures code == "S" ==> w == r.metrics.weightSatisfaction
    ensures code !in {"L", "N", "S"} ==> w == r.metrics.weightPrecision
  {
    if code == "P" then r.metrics.weightPrecision
    else if code == "L" then r.metrics.weightLaplace
    else if code == "N" then r.metrics.weightNovelty
    else if code == "S" then r.metrics.weightSatisfaction
    else r.metrics.weightPrecision
  }

  /** A rule gives no row: under N when its novelty is not positive, under S
      when its satisfaction is not positive, and whenever its weight is not. */
  predicate Skipped(r: LeafRule, weightCode: string) {
    || (weightCode == "N" && r.metrics.novelty <= 0.0)
    || (weightCode == "S" && r.metrics.satisfaction <= 0.0)
    || r.weight <= 0.0
  }

  /** The rows one rule gives. */
  function RowsOf(r: LeafRule, atts: seq<AttributeInfo>, numericStrategy: string, weightCode: string): seq<MetaRow>
  {
    if Skipped(r, weightCode) then []
    else if !r.hasNumericAtt then
      [MetaRow(Columns(r.pathOfSubTrees, atts, AsGiven), r.definedClass, WeightByParam(r, weightCode))]
    else if numericStrategy == IntervalStrategy then
      var half := WeightByParam(r, weightCode) / 2.0;
      [MetaRow(Columns(r.pathOfSubTrees, atts, AtMin), r.definedClass, half),
       MetaRow(Columns(r.pathOfSubTrees, atts, AtMax), r.definedClass, half)]
    else
      [MetaRow(Columns(r.pathOfSubTrees, atts, AtMid), r.definedClass, WeightByParam(r, weightCode))]
  }

  /** The meta data of a list of rules: the rows of each rule, in rule order. */
  function MetaRows(rules: seq<LeafRule>, atts: seq<AttributeInfo>, numericStrategy: string, weightCode: string): seq<MetaRow>
  {
    if rules == [] then []
    else MetaRows(rules[..|rules| - 1], atts, numericStrategy, weightCode)
         + RowsOf(rules[|rules| - 1], atts, numericStrategy, weightCode)
  }

  // ---------------------------------------------------------------- counts and weights

  /** How many rows a rule gives: none when skipped, two for a rule with a
      numeric condition under the interval strategy, one otherwise. */
  function RowCount(r: LeafRule, numericStrategy: string, weightCode: string): nat {
    if Skipped(r, weightCode) then 0
    else if r.hasNumericAtt && numericStrategy == IntervalStrategy then 2
    else 1
  }

  function TotalRowCount(rules: seq<LeafRule>, numericStrategy: string, weightCode: string): nat {
    if rules == [] then 0
    else TotalRowCount(rules[..|rules| - 1], numericStrategy, weightCode)
         + RowCount(rules[|rules| - 1], numericStrategy, weightCode)
  }

  /** The summed weight of rows. */
  function RowsWeight(rows: seq<MetaRow>): real {
    if rows == [] then 0.0 else RowsWeight(rows[..|rows| - 1]) + rows[|rows| - 1].weight
  }

  /** The summed selected weight of the rules that are not skipped. */
  function KeptWeight(rules: seq<LeafRule>, weightCode: string): real {
    if rules == [] then 0.0
    else KeptWeight(rules[..|rules| - 1], weightCode)
         + (if Skipped(rules[|rules| - 1], weightCode) then 0.0 else WeightByParam(rules[|rules| - 1], weightCode))
  }

  /** One rule's rows: their number, their class, their width, and their
      weights, which add up to the selected weight of the rule (the two rows of
      the interval strategy share it equally). */
  lemma RowsOfShape(r: LeafRule, atts: seq<AttributeInfo>, numericStrategy: string, weightCode: string)
    ensures var rows := RowsOf(r, atts, numericStrategy, weightCode);
      && |rows| == RowCount(r, numericStrategy, weightCode)
      && (forall row :: row in rows ==> row.classValue == r.definedClass && |row.values| == |atts|)
      && RowsWeight(rows) == (if Skipped(r, weightCode) then 0.0 else WeightByParam(r, weightCode))
      && (|rows| == 2 ==> rows[0].weight == rows[1].weight == WeightByParam(r, weightCode) / 2.0)
      && (|rows| == 1 ==> rows[0].weight == WeightByParam(r, weightCode))
  {
    var rows := RowsOf(r, atts, numericStrategy, weightCode);
    if |rows| == 2 {
      assert RowsWeight(rows) == RowsWeight(rows[..1]) + rows[1].weight;
      assert rows[..1][..0] == [];
    } else if |rows| == 1 {
      assert rows[..0] == [];
    }
  }

  lemma RowsWeightAppend(a: seq<MetaRow>, b: seq<MetaRow>)
    ensures RowsWeight(a + b) == RowsWeight(a) + RowsWeight(b)
    decreases |b|
  {
    if b != [] {
      assert (a + b)[..|a + b| - 1] == a + b[..|b| - 1];
      RowsWeightAppend(a, b[..|b| - 1]);
    } else {
      assert a + b == a;
    }
  }

  /** The meta data set has one row per kept rule, plus one more per kept
      rule with a numeric condition under the interval strategy; its rows
      carry, in total, the selected weight of the kept rules; every row has one
      value per attribute and the class of a rule of the tree. */
  lemma {:induction false} MetaRowsShape(rules: seq<LeafRule>, atts: seq<AttributeInfo>, numericStrategy: string, weightCode: string)
    ensures |MetaRows(rules, atts, numericStrategy, weightCode)| == TotalRowCount(rules, numericStrategy, weightCode)
    ensures RowsWeight(MetaRows(rules, atts, numericStrategy, weightCode)) == KeptWeight(rules, weightCode)
    ensures forall row :: row in MetaRows(rules, atts, numericStrategy, weightCode) ==>
      |row.values| == |atts| && exists r :: r in rules && !Skipped(r, weightCode) && row.classValue == r.definedClass
    decreases |rules|
  {
    if rules != [] {
      var init, last := rules[..|rules| - 1], rules[|rules| - 1];
      MetaRowsShape(init, atts, numericStrategy, weightCode);
      RowsOfShape(last, atts, numericStrategy, weightCode);
      var front, rows := MetaRows(init, atts, numericStrategy, weightCode), RowsOf(last, atts, numericStrategy, weightCode);
      RowsWeightAppend(front, rows);
      forall row: MetaRow | row in front + rows
        ensures |row.values| == |atts| && exists r :: r in rules && !Skipped(r, weightCode) && row.classValue == r.definedClass
      {
        if row in front {
          var r :| r in init && !Skipped(r, weightCode) && row.classValue == r.definedClass;
          assert r in rules;
        } else {
          assert last in rules;
        }
      }
    }
  }

  /** Every row of a kept rule lies in the meta data. */
  lemma {:induction false} RowsInMetaRows(rules: seq<LeafRule>, atts: seq<AttributeInfo>, numericStrategy: string, weightCode: string, i: nat)
    requires i < |rules|
    ensures forall row :: row in RowsOf(rules[i], atts, numericStrategy, weightCode) ==>
      row in MetaRows(rules, atts, numericStrategy, weightCode)
    decreases |rules|
  {
    var init := rules[..|rules| - 1];
    if i < |rules| - 1 {
      RowsInMetaRows(init, atts, numericStrategy, weightCode, i);
      assert init[i] == rules[i];
    }
  }

  // ---------------------------------------------------------------- contents

  /** The cells of a kept rule's rows. An attribute without condition is
      missing and a nominal one holds its label in every row. Under the
      interval strategy the two rows hold a numeric attribute's interval
      minimum and maximum; otherwise the single row of a rule with a numeric
      condition holds its midpoint. */
  lemma RowsOfContents(r: LeafRule, atts: seq<AttributeInfo>, numericStrategy: string, weightCode: string, i: nat)
    requires !Skipped(r, weightCode) && i < |atts|
    ensures var rows := RowsOf(r, atts, numericStrategy, weightCode);
      var st := GetTreeByAttribute(r.pathOfSubTrees, atts[i].name);
      && (st.None? ==> forall row :: row in rows ==> row.values[i] == Missing)
      && (st.Some? && st.value.Nominal? ==> forall row :: row in rows ==> row.values[i] == Label(st.value.value))
      && (st.Some? && st.value.Numeric? && r.hasNumericAtt && numericStrategy == IntervalStrategy ==>
           rows[0].values[i] == Number(st.value.minInterval) && rows[1].values[i] == Number(st.value.maxInterval))
      && (st.Some? && st.value.Numeric? && r.hasNumericAtt && numericStrategy != IntervalStrategy ==>
           rows[0].values[i] == Number(AvgInterval(st.value)))
  {
  }

  /** A rule without numeric attribute whose conditions are all nominal gives
      rows of labels and missing cells only: no cell is a number. */
  lemma PlainRowsHoldNoNumber(r: LeafRule, atts: seq<AttributeInfo>, numericStrategy: string, weightCode: string)
    requires r.hasNumericAtt <==> exists i :: 0 <= i < |r.pathOfSubTrees| && r.pathOfSubTrees[i].Numeric?
    requires !r.hasNumericAtt
    ensures forall row :: row in RowsOf(r, atts, numericStrategy, weightCode) ==>
      forall i :: 0 <= i < |row.values| ==> !row.values[i].Number?
  {
    forall row, i | row in RowsOf(r, atts, numericStrategy, weightCode) && 0 <= i < |row.values|
      ensures !row.values[i].Number?
    {
      var st := GetTreeByAttribute(r.pathOfSubTrees, atts[i].name);
      if st.Some? {
        var k :| 0 <= k < |r.pathOfSubTrees| && r.pathOfSubTrees[k] == st.value;
        assert !r.pathOfSubTrees[k].Numeric?;
      }
    }
  }

  // ---------------------------------------------------------------- weights of scored rules

  /** With the default code (and with P) a rule's weight in the meta data is
      exactly the weight it classifies correctly. */
  lemma PrecisionWeightIsCorrect(r: LeafRule, info: DatasetInfo, weightCode: string)
    requires WellScored(r, info) && weightCode !in {"L", "N", "S"}
    ensures WeightByParam(r, weightCode) == r.correct
  {
    ScoredTable(r, info);
    var cm := r.contingencyMatrix;
    MetricFormulas(r.weight, cm, info.numClasses, info.sumOfWeights);
    WeightedPrecision(r.weight, cm, info.numClasses, info.sumOfWeights);
    assert Precision(cm) * cm.l == r.weight * Precision(cm);
  }

  /** The table of a well-scored rule satisfies the preconditions of the metrics. */
  lemma ScoredTable(r: LeafRule, info: DatasetInfo)
    requires WellScored(r, info)
    ensures r.contingencyMatrix.l == r.weight > 0.0
    ensures r.contingencyMatrix.nr > 0.0 && info.sumOfWeights > 0.0
    ensures r.metrics == ComputeMetrics(r.weight, r.contingencyMatrix, info.numClasses, info.sumOfWeights)
  {
    var cw := GetWeightByClassValue(info, r.definedClass).value;
    var j :| 0 <= j < |info.weightByClassValue| && info.weightByClassValue[j] == WeightByClassValueItem(r.definedClass, cw);
  }

  /** Under N and S the filter keeps exactly the rules whose selected weight is
      positive: every row they give has positive weight. */
  lemma FilteredWeightsPositive(r: LeafRule, info: DatasetInfo, atts: seq<AttributeInfo>, numericStrategy: string, weightCode: string)
    requires WellScored(r, info) && weightCode in {"N", "S"}
    ensures !Skipped(r, weightCode) <==> WeightByParam(r, weightCode) > 0.0
    ensures forall row :: row in RowsOf(r, atts, numericStrategy, weightCode) ==> row.weight > 0.0
  {
    ScoredTable(r, info);
    var cm := r.contingencyMatrix;
    MetricFormulas(r.weight, cm, info.numClasses, info.sumOfWeights);
    if weightCode == "N" {
      WeightedNovelty(r.weight, cm, info.numClasses, info.sumOfWeights);
    } else {
      WeightedSatisfaction(r.weight, cm, info.numClasses, info.sumOfWeights);
    }
    RowsOfShape(r, atts, numericStrategy, weightCode);
  }

  // ---------------------------------------------------------------- rows of a leaf

  /** The cells of the rows of a leaf's rule, in terms of the leaf's stack:
      an attribute the stack never splits on is missing; one whose first split
      is nominal holds that split's label; one whose first split is numeric
      holds the bounds of the interval threaded through all the stack's splits
      on it, seeded from the catalog (or their midpoint). */
  lemma LeafCells(steps: seq<Step>, d: Option<seq<real>>, tr: Training, name: string, enc: Encoding, k: nat)
    requires Scorable(tr.info)
    requires MakeRule(steps, d, tr).Success? && MakeRule(steps, d, tr).value.Some?
    requires k <= |steps| && forall j :: 0 <= j < k ==> steps[j].attribute != name
    requires k < |steps| ==> steps[k].attribute == name
    ensures StackCell(steps, tr.catalog, name, enc, k, MakeRule(steps, d, tr).value.value.pathOfSubTrees)
  {
    MakeRuleShape(steps, d, tr);
    PathCells(steps, tr.catalog, name, enc, k);
  }

  /** What the cell of attribute `name` holds, given that `k` is the first
      stack entry on it (|steps| when there is none). */
  predicate StackCell(steps: seq<Step>, catalog: seq<NumericItem>, name: string, enc: Encoding, k: nat, path: seq<SubTree>)
    requires k <= |steps|
  {
    && (k == |steps| ==> Cell(path, name, enc) == Missing)
    && (k < |steps| && steps[k].NominalStep? ==> Cell(path, name, enc) == Label(steps[k].value))
    && (k < |steps| && steps[k].NumericStep? ==>
         && GetAtt(catalog, name).Some?
         && IntervalOf(steps, name, GetAtt(catalog, name).value).Some?
         && var iv := IntervalOf(steps, name, GetAtt(catalog, name).value).value;
         && (enc == AtMin ==> Cell(path, name, enc) == Number(iv.0))
         && (enc == AtMax ==> Cell(path, name, enc) == Number(iv.1))
         && (enc == AtMid ==> Cell(path, name, enc) == Number((iv.0 + iv.1) / 2.0)))
  }

  /** The cells of the conditions built from a stack, by the first stack entry
      on the attribute. */
  lemma PathCells(steps: seq<Step>, catalog: seq<NumericItem>, name: string, enc: Encoding, k: nat)
    requires BuildPath(steps, catalog).Success?
    requires k <= |steps| && forall j :: 0 <= j < k ==> steps[j].attribute != name
    requires k < |steps| ==> steps[k].attribute == name
    ensures StackCell(steps, catalog, name, enc, k, BuildPath(steps, catalog).value)
  {
    if k < |steps| {
      FirstStepCell(steps, catalog, name, enc, k);
    } else {
      var path := BuildPath(steps, catalog).value;
      forall j | 0 <= j < |path| ensures path[j].attribute != name {
        assert Matches(path[j], steps[j]);
      }
    }
  }

  /** The cell of an attribute the stack splits on, by its first split. */
  lemma FirstStepCell(steps: seq<Step>, catalog: seq<NumericItem>, name: string, enc: Encoding, k: nat)
    requires BuildPath(steps, catalog).Success?
    requires k < |steps| && steps[k].attribute == name
    requires forall j :: 0 <= j < k ==> steps[j].attribute != name
    ensures steps[k].NominalStep? ==> Cell(BuildPath(steps, catalog).value, name, enc) == Label(steps[k].value)
    ensures steps[k].NumericStep? ==>
      && GetAtt(catalog, name).Some?
      && IntervalOf(steps, name, GetAtt(catalog, name).value).Some?
      && var iv := IntervalOf(steps, name, GetAtt(catalog, name).value).value;
      && (enc == AtMin ==> Cell(BuildPath(steps, catalog).value, name, enc) == Number(iv.0))
      && (enc == AtMax ==> Cell(BuildPath(steps, catalog).value, name, enc) == Number(iv.1))
      && (enc == AtMid ==> Cell(BuildPath(steps, catalog).value, name, enc) == Number((iv.0 + iv.1) / 2.0))
  {
    var path := BuildPath(steps, catalog).value;
    FirstConditionInterval(steps, catalog, name, k);
    assert Matches(path[k], steps[k]);
    FirstCell(path, name, enc, path[k]);
  }

  /** The cell of an attribute whose first condition is known. */
  lemma FirstCell(path: seq<SubTree>, name: string, enc: Encoding, st: SubTree)
    requires GetTreeByAttribute(path, name) == Some(st)
    ensures st.Nominal? ==> Cell(path, name, enc) == Label(st.value)
    ensures st.Numeric? ==>
      && (enc == AtMin ==> Cell(path, name, enc) == Number(st.minInterval))
      && (enc == AtMax ==> Cell(path, name, enc) == Number(st.maxInterval))
      && (enc == AtMid ==> Cell(path, name, enc) == Number((st.minInterval + st.maxInterval) / 2.0))
  {
  }

  // ---------------------------------------------------------------- TreeAsARFF

  class TreeAsARFF {
    /** The meta instances, in the order they are added. */
    var instancesMeta: seq<MetaRow>
    const strategyNumericAtts: string
    const strategyWeight: string

    /** Builds the meta data of a tree's rules over the original attributes. */
    constructor (rules: seq<LeafRule>, atts: seq<AttributeInfo>, strategyNumericAtts: string, strategyWeight: string)
      ensures this.strategyNumericAtts == strategyNumericAtts && this.strategyWeight == strategyWeight
      ensures instancesMeta == MetaRows(rules, atts, strategyNumericAtts, strategyWeight)
    {
      this.strategyNumericAtts := strategyNumericAtts;
      this.strategyWeight := strategyWeight;
      instancesMeta := [];
      new;
      ReadTreeAsARFF(rules, atts);
    }

    /** readTreeAsARFF: clears the meta data, then adds the rows of each rule
        in turn. */
    method ReadTreeAsARFF(rules: seq<LeafRule>, atts: seq<AttributeInfo>)
      modifies this`instancesMeta
      ensures instancesMeta == MetaRows(rules, atts, strategyNumericAtts, strategyWeight)
    {
      instancesMeta := [];
      var n := 0;
      while n < |rules|
        invariant 0 <= n <= |rules|
        invariant instancesMeta == MetaRows(rules[..n], atts, strategyNumericAtts, strategyWeight)
      {
        assert rules[..n + 1][..n] == rules[..n];
        assert rules[..n + 1][n] == rules[n];
        ReadRule(rules[n], atts);
        n := n + 1;
      }
      assert rules[..n] == rules;
    }

    /** One pass of readTreeAsARFF's loop: the rows of one rule, added at
        the end of the meta data. */
    method ReadRule(r: LeafRule, atts: seq<AttributeInfo>)
      modifies this`instancesMeta
      ensures instancesMeta == old(instancesMeta) + RowsOf(r, atts, strategyNumericAtts, strategyWeight)
    {
      var isIntervalStrategy := strategyNumericAtts == IntervalStrategy;
      if strategyWeight == "N" && r.metrics.novelty <= 0.0 {
        return;
      }
      if strategyWeight == "S" && r.metrics.satisfaction <= 0.0 {
        return;
      }
      if r.weight > 0.0 {
        if r.hasNumericAtt {
          if isIntervalStrategy {
            var begin, end := IntervalColumns(r.pathOfSubTrees, atts);
            var half := WeightByParam(r, strategyWeight) / 2.0;
            instancesMeta := instancesMeta + [MetaRow(begin, r.definedClass, half), MetaRow(end, r.definedClass, half)];
          } else {
            var values := FillColumns(r.pathOfSubTrees, atts, AtMid);
            instancesMeta := instancesMeta + [MetaRow(values, r.definedClass, WeightByParam(r, strategyWeight))];
          }
        } else {
          var values := FillColumns(r.pathOfSubTrees, atts, AsGiven);
          instancesMeta := instancesMeta + [MetaRow(values, r.definedClass, WeightByParam(r, strategyWeight))];
        }
      }
    }

    /** The column loop of the interval strategy: each attribute's cell in the
        row of the interval's start and in the row of its end. */
    static method IntervalColumns(path: seq<SubTree>, atts: seq<AttributeInfo>) returns (begin: seq<Value>, end: seq<Value>)
      ensures begin == Columns(path, atts, AtMin) && end == Columns(path, atts, AtMax)
    {
      begin, end := [], [];
      var i := 0;
      while i < |atts|
        invariant 0 <= i <= |atts| && |begin| == i && |end| == i
        invariant forall j :: 0 <= j < i ==> begin[j] == Cell(path, atts[j].name, AtMin)
        invariant forall j :: 0 <= j < i ==> end[j] == Cell(path, atts[j].name, AtMax)
      {
        var subTree := GetTreeByAttribute(path, atts[i].name);
        if subTree.Some? {
          if subTree.value.Nominal? {
            begin, end := begin + [Label(subTree.value.value)], end + [Label(subTree.value.value)];
          } else {
            begin, end := begin + [Number(subTree.value.minInterval)], end + [Number(subTree.value.maxInterval)];
          }
        } else {
          begin, end := begin + [Missing], end + [Missing];
        }
        i := i + 1;
      }
    }

    /** The column loop of the average strategy (AtMid) and of a rule without
        numeric condition (AsGiven). */
    static method FillColumns(path: seq<SubTree>, atts: seq<AttributeInfo>, enc: Encoding) returns (values: seq<Value>)
      requires enc == AtMid || enc == AsGiven
      ensures values == Columns(path, atts, enc)
    {
      values := [];
      var i := 0;
      while i < |atts|
        invariant 0 <= i <= |atts| && |values| == i
        invariant forall j :: 0 <= j < i ==> values[j] == Cell(path, atts[j].name, enc)
      {
        var subTree := GetTreeByAttribute(path, atts[i].name);
        if subTree.Some? {
          if subTree.value.Nominal? {
            values := values + [Label(subTree.value.value)];
          } else if enc == AtMid {
            values := values + [Number(AvgInterval(subTree.value))];
          } else {
            values := values + [Number(subTree.value.split)];
          }
        } else {
          values := values + [Missing];
        }
        i := i + 1;
      }
    }
  }
}
