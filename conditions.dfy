/** The conditions of a rule (SubTree, SubTreeNominal, SubTreeNumeric) and how
    RootToLeafItem.setSubTree turns the traversal stack into them, tightening
    the interval of a numeric attribute each time it is tested again. */
module Conditions {
  import opened Wrappers
  import opened Seqs
  import opened Errors
  import opened Catalog

  /** The two comparisons of a numeric split: the left branch is `<`, the right `>=`. */
  datatype Comparison = LessThan | GreaterOrEqual

  /** One entry of the traversal stack (ClassifierIterationStack): the split
      attribute and the branch taken below it. */
  datatype Step =
    | NominalStep(attribute: string, value: string)
    | NumericStep(attribute: string, op: Comparison, split: real)

  /** A condition of a rule: `attribute = value`, or a comparison with the split
      point together with the interval it confines the attribute to. */
  datatype SubTree =
    | Nominal(attribute: string, value: string)
    | Numeric(attribute: string, op: Comparison, split: real, minInterval: real, maxInterval: real)

  /** getAVGInterval: the midpoint of a numeric condition's interval. */
  function AvgInterval(st: SubTree): (m: real)
    requires st.Numeric?
    ensures st.minInterval <= st.maxInterval ==> st.minInterval <= m <= st.maxInterval
    ensures m - st.minInterval == st.maxInterval - m
  {
    (st.minInterval + st.maxInterval) / 2.0
  }

  /** Whether a value satisfies a numeric comparison. */
  predicate Satisfies(v: real, op: Comparison, split: real) {
    if op == LessThan then v < split else v >= split
  }

  /** The condition lists the stack entry; only the interval is left open. */
  predicate Matches(st: SubTree, step: Step) {
    match step
    case NominalStep(a, v) => st == Nominal(a, v)
    case NumericStep(a, op, s) => st.Numeric? && st.attribute == a && st.op == op && st.split == s
  }

  /** Index of the first condition on an attribute. */
  function FirstOn(path: seq<SubTree>, name: string): (r: Option<nat>)
    ensures r.Some? ==> r.value < |path| && path[r.value].attribute == name
    ensures r.Some? ==> forall j :: 0 <= j < r.value ==> path[j].attribute != name
    ensures r.None? <==> forall j :: 0 <= j < |path| ==> path[j].attribute != name
  {
    if path == [] then None
    else if path[0].attribute == name then Some(0)
    else match FirstOn(path[1..], name)
      case None => None
      case Some(k) => Some(k + 1)
  }

  /** getTreeByAttribute: the first condition of the path on that attribute. */
  function GetTreeByAttribute(path: seq<SubTree>, name: string): (r: Option<SubTree>)
    ensures r.None? <==> forall j :: 0 <= j < |path| ==> path[j].attribute != name
    ensures r.Some? ==>
      exists k :: 0 <= k < |path| && path[k] == r.value && r.value.attribute == name
        && forall j :: 0 <= j < k ==> path[j].attribute != name
  {
    match FirstOn(path, name)
    case None => None
    case Some(k) => Some(path[k])
  }

  /** The interval a first test on a numeric attribute gives it: from the
      catalog minimum to the split for `<`, from the split to the catalog
      maximum for `>=`. */
  function SeedInterval(op: Comparison, split: real, item: NumericItem): (iv: (real, real))
    ensures op == LessThan ==> iv.0 == item.min && iv.1 == split
    ensures op == GreaterOrEqual ==> iv.0 == split && iv.1 == item.max
  {
    if op == LessThan then (item.min, split) else (split, item.max)
  }

  /** A repeated test: `<` lowers the maximum only to a smaller split, `>=`
      raises the minimum only to a larger split. The interval never widens. */
  function TightenInterval(iv: (real, real), op: Comparison, split: real): (r: (real, real))
    ensures iv.0 <= r.0 && r.1 <= iv.1
    ensures op == LessThan ==> r.0 == iv.0 && r.1 <= split && (r.1 == split || r.1 == iv.1)
    ensures op == GreaterOrEqual ==> r.1 == iv.1 && r.0 >= split && (r.0 == split || r.0 == iv.0)
  {
    if op == LessThan then (iv.0, if split < iv.1 then split else iv.1)
    else (if split > iv.0 then split else iv.0, iv.1)
  }

  /** setSubTree(attribute, operator, value, type): appends the condition for one
      stack entry. A numeric attribute seen for the first time is seeded from the
      catalog; seen again, its first condition is tightened in place and the new
      condition carries the tightened interval. */
  function AddCondition(path: seq<SubTree>, step: Step, catalog: seq<NumericItem>)
    : (r: Result<seq<SubTree>, MitError>)
    ensures r.Success? ==> |r.value| == |path| + 1 && Matches(r.value[|path|], step)
    ensures r.Success? ==> forall j :: 0 <= j < |path| ==> r.value[j].attribute == path[j].attribute
    ensures step.NominalStep? ==> r == Success(path + [Nominal(step.attribute, step.value)])
  {
    match step
    case NominalStep(a, v) => Success(path + [Nominal(a, v)])
    case NumericStep(a, op, s) =>
      match FirstOn(path, a)
      case Some(k) =>
        if !path[k].Numeric? then Failure(EntryNotNumeric(a))
        else
          var cur := path[k];
          var iv := TightenInterval((cur.minInterval, cur.maxInterval), op, s);
          Success(path[k := cur.(minInterval := iv.0, maxInterval := iv.1)] + [Numeric(a, op, s, iv.0, iv.1)])
      case None =>
        match GetAtt(catalog, a)
        case None => Failure(AttributeNotInCatalog(a))
        case Some(item) =>
          var iv := SeedInterval(op, s, item);
          Success(path + [Numeric(a, op, s, iv.0, iv.1)])
  }

  /** First test of a numeric attribute: seeded from the catalog, nothing else changes. */
  lemma NumericFirstTest(path: seq<SubTree>, a: string, op: Comparison, s: real, catalog: seq<NumericItem>)
    requires FirstOn(path, a).None?
    ensures GetAtt(catalog, a).None? ==> AddCondition(path, NumericStep(a, op, s), catalog) == Failure(AttributeNotInCatalog(a))
    ensures GetAtt(catalog, a).Some? ==>
      var iv := SeedInterval(op, s, GetAtt(catalog, a).value);
      AddCondition(path, NumericStep(a, op, s), catalog) == Success(path + [Numeric(a, op, s, iv.0, iv.1)])
  {
  }

  /** Repeated test of a numeric attribute: only the first condition on it is
      changed, its interval is tightened and never widens, the appended condition
      carries the same interval, and getTreeByAttribute returns the updated entry. */
  lemma NumericRepeatTest(path: seq<SubTree>, a: string, op: Comparison, s: real, catalog: seq<NumericItem>)
    requires FirstOn(path, a).Some?
    ensures var k := FirstOn(path, a).value;
      var r := AddCondition(path, NumericStep(a, op, s), catalog);
      && (!path[k].Numeric? ==> r == Failure(EntryNotNumeric(a)))
      && (path[k].Numeric? ==>
           && r.Success?
           && (forall j :: 0 <= j < |path| && j != k ==> r.value[j] == path[j])
           && r.value[k] == path[k].(minInterval := r.value[k].minInterval, maxInterval := r.value[k].maxInterval)
           && (r.value[k].minInterval, r.value[k].maxInterval)
              == TightenInterval((path[k].minInterval, path[k].maxInterval), op, s)
           && path[k].minInterval <= r.value[k].minInterval && r.value[k].maxInterval <= path[k].maxInterval
           && r.value[|path|].minInterval == r.value[k].minInterval
           && r.value[|path|].maxInterval == r.value[k].maxInterval
           && GetTreeByAttribute(r.value, a) == Some(r.value[k]))
  {
    var k := FirstOn(path, a).value;
    var r := AddCondition(path, NumericStep(a, op, s), catalog);
    if path[k].Numeric? {
      assert forall j :: 0 <= j < k ==> r.value[j].attribute != a;
    }
  }

  /** setSubTree(stack): the conditions of all stack entries, bottom to top. */
  function BuildPath(steps: seq<Step>, catalog: seq<NumericItem>): (r: Result<seq<SubTree>, MitError>)
    ensures r.Success? ==> |r.value| == |steps| && forall i :: 0 <= i < |steps| ==> Matches(r.value[i], steps[i])
    decreases |steps|
  {
    if steps == [] then Success([])
    else
      var path :- BuildPath(steps[..|steps| - 1], catalog);
      AddCondition(path, steps[|steps| - 1], catalog)
  }

  /** The threaded interval of one numeric attribute over a list of stack
      entries: seeded by its first test, tightened by every later one. `None`
      while the attribute has not been tested numerically. */
  function IntervalOf(steps: seq<Step>, name: string, item: NumericItem): Option<(real, real)>
    decreases |steps|
  {
    if steps == [] then None
    else
      var prev := IntervalOf(steps[..|steps| - 1], name, item);
      var last := steps[|steps| - 1];
      if last.NumericStep? && last.attribute == name then
        match prev
        case None => Some(SeedInterval(last.op, last.split, item))
        case Some(iv) => Some(TightenInterval(iv, last.op, last.split))
      else prev
  }

  /** An attribute never tested numerically has no threaded interval. */
  lemma {:induction false} IntervalOfUntested(steps: seq<Step>, name: string, item: NumericItem)
    requires forall j :: 0 <= j < |steps| && steps[j].attribute == name ==> steps[j].NominalStep?
    ensures IntervalOf(steps, name, item).None?
    decreases |steps|
  {
    if steps != [] {
      IntervalOfUntested(steps[..|steps| - 1], name, item);
    }
  }

  /** A stack entry leaves untouched every earlier condition on another attribute. */
  lemma AddConditionKeeps(path: seq<SubTree>, step: Step, catalog: seq<NumericItem>, k: nat)
    requires AddCondition(path, step, catalog).Success?
    requires k < |path| && path[k].attribute != step.attribute
    ensures AddCondition(path, step, catalog).value[k] == path[k]
  {
  }

  /** The first condition on an attribute sits at the first stack entry on it. */
  lemma FirstConditionIndex(steps: seq<Step>, catalog: seq<NumericItem>, name: string, k: nat)
    requires BuildPath(steps, catalog).Success?
    requires k < |steps| && steps[k].attribute == name
    requires forall j :: 0 <= j < k ==> steps[j].attribute != name
    ensures FirstOn(BuildPath(steps, catalog).value, name) == Some(k)
    ensures GetTreeByAttribute(BuildPath(steps, catalog).value, name) == Some(BuildPath(steps, catalog).value[k])
  {
    var p := BuildPath(steps, catalog).value;
    assert forall j :: 0 <= j < k ==> p[j].attribute != name by {
      forall j | 0 <= j < k ensures p[j].attribute != name {
        assert Matches(p[j], steps[j]);
      }
    }
    assert Matches(p[k], steps[k]);
  }

  /** The condition getTreeByAttribute returns for an attribute is the one made
      at the first stack entry on it. For a numeric attribute it holds the fully
      threaded interval; for a nominal one, the path never tests the attribute
      numerically (one that did would have failed). */
  lemma {:induction false} FirstConditionInterval(steps: seq<Step>, catalog: seq<NumericItem>, name: string, k: nat)
    requires BuildPath(steps, catalog).Success?
    requires k < |steps| && steps[k].attribute == name
    requires forall j :: 0 <= j < k ==> steps[j].attribute != name
    ensures GetTreeByAttribute(BuildPath(steps, catalog).value, name) == Some(BuildPath(steps, catalog).value[k])
    ensures steps[k].NominalStep? ==>
      forall j :: 0 <= j < |steps| && steps[j].attribute == name ==> steps[j].NominalStep?
    ensures steps[k].NumericStep? ==>
      && GetAtt(catalog, name).Some?
      && IntervalOf(steps, name, GetAtt(catalog, name).value)
         == Some((BuildPath(steps, catalog).value[k].minInterval, BuildPath(steps, catalog).value[k].maxInterval))
    decreases |steps|
  {
    FirstConditionIndex(steps, catalog, name, k);
    var n := |steps|;
    var init, last := steps[..n - 1], steps[n - 1];
    assert BuildPath(init, catalog).Success?;
    var p0 := BuildPath(init, catalog).value;
    var p := BuildPath(steps, catalog).value;
    assert AddCondition(p0, last, catalog) == Success(p);
    if k < n - 1 {
      FirstConditionInterval(init, catalog, name, k);
      FirstConditionIndex(init, catalog, name, k);
      assert Matches(p0[k], steps[k]);
      if last.attribute != name {
        AddConditionKeeps(p0, last, catalog, k);
      } else if last.NumericStep? {
        NumericRepeatTest(p0, name, last.op, last.split, catalog);
      }
      if steps[k].NominalStep? {
        forall j | 0 <= j < n && steps[j].attribute == name ensures steps[j].NominalStep? {
          if j < n - 1 {
            assert init[j] == steps[j];
          }
        }
      }
    } else {
      assert FirstOn(p0, name).None?;
      if last.NumericStep? {
        NumericFirstTest(p0, name, last.op, last.split, catalog);
        IntervalOfUntested(init, name, GetAtt(catalog, name).value);
      }
    }
  }

  /** When every split point on the attribute lies inside its catalog range,
      the threaded interval stays inside that range. */
  lemma {:induction false} IntervalWithinCatalog(steps: seq<Step>, name: string, item: NumericItem)
    requires forall j :: 0 <= j < |steps| && steps[j].NumericStep? && steps[j].attribute == name ==>
      item.min <= steps[j].split <= item.max
    ensures IntervalOf(steps, name, item).Some? ==>
      item.min <= IntervalOf(steps, name, item).value.0 && IntervalOf(steps, name, item).value.1 <= item.max
    decreases |steps|
  {
    if steps != [] {
      IntervalWithinCatalog(steps[..|steps| - 1], name, item);
    }
  }

  /** A value in the catalog range that passes every numeric test of the path on
      the attribute lies in the threaded interval; so the interval of a leaf that
      some such value reaches is never empty (minimum <= maximum). */
  lemma {:induction false} IntervalContains(steps: seq<Step>, name: string, item: NumericItem, v: real)
    requires item.min <= v <= item.max
    requires forall j :: 0 <= j < |steps| && steps[j].NumericStep? && steps[j].attribute == name ==>
      Satisfies(v, steps[j].op, steps[j].split)
    ensures IntervalOf(steps, name, item).Some? ==>
      IntervalOf(steps, name, item).value.0 <= v <= IntervalOf(steps, name, item).value.1
    decreases |steps|
  {
    if steps != [] {
      IntervalContains(steps[..|steps| - 1], name, item, v);
    }
  }
}
