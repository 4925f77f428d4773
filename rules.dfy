/** TreeAsRootToLeaf: a random tree flattened into its root-to-leaf rules.
    `dumpTree` walks the tree depth first with one shared stack of branch
    choices; at every leaf a RootToLeafItem turns the stack into conditions,
    scores the leaf, and is kept when the weight reaching the leaf is positive. */
module RootToLeaf {
  import opened Wrappers
  import opened Seqs
  import opened Errors
  import opened Catalog
  import opened Conditions
  import opened Metrics

  // ---------------------------------------------------------------- trees

  /** A trained random tree, as far as the extraction reads it. A leaf carries
      its class distribution (Weka may have none). A nominal split has one
      successor per label of its attribute, listed with that label; a numeric
      split has the `<` successor and the `>=` successor. */
  datatype Tree =
    | Leaf(classDistribution: Option<seq<real>>)
    | NominalSplit(attribute: string, branches: seq<Branch>)
    | NumericSplit(attribute: string, splitPoint: real, less: Tree, greaterOrEqual: Tree)

  datatype Branch = Branch(value: string, successor: Tree)

  /** A leaf together with the stack of branch choices that leads to it. */
  datatype LeafPath = LeafPath(steps: seq<Step>, distribution: Option<seq<real>>)

  /** The leaves below `t`, reached from the stack `prefix`, in the order a
      depth-first walk meets them: branches by ascending index, `<` before `>=`. */
  function LeafPaths(t: Tree, prefix: seq<Step>): seq<LeafPath>
    decreases t
  {
    match t
    case Leaf(d) => [LeafPath(prefix, d)]
    case NominalSplit(a, bs) => BranchPaths(a, bs, prefix)
    case NumericSplit(a, s, lt, ge) =>
      LeafPaths(lt, prefix + [NumericStep(a, LessThan, s)])
      + LeafPaths(ge, prefix + [NumericStep(a, GreaterOrEqual, s)])
  }

  /** The leaves below the given branches of a nominal split on `a`. */
  function BranchPaths(a: string, bs: seq<Branch>, prefix: seq<Step>): seq<LeafPath>
    decreases bs
  {
    if bs == [] then []
    else
      var b := bs[|bs| - 1];
      BranchPaths(a, bs[..|bs| - 1], prefix) + LeafPaths(b.successor, prefix + [NominalStep(a, b.value)])
  }

  /** `steps` leads from the root of `t` to a leaf with distribution `d`. */
  predicate Reaches(t: Tree, steps: seq<Step>, d: Option<seq<real>>)
    decreases t
  {
    match t
    case Leaf(d0) => steps == [] && d == d0
    case NominalSplit(a, bs) =>
      && steps != []
      && exists i :: 0 <= i < |bs| && steps[0] == NominalStep(a, bs[i].value) && Reaches(bs[i].successor, steps[1..], d)
    case NumericSplit(a, s, lt, ge) =>
      && steps != []
      && ((steps[0] == NumericStep(a, LessThan, s) && Reaches(lt, steps[1..], d))
          || (steps[0] == NumericStep(a, GreaterOrEqual, s) && Reaches(ge, steps[1..], d)))
  }

  /** The number of leaves of a tree. */
  function LeafCount(t: Tree): nat
    decreases t
  {
    match t
    case Leaf(_) => 1
    case NominalSplit(_, bs) => BranchLeafCount(bs)
    case NumericSplit(_, _, lt, ge) => LeafCount(lt) + LeafCount(ge)
  }

  function BranchLeafCount(bs: seq<Branch>): nat
    decreases bs
  {
    if bs == [] then 0 else BranchLeafCount(bs[..|bs| - 1]) + LeafCount(bs[|bs| - 1].successor)
  }

  /** The walk visits every leaf exactly once: one entry per leaf. */
  lemma {:induction false} LeafPathsCount(t: Tree, prefix: seq<Step>)
    ensures |LeafPaths(t, prefix)| == LeafCount(t)
    decreases t, 1
  {
    match t
    case Leaf(_) =>
    case NominalSplit(a, bs) => BranchPathsCount(a, bs, prefix);
    case NumericSplit(a, s, lt, ge) =>
      LeafPathsCount(lt, prefix + [NumericStep(a, LessThan, s)]);
      LeafPathsCount(ge, prefix + [NumericStep(a, GreaterOrEqual, s)]);
  }

  lemma {:induction false} BranchPathsCount(a: string, bs: seq<Branch>, prefix: seq<Step>)
    ensures |BranchPaths(a, bs, prefix)| == BranchLeafCount(bs)
    decreases bs, 0
  {
    if bs != [] {
      var b := bs[|bs| - 1];
      BranchPathsCount(a, bs[..|bs| - 1], prefix);
      LeafPathsCount(b.successor, prefix + [NominalStep(a, b.value)]);
    }
  }

  /** Every entry the walk lists is the stack it was started with followed by
      a root-to-leaf path of the tree, ending at that leaf's distribution. */
  lemma {:induction false} LeafPathsSound(t: Tree, prefix: seq<Step>, j: nat)
    requires j < |LeafPaths(t, prefix)|
    ensures var lp := LeafPaths(t, prefix)[j];
      |prefix| <= |lp.steps| && lp.steps[..|prefix|] == prefix
      && Reaches(t, lp.steps[|prefix|..], lp.distribution)
    decreases t, 1
  {
    match t
    case Leaf(_) =>
    case NominalSplit(a, bs) =>
      BranchPathsSound(a, bs, prefix, j);
    case NumericSplit(a, s, lt, ge) =>
      var pl, pg := prefix + [NumericStep(a, LessThan, s)], prefix + [NumericStep(a, GreaterOrEqual, s)];
      var left := LeafPaths(lt, pl);
      var lp := LeafPaths(t, prefix)[j];
      if j < |left| {
        LeafPathsSound(lt, pl, j);
        assert lp == left[j];
        assert lp.steps[|prefix|..][1..] == lp.steps[|pl|..];
      } else {
        LeafPathsSound(ge, pg, j - |left|);
        assert lp == LeafPaths(ge, pg)[j - |left|];
        assert lp.steps[|prefix|..][1..] == lp.steps[|pg|..];
      }
  }

  lemma {:induction false} BranchPathsSound(a: string, bs: seq<Branch>, prefix: seq<Step>, j: nat)
    requires j < |BranchPaths(a, bs, prefix)|
    ensures var lp := BranchPaths(a, bs, prefix)[j];
      |prefix| <= |lp.steps| && lp.steps[..|prefix|] == prefix
      && Reaches(NominalSplit(a, bs), lp.steps[|prefix|..], lp.distribution)
    decreases bs, 0
  {
    var init, b := bs[..|bs| - 1], bs[|bs| - 1];
    var front := BranchPaths(a, init, prefix);
    var lp := BranchPaths(a, bs, prefix)[j];
    if j < |front| {
      BranchPathsSound(a, init, prefix, j);
      assert lp == front[j];
      var i :| 0 <= i < |init| && lp.steps[|prefix|..][0] == NominalStep(a, init[i].value)
        && Reaches(init[i].successor, lp.steps[|prefix|..][1..], lp.distribution);
      assert init[i] == bs[i];
    } else {
      var pb := prefix + [NominalStep(a, b.value)];
      LeafPathsSound(b.successor, pb, j - |front|);
      assert lp == LeafPaths(b.successor, pb)[j - |front|];
      assert lp.steps[|prefix|..][1..] == lp.steps[|pb|..];
      assert lp.steps[|prefix|..][0] == NominalStep(a, bs[|bs| - 1].value);
    }
  }

  /** Every root-to-leaf path of the tree is listed by the walk. */
  lemma {:induction false} LeafPathsComplete(t: Tree, prefix: seq<Step>, steps: seq<Step>, d: Option<seq<real>>)
    requires Reaches(t, steps, d)
    ensures LeafPath(prefix + steps, d) in LeafPaths(t, prefix)
    decreases t, 1
  {
    match t
    case Leaf(_) =>
      assert prefix + steps == prefix;
    case NominalSplit(a, bs) =>
      var i :| 0 <= i < |bs| && steps[0] == NominalStep(a, bs[i].value) && Reaches(bs[i].successor, steps[1..], d);
      BranchPathsComplete(a, bs, prefix, i, steps, d);
    case NumericSplit(a, s, lt, ge) =>
      assert prefix + steps == (prefix + [steps[0]]) + steps[1..];
      if steps[0] == NumericStep(a, LessThan, s) && Reaches(lt, steps[1..], d) {
        LeafPathsComplete(lt, prefix + [steps[0]], steps[1..], d);
      } else {
        LeafPathsComplete(ge, prefix + [steps[0]], steps[1..], d);
      }
  }

  lemma {:induction false} BranchPathsComplete(a: string, bs: seq<Branch>, prefix: seq<Step>, i: nat,
                                              steps: seq<Step>, d: Option<seq<real>>)
    requires i < |bs| && steps != []
    requires steps[0] == NominalStep(a, bs[i].value) && Reaches(bs[i].successor, steps[1..], d)
    ensures LeafPath(prefix + steps, d) in BranchPaths(a, bs, prefix)
    decreases bs, 0
  {
    var init := bs[..|bs| - 1];
    if i < |bs| - 1 {
      assert init[i] == bs[i];
      BranchPathsComplete(a, init, prefix, i, steps, d);
    } else {
      assert prefix + steps == (prefix + [steps[0]]) + steps[1..];
      LeafPathsComplete(bs[i].successor, prefix + [steps[0]], steps[1..], d);
    }
  }

  /** The first `j` branches list a prefix of what all branches list. */
  lemma {:induction false} BranchPathsPrefix(a: string, bs: seq<Branch>, prefix: seq<Step>, j: nat)
    requires j <= |bs|
    ensures var front := BranchPaths(a, bs[..j], prefix);
      |front| <= |BranchPaths(a, bs, prefix)| && BranchPaths(a, bs, prefix)[..|front|] == front
    decreases |bs|
  {
    if j < |bs| {
      var init := bs[..|bs| - 1];
      BranchPathsPrefix(a, init, prefix, j);
      assert init[..j] == bs[..j];
    } else {
      assert bs[..j] == bs;
    }
  }

  // ---------------------------------------------------------------- rules

  /** A finished RootToLeafItem: the conditions of its path, the class it
      predicts, its weight, error and correctly classified weight, whether a
      numeric split lies on its path, its contingency table and its metrics. */
  datatype LeafRule = LeafRule(
    pathOfSubTrees: seq<SubTree>,
    definedClass: string,
    weight: real,
    error: real,
    correct: real,
    hasNumericAtt: bool,
    contingencyMatrix: ContingencyMatrix,
    metrics: RuleMetrics)

  /** What the extraction reads of the training data: the numeric attribute
      summaries, the class-weight table and the labels of the class. */
  datatype Training = Training(catalog: seq<NumericItem>, info: DatasetInfo, classValues: seq<string>)

  /** The rule metrics are defined: some instance has weight, and no class
      holds all of it (so the weight outside a rule's class is positive). */
  predicate Scorable(info: DatasetInfo) {
    && info.sumOfWeights > 0.0
    && forall j :: 0 <= j < |info.weightByClassValue| ==> info.weightByClassValue[j].weight < info.sumOfWeights
  }

  lemma ScorableOfData(ds: Dataset, info: DatasetInfo)
    requires InfoOf(ds, info) && MetricsDefined(ds)
    ensures Scorable(info)
  {
  }

  /** The class weight of a label, or the failure Java meets on the missing entry. */
  function ClassWeight(info: DatasetInfo, value: string): (r: Result<real, MitError>)
    ensures r.Success? ==> GetWeightByClassValue(info, value) == Some(r.value)
    ensures r.Failure? ==> GetWeightByClassValue(info, value).None? && r.error == ClassWeightMissing(value)
  {
    match GetWeightByClassValue(info, value)
    case None => Failure(ClassWeightMissing(value))
    case Some(w) => Success(w)
  }

  /** Whether a numeric split lies on the stack. */
  predicate HasNumericStep(steps: seq<Step>) {
    exists j :: 0 <= j < |steps| && steps[j].NumericStep?
  }

  /** The rule a leaf gives: None when the weight reaching it is not positive
      (the leaf is dropped), a failure when Java throws on the way. */
  function MakeRule(steps: seq<Step>, d: Option<seq<real>>, tr: Training): (r: Result<Option<LeafRule>, MitError>)
    requires Scorable(tr.info)
    ensures r.Success? && r.value.Some? ==> r.value.value.weight > 0.0
  {
    var path :- BuildPath(steps, tr.catalog);
    var stat :- LeafStats(d, tr.classValues);
    var weightOfClass :- ClassWeight(tr.info, stat.definedClass);
    if stat.weight > 0.0 then
      var cm := Calc(stat.weight - stat.error, stat.error, weightOfClass, tr.info.sumOfWeights);
      Success(Some(LeafRule(path, stat.definedClass, stat.weight, stat.error, stat.weight - stat.error,
        HasNumericStep(steps), cm, ComputeMetrics(stat.weight, cm, tr.info.numClasses, tr.info.sumOfWeights))))
    else
      Success(None)
  }

  /** What each leaf gives, in order. */
  function LeafItems(leaves: seq<LeafPath>, tr: Training): (items: seq<Result<Option<LeafRule>, MitError>>)
    requires Scorable(tr.info)
    ensures |items| == |leaves|
    ensures forall j :: 0 <= j < |leaves| ==> items[j] == MakeRule(leaves[j].steps, leaves[j].distribution, tr)
  {
    seq(|leaves|, j requires 0 <= j < |leaves| => MakeRule(leaves[j].steps, leaves[j].distribution, tr))
  }

  /** The rules of a list of leaves, in order; the first failure aborts. */
  function ExtractRules(leaves: seq<LeafPath>, tr: Training): Result<seq<LeafRule>, MitError>
    requires Scorable(tr.info)
  {
    Collect(LeafItems(leaves, tr))
  }

  /** Extracting from two lists one after the other: the first failure wins,
      otherwise the rules of the second follow those of the first. */
  lemma ExtractRulesAppend(a: seq<LeafPath>, b: seq<LeafPath>, tr: Training)
    requires Scorable(tr.info)
    ensures ExtractRules(a + b, tr) == Concat(ExtractRules(a, tr), ExtractRules(b, tr))
  {
    assert LeafItems(a + b, tr) == LeafItems(a, tr) + LeafItems(b, tr);
    CollectAppend(LeafItems(a, tr), LeafItems(b, tr));
  }

  /** Extracting a single leaf: its failure, the rule it gives, or nothing. */
  lemma ExtractRulesSingle(lp: LeafPath, tr: Training)
    requires Scorable(tr.info)
    ensures ExtractRules([lp], tr) == Listed(MakeRule(lp.steps, lp.distribution, tr))
  {
    assert LeafItems([lp], tr) == [MakeRule(lp.steps, lp.distribution, tr)];
    CollectSingle(MakeRule(lp.steps, lp.distribution, tr));
  }

  /** The stages of a leaf's rule: the conditions of the stack, then the
      leaf's statistics, then the weight of its class; the first that fails
      is the leaf's failure. */
  lemma MakeRuleStages(steps: seq<Step>, d: Option<seq<real>>, tr: Training)
    requires Scorable(tr.info)
    ensures BuildPath(steps, tr.catalog).Failure? ==> MakeRule(steps, d, tr) == Failure(BuildPath(steps, tr.catalog).error)
    ensures BuildPath(steps, tr.catalog).Success? && LeafStats(d, tr.classValues).Failure? ==>
      MakeRule(steps, d, tr) == Failure(LeafStats(d, tr.classValues).error)
    ensures (BuildPath(steps, tr.catalog).Success? && LeafStats(d, tr.classValues).Success?
      && ClassWeight(tr.info, LeafStats(d, tr.classValues).value.definedClass).Failure?) ==>
      MakeRule(steps, d, tr) == Failure(ClassWeight(tr.info, LeafStats(d, tr.classValues).value.definedClass).error)
    ensures (BuildPath(steps, tr.catalog).Success? && LeafStats(d, tr.classValues).Success?
      && ClassWeight(tr.info, LeafStats(d, tr.classValues).value.definedClass).Success?) ==>
      var st := LeafStats(d, tr.classValues).value;
      var cm := Calc(st.weight - st.error, st.error, ClassWeight(tr.info, st.definedClass).value, tr.info.sumOfWeights);
      MakeRule(steps, d, tr) ==
        if st.weight > 0.0 then
          Success(Some(LeafRule(BuildPath(steps, tr.catalog).value, st.definedClass, st.weight, st.error,
            st.weight - st.error, HasNumericStep(steps), cm, ComputeMetrics(st.weight, cm, tr.info.numClasses, tr.info.sumOfWeights))))
        else Success(None)
  {
  }

  /** A rule that Java keeps: positive weight, correct = weight - error, a
      contingency table built from the weight of its class, and the metrics of
      that table. */
  predicate WellScored(r: LeafRule, info: DatasetInfo) {
    && r.weight > 0.0
    && r.correct == r.weight - r.error
    && GetWeightByClassValue(info, r.definedClass).Some?
    && r.contingencyMatrix == Calc(r.correct, r.error, GetWeightByClassValue(info, r.definedClass).value, info.sumOfWeights)
    && Scorable(info)
    && r.metrics == ComputeMetrics(r.weight, r.contingencyMatrix, info.numClasses, info.sumOfWeights)
  }

  /** The weight `setClass` gives a leaf: the total of its distribution, 0 without one. */
  function LeafWeight(d: Option<seq<real>>): real {
    if d.None? then 0.0 else Sum(d.value)
  }

  /** What a leaf's rule holds: its conditions are exactly the leaf's stack
      (one per entry, in stack order), it has a numeric condition exactly when
      the stack has a numeric split, it is well scored, and its weight is the
      leaf's. A leaf of weight 0 (in particular one without a distribution)
      gives no rule. */
  lemma MakeRuleShape(steps: seq<Step>, d: Option<seq<real>>, tr: Training)
    requires Scorable(tr.info)
    requires MakeRule(steps, d, tr).Success?
    ensures MakeRule(steps, d, tr).value.Some? <==> LeafWeight(d) > 0.0
    ensures MakeRule(steps, d, tr).value.Some? ==>
      var r := MakeRule(steps, d, tr).value.value;
      && BuildPath(steps, tr.catalog) == Success(r.pathOfSubTrees)
      && |r.pathOfSubTrees| == |steps|
      && (forall i :: 0 <= i < |steps| ==> Matches(r.pathOfSubTrees[i], steps[i]))
      && (r.hasNumericAtt <==> exists i :: 0 <= i < |r.pathOfSubTrees| && r.pathOfSubTrees[i].Numeric?)
      && WellScored(r, tr.info)
      && r.weight == LeafWeight(d)
    ensures MakeRule(steps, d, tr).value.Some? ==>
      var r := MakeRule(steps, d, tr).value.value;
      && d.Some? && d.value != [] && MaxIndex(d.value) < |tr.classValues|
      && r.definedClass == tr.classValues[MaxIndex(d.value)]
      && r.error == Sum(d.value) - d.value[MaxIndex(d.value)]
      && (NonNegative(d.value) ==>
            && 0.0 <= r.error <= r.weight
            && forall j :: 0 <= j < |d.value| ==> d.value[j] <= r.correct)
  {
    MakeRuleStages(steps, d, tr);
    if BuildPath(steps, tr.catalog).Success? {
      NumericStepOnPath(steps, tr.catalog);
    }
    if d.Some? && NonNegative(d.value) && LeafStats(d, tr.classValues).Success? {
      LeafStatBounds(d.value, tr.classValues);
    }
  }

  /** The stack has a numeric split exactly when the conditions built from it
      hold a numeric condition. */
  lemma NumericStepOnPath(steps: seq<Step>, catalog: seq<NumericItem>)
    requires BuildPath(steps, catalog).Success?
    ensures HasNumericStep(steps) <==>
      exists i :: 0 <= i < |BuildPath(steps, catalog).value| && BuildPath(steps, catalog).value[i].Numeric?
  {
    var p := BuildPath(steps, catalog).value;
    if HasNumericStep(steps) {
      var i :| 0 <= i < |steps| && steps[i].NumericStep?;
      assert Matches(p[i], steps[i]);
    }
    if exists i :: 0 <= i < |p| && p[i].Numeric? {
      var i :| 0 <= i < |p| && p[i].Numeric?;
      assert Matches(p[i], steps[i]);
    }
  }

  /** The extracted rules are one per leaf of positive weight; each is well
      scored and its conditions are those of one of the leaves' stacks. */
  lemma ExtractRulesShape(leaves: seq<LeafPath>, tr: Training)
    requires Scorable(tr.info)
    requires ExtractRules(leaves, tr).Success?
    ensures |ExtractRules(leaves, tr).value| == |set j | 0 <= j < |leaves| && LeafWeight(leaves[j].distribution) > 0.0|
    ensures forall r :: r in ExtractRules(leaves, tr).value ==>
      WellScored(r, tr.info)
      && exists j :: 0 <= j < |leaves| && BuildPath(leaves[j].steps, tr.catalog) == Success(r.pathOfSubTrees)
  {
    var items := LeafItems(leaves, tr);
    CollectSuccess(items);
    forall j | 0 <= j < |leaves| ensures items[j].Success? && (items[j].value.Some? <==> LeafWeight(leaves[j].distribution) > 0.0) {
      MakeRuleShape(leaves[j].steps, leaves[j].distribution, tr);
    }
    CountSomeIsPositive(items, leaves);
    forall r | r in ExtractRules(leaves, tr).value
      ensures WellScored(r, tr.info)
      ensures exists j :: 0 <= j < |leaves| && BuildPath(leaves[j].steps, tr.catalog) == Success(r.pathOfSubTrees)
    {
      var j :| 0 <= j < |items| && items[j] == Success(Some(r));
      MakeRuleShape(leaves[j].steps, leaves[j].distribution, tr);
    }
  }

  /** When no leaf distribution holds a negative weight, every extracted rule
      misclassifies between 0 and its weight, so the tree error of the
      extracted rules lies between 0 and their total weight. */
  lemma ExtractedErrorBounds(leaves: seq<LeafPath>, tr: Training)
    requires Scorable(tr.info)
    requires ExtractRules(leaves, tr).Success?
    requires forall j :: 0 <= j < |leaves| && leaves[j].distribution.Some? ==> NonNegative(leaves[j].distribution.value)
    ensures var rules := ExtractRules(leaves, tr).value;
      && (forall i :: 0 <= i < |rules| ==> 0.0 <= rules[i].error <= rules[i].weight)
      && 0.0 <= TreeError(rules) <= TotalWeight(rules)
  {
    var items := LeafItems(leaves, tr);
    var rules := ExtractRules(leaves, tr).value;
    CollectSuccess(items);
    forall i | 0 <= i < |rules| ensures 0.0 <= rules[i].error <= rules[i].weight {
      var j :| 0 <= j < |items| && items[j] == Success(Some(rules[i]));
      MakeRuleShape(leaves[j].steps, leaves[j].distribution, tr);
    }
    TreeErrorBounds(rules);
  }

  /** getTreeError of a tree whose leaves carry no negative weight: the
      summed error of its rules lies between 0 and their total weight. */
  lemma TreeErrorOfTree(t: Tree, tr: Training)
    requires Scorable(tr.info)
    requires ExtractRules(LeafPaths(t, []), tr).Success?
    requires forall steps, d :: Reaches(t, steps, d) && d.Some? ==> NonNegative(d.value)
    ensures var rules := ExtractRules(LeafPaths(t, []), tr).value;
      0.0 <= TreeError(rules) <= TotalWeight(rules)
  {
    var leaves := LeafPaths(t, []);
    forall j | 0 <= j < |leaves| && leaves[j].distribution.Some?
      ensures NonNegative(leaves[j].distribution.value)
    {
      LeafPathsSound(t, [], j);
      assert leaves[j].steps[0..] == leaves[j].steps;
    }
    ExtractedErrorBounds(leaves, tr);
  }

  /** Counting the items that produce a rule counts the leaves of positive weight. */
  lemma {:induction false} CountSomeIsPositive(items: seq<Result<Option<LeafRule>, MitError>>, leaves: seq<LeafPath>)
    requires |items| == |leaves|
    requires forall j :: 0 <= j < |leaves| ==>
      items[j].Success? && (items[j].value.Some? <==> LeafWeight(leaves[j].distribution) > 0.0)
    ensures CountSome(items) == |set j | 0 <= j < |leaves| && LeafWeight(leaves[j].distribution) > 0.0|
    decreases |items|
  {
    var n := |items|;
    var positive := set j | 0 <= j < n && LeafWeight(leaves[j].distribution) > 0.0;
    if n > 0 {
      var init, linit := items[..n - 1], leaves[..n - 1];
      CountSomeIsPositive(init, linit);
      var front := set j | 0 <= j < n - 1 && LeafWeight(linit[j].distribution) > 0.0;
      if LeafWeight(leaves[n - 1].distribution) > 0.0 {
        assert positive == front + {n - 1};
      } else {
        assert positive == front;
      }
    } else {
      assert positive == {};
    }
  }

  // ---------------------------------------------------------------- the walk, tree by tree

  /** What a leaf gives, as a function of its stack and its distribution. */
  type LeafRuleMaker = (seq<Step>, Option<seq<real>>) -> Result<Option<LeafRule>, MitError>

  /** `rule` is MakeRule over the training data. The equation is instantiated
      only where MakeRule itself is mentioned, so that a proof about the walk
      does not unfold how a leaf is scored. */
  ghost predicate MakesRules(rule: LeafRuleMaker, tr: Training) {
    && Scorable(tr.info)
    && forall steps, d {:trigger MakeRule(steps, d, tr)} :: rule(steps, d) == MakeRule(steps, d, tr)
  }

  /** The rules dumpTree appends for the subtree `t` reached with stack
      `prefix`, following the recursion of dumpTree: a leaf gives its rule,
      the successors of a split are walked in order, and the first failure
      ends the walk. */
  function TreeRules(t: Tree, prefix: seq<Step>, rule: LeafRuleMaker): Result<seq<LeafRule>, MitError>
    decreases t
  {
    match t
    case Leaf(d) => Listed(rule(prefix, d))
    case NominalSplit(a, bs) => BranchRules(a, bs, prefix, rule)
    case NumericSplit(a, s, lt, ge) =>
      Concat(TreeRules(lt, prefix + [NumericStep(a, LessThan, s)], rule),
             TreeRules(ge, prefix + [NumericStep(a, GreaterOrEqual, s)], rule))
  }

  function BranchRules(a: string, bs: seq<Branch>, prefix: seq<Step>, rule: LeafRuleMaker): Result<seq<LeafRule>, MitError>
    decreases bs
  {
    if bs == [] then Success([])
    else
      var b := bs[|bs| - 1];
      Concat(BranchRules(a, bs[..|bs| - 1], prefix, rule), TreeRules(b.successor, prefix + [NominalStep(a, b.value)], rule))
  }

  /** The recursive walk extracts exactly the rules of the flat list of
      leaves, in walk order, with the same first failure. */
  lemma {:induction false} TreeRulesFlat(t: Tree, prefix: seq<Step>, rule: LeafRuleMaker, tr: Training)
    requires MakesRules(rule, tr)
    ensures TreeRules(t, prefix, rule) == ExtractRules(LeafPaths(t, prefix), tr)
    decreases t, 1
  {
    match t
    case Leaf(d) =>
      ExtractRulesSingle(LeafPath(prefix, d), tr);
    case NominalSplit(a, bs) =>
      BranchRulesFlat(a, bs, prefix, rule, tr);
    case NumericSplit(a, s, lt, ge) =>
      var pl, pg := prefix + [NumericStep(a, LessThan, s)], prefix + [NumericStep(a, GreaterOrEqual, s)];
      TreeRulesFlat(lt, pl, rule, tr);
      TreeRulesFlat(ge, pg, rule, tr);
      ExtractRulesAppend(LeafPaths(lt, pl), LeafPaths(ge, pg), tr);
  }

  lemma {:induction false} BranchRulesFlat(a: string, bs: seq<Branch>, prefix: seq<Step>, rule: LeafRuleMaker, tr: Training)
    requires MakesRules(rule, tr)
    ensures BranchRules(a, bs, prefix, rule) == ExtractRules(BranchPaths(a, bs, prefix), tr)
    decreases bs, 0
  {
    if bs == [] {
      assert LeafItems([], tr) == [];
    } else {
      var init, b := bs[..|bs| - 1], bs[|bs| - 1];
      var pb := prefix + [NominalStep(a, b.value)];
      BranchRulesFlat(a, init, prefix, rule, tr);
      TreeRulesFlat(b.successor, pb, rule, tr);
      ExtractRulesAppend(BranchPaths(a, init, prefix), LeafPaths(b.successor, pb), tr);
    }
  }

  /** The walk of the first `j` branches fails like the walk of all of them. */
  lemma {:induction false} BranchRulesPrefixFailure(a: string, bs: seq<Branch>, prefix: seq<Step>, rule: LeafRuleMaker, j: nat)
    requires j <= |bs| && BranchRules(a, bs[..j], prefix, rule).Failure?
    ensures BranchRules(a, bs, prefix, rule) == BranchRules(a, bs[..j], prefix, rule)
    decreases |bs|
  {
    if j < |bs| {
      var init := bs[..|bs| - 1];
      assert init[..j] == bs[..j];
      BranchRulesPrefixFailure(a, init, prefix, rule, j);
    } else {
      assert bs[..j] == bs;
    }
  }

  /** The rule a leaf's item stands for, stage by stage, for a rule maker
      that is MakeRule. */
  lemma LeafRuleStages(rule: LeafRuleMaker, steps: seq<Step>, d: Option<seq<real>>, tr: Training)
    requires MakesRules(rule, tr)
    ensures BuildPath(steps, tr.catalog).Failure? ==> rule(steps, d) == Failure(BuildPath(steps, tr.catalog).error)
    ensures BuildPath(steps, tr.catalog).Success? && LeafStats(d, tr.classValues).Failure? ==>
      rule(steps, d) == Failure(LeafStats(d, tr.classValues).error)
    ensures (BuildPath(steps, tr.catalog).Success? && LeafStats(d, tr.classValues).Success?
      && ClassWeight(tr.info, LeafStats(d, tr.classValues).value.definedClass).Failure?) ==>
      rule(steps, d) == Failure(ClassWeight(tr.info, LeafStats(d, tr.classValues).value.definedClass).error)
    ensures (BuildPath(steps, tr.catalog).Success? && LeafStats(d, tr.classValues).Success?
      && ClassWeight(tr.info, LeafStats(d, tr.classValues).value.definedClass).Success?) ==>
      var st := LeafStats(d, tr.classValues).value;
      var cm := Calc(st.weight - st.error, st.error, ClassWeight(tr.info, st.definedClass).value, tr.info.sumOfWeights);
      rule(steps, d) ==
        if st.weight > 0.0 then
          Success(Some(LeafRule(BuildPath(steps, tr.catalog).value, st.definedClass, st.weight, st.error,
            st.weight - st.error, HasNumericStep(steps), cm, ComputeMetrics(st.weight, cm, tr.info.numClasses, tr.info.sumOfWeights))))
        else Success(None)
  {
    MakeRuleStages(steps, d, tr);
  }

  // ---------------------------------------------------------------- tree error

  /** getTreeError: the summed error of the rules, 0 for none. */
  function TreeError(rules: seq<LeafRule>): real
    decreases |rules|
  {
    if rules == [] then 0.0 else TreeError(rules[..|rules| - 1]) + rules[|rules| - 1].error
  }

  function TotalWeight(rules: seq<LeafRule>): real
    decreases |rules|
  {
    if rules == [] then 0.0 else TotalWeight(rules[..|rules| - 1]) + rules[|rules| - 1].weight
  }

  /** The error of two rule lists together is the sum of their errors. */
  lemma {:induction false} TreeErrorAppend(a: seq<LeafRule>, b: seq<LeafRule>)
    ensures TreeError(a + b) == TreeError(a) + TreeError(b)
    decreases |b|
  {
    if b != [] {
      assert (a + b)[..|a + b| - 1] == a + b[..|b| - 1];
      TreeErrorAppend(a, b[..|b| - 1]);
    } else {
      assert a + b == a;
    }
  }

  /** When every rule's error lies between 0 and its weight, the tree error
      lies between 0 and the rules' total weight. */
  lemma {:induction false} TreeErrorBounds(rules: seq<LeafRule>)
    requires forall i :: 0 <= i < |rules| ==> 0.0 <= rules[i].error <= rules[i].weight
    ensures 0.0 <= TreeError(rules) <= TotalWeight(rules)
    decreases |rules|
  {
    if rules != [] {
      TreeErrorBounds(rules[..|rules| - 1]);
    }
  }

  // ---------------------------------------------------------------- RootToLeafItem

  /** The stack after one entry is popped (nothing when it is empty). */
  function Popped(stack: seq<Step>): (r: seq<Step>)
    ensures stack != [] ==> r + [stack[|stack| - 1]] == stack
    ensures stack == [] ==> r == []
  {
    if stack == [] then [] else stack[..|stack| - 1]
  }

  /** Popping undoes a push. */
  lemma PoppedPush(stack: seq<Step>, entry: Step)
    ensures Popped(stack + [entry]) == stack
  {
    assert (stack + [entry])[..|stack|] == stack;
  }

  /** A rule under construction: the conditions are appended one stack entry at
      a time, the first condition on a numeric attribute being tightened in
      place; then setClass scores the leaf. */
  class RootToLeafItem {
    var pathOfSubTrees: seq<SubTree>
    var hasNumericAtt: bool
    var definedClass: string
    var weight: real
    var error: real
    var correct: real
    var contingencyMatrix: ContingencyMatrix
    var metrics: RuleMetrics

    constructor ()
      ensures pathOfSubTrees == [] && !hasNumericAtt
    {
      pathOfSubTrees := [];
      hasNumericAtt := false;
      definedClass := "";
      weight, error, correct := 0.0, 0.0, 0.0;
      contingencyMatrix := ContingencyMatrix(0.0, 0.0, 0.0, 0.0, 0.0, 0.0, 0.0, 0.0);
      metrics := RuleMetrics(0.0, 0.0, 0.0, 0.0, 0.0, 0.0, 0.0, 0.0);
    }

    /** setSubTree(attribute, operator, value, type): appends one condition. */
    method SetSubTree(step: Step, catalog: seq<NumericItem>) returns (res: Outcome<MitError>)
      modifies this`pathOfSubTrees
      ensures res == AddCondition(old(pathOfSubTrees), step, catalog).ToOutcome()
      ensures res.Pass? ==> pathOfSubTrees == AddCondition(old(pathOfSubTrees), step, catalog).value
    {
      match step
      case NominalStep(a, v) =>
        pathOfSubTrees := pathOfSubTrees + [Nominal(a, v)];
        res := Pass;
      case NumericStep(a, op, splitPoint) =>
        var subTreeTest := FirstOn(pathOfSubTrees, a);
        if subTreeTest.Some? {
          var k := subTreeTest.value;
          if !pathOfSubTrees[k].Numeric? {
            return Fail(EntryNotNumeric(a));
          }
          var currentSubTree := pathOfSubTrees[k];
          if op == LessThan {
            if splitPoint < currentSubTree.maxInterval {
              currentSubTree := currentSubTree.(maxInterval := splitPoint);
            }
          } else {
            if splitPoint > currentSubTree.minInterval {
              currentSubTree := currentSubTree.(minInterval := splitPoint);
            }
          }
          pathOfSubTrees := pathOfSubTrees[k := currentSubTree];
          pathOfSubTrees := pathOfSubTrees
            + [Numeric(a, op, splitPoint, currentSubTree.minInterval, currentSubTree.maxInterval)];
          res := Pass;
        } else {
          var detailsAtt := GetAtt(catalog, a);
          if detailsAtt.None? {
            return Fail(AttributeNotInCatalog(a));
          }
          var subTree;
          if op == LessThan {
            subTree := Numeric(a, op, splitPoint, detailsAtt.value.min, splitPoint);
          } else {
            subTree := Numeric(a, op, splitPoint, splitPoint, detailsAtt.value.max);
          }
          pathOfSubTrees := pathOfSubTrees + [subTree];
          res := Pass;
        }
    }

    /** setSubTree(classifier, index, operator): one stack entry; a numeric
        split also marks the rule as having a numeric attribute. */
    method SetSubTreeOf(entry: Step, catalog: seq<NumericItem>) returns (res: Outcome<MitError>)
      modifies this`pathOfSubTrees, this`hasNumericAtt
      ensures hasNumericAtt == (old(hasNumericAtt) || entry.NumericStep?)
      ensures res == AddCondition(old(pathOfSubTrees), entry, catalog).ToOutcome()
      ensures res.Pass? ==> pathOfSubTrees == AddCondition(old(pathOfSubTrees), entry, catalog).value
    {
      if entry.NumericStep? {
        hasNumericAtt := true;
      }
      res := SetSubTree(entry, catalog);
    }

    /** setSubTree(stack): the conditions of the whole stack, bottom to top. */
    method SetSubTrees(stack: seq<Step>, catalog: seq<NumericItem>) returns (res: Outcome<MitError>)
      requires pathOfSubTrees == [] && !hasNumericAtt
      modifies this`pathOfSubTrees, this`hasNumericAtt
      ensures res == BuildPath(stack, catalog).ToOutcome()
      ensures res.Pass? ==> pathOfSubTrees == BuildPath(stack, catalog).value
      ensures res.Pass? ==> hasNumericAtt == HasNumericStep(stack)
    {
      var i := 0;
      while i < |stack|
        invariant 0 <= i <= |stack|
        invariant BuildPath(stack[..i], catalog) == Success(pathOfSubTrees)
        invariant hasNumericAtt == HasNumericStep(stack[..i])
      {
        BuildPathStep(stack, i, catalog);
        res := SetSubTreeOf(stack[i], catalog);
        if res.Fail? {
          BuildPathPrefixFailure(stack, i + 1, catalog);
          return;
        }
        i := i + 1;
      }
      assert stack[..i] == stack;
      res := Pass;
    }

    /** setClass: scores the leaf from its distribution (nominal class). The
        metrics of a leaf of weight 0 are left alone: Java computes NaN for
        them and then drops the leaf. */
    method SetClass(distribution: Option<seq<real>>, tr: Training) returns (res: Outcome<MitError>)
      requires Scorable(tr.info)
      modifies this`definedClass, this`weight, this`error, this`correct, this`contingencyMatrix, this`metrics
      ensures res.Pass? <==> (LeafStats(distribution, tr.classValues).Success?
        && ClassWeight(tr.info, LeafStats(distribution, tr.classValues).value.definedClass).Success?)
      ensures res.Pass? ==>
        var st := LeafStats(distribution, tr.classValues).value;
        var cw := ClassWeight(tr.info, st.definedClass).value;
        && definedClass == st.definedClass && weight == st.weight && error == st.error
        && correct == weight - error
        && contingencyMatrix == Calc(correct, error, cw, tr.info.sumOfWeights)
        && (weight > 0.0 ==> metrics == ComputeMetrics(weight, contingencyMatrix, tr.info.numClasses, tr.info.sumOfWeights))
      ensures res.Fail? ==> (res.error ==
        if LeafStats(distribution, tr.classValues).Failure? then LeafStats(distribution, tr.classValues).error
        else ClassWeight(tr.info, LeafStats(distribution, tr.classValues).value.definedClass).error)
    {
      var stat := LeafStats(distribution, tr.classValues);
      if stat.Failure? {
        return Fail(stat.error);
      }
      definedClass := stat.value.definedClass;
      weight := stat.value.weight;
      error := stat.value.error;
      correct := weight - error;
      var weightOfClass := ClassWeight(tr.info, definedClass);
      if weightOfClass.Failure? {
        return Fail(weightOfClass.error);
      }
      contingencyMatrix := Calc(correct, error, weightOfClass.value, tr.info.sumOfWeights);
      if weight > 0.0 {
        metrics := ComputeMetrics(weight, contingencyMatrix, tr.info.numClasses, tr.info.sumOfWeights);
      }
      res := Pass;
    }

    /** The finished item as a value. */
    function ToRule(): LeafRule
      reads this
    {
      LeafRule(pathOfSubTrees, definedClass, weight, error, correct, hasNumericAtt, contingencyMatrix, metrics)
    }
  }

  /** One more stack entry adds one condition to the path of the entries
      before it, and is numeric or not. */
  lemma BuildPathStep(steps: seq<Step>, i: nat, catalog: seq<NumericItem>)
    requires i < |steps| && BuildPath(steps[..i], catalog).Success?
    ensures BuildPath(steps[..i + 1], catalog) == AddCondition(BuildPath(steps[..i], catalog).value, steps[i], catalog)
    ensures HasNumericStep(steps[..i + 1]) == (HasNumericStep(steps[..i]) || steps[i].NumericStep?)
  {
    assert steps[..i + 1][..i] == steps[..i];
    assert steps[..i + 1][i] == steps[i];
    if HasNumericStep(steps[..i + 1]) && !steps[i].NumericStep? {
      var j :| 0 <= j < i + 1 && steps[..i + 1][j].NumericStep?;
      assert steps[..i][j] == steps[j];
    }
    if HasNumericStep(steps[..i]) {
      var j :| 0 <= j < i && steps[..i][j].NumericStep?;
      assert steps[..i + 1][j] == steps[j];
    }
  }

  /** A failure while building the conditions of a prefix of the stack is the
      failure of the whole stack. */
  lemma {:induction false} BuildPathPrefixFailure(steps: seq<Step>, i: nat, catalog: seq<NumericItem>)
    requires i <= |steps| && BuildPath(steps[..i], catalog).Failure?
    ensures BuildPath(steps, catalog) == BuildPath(steps[..i], catalog)
    decreases |steps|
  {
    if i < |steps| {
      var init := steps[..|steps| - 1];
      assert init[..i] == steps[..i];
      BuildPathPrefixFailure(init, i, catalog);
    } else {
      assert steps[..i] == steps;
    }
  }

  // ---------------------------------------------------------------- TreeAsRootToLeaf

  class TreeAsRootToLeaf {
    /** The kept rules, in walk order. */
    var treeAsRootToLeaf: seq<LeafRule>
    /** The shared stack of branch choices (the ClassifierIterationStack entries). */
    var stackIteration: seq<Step>
    const numericAttributesHandle: seq<NumericItem>
    const databaseInfo: DatasetInfo
    const classValues: seq<string>
    /** What a leaf gives with this training data: MakeRule, held abstractly. */
    ghost const leafRule: LeafRuleMaker

    function TrainingData(): Training {
      Training(numericAttributesHandle, databaseInfo, classValues)
    }

    /** The summaries and class weights of the training data; no rules yet. */
    constructor (ds: Dataset)
      requires WellFormed(ds) && MetricsDefined(ds)
      ensures numericAttributesHandle == NumericItems(ds.attributes)
      ensures InfoOf(ds, databaseInfo) && classValues == ds.classValues
      ensures MakesRules(leafRule, TrainingData())
      ensures treeAsRootToLeaf == [] && stackIteration == []
    {
      var items := ReadAtts(ds.attributes);
      var info := NewDatasetInfo(ds);
      ScorableOfData(ds, info);
      var tr := Training(items, info, ds.classValues);
      numericAttributesHandle := items;
      databaseInfo := info;
      classValues := ds.classValues;
      leafRule := (steps, d) => if Scorable(tr.info) then MakeRule(steps, d, tr) else Success(None);
      treeAsRootToLeaf := [];
      stackIteration := [];
    }

    /** readTreeAsRootToLeaf: walks the tree from the root with an empty stack;
        the rules are those of the tree's leaves in walk order. */
    method ReadTreeAsRootToLeaf(tree: Tree) returns (res: Outcome<MitError>)
      requires MakesRules(leafRule, TrainingData())
      modifies this`treeAsRootToLeaf, this`stackIteration
      ensures res == ExtractRules(LeafPaths(tree, []), TrainingData()).ToOutcome()
      ensures res.Pass? ==>
        && treeAsRootToLeaf == old(treeAsRootToLeaf) + ExtractRules(LeafPaths(tree, []), TrainingData()).value
        && stackIteration == []
    {
      stackIteration := [];
      res := DumpTree(tree);
      TreeRulesFlat(tree, [], leafRule, TrainingData());
    }

    /** The item of a leaf: a new RootToLeafItem takes the conditions of the
        whole stack, then the leaf's class and statistics; the rule is kept
        when its weight is positive. */
    method LeafItem(d: Option<seq<real>>) returns (r: Result<Option<LeafRule>, MitError>)
      requires MakesRules(leafRule, TrainingData())
      ensures r == leafRule(stackIteration, d)
    {
      var tr := TrainingData();
      LeafRuleStages(leafRule, stackIteration, d, tr);
      var item := new RootToLeafItem();
      var res := item.SetSubTrees(stackIteration, numericAttributesHandle);
      if res.Fail? {
        return Failure(res.error);
      }
      res := item.SetClass(d, tr);
      if res.Fail? {
        return Failure(res.error);
      }
      if item.weight > 0.0 {
        r := Success(Some(item.ToRule()));
      } else {
        r := Success(None);
      }
    }

    /** The leaf branch of dumpTree: the leaf's rule, if any, is appended and
        the stack is popped. */
    method DumpLeaf(d: Option<seq<real>>) returns (res: Outcome<MitError>)
      requires MakesRules(leafRule, TrainingData())
      modifies this`treeAsRootToLeaf, this`stackIteration
      ensures res == Listed(leafRule(old(stackIteration), d)).ToOutcome()
      ensures res.Pass? ==>
        && treeAsRootToLeaf == old(treeAsRootToLeaf) + Listed(leafRule(old(stackIteration), d)).value
        && stackIteration == Popped(old(stackIteration))
    {
      var r := LeafItem(d);
      if r.Failure? {
        return Fail(r.error);
      }
      if r.value.Some? {
        treeAsRootToLeaf := treeAsRootToLeaf + [r.value.value];
      }
      stackIteration := Popped(stackIteration);
      res := Pass;
    }

    /** dumpTree: every call pops exactly the entry its parent pushed (none at
        the root), and appends the rules of the leaves below `node`, read with
        the stack it was called with. */
    method DumpTree(node: Tree) returns (res: Outcome<MitError>)
      requires MakesRules(leafRule, TrainingData())
      modifies this`treeAsRootToLeaf, this`stackIteration
      ensures res == TreeRules(node, old(stackIteration), leafRule).ToOutcome()
      ensures res.Pass? ==>
        && treeAsRootToLeaf == old(treeAsRootToLeaf) + TreeRules(node, old(stackIteration), leafRule).value
        && stackIteration == Popped(old(stackIteration))
      decreases node, 1
    {
      match node
      case Leaf(d) =>
        res := DumpLeaf(d);
      case NominalSplit(a, bs) =>
        res := DumpNominal(a, bs);
      case NumericSplit(a, s, lt, ge) =>
        res := DumpNumeric(a, s, lt, ge);
    }

    /** One successor of a split: its entry is pushed and the successor is
        walked, which pops it again. */
    method DumpBranch(entry: Step, node: Tree) returns (res: Outcome<MitError>)
      requires MakesRules(leafRule, TrainingData())
      modifies this`treeAsRootToLeaf, this`stackIteration
      ensures res == TreeRules(node, old(stackIteration) + [entry], leafRule).ToOutcome()
      ensures res.Pass? ==>
        && treeAsRootToLeaf == old(treeAsRootToLeaf) + TreeRules(node, old(stackIteration) + [entry], leafRule).value
        && stackIteration == old(stackIteration)
      decreases node, 2
    {
      ghost var stack0 := stackIteration;
      stackIteration := stackIteration + [entry];
      res := DumpTree(node);
      PoppedPush(stack0, entry);
    }

    /** The nominal branch of dumpTree: one push and one walk per successor,
        by ascending index (each walk pops its push), then one more pop. */
    method DumpNominal(a: string, bs: seq<Branch>) returns (res: Outcome<MitError>)
      requires MakesRules(leafRule, TrainingData())
      modifies this`treeAsRootToLeaf, this`stackIteration
      ensures res == BranchRules(a, bs, old(stackIteration), leafRule).ToOutcome()
      ensures res.Pass? ==>
        && treeAsRootToLeaf == old(treeAsRootToLeaf) + BranchRules(a, bs, old(stackIteration), leafRule).value
        && stackIteration == Popped(old(stackIteration))
      decreases NominalSplit(a, bs), 0
    {
      ghost var stack0 := stackIteration;
      var i := 0;
      while i < |bs|
        invariant 0 <= i <= |bs|
        invariant stackIteration == stack0
        invariant BranchRules(a, bs[..i], stack0, leafRule).Success?
        invariant treeAsRootToLeaf == old(treeAsRootToLeaf) + BranchRules(a, bs[..i], stack0, leafRule).value
      {
        assert bs[..i + 1][..i] == bs[..i];
        assert bs[i] in bs;
        res := DumpBranch(NominalStep(a, bs[i].value), bs[i].successor);
        if res.Fail? {
          BranchRulesPrefixFailure(a, bs, stack0, leafRule, i + 1);
          return;
        }
        i := i + 1;
      }
      assert bs[..i] == bs;
      stackIteration := Popped(stackIteration);
      res := Pass;
    }

    /** The numeric branch of dumpTree: push `<` and walk the first successor,
        push `>=` and walk the second, then pop once more. */
    method DumpNumeric(a: string, s: real, lt: Tree, ge: Tree) returns (res: Outcome<MitError>)
      requires MakesRules(leafRule, TrainingData())
      modifies this`treeAsRootToLeaf, this`stackIteration
      ensures res == TreeRules(NumericSplit(a, s, lt, ge), old(stackIteration), leafRule).ToOutcome()
      ensures res.Pass? ==>
        && treeAsRootToLeaf == old(treeAsRootToLeaf) + TreeRules(NumericSplit(a, s, lt, ge), old(stackIteration), leafRule).value
        && stackIteration == Popped(old(stackIteration))
      decreases NumericSplit(a, s, lt, ge), 0
    {
      ghost var rules0 := treeAsRootToLeaf;
      res := DumpBranch(NumericStep(a, LessThan, s), lt);
      if res.Fail? {
        return;
      }
      ghost var rules1 := treeAsRootToLeaf;
      res := DumpBranch(NumericStep(a, GreaterOrEqual, s), ge);
      if res.Fail? {
        return;
      }
      assert treeAsRootToLeaf == rules0 + (rules1[|rules0|..] + treeAsRootToLeaf[|rules1|..]);
      stackIteration := Popped(stackIteration);
    }
  }
}
