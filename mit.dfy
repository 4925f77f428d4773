/** The MIT classifier itself: its options, the way setOptions reads and checks
    them, the two pruning setters, and the loop of buildClassifier that turns
    each tree of the forest into rules and the rules into meta instances. */
module Classifier {
  import opened Wrappers
  import opened Seqs
  import opened Errors
  import opened Catalog
  import opened RootToLeaf
  import opened MetaData
  import opened Options

  // ---------------------------------------------------------------- meta training data

  /** The class-weight table of the training data, as a value. */
  function InfoOfData(ds: Dataset): (info: DatasetInfo)
    requires WellFormed(ds)
    ensures InfoOf(ds, info)
  {
    DatasetInfo(seq(|ds.classValues|, i requires 0 <= i < |ds.classValues| => WeightByClassValueItem(ds.classValues[i], ds.classWeights[i])),
                |ds.classValues|, ds.sumOfWeights)
  }

  /** The table is determined by the data. */
  lemma InfoOfUnique(ds: Dataset, info: DatasetInfo)
    requires WellFormed(ds) && InfoOf(ds, info)
    ensures info == InfoOfData(ds)
  {
    assert info.weightByClassValue == InfoOfData(ds).weightByClassValue;
  }

  /** What a TreeAsRootToLeaf built over the data reads of it. */
  function TrainingOf(ds: Dataset): Training
    requires WellFormed(ds)
  {
    Training(NumericItems(ds.attributes), InfoOfData(ds), ds.classValues)
  }

  /** The meta instances of one tree: its rules, then their rows. */
  function TreeMeta(tree: Tree, ds: Dataset, numericStrategy: string, weightCode: string): Result<seq<MetaRow>, MitError>
    requires WellFormed(ds) && MetricsDefined(ds)
  {
    ScorableOfData(ds, InfoOfData(ds));
    var rules :- ExtractRules(LeafPaths(tree, []), TrainingOf(ds));
    Success(MetaRows(rules, ds.attributes, numericStrategy, weightCode))
  }

  /** The meta instances of one tree, stage by stage. */
  lemma TreeMetaIs(tree: Tree, ds: Dataset, numericStrategy: string, weightCode: string)
    requires WellFormed(ds) && MetricsDefined(ds)
    ensures Scorable(TrainingOf(ds).info)
    ensures var ex := ExtractRules(LeafPaths(tree, []), TrainingOf(ds));
      && (ex.Failure? ==> TreeMeta(tree, ds, numericStrategy, weightCode) == Failure(ex.error))
      && (ex.Success? ==> TreeMeta(tree, ds, numericStrategy, weightCode) == Success(MetaRows(ex.value, ds.attributes, numericStrategy, weightCode)))
  {
    ScorableOfData(ds, InfoOfData(ds));
  }

  /** The meta instances of each tree, in forest order. */
  function TreeMetas(trees: seq<Tree>, ds: Dataset, numericStrategy: string, weightCode: string): (ms: seq<Result<seq<MetaRow>, MitError>>)
    requires WellFormed(ds) && MetricsDefined(ds)
    ensures |ms| == |trees|
    ensures forall i :: 0 <= i < |trees| ==> ms[i] == TreeMeta(trees[i], ds, numericStrategy, weightCode)
  {
    seq(|trees|, i requires 0 <= i < |trees| => TreeMeta(trees[i], ds, numericStrategy, weightCode))
  }

  /** The meta training data of a forest: the instances of each tree in
      turn; the first tree whose extraction throws ends the build. */
  function MetaTrainingData(trees: seq<Tree>, ds: Dataset, numericStrategy: string, weightCode: string): Result<seq<MetaRow>, MitError>
    requires WellFormed(ds) && MetricsDefined(ds)
  {
    ConcatAll(TreeMetas(trees, ds, numericStrategy, weightCode))
  }

  /** The build fails exactly when some tree's extraction fails, and then
      with the error of the first such tree. */
  lemma MetaTrainingDataFailure(trees: seq<Tree>, ds: Dataset, numericStrategy: string, weightCode: string)
    requires WellFormed(ds) && MetricsDefined(ds)
    ensures MetaTrainingData(trees, ds, numericStrategy, weightCode).Failure? <==>
      exists i :: 0 <= i < |trees| && TreeMeta(trees[i], ds, numericStrategy, weightCode).Failure?
    ensures MetaTrainingData(trees, ds, numericStrategy, weightCode).Failure? ==>
      exists i :: 0 <= i < |trees|
        && MetaTrainingData(trees, ds, numericStrategy, weightCode) == TreeMeta(trees[i], ds, numericStrategy, weightCode)
        && forall j :: 0 <= j < i ==> TreeMeta(trees[j], ds, numericStrategy, weightCode).Success?
  {
    var ms := TreeMetas(trees, ds, numericStrategy, weightCode);
    ConcatAllFailure(ms);
    if exists i :: 0 <= i < |trees| && TreeMeta(trees[i], ds, numericStrategy, weightCode).Failure? {
      var i :| 0 <= i < |trees| && TreeMeta(trees[i], ds, numericStrategy, weightCode).Failure?;
      assert ms[i].Failure?;
    }
  }

  /** A successful build holds the rows of every tree, one after the other:
      as many as the trees give together, each with one value per attribute
      and a label of the class. */
  lemma MetaTrainingDataShape(trees: seq<Tree>, ds: Dataset, numericStrategy: string, weightCode: string)
    requires WellFormed(ds) && MetricsDefined(ds)
    requires MetaTrainingData(trees, ds, numericStrategy, weightCode).Success?
    ensures forall i :: 0 <= i < |trees| ==> TreeMeta(trees[i], ds, numericStrategy, weightCode).Success?
    ensures |MetaTrainingData(trees, ds, numericStrategy, weightCode).value| == TotalLength(TreeMetas(trees, ds, numericStrategy, weightCode))
    ensures forall row :: row in MetaTrainingData(trees, ds, numericStrategy, weightCode).value ==>
      |row.values| == |ds.attributes| && row.classValue in ds.classValues
  {
    var ms := TreeMetas(trees, ds, numericStrategy, weightCode);
    ConcatAllSuccess(ms);
    forall row: MetaRow | row in ConcatAll(ms).value
      ensures |row.values| == |ds.attributes| && row.classValue in ds.classValues
    {
      var i :| 0 <= i < |ms| && ms[i].Success? && row in ms[i].value;
      TreeMetaShape(trees[i], ds, numericStrategy, weightCode);
    }
  }

  /** Every row of one tree has one value per attribute and the label of a
      class of the data. */
  lemma TreeMetaShape(tree: Tree, ds: Dataset, numericStrategy: string, weightCode: string)
    requires WellFormed(ds) && MetricsDefined(ds)
    requires TreeMeta(tree, ds, numericStrategy, weightCode).Success?
    ensures forall row :: row in TreeMeta(tree, ds, numericStrategy, weightCode).value ==>
      |row.values| == |ds.attributes| && row.classValue in ds.classValues
  {
    var tr := TrainingOf(ds);
    ScorableOfData(ds, tr.info);
    ExtractRulesShape(LeafPaths(tree, []), tr);
    RulesMetaShape(ExtractRules(LeafPaths(tree, []), tr).value, ds, numericStrategy, weightCode);
  }

  /** The rows of rules scored against the data's class weights have one
      value per attribute and a label of the class. */
  lemma RulesMetaShape(rules: seq<LeafRule>, ds: Dataset, numericStrategy: string, weightCode: string)
    requires WellFormed(ds)
    requires forall r :: r in rules ==> WellScored(r, InfoOfData(ds))
    ensures forall row :: row in MetaRows(rules, ds.attributes, numericStrategy, weightCode) ==>
      |row.values| == |ds.attributes| && row.classValue in ds.classValues
  {
    var info := InfoOfData(ds);
    MetaRowsShape(rules, ds.attributes, numericStrategy, weightCode);
    forall row | row in MetaRows(rules, ds.attributes, numericStrategy, weightCode)
      ensures row.classValue in ds.classValues
    {
      var r :| r in rules && !Skipped(r, weightCode) && row.classValue == r.definedClass;
      assert GetWeightByClassValue(info, r.definedClass).Some?;
      var j :| 0 <= j < |info.weightByClassValue| && info.weightByClassValue[j].valueClass == r.definedClass;
      assert ds.classValues[j] == r.definedClass;
    }
  }

  // ---------------------------------------------------------------- the classifier

  class MIT {
    var unpruned: bool
    var collapseTree: bool
    var confidence: real
    var minNumObj: int
    var useMDLcorrection: bool
    var useLaplace: bool
    var reducedErrorPruning: bool
    var numFolds: int
    var binarySplits: bool
    var subtreeRaising: bool
    var noCleanup: bool
    var seed: int
    var doNotMakeSplitPointActualValue: bool
    var forestSize: int
    var strategyNumericAtts: string
    var strategyWeight: string

    /** The option fields, as a value. */
    function Settings(): Config
      reads this
    {
      Config(LearnerSettings(minNumObj, binarySplits, useLaplace, useMDLcorrection, collapseTree,
                             noCleanup, doNotMakeSplitPointActualValue, seed),
             PruningOf(),
             MetaSettings(forestSize, strategyNumericAtts, strategyWeight))
    }

    /** The pruning fields, as a value. */
    function PruningOf(): Pruning
      reads this
    {
      Pruning(unpruned, subtreeRaising, reducedErrorPruning, confidence, numFolds)
    }

    /** A new classifier holds the field initialisers. */
    constructor ()
      ensures Settings() == InitialConfig
      ensures PruningConsistent(PruningOf())
    {
      unpruned, collapseTree, confidence, minNumObj := false, true, 0.25, 2;
      useMDLcorrection, useLaplace, reducedErrorPruning, numFolds := true, false, false, 3;
      binarySplits, subtreeRaising, noCleanup, seed := false, true, false, 1;
      doNotMakeSplitPointActualValue := false;
      forestSize, strategyNumericAtts, strategyWeight := 100, "I", "P";
    }

    /** setOptions: reads each option in turn into its field and throws at
        the first conflicting combination. */
    method SetOptions(o: CommandLine) returns (res: Outcome<MitError>)
      modifies this
      ensures res == ApplyOptions(old(Settings()), o).outcome
      ensures Settings() == ApplyOptions(old(Settings()), o).config
    {
      ReadFields(o);
      if unpruned && !subtreeRaising {
        return Fail(SubtreeRaisingWithUnpruned);
      }
      reducedErrorPruning := o.reducedErrorPruning;
      if unpruned && reducedErrorPruning {
        return Fail(UnprunedWithReducedErrorPruning);
      }
      res := ReadPruning(o);
    }

    /** Everything setOptions reads before its first check. */
    method ReadFields(o: CommandLine)
      modifies this
      ensures Settings() == ReadOptions(old(Settings()), o)
    {
      ReadCounts(o);
      ReadFlags(o);
      ReadPruningFlags(o);
    }

    /** The first options setOptions reads: the minimum leaf size, the
        forest size and the two strategies. */
    method ReadCounts(o: CommandLine)
      modifies this`minNumObj, this`forestSize, this`strategyNumericAtts, this`strategyWeight
      ensures minNumObj == ValueOr(o.minNumObj, 2) && forestSize == ValueOr(o.forestSize, 15)
      ensures strategyNumericAtts == o.strategyNumericAtts && strategyWeight == o.strategyWeight
    {
      minNumObj := ValueOr(o.minNumObj, 2);
      forestSize := ValueOr(o.forestSize, 15);
      strategyNumericAtts := o.strategyNumericAtts;
      strategyWeight := o.strategyWeight;
    }

    /** The learner flags setOptions reads after the counts. */
    method ReadFlags(o: CommandLine)
      modifies this`binarySplits, this`useLaplace, this`useMDLcorrection
      ensures binarySplits == o.binarySplits && useLaplace == o.useLaplace && useMDLcorrection == !o.noMDLcorrection
    {
      binarySplits := o.binarySplits;
      useLaplace := o.useLaplace;
      useMDLcorrection := !o.noMDLcorrection;
    }

    /** The pruning flags setOptions reads next, before its first check. */
    method ReadPruningFlags(o: CommandLine)
      modifies this`unpruned, this`collapseTree, this`subtreeRaising, this`noCleanup, this`doNotMakeSplitPointActualValue
      ensures unpruned == o.unpruned && collapseTree == !o.noCollapse && subtreeRaising == !o.noSubtreeRaising
      ensures noCleanup == o.noCleanup && doNotMakeSplitPointActualValue == o.doNotMakeSplitPointActualValue
    {
      unpruned := o.unpruned;
      collapseTree := !o.noCollapse;
      subtreeRaising := !o.noSubtreeRaising;
      noCleanup := o.noCleanup;
      doNotMakeSplitPointActualValue := o.doNotMakeSplitPointActualValue;
    }

    /** The rest of setOptions once the pruning modes are read and do not
        conflict: the confidence, the folds and the seed. */
    method ReadPruning(o: CommandLine) returns (res: Outcome<MitError>)
      requires !(unpruned && reducedErrorPruning) && reducedErrorPruning == o.reducedErrorPruning && unpruned == o.unpruned
      modifies this`confidence, this`numFolds, this`seed
      ensures res == ApplyTail(old(Settings()), o).outcome
      ensures Settings() == ApplyTail(old(Settings()), o).config
    {
      if o.confidence.Some? {
        if reducedErrorPruning {
          return Fail(ConfidenceWithReducedErrorPruning);
        } else if unpruned {
          return Fail(ConfidenceWithUnpruned);
        } else {
          confidence := o.confidence.value;
          if confidence <= 0.0 || confidence >= 1.0 {
            return Fail(ConfidenceOutOfRange);
          }
        }
      } else {
        confidence := 0.25;
      }
      if o.numFolds.Some? {
        if !reducedErrorPruning {
          return Fail(FoldsWithoutReducedErrorPruning);
        } else {
          numFolds := o.numFolds.value;
        }
      } else {
        numFolds := 3;
      }
      seed := ValueOr(o.seed, 1);
      return Pass;
    }

    /** setUnpruned */
    method SetUnpruned(v: bool)
      modifies this`unpruned, this`reducedErrorPruning
      ensures PruningOf() == WithUnpruned(old(PruningOf()), v)
    {
      if v {
        reducedErrorPruning := false;
      }
      unpruned := v;
    }

    /** setReducedErrorPruning */
    method SetReducedErrorPruning(v: bool)
      modifies this`unpruned, this`reducedErrorPruning
      ensures PruningOf() == WithReducedErrorPruning(old(PruningOf()), v)
    {
      if v {
        unpruned := false;
      }
      reducedErrorPruning := v;
    }

    /** The loop of buildClassifier over the trees of the forest: each tree's
        rules are extracted by a new TreeAsRootToLeaf, turned into meta
        instances by a new TreeAsARFF with the classifier's strategies, and
        added to the meta training data. */
    method BuildMetaTrainingData(trees: seq<Tree>, ds: Dataset) returns (res: Result<seq<MetaRow>, MitError>)
      requires WellFormed(ds) && MetricsDefined(ds)
      ensures res == MetaTrainingData(trees, ds, strategyNumericAtts, strategyWeight)
    {
      ghost var ms := TreeMetas(trees, ds, strategyNumericAtts, strategyWeight);
      var metaTrainingData: seq<MetaRow> := [];
      var i := 0;
      while i < |trees|
        invariant 0 <= i <= |trees|
        invariant ConcatAll(ms[..i]) == Success(metaTrainingData)
      {
        ConcatAllStep(ms, i);
        var rows := TreeInstances(trees[i], ds);
        if rows.Failure? {
          ConcatAllPrefixFailure(ms, i + 1);
          return Failure(rows.error);
        }
        metaTrainingData := metaTrainingData + rows.value;
        i := i + 1;
      }
      assert ms[..i] == ms;
      return Success(metaTrainingData);
    }

    /** One pass of the loop: the meta instances of one tree. */
    method TreeInstances(tree: Tree, ds: Dataset) returns (res: Result<seq<MetaRow>, MitError>)
      requires WellFormed(ds) && MetricsDefined(ds)
      ensures res == TreeMeta(tree, ds, strategyNumericAtts, strategyWeight)
    {
      var treeAsRootToLeaf := new TreeAsRootToLeaf(ds);
      InfoOfUnique(ds, treeAsRootToLeaf.databaseInfo);
      ghost var extracted := ExtractRules(LeafPaths(tree, []), TrainingOf(ds));
      TreeMetaIs(tree, ds, strategyNumericAtts, strategyWeight);
      var read := treeAsRootToLeaf.ReadTreeAsRootToLeaf(tree);
      if read.Fail? {
        return Failure(read.error);
      }
      assert treeAsRootToLeaf.treeAsRootToLeaf == extracted.value;
      var treeAsARFF := new TreeAsARFF(treeAsRootToLeaf.treeAsRootToLeaf, ds.attributes, strategyNumericAtts, strategyWeight);
      return Success(treeAsARFF.instancesMeta);
    }
  }
}
