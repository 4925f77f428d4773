/** The options of the MIT classifier: the command line setOptions reads,
    the fields it assigns, the checks that refuse a conflicting combination,
    and the two pruning setters. */
module Options {
  import opened Wrappers
  import opened Errors

  /** The command line as setOptions reads it. An option with a value is
      `None` when it is absent and holds its parsed value otherwise; a flag is
      true when it is present. `-STG` and `-W` are read as text, "" when absent. */
  datatype CommandLine = CommandLine(
    minNumObj: Option<int>,          // -M
    forestSize: Option<int>,         // -I
    strategyNumericAtts: string,     // -STG
    strategyWeight: string,          // -W
    binarySplits: bool,              // -B
    useLaplace: bool,                // -A
    noMDLcorrection: bool,           // -J
    unpruned: bool,                  // -U
    noCollapse: bool,                // -O
    noSubtreeRaising: bool,          // -S
    noCleanup: bool,                 // -L
    doNotMakeSplitPointActualValue: bool,
    reducedErrorPruning: bool,       // -R
    confidence: Option<real>,        // -C
    numFolds: Option<int>,           // -N
    seed: Option<int>)               // -Q

  /** The option fields handed to the C4.5 learner that is trained on the meta data. */
  datatype LearnerSettings = LearnerSettings(
    minNumObj: int,
    binarySplits: bool,
    useLaplace: bool,
    useMDLcorrection: bool,
    collapseTree: bool,
    noCleanup: bool,
    doNotMakeSplitPointActualValue: bool,
    seed: int)

  /** The option fields that choose how that learner prunes. */
  datatype Pruning = Pruning(
    unpruned: bool,
    subtreeRaising: bool,
    reducedErrorPruning: bool,
    confidence: real,
    numFolds: int)

  /** The option fields of the forest and of the meta data. */
  datatype MetaSettings = MetaSettings(forestSize: int, strategyNumericAtts: string, strategyWeight: string)

  /** The values of all the classifier's option fields. */
  datatype Config = Config(learner: LearnerSettings, pruning: Pruning, meta: MetaSettings)

  /** The field initialisers of a new classifier. */
  const InitialConfig := Config(
    LearnerSettings(2, false, false, true, true, false, false, 1),
    Pruning(false, true, false, 0.25, 3),
    MetaSettings(100, "I", "P"))

  /** The fields after setOptions has run, and what it threw. */
  datatype Applied = Applied(config: Config, outcome: Outcome<MitError>)

  function ValueOr<T>(x: Option<T>, default: T): T {
    if x.Some? then x.value else default
  }

  /** The options setOptions reads before its first check, all assigned. */
  function ReadOptions(c: Config, o: CommandLine): Config {
    Config(
      c.learner.(minNumObj := ValueOr(o.minNumObj, 2), binarySplits := o.binarySplits,
                 useLaplace := o.useLaplace, useMDLcorrection := !o.noMDLcorrection,
                 collapseTree := !o.noCollapse, noCleanup := o.noCleanup,
                 doNotMakeSplitPointActualValue := o.doNotMakeSplitPointActualValue),
      c.pruning.(unpruned := o.unpruned, subtreeRaising := !o.noSubtreeRaising),
      MetaSettings(ValueOr(o.forestSize, 15), o.strategyNumericAtts, o.strategyWeight))
  }

  /** setOptions: the fields are assigned in the order the options are read,
      and each check throws with the fields assigned so far already changed. */
  function ApplyOptions(c: Config, o: CommandLine): Applied {
    var c1 := ReadOptions(c, o);
    if c1.pruning.unpruned && !c1.pruning.subtreeRaising then Applied(c1, Fail(SubtreeRaisingWithUnpruned))
    else
      var c2 := c1.(pruning := c1.pruning.(reducedErrorPruning := o.reducedErrorPruning));
      if c2.pruning.unpruned && c2.pruning.reducedErrorPruning then Applied(c2, Fail(UnprunedWithReducedErrorPruning))
      else ApplyTail(c2, o)
  }

  /** The checks and fields of setOptions after the pruning modes: the
      confidence, the folds and the seed. */
  function ApplyTail(c: Config, o: CommandLine): Applied {
    if o.confidence.Some? && c.pruning.reducedErrorPruning then Applied(c, Fail(ConfidenceWithReducedErrorPruning))
    else if o.confidence.Some? && c.pruning.unpruned then Applied(c, Fail(ConfidenceWithUnpruned))
    else
      var c3 := c.(pruning := c.pruning.(confidence := ValueOr(o.confidence, 0.25)));
      if o.confidence.Some? && (c3.pruning.confidence <= 0.0 || c3.pruning.confidence >= 1.0) then
        Applied(c3, Fail(ConfidenceOutOfRange))
      else if o.numFolds.Some? && !c3.pruning.reducedErrorPruning then
        Applied(c3, Fail(FoldsWithoutReducedErrorPruning))
      else
        Applied(Config(c3.learner.(seed := ValueOr(o.seed, 1)),
                       c3.pruning.(numFolds := ValueOr(o.numFolds, 3)),
                       c3.meta),
                Pass)
  }

  /** The option combinations setOptions accepts. */
  predicate Acceptable(o: CommandLine) {
    && !(o.unpruned && o.noSubtreeRaising)
    && !(o.unpruned && o.reducedErrorPruning)
    && (o.confidence.Some? ==> !o.reducedErrorPruning && !o.unpruned && 0.0 < o.confidence.value < 1.0)
    && (o.numFolds.Some? ==> o.reducedErrorPruning)
  }

  /** The pruning settings are consistent: unpruned trees neither switch off
      subtree raising nor use reduced-error pruning, and the confidence factor
      lies strictly between 0 and 1. */
  predicate PruningConsistent(p: Pruning) {
    && !(p.unpruned && p.reducedErrorPruning)
    && (p.unpruned ==> p.subtreeRaising)
    && 0.0 < p.confidence < 1.0
  }

  /** setOptions accepts exactly the combinations that do not conflict. */
  lemma OptionsAccepted(c: Config, o: CommandLine)
    ensures ApplyOptions(c, o).outcome.Pass? <==> Acceptable(o)
  {
  }

  /** The error thrown is that of the first conflicting check, in the order
      subtree raising, reduced-error pruning, confidence, folds. */
  lemma OptionsRefused(c: Config, o: CommandLine)
    ensures var a := ApplyOptions(c, o).outcome;
      && (a == Fail(SubtreeRaisingWithUnpruned) <==> o.unpruned && o.noSubtreeRaising)
      && (a == Fail(UnprunedWithReducedErrorPruning) <==> o.unpruned && !o.noSubtreeRaising && o.reducedErrorPruning)
      && (a == Fail(ConfidenceWithReducedErrorPruning) <==>
            !o.unpruned && o.reducedErrorPruning && o.confidence.Some?)
      && (a == Fail(ConfidenceWithUnpruned) <==>
            o.unpruned && !o.noSubtreeRaising && !o.reducedErrorPruning && o.confidence.Some?)
      && (a == Fail(ConfidenceOutOfRange) <==>
            !o.unpruned && !o.reducedErrorPruning && o.confidence.Some?
            && (o.confidence.value <= 0.0 || o.confidence.value >= 1.0))
      && (a == Fail(FoldsWithoutReducedErrorPruning) <==>
            Acceptable(o.(numFolds := None)) && o.numFolds.Some? && !o.reducedErrorPruning)
  {
  }

  /** An accepted command line sets every option field, whatever the fields
      held before, and leaves the pruning settings consistent; an absent
      option takes the value setOptions gives it. */
  lemma AcceptedOptions(c: Config, c': Config, o: CommandLine)
    requires ApplyOptions(c, o).outcome.Pass?
    ensures ApplyOptions(c', o) == ApplyOptions(c, o)
    ensures PruningConsistent(ApplyOptions(c, o).config.pruning)
    ensures var r := ApplyOptions(c, o).config;
      && r.learner.minNumObj == ValueOr(o.minNumObj, 2) && r.learner.seed == ValueOr(o.seed, 1)
      && r.pruning == Pruning(o.unpruned, !o.noSubtreeRaising, o.reducedErrorPruning,
                              ValueOr(o.confidence, 0.25), ValueOr(o.numFolds, 3))
      && r.meta == MetaSettings(ValueOr(o.forestSize, 15), o.strategyNumericAtts, o.strategyWeight)
  {
  }

  /** A refused command line leaves the fields read after the failing check
      as they were: the folds and the seed always, the confidence unless it
      was read before the refusal, reduced-error pruning when subtree raising
      is the refusal. */
  lemma RefusedOptions(c: Config, o: CommandLine)
    requires ApplyOptions(c, o).outcome.Fail?
    ensures var r := ApplyOptions(c, o);
      && r.config.pruning.numFolds == c.pruning.numFolds && r.config.learner.seed == c.learner.seed
      && (r.outcome != Fail(ConfidenceOutOfRange) && r.outcome != Fail(FoldsWithoutReducedErrorPruning) ==>
            r.config.pruning.confidence == c.pruning.confidence)
      && (r.outcome == Fail(SubtreeRaisingWithUnpruned) ==>
            r.config.pruning.reducedErrorPruning == c.pruning.reducedErrorPruning)
      && r.config.meta == MetaSettings(ValueOr(o.forestSize, 15), o.strategyNumericAtts, o.strategyWeight)
  {
  }

  /** setUnpruned: switching unpruned on switches reduced-error pruning off. */
  function WithUnpruned(p: Pruning, v: bool): Pruning {
    p.(reducedErrorPruning := if v then false else p.reducedErrorPruning, unpruned := v)
  }

  /** setReducedErrorPruning: switching it on switches unpruned off. */
  function WithReducedErrorPruning(p: Pruning, v: bool): Pruning {
    p.(unpruned := if v then false else p.unpruned, reducedErrorPruning := v)
  }

  /** After either setter the two pruning modes never both hold, the value
      set is the one asked for, the other mode changes only when it is
      switched off, and no other pruning field changes. */
  lemma SettersExclusive(p: Pruning, v: bool)
    ensures var u := WithUnpruned(p, v);
      && u.unpruned == v && !(u.unpruned && u.reducedErrorPruning)
      && (u.reducedErrorPruning == p.reducedErrorPruning || (v && !u.reducedErrorPruning))
      && u.subtreeRaising == p.subtreeRaising && u.confidence == p.confidence && u.numFolds == p.numFolds
    ensures var r := WithReducedErrorPruning(p, v);
      && r.reducedErrorPruning == v && !(r.unpruned && r.reducedErrorPruning)
      && (r.unpruned == p.unpruned || (v && !r.unpruned))
      && r.subtreeRaising == p.subtreeRaising && r.confidence == p.confidence && r.numFolds == p.numFolds
  {
  }
}
