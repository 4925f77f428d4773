# MIT (Meta Induction Tree) in Dafny

This project models the core of the Weka classifier `MIT` (Meta Induction Tree).
MIT trains a random forest and then reads every tree of the forest as a set of
root-to-leaf rules. It turns every rule into one or two weighted "meta
instances" over the original attributes. A C4.5 tree trained on those meta
instances becomes the final model.

The model covers the following parts of the classifier:

- **Rule extraction** (`TreeAsRootToLeaf`, `RootToLeafItem`, in `rules.dfy`).
  `dumpTree` walks the tree depth first with one shared stack of branch choices.
  At each leaf a new item turns the stack into conditions. A numeric attribute
  is seeded from the data's range on its first test, and later tests only
  tighten that first condition's interval (`conditions.dfy`). The leaf is then
  scored, and it is kept only when the weight reaching it is positive.
  `getTreeError` sums the errors of the kept rules.
- **Leaf statistics and metrics** (`metrics.dfy`):
  - `setClass` reads a nominal leaf's distribution (sum, majority index, error);
  - `_calc` builds the 2x2 contingency table;
  - precision, Laplace, novelty and satisfaction, and their weighted forms,
    where weighted novelty is scaled by 100.
- **What is read of the data** (`catalog.dfy`):
  - `NumericAttributesHandle`: per numeric attribute, its minimum, maximum and
    midpoint;
  - `DatasetInfo`: per class label, its summed weight.
- **Meta instances** (`TreeAsARFF`, in `metadata.dfy`). Under the N and S
  weights, rules with non-positive novelty or satisfaction are dropped.
  Otherwise a rule gives:
  - two rows (interval minimum and maximum, half the weight each) when it has a
    numeric condition and the strategy is `I`;
  - one row holding the interval midpoint when it has a numeric condition and
    the strategy is anything else;
  - one plain row when it has no numeric condition.

  `GetWeightByParam` picks the weight.
- **The classifier** (`options.dfy`, `mit.dfy`):
  - `setOptions`, with its order of reads and checks;
  - `setUnpruned` and `setReducedErrorPruning`;
  - the loop of `buildClassifier` that concatenates the meta instances of every
    tree.

Every quantity is an exact `real`. Weka's `Utils.roundDouble` is taken as the
identity. Where Java would throw, the model returns a `Failure`/`Fail` of the
`MitError` type: a null lookup, a failed cast or an index out of range. The
first failure ends the walk or the loop, as the exception does.

The trees, the training data and the parsed command line are parameters:

- a tree is a `Tree` value (leaf with optional distribution, nominal split,
  numeric split);
- the data is a `Dataset` holding the attribute summaries, the class labels,
  the per-class weights and the total weight.

## Model

| member | source | states |
|---|---|---|
| Catalog.ReadAtts | algorithm/src/main/java/weka/classifiers/trees/MIT.java:2140-2160 | the catalog holds one item per numeric attribute, in attribute order, with the attribute's min, max and midpoint (loop proved against `NumericItems`) |
| Catalog.NumericItemsExact | algorithm/src/main/java/weka/classifiers/trees/MIT.java:2146-2157 | an item is in the catalog iff some numeric attribute has exactly that name, min, max and midpoint |
| Catalog.GetAtt | algorithm/src/main/java/weka/classifiers/trees/MIT.java:2162-2171 | the item found is the first in the catalog with the name; nothing is found iff no item has the name |
| Catalog.GetAttOfData | algorithm/src/main/java/weka/classifiers/trees/MIT.java:2162-2171 | looking up a name in the data's catalog succeeds iff a numeric attribute has that name, and then yields that attribute's bounds |
| Catalog.CalcWeightByClassValue | algorithm/src/main/java/weka/classifiers/trees/MIT.java:2886-2902 | one entry per class label, pairing the i-th label with the i-th nominal weight |
| Catalog.NewDatasetInfo | algorithm/src/main/java/weka/classifiers/trees/MIT.java:2880-2884 | the table pairs each label with its weight; numClasses and sumOfWeights are those of the data |
| Catalog.GetWeightByClassValue | algorithm/src/main/java/weka/classifiers/trees/MIT.java:2904-2911 | found iff some entry has the label, and the weight returned is that of the first entry with the label |
| Catalog.WeightIn | algorithm/src/main/java/weka/classifiers/trees/MIT.java:2904-2911 | the same lookup over a list of entries: found iff some entry has the label, with the weight of the first such entry |
| Catalog.ClassWeightFound | algorithm/src/main/java/weka/classifiers/trees/MIT.java:2904-2911 | every class label of the data is found, with the weight of the first label equal to it (its own weight when the label is not repeated); when no class holds all the weight, that weight is below the total |
| Conditions.AvgInterval | algorithm/src/main/java/weka/classifiers/trees/MIT.java:2075-2077 | the midpoint is equidistant from both ends and lies inside a non-empty interval |
| Conditions.FirstOn | algorithm/src/main/java/weka/classifiers/trees/MIT.java:1751 | index of the first condition on the attribute: no earlier one has that name; none iff no condition has it |
| Conditions.GetTreeByAttribute | algorithm/src/main/java/weka/classifiers/trees/MIT.java:1750-1757 | the first condition of the path on the attribute, none iff the path has no condition on it |
| Conditions.SeedInterval | algorithm/src/main/java/weka/classifiers/trees/MIT.java:1795-1811 | a first `<` test gives [catalog min, split], a first `>=` test gives [split, catalog max] |
| Conditions.TightenInterval | algorithm/src/main/java/weka/classifiers/trees/MIT.java:1777-1787 | a repeated test never widens the interval: `<` lowers only the max, to the split when smaller; `>=` raises only the min, to the split when larger |
| Conditions.AddCondition | algorithm/src/main/java/weka/classifiers/trees/MIT.java:1763-1820 | on success exactly one condition is appended, matching the stack entry, and no earlier condition changes attribute; a nominal entry just appends `attribute = value` |
| Conditions.NumericFirstTest | algorithm/src/main/java/weka/classifiers/trees/MIT.java:1795-1811 | first test of a numeric attribute: fails iff it is not in the catalog, else appends the seeded condition and changes nothing else |
| Conditions.NumericRepeatTest | algorithm/src/main/java/weka/classifiers/trees/MIT.java:1769-1793 | repeated numeric test: fails iff the first condition on the attribute is nominal; otherwise only that condition changes, its interval is tightened, the new condition carries the same interval, and getTreeByAttribute returns the updated entry |
| Conditions.BuildPath | algorithm/src/main/java/weka/classifiers/trees/MIT.java:1822-1826 | on success one condition per stack entry, in stack order, each matching its entry |
| Conditions.IntervalOfUntested | algorithm/src/main/java/weka/classifiers/trees/MIT.java:1795-1811 | an attribute never tested numerically has no interval |
| Conditions.AddConditionKeeps | algorithm/src/main/java/weka/classifiers/trees/MIT.java:1763-1820 | a stack entry leaves every earlier condition on another attribute unchanged |
| Conditions.FirstConditionIndex | algorithm/src/main/java/weka/classifiers/trees/MIT.java:1750-1757 | the condition getTreeByAttribute finds is the one made at the first stack entry on the attribute |
| Conditions.FirstConditionInterval | algorithm/src/main/java/weka/classifiers/trees/MIT.java:1769-1811 | that condition holds the interval threaded through all the stack's tests on the attribute (seeded, then tightened); when the first test is nominal, no later test is numeric |
| Conditions.IntervalWithinCatalog | algorithm/src/main/java/weka/classifiers/trees/MIT.java:1769-1811 | when every split on the attribute lies in its catalog range, the interval stays inside that range |
| Conditions.IntervalContains | algorithm/src/main/java/weka/classifiers/trees/MIT.java:1769-1811 | a value in range that passes every test on the attribute lies in the interval, so that interval is not empty |
| Metrics.MaxIndex | algorithm/src/main/java/weka/classifiers/trees/MIT.java:1859 | Weka's maxIndex: the first index of a largest entry |
| Metrics.EntryAtMostSum | algorithm/src/main/java/weka/classifiers/trees/MIT.java:1858-1860 | a non-negative entry lies between 0 and the distribution's sum |
| Metrics.SumNonNegative | algorithm/src/main/java/weka/classifiers/trees/MIT.java:1858 | a non-negative distribution has a non-negative sum |
| Metrics.LeafStats | algorithm/src/main/java/weka/classifiers/trees/MIT.java:1848-1903 | with a distribution: class at the majority index, weight = sum, weight - error = majority count, failure iff the distribution is empty or the index is not a label; without one: first label, weight 0, error 0 |
| Metrics.LeafStatBounds | algorithm/src/main/java/weka/classifiers/trees/MIT.java:1858-1868 | a leaf's error lies in [0, weight], and the correct weight is at least every class's count |
| Metrics.Calc | algorithm/src/main/java/weka/classifiers/trees/MIT.java:1958-1972 | LR = correct, LnR = error, l = correct + error, r = class weight, nr = total - class weight, and both margins and the four cells add up to the total weight |
| Metrics.Precision | algorithm/src/main/java/weka/classifiers/trees/MIT.java:1937 | precision * l == LR |
| Metrics.Laplace | algorithm/src/main/java/weka/classifiers/trees/MIT.java:1938 | laplace * (l + numClasses) == LR + 1 |
| Metrics.Novelty | algorithm/src/main/java/weka/classifiers/trees/MIT.java:1939 | novelty * N^2 == LR * N - l * r |
| Metrics.Satisfaction | algorithm/src/main/java/weka/classifiers/trees/MIT.java:1940 | (1 - satisfaction) * l * nr == N * LnR |
| Metrics.WeightedPrecision | algorithm/src/main/java/weka/classifiers/trees/MIT.java:1943 | weighted precision = weight * precision, positive with it for a positive weight |
| Metrics.WeightedLaplace | algorithm/src/main/java/weka/classifiers/trees/MIT.java:1944 | weighted Laplace = weight * Laplace, positive with it for a positive weight |
| Metrics.WeightedNovelty | algorithm/src/main/java/weka/classifiers/trees/MIT.java:1945 | weighted novelty = weight * (novelty * 100), positive with novelty for a positive weight |
| Metrics.WeightedSatisfaction | algorithm/src/main/java/weka/classifiers/trees/MIT.java:1946 | weighted satisfaction = weight * satisfaction, positive with it for a positive weight |
| Metrics.LeafPrecision | algorithm/src/main/java/weka/classifiers/trees/MIT.java:1926-1937 | for a leaf of weight w and error e: l == w, precision = (w - e) / w in [0, 1], and weight * precision = w - e |
| Metrics.LeafLaplace | algorithm/src/main/java/weka/classifiers/trees/MIT.java:1938 | a leaf's Laplace estimate lies in (0, 1] |
| Metrics.LeafNovelty | algorithm/src/main/java/weka/classifiers/trees/MIT.java:1939 | a leaf's novelty is ((w - e) N - w c) / N^2, positive iff the leaf's precision beats the class share c / N |
| Metrics.LeafSatisfaction | algorithm/src/main/java/weka/classifiers/trees/MIT.java:1940 | a leaf's satisfaction is 1 - N e / (w (N - c)), at most 1, positive iff w (N - c) > N e |
| RootToLeaf.LeafPathsCount | algorithm/src/main/java/weka/classifiers/trees/MIT.java:1551-1611 | the walk lists exactly one entry per leaf of the tree |
| RootToLeaf.BranchPathsCount | algorithm/src/main/java/weka/classifiers/trees/MIT.java:1576-1583 | the successors of a nominal split list one entry per leaf below them |
| RootToLeaf.LeafPathsSound | algorithm/src/main/java/weka/classifiers/trees/MIT.java:1551-1611 | every listed stack is the starting stack followed by a root-to-leaf path of the tree ending at that leaf's distribution |
| RootToLeaf.BranchPathsSound | algorithm/src/main/java/weka/classifiers/trees/MIT.java:1576-1583 | the same for the successors of a nominal split |
| RootToLeaf.LeafPathsComplete | algorithm/src/main/java/weka/classifiers/trees/MIT.java:1551-1611 | every root-to-leaf path of the tree is listed |
| RootToLeaf.BranchPathsComplete | algorithm/src/main/java/weka/classifiers/trees/MIT.java:1576-1583 | every path through a successor of a nominal split is listed |
| RootToLeaf.BranchPathsPrefix | algorithm/src/main/java/weka/classifiers/trees/MIT.java:1576-1583 | the first j successors list a prefix of what all successors list |
| RootToLeaf.ScorableOfData | algorithm/src/main/java/weka/classifiers/trees/MIT.java:1932-1940 | a data set with positive total weight where no class holds all of it gives a table on which the metrics are defined |
| RootToLeaf.ClassWeight | algorithm/src/main/java/weka/classifiers/trees/MIT.java:1960 | the class weight is the table's entry, or the missing-entry failure when there is none |
| RootToLeaf.MakeRule | algorithm/src/main/java/weka/classifiers/trees/MIT.java:1554-1565 | a leaf that gives a rule gives one of positive weight |
| RootToLeaf.LeafItems | algorithm/src/main/java/weka/classifiers/trees/MIT.java:1554-1565 | one item per leaf, each the leaf's own rule |
| RootToLeaf.ExtractRulesAppend | algorithm/src/main/java/weka/classifiers/trees/MIT.java:1573-1611 | extracting two lists in turn: the first failure wins, else the rules concatenate |
| RootToLeaf.ExtractRulesSingle | algorithm/src/main/java/weka/classifiers/trees/MIT.java:1554-1565 | one leaf gives its failure, its rule or nothing |
| RootToLeaf.MakeRuleShape | algorithm/src/main/java/weka/classifiers/trees/MIT.java:1554-1565 | a leaf gives a rule iff its weight is positive; the rule's conditions match the stack one for one, it has a numeric attribute iff one condition is numeric, it is well scored, its weight is the leaf's, its class is the label at the majority index and its error is sum minus the majority count, so on non-negative weights 0 <= error <= weight and the correct weight is at least every class count |
| RootToLeaf.NumericStepOnPath | algorithm/src/main/java/weka/classifiers/trees/MIT.java:1837-1839 | the stack has a numeric split iff the conditions built from it hold a numeric condition |
| RootToLeaf.ExtractRulesShape | algorithm/src/main/java/weka/classifiers/trees/MIT.java:1551-1611 | the extracted rules are exactly as many as the leaves of positive weight (zero-weight leaves dropped); each is well scored and has the conditions of some leaf's stack |
| RootToLeaf.CountSomeIsPositive | algorithm/src/main/java/weka/classifiers/trees/MIT.java:1562-1565 | counting the kept items counts the leaves of positive weight |
| RootToLeaf.ExtractedErrorBounds | algorithm/src/main/java/weka/classifiers/trees/MIT.java:1533-1542 | when no leaf distribution has a negative entry, every extracted rule has 0 <= error <= weight, and getTreeError of the extracted rules lies in [0, their total weight] |
| RootToLeaf.TreeErrorOfTree | algorithm/src/main/java/weka/classifiers/trees/MIT.java:1533-1549 | for a tree whose leaves reached from the root carry no negative weight, getTreeError of its extracted rules lies in [0, their total weight] |
| RootToLeaf.TreeRulesFlat | algorithm/src/main/java/weka/classifiers/trees/MIT.java:1551-1611 | the recursive walk yields exactly the rules of the flat list of leaves, in walk order, with the same first failure |
| RootToLeaf.BranchRulesFlat | algorithm/src/main/java/weka/classifiers/trees/MIT.java:1576-1583 | the same for the successors of a nominal split |
| RootToLeaf.BranchRulesPrefixFailure | algorithm/src/main/java/weka/classifiers/trees/MIT.java:1576-1583 | a failure among the first j successors is the failure of the whole split |
| RootToLeaf.TreeErrorAppend | algorithm/src/main/java/weka/classifiers/trees/MIT.java:1533-1542 | the tree error of two rule lists together is the sum of their tree errors |
| RootToLeaf.TreeErrorBounds | algorithm/src/main/java/weka/classifiers/trees/MIT.java:1533-1542 | when each rule's error lies in [0, weight], the tree error lies in [0, total weight] |
| RootToLeaf.Popped | algorithm/src/main/java/weka/classifiers/trees/MIT.java:1567-1569 | pop removes the top entry, or does nothing on an empty stack |
| RootToLeaf.PoppedPush | algorithm/src/main/java/weka/classifiers/trees/MIT.java:1580-1586 | popping undoes a push |
| RootToLeaf.BuildPathStep | algorithm/src/main/java/weka/classifiers/trees/MIT.java:1822-1846 | one more stack entry adds exactly its condition, and marks a numeric attribute iff it is numeric |
| RootToLeaf.BuildPathPrefixFailure | algorithm/src/main/java/weka/classifiers/trees/MIT.java:1822-1826 | a failure on a prefix of the stack is the failure of the whole stack |
| RootToLeaf.RootToLeafItem.constructor | algorithm/src/main/java/weka/classifiers/trees/MIT.java:1554-1556 | a new item has no conditions and no numeric attribute |
| RootToLeaf.RootToLeafItem.SetSubTree | algorithm/src/main/java/weka/classifiers/trees/MIT.java:1763-1820 | the path becomes AddCondition of the old path; the outcome is AddCondition's |
| RootToLeaf.RootToLeafItem.SetSubTreeOf | algorithm/src/main/java/weka/classifiers/trees/MIT.java:1828-1846 | the same, and a numeric entry sets hasNumericAtt |
| RootToLeaf.RootToLeafItem.SetSubTrees | algorithm/src/main/java/weka/classifiers/trees/MIT.java:1822-1826 | the loop over the stack builds BuildPath of the stack, and hasNumericAtt holds iff the stack has a numeric split |
| RootToLeaf.RootToLeafItem.SetClass | algorithm/src/main/java/weka/classifiers/trees/MIT.java:1848-1947 | succeeds iff the statistics and the class weight are found; then class, weight, error, correct = weight - error, the table of `_calc` and (for positive weight) the metrics; the failure is that of the first failing stage |
| RootToLeaf.TreeAsRootToLeaf.constructor | algorithm/src/main/java/weka/classifiers/trees/MIT.java:1521-1527 | the catalog and class table of the data, no rules, an empty stack |
| RootToLeaf.TreeAsRootToLeaf.ReadTreeAsRootToLeaf | algorithm/src/main/java/weka/classifiers/trees/MIT.java:1544-1549 | starting from an empty stack, appends exactly the rules of the tree's leaves in walk order and leaves the stack empty; fails with the first leaf's failure |
| RootToLeaf.TreeAsRootToLeaf.LeafItem | algorithm/src/main/java/weka/classifiers/trees/MIT.java:1554-1565 | a new item takes the whole stack, then the leaf's statistics; the result is the leaf's rule, or none for weight 0 |
| RootToLeaf.TreeAsRootToLeaf.DumpLeaf | algorithm/src/main/java/weka/classifiers/trees/MIT.java:1554-1570 | appends the leaf's rule if any, then pops once |
| RootToLeaf.TreeAsRootToLeaf.DumpTree | algorithm/src/main/java/weka/classifiers/trees/MIT.java:1551-1611 | appends the rules of the leaves below the node, read with the stack it was called with, and pops exactly the entry its caller pushed (stack balance) |
| RootToLeaf.TreeAsRootToLeaf.DumpBranch | algorithm/src/main/java/weka/classifiers/trees/MIT.java:1591-1603 | pushes one entry and walks the successor; the stack comes back as it was |
| RootToLeaf.TreeAsRootToLeaf.DumpNominal | algorithm/src/main/java/weka/classifiers/trees/MIT.java:1573-1588 | walks the successors by ascending index, then pops once |
| RootToLeaf.TreeAsRootToLeaf.DumpNumeric | algorithm/src/main/java/weka/classifiers/trees/MIT.java:1589-1609 | walks `<` before `>=`, then pops once |
| MetaData.Cell | algorithm/src/main/java/weka/classifiers/trees/MIT.java:2247-2344 | a cell is missing iff no condition is on the attribute, a label iff the first condition is nominal, and the midpoint of a non-empty interval lies inside it |
| MetaData.Columns | algorithm/src/main/java/weka/classifiers/trees/MIT.java:2293-2316 | one cell per attribute, in attribute order |
| MetaData.WeightByParam | algorithm/src/main/java/weka/classifiers/trees/MIT.java:2357-2381 | L, N and S select the weighted Laplace, novelty and satisfaction; every other code, P included, selects weighted precision |
| MetaData.RowsOfShape | algorithm/src/main/java/weka/classifiers/trees/MIT.java:2217-2353 | a rule gives 0, 1 or 2 rows, as RowCount says; each has the rule's class and one value per attribute, and their weights add up to the selected weight (halved for the two interval rows) |
| MetaData.RowsWeightAppend | algorithm/src/main/java/weka/classifiers/trees/MIT.java:2217-2353 | row weights add over concatenation |
| MetaData.MetaRowsShape | algorithm/src/main/java/weka/classifiers/trees/MIT.java:2204-2353 | the meta data has TotalRowCount rows and the summed selected weight of the kept rules; every row has one value per attribute and the class of a kept rule |
| MetaData.RowsInMetaRows | algorithm/src/main/java/weka/classifiers/trees/MIT.java:2217 | every row of every rule is in the meta data |
| MetaData.RowsOfContents | algorithm/src/main/java/weka/classifiers/trees/MIT.java:2235-2350 | missing when unconditioned, the label for a nominal condition; interval min and max in the two rows of the `I` strategy, the midpoint otherwise |
| MetaData.PlainRowsHoldNoNumber | algorithm/src/main/java/weka/classifiers/trees/MIT.java:2325-2350 | a rule without numeric attribute, whose conditions are then all nominal, gives rows holding only labels and missing cells |
| MetaData.PrecisionWeightIsCorrect | algorithm/src/main/java/weka/classifiers/trees/MIT.java:2357-2381 | under P (and any unknown code) a rule's weight in the meta data is exactly its correctly classified weight |
| MetaData.ScoredTable | algorithm/src/main/java/weka/classifiers/trees/MIT.java:1930-1946 | a kept rule's table has l = weight > 0 and nr > 0, and its metrics are those of the table |
| MetaData.FilteredWeightsPositive | algorithm/src/main/java/weka/classifiers/trees/MIT.java:2220-2226 | under N and S a scored rule is kept iff its selected weight is positive, so every row it gives has positive weight |
| MetaData.LeafCells | algorithm/src/main/java/weka/classifiers/trees/MIT.java:2247-2316 | a leaf rule's cell is missing if the stack never splits on the attribute, the first split's label if that split is nominal, and the interval threaded through all the stack's splits (or its midpoint) if it is numeric |
| MetaData.PathCells | algorithm/src/main/java/weka/classifiers/trees/MIT.java:1822-1826 | the same cells, for the conditions built from any stack |
| MetaData.FirstStepCell | algorithm/src/main/java/weka/classifiers/trees/MIT.java:1750-1757 | the cell of an attribute is determined by the first stack entry on it |
| MetaData.FirstCell | algorithm/src/main/java/weka/classifiers/trees/MIT.java:2249-2311 | a known first condition gives its label, or its interval min, max or midpoint |
| MetaData.TreeAsARFF.constructor | algorithm/src/main/java/weka/classifiers/trees/MIT.java:2194-2198 | the meta data are the rows of all rules, under the given strategies |
| MetaData.TreeAsARFF.ReadTreeAsARFF | algorithm/src/main/java/weka/classifiers/trees/MIT.java:2204-2217 | clears the meta data and adds each rule's rows in turn (loop proved against `MetaRows`) |
| MetaData.TreeAsARFF.ReadRule | algorithm/src/main/java/weka/classifiers/trees/MIT.java:2219-2351 | one pass of the loop appends exactly the rows of one rule |
| MetaData.TreeAsARFF.IntervalColumns | algorithm/src/main/java/weka/classifiers/trees/MIT.java:2247-2274 | the column loop of the interval strategy builds the min row and the max row |
| MetaData.TreeAsARFF.FillColumns | algorithm/src/main/java/weka/classifiers/trees/MIT.java:2293-2344 | the column loop of the average strategy and of a rule without numeric condition |
| Options.OptionsAccepted | algorithm/src/main/java/weka/classifiers/trees/MIT.java:1271-1355 | setOptions throws nothing iff the command line is Acceptable (no unpruned with -S or -R, -C only without -R or -U and in (0, 1), -N only with -R) |
| Options.OptionsRefused | algorithm/src/main/java/weka/classifiers/trees/MIT.java:1305-1344 | each of the five exceptions is thrown iff its condition holds and no earlier check fired |
| Options.AcceptedOptions | algorithm/src/main/java/weka/classifiers/trees/MIT.java:1271-1350 | an accepted command line fixes every field whatever the fields held before, leaves the pruning settings consistent, and gives each absent option its default (-M 2, -I 15, -C 0.25, -N 3, -Q 1) |
| Options.RefusedOptions | algorithm/src/main/java/weka/classifiers/trees/MIT.java:1289-1350 | after an exception, the fields read after the throwing check keep their old values (folds and seed always, confidence unless it was read, -R when -S is the refusal), and the strategies are already set |
| Options.SettersExclusive | algorithm/src/main/java/weka/classifiers/trees/MIT.java:529-535 | after either setter the two pruning modes never both hold, the set mode has the value asked for, and the other changes only by being switched off |
| Classifier.InfoOfData | algorithm/src/main/java/weka/classifiers/trees/MIT.java:2880-2902 | the class-weight table of the data, as a value, is the one DatasetInfo builds |
| Classifier.InfoOfUnique | algorithm/src/main/java/weka/classifiers/trees/MIT.java:2880-2902 | that table is determined by the data |
| Classifier.TreeMetas | algorithm/src/main/java/weka/classifiers/trees/MIT.java:972-987 | one entry per tree, each that tree's meta instances |
| Classifier.MetaTrainingDataFailure | algorithm/src/main/java/weka/classifiers/trees/MIT.java:970-987 | the build fails iff some tree's extraction fails, and then with the first such tree's error |
| Classifier.MetaTrainingDataShape | algorithm/src/main/java/weka/classifiers/trees/MIT.java:970-987 | a successful build holds all the trees' rows together, each with one value per attribute and a label of the class |
| Classifier.TreeMetaShape | algorithm/src/main/java/weka/classifiers/trees/MIT.java:975-987 | every row of one tree has one value per attribute and a label of the class |
| Classifier.RulesMetaShape | algorithm/src/main/java/weka/classifiers/trees/MIT.java:2204-2353 | the rows of well-scored rules have one value per attribute and a label of the class |
| Classifier.MIT.constructor | algorithm/src/main/java/weka/classifiers/trees/MIT.java:190-251 | the field initialisers (those of the forest size and the two strategies follow at lines 871-875), whose pruning settings are consistent |
| Classifier.MIT.SetOptions | algorithm/src/main/java/weka/classifiers/trees/MIT.java:1271-1355 | the outcome and all option fields are those of ApplyOptions on the old fields |
| Classifier.MIT.ReadCounts | algorithm/src/main/java/weka/classifiers/trees/MIT.java:1274-1290 | -M and -I with their defaults, -STG and -W as read |
| Classifier.MIT.ReadFields | algorithm/src/main/java/weka/classifiers/trees/MIT.java:1274-1304 | all the fields read before the first check, as ReadOptions of the old fields |
| Classifier.MIT.ReadFlags | algorithm/src/main/java/weka/classifiers/trees/MIT.java:1294-1296 | -B, -A and the negation of -J |
| Classifier.MIT.ReadPruningFlags | algorithm/src/main/java/weka/classifiers/trees/MIT.java:1299-1304 | -U, the negations of -O and -S, -L and doNotMakeSplitPointActualValue |
| Classifier.MIT.ReadPruning | algorithm/src/main/java/weka/classifiers/trees/MIT.java:1315-1350 | confidence, folds and seed, and their checks, as ApplyTail |
| Classifier.MIT.SetUnpruned | algorithm/src/main/java/weka/classifiers/trees/MIT.java:529-535 | the pruning fields become WithUnpruned of the old ones |
| Classifier.MIT.SetReducedErrorPruning | algorithm/src/main/java/weka/classifiers/trees/MIT.java:653-659 | the pruning fields become WithReducedErrorPruning of the old ones |
| Classifier.MIT.BuildMetaTrainingData | algorithm/src/main/java/weka/classifiers/trees/MIT.java:960-987 | the loop over the trees yields MetaTrainingData: every tree's rows in forest order, or the first failure |
| Classifier.MIT.TreeInstances | algorithm/src/main/java/weka/classifiers/trees/MIT.java:975-987 | one pass: a new TreeAsRootToLeaf and a new TreeAsARFF give that tree's meta instances |

## Left out

- Training the random forest and the final C4.5 tree (`buildClassifier` before and after the loop, `classifyInstance`, `distributionForInstance`): these are Weka's own learners. The forest's trees are a parameter of `BuildMetaTrainingData`.
- Printing and textual output (`toString`, the `App` entry point), `getCapabilities`, `listOptions`, `getOptions`, and the J48-style getters and setters that only copy a field.
- `Utils.roundDouble` is the identity: all metrics, weights and midpoints are exact reals, not rounded to 2 or 3 decimals. Java's `float` confidence factor is a `real`.
- Metrics.ComputeMetrics: it requires l > 0 and nr > 0. For a leaf of weight 0, Java computes NaN or infinite metrics, and those leaves are then dropped. `SetClass` leaves the metrics unset in that case.
- Catalog.MetricsDefined: the model needs positive total weight and no class holding all of it, because satisfaction divides by nr. Java would produce NaN or an infinity there.
- Attribute names are compared with `==`. Java uses `equalsIgnoreCase` when it looks up the path's first condition, and `equals` elsewhere. The model assumes attribute names differ beyond letter case.
- A numeric class attribute (the numeric branch of `setClass`): MIT's meta data is labelled with nominal class values, so only the nominal branch is modelled.
- `Instances` internals: copying the header, `setValue` of labels into a `DenseInstance`, and `setClassValue` of a label the class attribute lacks. A meta row carries its values and its class label as data.
- Parsing command-line text: `Integer.parseInt` and `new Float(...)`. Options are given already parsed, and a malformed number is not modelled. `Utils.getOption` removing what it read, `super.setOptions` and `checkForRemainingOptions` are not modelled. An absent `-STG` or `-W` reads as "": the average strategy and the precision weight.
- TreeAsRootToLeaf's `_forestSize`: it is stored but only used by a commented-out normalisation, so the model does not hold it.
- The commented-out error-rate filter (`-ERA`) and the commented-out weight normalisation.
- RootToLeaf.TreeAsRootToLeaf.DumpTree: the leaf rule maker is a ghost constant equal to `MakeRule` on the training data. This keeps the walk's proof separate from scoring, and does not change what the walk computes.
