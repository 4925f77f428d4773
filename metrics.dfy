/** What a leaf of a random tree says about its rule (RootToLeafItem.setClass on
    a nominal class), the 2x2 contingency table built from it
    (ContingencyMatrixRootToLeafItem) and the rule-quality metrics.
    `Utils.roundDouble` is taken as the identity: every quantity is exact. */
module Metrics {
  import opened Wrappers
  import opened Errors

  // ---------------------------------------------------------------- Weka's Utils.sum and Utils.maxIndex

  /** Utils.sum: the total of a distribution. */
  function Sum(s: seq<real>): real
    decreases |s|
  {
    if s == [] then 0.0 else Sum(s[..|s| - 1]) + s[|s| - 1]
  }

  /** Utils.maxIndex: the first index holding the largest value (0 for an empty array). */
  function MaxIndex(s: seq<real>): (k: nat)
    ensures s == [] ==> k == 0
    ensures s != [] ==> k < |s|
    ensures forall j :: 0 <= j < |s| ==> s[j] <= s[k]
    ensures forall j :: 0 <= j < k ==> s[j] < s[k]
    decreases |s|
  {
    if |s| <= 1 then 0
    else
      var k := MaxIndex(s[..|s| - 1]);
      if s[|s| - 1] > s[k] then |s| - 1 else k
  }

  predicate NonNegative(s: seq<real>) {
    forall j :: 0 <= j < |s| ==> s[j] >= 0.0
  }

  /** A non-negative entry never exceeds the total of a non-negative distribution. */
  lemma {:induction false} EntryAtMostSum(s: seq<real>, k: nat)
    requires NonNegative(s) && k < |s|
    ensures 0.0 <= s[k] <= Sum(s)
    decreases |s|
  {
    var init := s[..|s| - 1];
    SumNonNegative(init);
    if k < |s| - 1 {
      EntryAtMostSum(init, k);
    }
  }

  lemma {:induction false} SumNonNegative(s: seq<real>)
    requires NonNegative(s)
    ensures Sum(s) >= 0.0
    decreases |s|
  {
    if s != [] {
      SumNonNegative(s[..|s| - 1]);
    }
  }

  // ---------------------------------------------------------------- leaf statistics

  /** The class a leaf predicts, the weight that reaches it and the part of that
      weight it misclassifies. */
  datatype LeafStat = LeafStat(definedClass: string, weight: real, error: real)

  /** setClass(classifier) for a nominal class. A leaf without a distribution
      predicts the first label with weight and error 0. Java indexes the
      distribution and the labels at the majority index; when either index is
      out of range it throws, which is the failure here. */
  function LeafStats(distribution: Option<seq<real>>, classValues: seq<string>): (r: Result<LeafStat, MitError>)
    ensures distribution.None? ==>
      r == (if classValues == [] then Failure(ClassIndexOutOfRange(0)) else Success(LeafStat(classValues[0], 0.0, 0.0)))
    ensures distribution.Some? && r.Success? ==>
      var d := distribution.value;
      && d != [] && MaxIndex(d) < |classValues|
      && r.value.definedClass == classValues[MaxIndex(d)]
      && r.value.weight == Sum(d)
      && r.value.weight - r.value.error == d[MaxIndex(d)]
    ensures distribution.Some? && r.Failure? ==>
      distribution.value == [] || MaxIndex(distribution.value) >= |classValues|
  {
    match distribution
    case None =>
      if classValues == [] then Failure(ClassIndexOutOfRange(0))
      else Success(LeafStat(classValues[0], 0.0, 0.0))
    case Some(d) =>
      var maxIndex := MaxIndex(d);
      if d == [] then Failure(ClassIndexOutOfRange(0))
      else if maxIndex >= |classValues| then Failure(ClassIndexOutOfRange(maxIndex))
      else
        var sum := Sum(d);
        Success(LeafStat(classValues[maxIndex], sum, sum - d[maxIndex]))
  }

  /** On a distribution of non-negative weights, a leaf's error lies between 0 and
      its weight, the predicted class is a majority class, and what it classifies
      correctly (weight - error) is the weight of that class. */
  lemma LeafStatBounds(d: seq<real>, classValues: seq<string>)
    requires NonNegative(d)
    requires LeafStats(Some(d), classValues).Success?
    ensures var st := LeafStats(Some(d), classValues).value;
      && 0.0 <= st.error <= st.weight
      && (forall j :: 0 <= j < |d| ==> d[j] <= st.weight - st.error)
  {
    var k := MaxIndex(d);
    EntryAtMostSum(d, k);
  }

  // ---------------------------------------------------------------- contingency table

  /** ContingencyMatrixRootToLeafItem. `L` is "the rule fires", `R` is "the
      instance has the predicted class", `n` negates: LR are the correctly
      covered instances, LnR the misclassified ones, nLR the instances of the
      class the rule misses, nLnR the rest; l, nl, r, nr are the margins. */
  datatype ContingencyMatrix = ContingencyMatrix(
    LR: real, LnR: real, nLR: real, nLnR: real,
    l: real, nl: real, r: real, nr: real)

  /** _calc: the table of a rule from what it classifies correctly and wrongly,
      the weight of its class and the total weight. */
  function Calc(correct: real, error: real, weightOfClass: real, sumOfWeights: real): (cm: ContingencyMatrix)
    ensures cm.LR == correct && cm.LnR == error
    ensures cm.l == correct + error
    ensures cm.r == weightOfClass
    ensures cm.nr == sumOfWeights - weightOfClass
    ensures cm.l + cm.nl == sumOfWeights && cm.r + cm.nr == sumOfWeights
    ensures cm.LR + cm.LnR + cm.nLR + cm.nLnR == sumOfWeights
  {
    var LR := correct;
    var LnR := error;
    var nLR := weightOfClass - correct;
    var nLnR := (sumOfWeights - weightOfClass) - error;
    ContingencyMatrix(LR, LnR, nLR, nLnR, LR + LnR, nLR + nLnR, LR + nLR, LnR + nLnR)
  }

  // ---------------------------------------------------------------- rule metrics

  /** The metrics of a rule and their weighted applications. */
  datatype RuleMetrics = RuleMetrics(
    precision: real, laplace: real, novelty: real, satisfaction: real,
    weightPrecision: real, weightLaplace: real, weightNovelty: real, weightSatisfaction: real)

  /** The factor that scales novelty once more in its weighted form. */
  const NoveltyConstant: real := 100.0

  /** Precision LR / l: the share of the covered weight the rule gets right. */
  function Precision(cm: ContingencyMatrix): (p: real)
    requires cm.l > 0.0
    ensures p * cm.l == cm.LR
  {
    cm.LR / cm.l
  }

  /** The Laplace estimate (LR + 1) / (l + k) over k classes. */
  function Laplace(cm: ContingencyMatrix, numClasses: nat): (p: real)
    requires cm.l > 0.0
    ensures p * (cm.l + numClasses as real) == cm.LR + 1.0
  {
    (cm.LR + 1.0) / (cm.l + numClasses as real)
  }

  /** Novelty LR / N - l r / N^2: the covered weight of the class beyond what
      independence of rule and class would give. */
  function Novelty(cm: ContingencyMatrix, sumOfWeights: real): (p: real)
    requires sumOfWeights > 0.0
    ensures p * sumOfWeights * sumOfWeights == cm.LR * sumOfWeights - cm.l * cm.r
  {
    DivTimes(cm.LR, sumOfWeights);
    DivProduct(cm.l * cm.r, sumOfWeights, sumOfWeights);
    ScaledDifference(cm.LR / sumOfWeights, (cm.l * cm.r) / (sumOfWeights * sumOfWeights), sumOfWeights, cm.LR, cm.l * cm.r);
    cm.LR / sumOfWeights - (cm.l * cm.r) / (sumOfWeights * sumOfWeights)
  }

  /** Satisfaction 1 - N LnR / (l nr). */
  function Satisfaction(cm: ContingencyMatrix, sumOfWeights: real): (p: real)
    requires cm.l > 0.0 && cm.nr > 0.0
    ensures (1.0 - p) * cm.l * cm.nr == sumOfWeights * cm.LnR
  {
    PositiveProduct(cm.l, cm.nr);
    var q := (sumOfWeights * cm.LnR) / (cm.l * cm.nr);
    DivTimes(sumOfWeights * cm.LnR, cm.l * cm.nr);
    Associate(q, cm.l, cm.nr);
    1.0 - q
  }

  /** setClass(definedClass, weight, error, attribute): the four metrics and their
      weighted forms. Java divides by l and by nr without a check; the model
      asks for both to be positive, where Java's doubles would give NaN or an
      infinity. */
  function ComputeMetrics(weight: real, cm: ContingencyMatrix, numClasses: nat, sumOfWeights: real): RuleMetrics
    requires cm.l > 0.0 && cm.nr > 0.0 && sumOfWeights > 0.0
  {
    var precision := Precision(cm);
    var laplace := Laplace(cm, numClasses);
    var novelty := Novelty(cm, sumOfWeights);
    var satisfaction := Satisfaction(cm, sumOfWeights);
    RuleMetrics(precision, laplace, novelty, satisfaction,
      weight * precision, weight * laplace, weight * (novelty * NoveltyConstant), weight * satisfaction)
  }

  /** The metrics of a rule are the precision, Laplace estimate, novelty and
      satisfaction of its table. */
  lemma MetricFormulas(weight: real, cm: ContingencyMatrix, numClasses: nat, sumOfWeights: real)
    requires cm.l > 0.0 && cm.nr > 0.0 && sumOfWeights > 0.0
    ensures var m := ComputeMetrics(weight, cm, numClasses, sumOfWeights);
      && m.precision == Precision(cm) && m.laplace == Laplace(cm, numClasses)
      && m.novelty == Novelty(cm, sumOfWeights) && m.satisfaction == Satisfaction(cm, sumOfWeights)
  {
  }

  /** The weighted precision is the precision times the rule's weight, and
      positive with it when the weight is. */
  lemma WeightedPrecision(weight: real, cm: ContingencyMatrix, numClasses: nat, sumOfWeights: real)
    requires cm.l > 0.0 && cm.nr > 0.0 && sumOfWeights > 0.0
    ensures ComputeMetrics(weight, cm, numClasses, sumOfWeights).weightPrecision == weight * Precision(cm)
    ensures weight > 0.0 ==> (ComputeMetrics(weight, cm, numClasses, sumOfWeights).weightPrecision > 0.0 <==> Precision(cm) > 0.0)
  {
    if weight > 0.0 {
      SignOfProduct(Precision(cm), weight, weight * Precision(cm));
    }
  }

  /** The weighted Laplace estimate is the estimate times the rule's weight,
      and positive with it when the weight is. */
  lemma WeightedLaplace(weight: real, cm: ContingencyMatrix, numClasses: nat, sumOfWeights: real)
    requires cm.l > 0.0 && cm.nr > 0.0 && sumOfWeights > 0.0
    ensures ComputeMetrics(weight, cm, numClasses, sumOfWeights).weightLaplace == weight * Laplace(cm, numClasses)
    ensures weight > 0.0 ==> (ComputeMetrics(weight, cm, numClasses, sumOfWeights).weightLaplace > 0.0 <==> Laplace(cm, numClasses) > 0.0)
  {
    if weight > 0.0 {
      SignOfProduct(Laplace(cm, numClasses), weight, weight * Laplace(cm, numClasses));
    }
  }

  /** The weighted novelty is the novelty times the rule's weight times 100,
      and positive with it when the weight is. */
  lemma WeightedNovelty(weight: real, cm: ContingencyMatrix, numClasses: nat, sumOfWeights: real)
    requires cm.l > 0.0 && cm.nr > 0.0 && sumOfWeights > 0.0
    ensures ComputeMetrics(weight, cm, numClasses, sumOfWeights).weightNovelty
      == weight * (Novelty(cm, sumOfWeights) * NoveltyConstant)
    ensures weight > 0.0 ==> (ComputeMetrics(weight, cm, numClasses, sumOfWeights).weightNovelty > 0.0 <==> Novelty(cm, sumOfWeights) > 0.0)
  {
    if weight > 0.0 {
      SignOfScaled(Novelty(cm, sumOfWeights), NoveltyConstant, weight);
    }
  }

  /** The weighted satisfaction is the satisfaction times the rule's weight,
      and positive with it when the weight is. */
  lemma WeightedSatisfaction(weight: real, cm: ContingencyMatrix, numClasses: nat, sumOfWeights: real)
    requires cm.l > 0.0 && cm.nr > 0.0 && sumOfWeights > 0.0
    ensures ComputeMetrics(weight, cm, numClasses, sumOfWeights).weightSatisfaction == weight * Satisfaction(cm, sumOfWeights)
    ensures weight > 0.0 ==> (ComputeMetrics(weight, cm, numClasses, sumOfWeights).weightSatisfaction > 0.0 <==> Satisfaction(cm, sumOfWeights) > 0.0)
  {
    if weight > 0.0 {
      SignOfProduct(Satisfaction(cm, sumOfWeights), weight, weight * Satisfaction(cm, sumOfWeights));
    }
  }

  /** Dividing, then multiplying by the same non-zero value. */
  lemma DivTimes(x: real, b: real)
    requires b != 0.0
    ensures x / b * b == x
  {
  }

  lemma DivProduct(x: real, a: real, b: real)
    requires a > 0.0 && b > 0.0
    ensures x / (a * b) * (a * b) == x
  {
    PositiveProduct(a, b);
    DivTimes(x, a * b);
  }

  lemma ScaledDifference(q1: real, q2: real, n: real, a: real, b: real)
    requires q1 * n == a && q2 * (n * n) == b
    ensures (q1 - q2) * n * n == a * n - b
  {
    assert (q1 - q2) * n * n == q1 * n * n - q2 * (n * n);
  }

  lemma Associate(x: real, a: real, b: real)
    ensures x * a * b == x * (a * b)
  {
  }

  /** x / b is the one value that gives x when multiplied by b. */
  lemma DivisionUnique(x: real, b: real, y: real)
    requires b != 0.0 && y * b == x
    ensures x / b == y
  {
  }

  lemma QuotientAtMostOne(a: real, b: real)
    requires 0.0 <= a <= b && b > 0.0
    ensures 0.0 <= a / b <= 1.0
  {
    var q := a / b;
    assert q * b == a;
    DivisionUnique(b - a, b, 1.0 - q);
    assert (b - a) / b >= 0.0;
  }

  lemma PositiveProduct(x: real, y: real)
    requires x > 0.0 && y > 0.0
    ensures x * y > 0.0
  {
  }

  lemma NonNegativeProduct(x: real, y: real)
    requires x >= 0.0 && y >= 0.0
    ensures x * y >= 0.0
  {
  }

  /** The metrics of a leaf in terms of the leaf alone. With weight w > 0 and
      error e (0 <= e <= w), the table's l is w, precision is the fraction
      (w - e) / w classified correctly and lies in [0, 1], and the weighted
      precision w * precision is exactly the correctly classified weight w - e. */
  lemma LeafPrecision(w: real, e: real, c: real, n: real)
    requires 0.0 <= e <= w && w > 0.0 && 0.0 <= c < n
    ensures Calc(w - e, e, c, n).l == w
    ensures var p := Precision(Calc(w - e, e, c, n));
      && p == (w - e) / w && 0.0 <= p <= 1.0
      && w * p == w - e
  {
    var p := Precision(Calc(w - e, e, c, n));
    DivisionUnique(w - e, w, p);
    QuotientAtMostOne(w - e, w);
  }

  /** With at least one class, the Laplace estimate of a leaf lies in (0, 1]. */
  lemma LeafLaplace(w: real, e: real, c: real, n: real, k: nat)
    requires 0.0 <= e <= w && w > 0.0 && 0.0 <= c < n && k >= 1
    ensures 0.0 < Laplace(Calc(w - e, e, c, n), k) <= 1.0
  {
    var p := Laplace(Calc(w - e, e, c, n), k);
    DivisionUnique(w - e + 1.0, w + k as real, p);
    QuotientAtMostOne(w - e + 1.0, w + k as real);
    assert (w - e + 1.0) / (w + k as real) > 0.0;
  }

  /** Novelty of a leaf of class weight c in a data set of total weight N is
      (w - e) / N - w c / N^2: it is positive exactly when the leaf's precision
      (w - e) / w beats the class's share c / N of the data, that is when
      (w - e) N > w c. */
  lemma LeafNovelty(w: real, e: real, c: real, n: real)
    requires 0.0 <= e <= w && w > 0.0 && 0.0 <= c < n
    ensures Novelty(Calc(w - e, e, c, n), n) * n * n == (w - e) * n - w * c
    ensures Novelty(Calc(w - e, e, c, n), n) > 0.0 <==> (w - e) * n > w * c
  {
    var cm := Calc(w - e, e, c, n);
    var v := Novelty(cm, n);
    assert cm.l * cm.r == w * c;
    SignOfProduct(v, n, v * n);
    SignOfProduct(v * n, n, (w - e) * n - w * c);
  }

  /** Satisfaction of a leaf is 1 - N e / (w (N - c)): never above 1, and
      positive exactly when w (N - c) > N e. */
  lemma LeafSatisfaction(w: real, e: real, c: real, n: real)
    requires 0.0 <= e <= w && w > 0.0 && 0.0 <= c < n
    ensures (1.0 - Satisfaction(Calc(w - e, e, c, n), n)) * w * (n - c) == n * e
    ensures Satisfaction(Calc(w - e, e, c, n), n) <= 1.0
    ensures Satisfaction(Calc(w - e, e, c, n), n) > 0.0 <==> w * (n - c) > n * e
  {
    var s := Satisfaction(Calc(w - e, e, c, n), n);
    var g := 1.0 - s;
    assert g * w * (n - c) == n * e;
    NonNegativeProduct(n, e);
    PositiveProduct(w, n - c);
    SignOfScaled2(g, w, n - c);
    assert s * w * (n - c) == w * (n - c) - n * e;
    SignOfScaled2(s, w, n - c);
  }

  /** Multiplying by a positive factor keeps the sign. */
  lemma SignOfProduct(x: real, p: real, g: real)
    requires p > 0.0 && x * p == g
    ensures x > 0.0 <==> g > 0.0
  {
    if x > 0.0 {
      PositiveProduct(x, p);
    } else {
      NonNegativeProduct(-x, p);
      assert g == -(-x * p);
    }
  }

  /** Scaling by k, then by w, both positive, keeps the sign. */
  lemma SignOfScaled(x: real, k: real, w: real)
    requires k > 0.0 && w > 0.0
    ensures w * (x * k) > 0.0 <==> x > 0.0
  {
    SignOfProduct(x, k, x * k);
    SignOfProduct(x * k, w, w * (x * k));
  }

  /** Multiplying by two positive factors keeps the sign. */
  lemma SignOfScaled2(x: real, a: real, b: real)
    requires a > 0.0 && b > 0.0
    ensures x > 0.0 <==> x * a * b > 0.0
    ensures x >= 0.0 <==> x * a * b >= 0.0
  {
    if x > 0.0 {
      PositiveProduct(x, a);
      PositiveProduct(x * a, b);
    } else {
      NonNegativeProduct(-x, a);
      NonNegativeProduct(-x * a, b);
      assert x * a * b == -((-x * a) * b);
      if x < 0.0 {
        PositiveProduct(-x, a);
        PositiveProduct(-x * a, b);
      }
    }
  }
}
