/**
 * Per-code training set-up and the prediction combinators of the
 * logistic-regression coder (src/logistic.py).
 *
 * The learner itself is abstract.  Training records, for every code column
 * that has positives, exactly the call the learner would receive
 * (`FitCall`): the augmented feature matrix, the augmented label vector,
 * the class weights, the optional sample weights and the regularisation
 * settings.  Prediction is generic in the classifier type and takes the
 * classifier's per-message decision and probability as functions.
 */
module Logistic {
  import opened Wrappers

  /** A trained classifier for one code, or the marker for a code with no positive rows. */
  datatype Slot<C> = Absent | Trained(classifier: C)

  /** The value of a numpy scalar division: finite, or inf/-inf/nan when the divisor is zero. */
  datatype Quotient = Finite(value: real) | PosInf | NegInf | NaN

  /** Class weighting handed to the learner. */
  datatype ClassWeight = Balanced | Explicit(positive: Quotient, negative: Quotient)

  /** Everything the learner's `fit` receives for one code. */
  datatype FitCall = FitCall(
    features: seq<seq<real>>,
    labels: seq<bool>,
    classWeight: ClassWeight,
    sampleWeight: Option<seq<real>>,
    penalty: string,
    inverseRegularisation: real)

  datatype TrainError = WeightOptionNotRecognised

  /** The keyword arguments of `train`. */
  datatype Config = Config(
    penalty: string,
    inverseRegularisation: real,
    keywords: Option<seq<seq<nat>>>,
    keywordStrength: real,
    keywordWeight: real,
    weightOption: string,
    smoothing: real)

  /** The defaults of `train`. */
  const DefaultConfig := Config("l1", 1.0, None, 1.0, 1.0, "balanced", 0.0)

  // ---------------------------------------------------------------------------
  // Matrices

  predicate IsMatrix<T>(m: seq<seq<T>>, cols: nat) {
    forall r :: 0 <= r < |m| ==> |m[r]| == cols
  }

  /** Column `i` of a row-major matrix (one element of `codes.transpose()`). */
  function Column<T>(m: seq<seq<T>>, i: nat): (col: seq<T>)
    requires forall r :: 0 <= r < |m| ==> i < |m[r]|
    ensures |col| == |m|
    ensures forall r :: 0 <= r < |m| ==> col[r] == m[r][i]
  {
    seq(|m|, r requires 0 <= r < |m| => m[r][i])
  }

  /** Number of `true` entries (numpy's `sum` of a boolean vector). */
  function CountTrue(v: seq<bool>): (n: nat)
    ensures n <= |v|
    ensures n == 0 <==> forall r :: 0 <= r < |v| ==> !v[r]
  {
    if v == [] then 0 else (if v[0] then 1 else 0) + CountTrue(v[1..])
  }

  lemma {:induction false} CountTrueAppend(a: seq<bool>, b: seq<bool>)
    ensures CountTrue(a + b) == CountTrue(a) + CountTrue(b)
  {
    if a == [] {
      assert a + b == b;
    } else {
      assert (a + b)[1..] == a[1..] + b;
      CountTrueAppend(a[1..], b);
    }
  }

  /** The positive-class count of the label vector `labels + [true] * nKey`. */
  lemma CountTrueWithKeywords(labels: seq<bool>, nKey: nat)
    ensures CountTrue(labels + seq(nKey, _ => true)) == CountTrue(labels) + nKey
  {
    CountTrueAppend(labels, seq(nKey, _ => true));
    AllTrueCount(nKey);
  }

  lemma {:induction false} AllTrueCount(n: nat)
    ensures CountTrue(seq(n, _ => true)) == n
  {
    if n > 0 {
      assert seq(n, _ => true)[1..] == seq(n - 1, _ => true);
      AllTrueCount(n - 1);
    }
  }

  // ---------------------------------------------------------------------------
  // Specification of one column of `train`

  /** The keyword pseudo-message for one keyword feature: zero except at `index`. */
  function KeywordRow(f: nat, index: nat, strength: real): (row: seq<real>)
    ensures |row| == f
  {
    seq(f, c => if c == index then strength else 0.0)
  }

  /** The keyword indices of code `i`, or `None` when no keywords were given. */
  function KeywordsOf(keywords: Option<seq<seq<nat>>>, i: nat): Option<seq<nat>>
    requires keywords.Some? ==> i < |keywords.value|
  {
    if keywords.None? then None else Some(keywords.value[i])
  }

  /**
   * The matrix, label vector and keyword count that are fitted for one code:
   * the originals when no keywords are given, otherwise one extra positive
   * row per keyword index appended after the real rows.
   */
  function Augment(features: seq<seq<real>>, f: nat, labels: seq<bool>, indices: Option<seq<nat>>, strength: real)
    : (r: (seq<seq<real>>, seq<bool>, nat))
    requires |labels| == |features|
    ensures indices.None? ==> r == (features, labels, 0)
    ensures indices.Some? ==> r.2 == |indices.value|
    ensures |r.0| == |r.1| == |features| + r.2
    ensures r.0[..|features|] == features && r.1[..|features|] == labels
    ensures indices.Some? ==> forall j :: |features| <= j < |r.0| ==>
              r.0[j] == KeywordRow(f, indices.value[j - |features|], strength)
    ensures forall j :: |features| <= j < |r.1| ==> r.1[j]
  {
    match indices
    case None => (features, labels, 0)
    case Some(ks) =>
      (features + seq(|ks|, j requires 0 <= j < |ks| => KeywordRow(f, ks[j], strength)),
       labels + seq(|ks|, _ => true),
       |ks|)
  }

  /** numpy's scalar division `num / den` on finite operands. */
  function Divide(num: real, den: real): (q: Quotient)
    ensures den != 0.0 ==> q == Finite(num / den)
    ensures den == 0.0 ==> !q.Finite? && (q == NaN <==> num == 0.0)
  {
    if den != 0.0 then Finite(num / den)
    else if num > 0.0 then PosInf
    else if num < 0.0 then NegInf
    else NaN
  }

  /**
   * The class weight chosen by `weight_option`, for a column with `nPos`
   * positives among `n` real rows and `nKey` keyword rows.
   */
  function ClassWeightOf(option: string, n: nat, nPos: nat, nKey: nat, keywordWeight: real, smoothing: real)
    : (r: Result<ClassWeight, TrainError>)
    requires nPos <= n
    ensures r.Failure? <==> option != "balanced" && option != "smoothed"
    ensures option == "balanced" ==> r == Success(Balanced)
    ensures option == "smoothed" && n > nPos && nPos as real + nKey as real * keywordWeight != 0.0 ==>
              r == Success(Explicit(Finite((nPos as real + smoothing) / (nPos as real + nKey as real * keywordWeight)),
                                    Finite(((n - nPos) as real + smoothing) / (n - nPos) as real)))
  {
    if option == "balanced" then Success(Balanced)
    else if option == "smoothed" then
      var nNeg := n - nPos;
      Success(Explicit(Divide(nPos as real + smoothing, nPos as real + nKey as real * keywordWeight),
                       Divide(nNeg as real + smoothing, nNeg as real)))
    else Failure(WeightOptionNotRecognised)
  }

  /** Sample weights: none when `keyword_weight == 1`, else 1 per real row and `keyword_weight` per keyword row. */
  function SampleWeightOf(n: nat, nKey: nat, keywordWeight: real): (r: Option<seq<real>>)
    ensures r.None? <==> keywordWeight == 1.0
    ensures r.Some? ==> (|r.value| == n + nKey &&
                         (forall t :: 0 <= t < n ==> r.value[t] == 1.0) &&
                         (forall t :: n <= t < n + nKey ==> r.value[t] == keywordWeight))
  {
    if keywordWeight == 1.0 then None
    else Some(seq(n + nKey, t => if t < n then 1.0 else keywordWeight))
  }

  predicate ValidInputs(features: seq<seq<real>>, f: nat, codes: seq<seq<bool>>, k: nat, cfg: Config) {
    && IsMatrix(features, f)
    && |codes| == |features|
    && IsMatrix(codes, k)
    && (cfg.keywords.Some? ==>
          |cfg.keywords.value| == k &&
          forall i, j :: 0 <= i < k && 0 <= j < |cfg.keywords.value[i]| ==> cfg.keywords.value[i][j] < f)
  }

  /** What `train` produces for code column `i`, or the error it raises there. */
  function ColumnSlot(features: seq<seq<real>>, f: nat, codes: seq<seq<bool>>, k: nat, cfg: Config, i: nat)
    : Result<Slot<FitCall>, TrainError>
    requires ValidInputs(features, f, codes, k, cfg) && i < k
  {
    var labels := Column(codes, i);
    var nPos := CountTrue(labels);
    if nPos == 0 then Success(Absent)
    else
      var (mat, vec, nKey) := Augment(features, f, labels, KeywordsOf(cfg.keywords, i), cfg.keywordStrength);
      match ClassWeightOf(cfg.weightOption, |features|, nPos, nKey, cfg.keywordWeight, cfg.smoothing)
      case Failure(e) => Failure(e)
      case Success(cw) =>
        Success(Trained(FitCall(mat, vec, cw, SampleWeightOf(|features|, nKey, cfg.keywordWeight),
                                cfg.penalty, cfg.inverseRegularisation)))
  }

  // ---------------------------------------------------------------------------
  // train

  /** `np.zeros((N_key, F))` with `key_features[j, indices[j]] = strength` written in place. */
  method KeywordFeatures(f: nat, indices: seq<nat>, strength: real) returns (rows: seq<seq<real>>)
    requires forall j :: 0 <= j < |indices| ==> indices[j] < f
    ensures |rows| == |indices|
    ensures forall j :: 0 <= j < |indices| ==> rows[j] == KeywordRow(f, indices[j], strength)
  {
    var key := new real[|indices|, f]((_, _) => 0.0);
    for j := 0 to |indices|
      invariant forall j', c :: 0 <= j' < |indices| && 0 <= c < f ==>
                  key[j', c] == (if j' < j && c == indices[j'] then strength else 0.0)
    {
      key[j, indices[j]] := strength;
    }
    rows := [];
    for j := 0 to |indices|
      invariant |rows| == j
      invariant forall j' :: 0 <= j' < j ==> rows[j'] == KeywordRow(f, indices[j'], strength)
    {
      var row := seq(f, c requires 0 <= c < f reads key => key[j, c]);
      assert row == KeywordRow(f, indices[j], strength);
      rows := rows + [row];
    }
  }

  /** `np.ones(N + N_key)` with `sample_weight[N:] = keyword_weight` written in place. */
  method SampleWeights(n: nat, nKey: nat, keywordWeight: real) returns (w: seq<real>)
    ensures |w| == n + nKey
    ensures forall t :: 0 <= t < n ==> w[t] == 1.0
    ensures forall t :: n <= t < n + nKey ==> w[t] == keywordWeight
  {
    var a := new real[n + nKey](_ => 1.0);
    for t := n to n + nKey
      invariant forall s :: 0 <= s < n + nKey ==> a[s] == (if n <= s < t then keywordWeight else 1.0)
    {
      a[t] := keywordWeight;
    }
    w := a[..];
  }

  /** Lines 36-53 of `train`: keep the data, or append one positive keyword row per keyword index. */
  method AugmentColumn(features: seq<seq<real>>, f: nat, codeI: seq<bool>, indices: Option<seq<nat>>, strength: real)
    returns (featMat: seq<seq<real>>, codeVec: seq<bool>, nKey: nat)
    requires |codeI| == |features|
    requires indices.Some? ==> forall j :: 0 <= j < |indices.value| ==> indices.value[j] < f
    ensures (featMat, codeVec, nKey) == Augment(features, f, codeI, indices, strength)
  {
    if indices.None? {
      featMat, codeVec, nKey := features, codeI, 0;
    } else {
      nKey := |indices.value|;
      var keyFeatures := KeywordFeatures(f, indices.value, strength);
      assert keyFeatures == seq(nKey, j requires 0 <= j < nKey => KeywordRow(f, indices.value[j], strength));
      featMat := features + keyFeatures;
      codeVec := codeI + seq(nKey, _ => true);
    }
  }

  /** Lines 56-63 of `train`: the class weight for `weight_option`, or the `ValueError`. */
  method ChooseClassWeight(option: string, n: nat, nPos: nat, nKey: nat, keywordWeight: real, smoothing: real)
    returns (r: Result<ClassWeight, TrainError>)
    requires nPos <= n
    ensures r == ClassWeightOf(option, n, nPos, nKey, keywordWeight, smoothing)
  {
    if option == "balanced" {
      r := Success(Balanced);
    } else if option == "smoothed" {
      var nNeg := n - nPos;
      r := Success(Explicit(Divide(nPos as real + smoothing, nPos as real + nKey as real * keywordWeight),
                            Divide(nNeg as real + smoothing, nNeg as real)));
    } else {
      r := Failure(WeightOptionNotRecognised);
    }
  }

  /** The body of `train`'s loop for code column `i`: `None`, a fit call, or the weight-option error. */
  method TrainColumn(features: seq<seq<real>>, f: nat, codes: seq<seq<bool>>, k: nat, cfg: Config, i: nat)
    returns (r: Result<Slot<FitCall>, TrainError>)
    requires ValidInputs(features, f, codes, k, cfg) && i < k
    ensures r == ColumnSlot(features, f, codes, k, cfg, i)
  {
    var n := |features|;
    var codeI := Column(codes, i);
    var nPos := CountTrue(codeI);
    if nPos == 0 {
      return Success(Absent);
    }
    var featMat, codeVec, nKey := AugmentColumn(features, f, codeI, KeywordsOf(cfg.keywords, i), cfg.keywordStrength);
    var classWeight := ChooseClassWeight(cfg.weightOption, n, nPos, nKey, cfg.keywordWeight, cfg.smoothing);
    if classWeight.Failure? {
      return Failure(classWeight.error);
    }
    var sampleWeight: Option<seq<real>>;
    if cfg.keywordWeight == 1.0 {
      sampleWeight := None;
    } else {
      var w := SampleWeights(n, nKey, cfg.keywordWeight);
      assert w == seq(n + nKey, t => if t < n then 1.0 else cfg.keywordWeight);
      sampleWeight := Some(w);
    }
    assert sampleWeight == SampleWeightOf(n, nKey, cfg.keywordWeight);
    r := Success(Trained(FitCall(featMat, codeVec, classWeight.value, sampleWeight, cfg.penalty, cfg.inverseRegularisation)));
  }

  /**
   * `train`: one slot per code column, in column order.  Raises (returns a
   * failure) exactly when the weight option is unrecognised and some column
   * has positives; a matrix whose columns are all empty never reaches the check.
   */
  method Train(features: seq<seq<real>>, f: nat, codes: seq<seq<bool>>, k: nat, cfg: Config)
    returns (r: Result<seq<Slot<FitCall>>, TrainError>)
    requires ValidInputs(features, f, codes, k, cfg)
    ensures r.Failure? <==>
              cfg.weightOption != "balanced" && cfg.weightOption != "smoothed" &&
              exists i :: 0 <= i < k && CountTrue(Column(codes, i)) > 0
    ensures r.Success? ==>
              |r.value| == k &&
              forall i :: 0 <= i < k ==> ColumnSlot(features, f, codes, k, cfg, i) == Success(r.value[i])
  {
    var classifiers: seq<Slot<FitCall>> := [];
    for i := 0 to k
      invariant |classifiers| == i
      invariant forall j :: 0 <= j < i ==> ColumnSlot(features, f, codes, k, cfg, j) == Success(classifiers[j])
      invariant cfg.weightOption != "balanced" && cfg.weightOption != "smoothed" ==>
                  forall j :: 0 <= j < i ==> CountTrue(Column(codes, j)) == 0
    {
      var slot := TrainColumn(features, f, codes, k, cfg, i);
      if slot.Failure? {
        return Failure(slot.error);
      }
      classifiers := classifiers + [slot.value];
    }
    r := Success(classifiers);
  }

  // ---------------------------------------------------------------------------
  // Properties of train

  /** Slot `i` is `None` exactly when column `i` has no positives; then nothing else is computed. */
  lemma AbsentIffNoPositives(features: seq<seq<real>>, f: nat, codes: seq<seq<bool>>, k: nat, cfg: Config, i: nat)
    requires ValidInputs(features, f, codes, k, cfg) && i < k
    ensures ColumnSlot(features, f, codes, k, cfg, i) == Success(Absent) <==> forall r :: 0 <= r < |codes| ==> !codes[r][i]
  {
  }

  /** The fitted call of a column with positives: augmented data, and the positive count it carries. */
  lemma FittedColumn(features: seq<seq<real>>, f: nat, codes: seq<seq<bool>>, k: nat, cfg: Config, i: nat)
    requires ValidInputs(features, f, codes, k, cfg) && i < k
    requires ColumnSlot(features, f, codes, k, cfg, i).Success?
    requires ColumnSlot(features, f, codes, k, cfg, i).value.Trained?
    ensures var call := ColumnSlot(features, f, codes, k, cfg, i).value.classifier;
            var nKey := if cfg.keywords.None? then 0 else |cfg.keywords.value[i]|;
            && |call.features| == |call.labels| == |features| + nKey
            && call.features[..|features|] == features
            && CountTrue(call.labels) == CountTrue(Column(codes, i)) + nKey
            && (call.sampleWeight.Some? ==> |call.sampleWeight.value| == |call.labels|)
  {
    var labels := Column(codes, i);
    var nKey := if cfg.keywords.None? then 0 else |cfg.keywords.value[i]|;
    var call := ColumnSlot(features, f, codes, k, cfg, i).value.classifier;
    if cfg.keywords.Some? {
      assert call.labels == labels + seq(nKey, _ => true);
      CountTrueWithKeywords(labels, nKey);
    }
  }

  /** The worked example: two positives, eight negatives, smoothing 1, no keywords gives 3/2 and 9/8. */
  lemma SmoothedWeightsExample()
    ensures ClassWeightOf("smoothed", 10, 2, 0, 1.0, 1.0) == Success(Explicit(Finite(1.5), Finite(1.125)))
  {
  }

  /** With every real row positive the negative weight is a division by zero (numpy gives inf or nan). */
  lemma SmoothedWithoutNegatives(n: nat, nKey: nat, keywordWeight: real, smoothing: real)
    requires n > 0
    ensures var r := ClassWeightOf("smoothed", n, n, nKey, keywordWeight, smoothing);
            r.Success? && r.value.Explicit? && !r.value.negative.Finite?
  {
  }

  // ---------------------------------------------------------------------------
  // predict and predict_prob

  /** A list of slots, or one bare classifier (the non-list case). */
  datatype Classifiers<C> = Many(slots: seq<Slot<C>>) | Single(classifier: C)

  /** A messages-by-codes matrix, or a flat vector for a single classifier. */
  datatype Output<T> = Matrix(rows: seq<seq<T>>) | Vector(values: seq<T>)

  /** The per-code columns: `fill` for an absent slot, else the classifier's value per message. */
  function Columns<C, T>(slots: seq<Slot<C>>, messages: seq<seq<real>>, score: (C, seq<real>) -> T, fill: T)
    : (cols: seq<seq<T>>)
    ensures |cols| == |slots|
    ensures forall k :: 0 <= k < |slots| ==> |cols[k]| == |messages|
    ensures forall k, i :: 0 <= k < |slots| && 0 <= i < |messages| ==>
              cols[k][i] == (if slots[k].Absent? then fill else score(slots[k].classifier, messages[i]))
  {
    seq(|slots|, k requires 0 <= k < |slots| =>
      if slots[k].Absent? then seq(|messages|, _ => fill)
      else seq(|messages|, i requires 0 <= i < |messages| => score(slots[k].classifier, messages[i])))
  }

  /** Messages-by-codes from codes-by-messages: row `i` collects entry `i` of every column. */
  function Transpose<T>(cols: seq<seq<T>>, m: nat): (rows: seq<seq<T>>)
    requires IsMatrix(cols, m)
    ensures |rows| == m && IsMatrix(rows, |cols|)
    ensures forall i, k :: 0 <= i < m && 0 <= k < |cols| ==> rows[i][k] == cols[k][i]
  {
    seq(m, i requires 0 <= i < m => seq(|cols|, k requires 0 <= k < |cols| => cols[k][i]))
  }

  /** Transposing back gives the original columns. */
  lemma TransposeTwice<T>(cols: seq<seq<T>>, m: nat)
    requires IsMatrix(cols, m)
    ensures Transpose(Transpose(cols, m), |cols|) == cols
  {
    var back := Transpose(Transpose(cols, m), |cols|);
    forall k | 0 <= k < |cols| ensures back[k] == cols[k] {
    }
  }

  /** `np.array(cols).transpose()` as numpy computes it: an empty list becomes a 0-length array. */
  function NumpyTranspose<T>(cols: seq<seq<T>>, m: nat): (rows: seq<seq<T>>)
    requires IsMatrix(cols, m)
    ensures |cols| == 0 ==> rows == []
    ensures |cols| > 0 ==> rows == Transpose(cols, m)
  {
    if |cols| == 0 then [] else Transpose(cols, m)
  }

  /**
   * The shared shape of `predict` and `predict_prob`, with the row count of
   * an M-by-0 result corrected: a list of classifiers always gives one row
   * per message.
   */
  function Apply<C, T>(classifiers: Classifiers<C>, messages: seq<seq<real>>, score: (C, seq<real>) -> T, fill: T)
    : (r: Output<T>)
    ensures classifiers.Single? ==>
              r.Vector? && |r.values| == |messages| &&
              forall i :: 0 <= i < |messages| ==> r.values[i] == score(classifiers.classifier, messages[i])
    ensures classifiers.Many? ==>
              r.Matrix? && |r.rows| == |messages| && IsMatrix(r.rows, |classifiers.slots|) &&
              forall i, k :: 0 <= i < |messages| && 0 <= k < |classifiers.slots| ==>
                r.rows[i][k] == (if classifiers.slots[k].Absent? then fill else score(classifiers.slots[k].classifier, messages[i]))
  {
    match classifiers
    case Single(c) => Vector(seq(|messages|, i requires 0 <= i < |messages| => score(c, messages[i])))
    case Many(slots) => Matrix(Transpose(Columns(slots, messages, score, fill), |messages|))
  }

  /** `predict` and `predict_prob` as written: the list case goes through numpy's transpose. */
  function ApplyAsWritten<C, T>(classifiers: Classifiers<C>, messages: seq<seq<real>>, score: (C, seq<real>) -> T, fill: T)
    : (r: Output<T>)
    ensures classifiers.Many? && classifiers.slots == [] ==> r == Matrix([])
  {
    match classifiers
    case Single(c) => Vector(seq(|messages|, i requires 0 <= i < |messages| => score(c, messages[i])))
    case Many(slots) => Matrix(NumpyTranspose(Columns(slots, messages, score, fill), |messages|))
  }

  /** An empty classifier list loses every message row in the as-written predict, and not in Predict. */
  lemma EmptySlotListLosesRows<C>(decide: (C, seq<real>) -> bool)
    ensures ApplyAsWritten(Many([]), [[1.0]], decide, false) == Matrix([])
    ensures Predict(Many([]), [[1.0]], decide) == Matrix([[]])
  {
    var r := Predict(Many([]), [[1.0]], decide);
    assert |r.rows| == 1 && |r.rows[0]| == 0;
  }

  /** An empty classifier list loses every message row in the as-written predict_prob, and not in PredictProb. */
  lemma EmptySlotListLosesProbabilities<C>(prob: (C, seq<real>) -> real)
    ensures ApplyAsWritten(Many([]), [[1.0]], prob, 0.0) == Matrix([])
    ensures PredictProb(Many([]), [[1.0]], prob) == Matrix([[]])
  {
    var r := PredictProb(Many([]), [[1.0]], prob);
    assert |r.rows| == 1 && |r.rows[0]| == 0;
  }

  /**
   * `predict`: row `i` of the result belongs to message `i`; column `k` is all
   * false for an absent slot and the classifier's decision otherwise.
   */
  function Predict<C>(classifiers: Classifiers<C>, messages: seq<seq<real>>, decide: (C, seq<real>) -> bool)
    : (r: Output<bool>)
    ensures classifiers.Single? ==>
              r.Vector? && |r.values| == |messages| &&
              forall i :: 0 <= i < |messages| ==> r.values[i] == decide(classifiers.classifier, messages[i])
    ensures classifiers.Many? ==>
              r.Matrix? && |r.rows| == |messages| && IsMatrix(r.rows, |classifiers.slots|) &&
              forall i, k :: 0 <= i < |messages| && 0 <= k < |classifiers.slots| ==>
                r.rows[i][k] == (classifiers.slots[k].Trained? && decide(classifiers.slots[k].classifier, messages[i]))
  {
    Apply(classifiers, messages, decide, false)
  }

  /**
   * `predict_prob`: as `Predict`, with probability 0 for an absent slot and the
   * positive-class probability otherwise.
   */
  function PredictProb<C>(classifiers: Classifiers<C>, messages: seq<seq<real>>, prob: (C, seq<real>) -> real)
    : (r: Output<real>)
    ensures classifiers.Single? ==>
              r.Vector? && |r.values| == |messages| &&
              forall i :: 0 <= i < |messages| ==> r.values[i] == prob(classifiers.classifier, messages[i])
    ensures classifiers.Many? ==>
              r.Matrix? && |r.rows| == |messages| && IsMatrix(r.rows, |classifiers.slots|) &&
              forall i, k :: 0 <= i < |messages| && 0 <= k < |classifiers.slots| ==>
                r.rows[i][k] == (if classifiers.slots[k].Absent? then 0.0 else prob(classifiers.slots[k].classifier, messages[i]))
  {
    Apply(classifiers, messages, prob, 0.0)
  }

  /** Thresholding `predict_prob` at one half gives `predict` when each classifier decides that way. */
  lemma PredictIsThresholdedProbability<C>(slots: seq<Slot<C>>, messages: seq<seq<real>>,
                                           decide: (C, seq<real>) -> bool, prob: (C, seq<real>) -> real)
    requires forall c, x :: decide(c, x) == (prob(c, x) > 0.5)
    ensures var p := Predict(Many(slots), messages, decide).rows;
            var q := PredictProb(Many(slots), messages, prob).rows;
            forall i, k :: 0 <= i < |messages| && 0 <= k < |slots| ==> p[i][k] == (q[i][k] > 0.5)
  {
  }
}
