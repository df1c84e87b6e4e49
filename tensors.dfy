/**
 * The metric helpers of `learning_to_learn/tensors.py`, over exact reals.
 * A metric input is a grid: its first index is the first dimension of the
 * tensor (one row per exercise or batch element), and the rest of the tensor
 * is flattened into the row.  Predictions and labels are three-level:
 * first dimension, position, class.
 */
module Tensors {
  import opened Wrappers

  type Grid = seq<seq<real>>
  type Scores = seq<seq<seq<real>>>

  /** A non-empty grid with non-empty rows (the means of an empty tensor are NaN). */
  predicate IsGrid(m: Grid)
  {
    |m| > 0 && forall b :: 0 <= b < |m| ==> |m[b]| > 0
  }

  /** Predictions or labels: non-empty at every level. */
  predicate IsScores(t: Scores)
  {
    && |t| > 0
    && forall b :: 0 <= b < |t| ==> |t[b]| > 0 && forall i :: 0 <= i < |t[b]| ==> |t[b][i]| > 0
  }

  /** Predictions and labels with the same first dimension and the same number of positions. */
  predicate Matching(predictions: Scores, labels: Scores)
  {
    && IsScores(predictions) && IsScores(labels)
    && |predictions| == |labels|
    && forall b :: 0 <= b < |predictions| ==> |predictions[b]| == |labels[b]|
  }

  /** A metric: reduced to a scalar, reduced per first index, or not reduced. */
  datatype Metric = Scalar(x: real) | PerExercise(xs: seq<real>) | Unreduced(m: Grid)

  /** Why a metric could not be built. */
  datatype MetricsError =
    | InvalidArgument   // `InvalidArgumentError`
    | MissingOperand    // a tensor operation applied to `None`

  // ---------------------------------------------------------------- choose_biggest

  function Mask(a: real, b: real): real
  {
    if a > b then 1.0 else 0.0
  }

  /** `choose_biggest(a, b)`: `mask * a + (1 - mask) * b` with `mask = float(a > b)`, element-wise. */
  function ChooseBiggest(a: seq<real>, b: seq<real>): (c: seq<real>)
    requires |a| == |b|
    ensures |c| == |a|
    ensures forall i :: 0 <= i < |a| ==> c[i] >= a[i] && c[i] >= b[i] && (c[i] == a[i] || c[i] == b[i])
  {
    seq(|a|, i requires 0 <= i < |a| => Mask(a[i], b[i]) * a[i] + (1.0 - Mask(a[i], b[i])) * b[i])
  }

  /** `choose_biggest` is symmetric: the mask arithmetic computes the element-wise maximum. */
  lemma ChooseBiggestSymmetric(a: seq<real>, b: seq<real>)
    requires |a| == |b|
    ensures ChooseBiggest(a, b) == ChooseBiggest(b, a)
  {
    var c, d := ChooseBiggest(a, b), ChooseBiggest(b, a);
    forall i | 0 <= i < |a|
      ensures c[i] == d[i]
    {
    }
  }

  // ---------------------------------------------------------------- means

  function Sum(s: seq<real>): real
  {
    if |s| == 0 then 0.0 else s[0] + Sum(s[1..])
  }

  /** `tf.reduce_mean` of a non-empty sequence. */
  function Mean(s: seq<real>): real
    requires |s| > 0
  {
    Sum(s) / |s| as real
  }

  lemma {:induction false} SumBounds(s: seq<real>, lo: real, hi: real)
    requires forall i :: 0 <= i < |s| ==> lo <= s[i] <= hi
    ensures |s| as real * lo <= Sum(s) <= |s| as real * hi
  {
    if |s| > 0 {
      SumBounds(s[1..], lo, hi);
      assert |s| as real * lo == |s[1..]| as real * lo + lo;
      assert |s| as real * hi == |s[1..]| as real * hi + hi;
    }
  }

  lemma DivBounds(sum: real, n: real, lo: real, hi: real)
    requires n > 0.0 && n * lo <= sum <= n * hi
    ensures lo <= sum / n <= hi
  {
    assert (sum / n) * n == sum;
  }

  /** A mean lies between any bounds of its elements. */
  lemma MeanBounds(s: seq<real>, lo: real, hi: real)
    requires |s| > 0 && forall i :: 0 <= i < |s| ==> lo <= s[i] <= hi
    ensures lo <= Mean(s) <= hi
  {
    SumBounds(s, lo, hi);
    DivBounds(Sum(s), |s| as real, lo, hi);
  }

  /** The mean of a constant sequence is that constant. */
  lemma MeanConstant(s: seq<real>, x: real)
    requires |s| > 0 && forall i :: 0 <= i < |s| ==> s[i] == x
    ensures Mean(s) == x
  {
    MeanBounds(s, x, x);
  }

  /** `reduce_mean` over every axis but the first: one mean per row. */
  function RowMeans(m: Grid): (means: seq<real>)
    requires IsGrid(m)
    ensures |means| == |m|
  {
    seq(|m|, b requires 0 <= b < |m| => Mean(m[b]))
  }

  // ---------------------------------------------------------------- metrics_reduce_mean

  /**
   * `metrics_reduce_mean` as written: the row means are computed, but with
   * `keep_first_dim` the unreduced input is returned instead of them.
   */
  function MetricsReduceMeanAsWritten(metrics: Grid, keepFirstDim: bool): (r: Metric)
    requires IsGrid(metrics)
    ensures !keepFirstDim ==> r == MetricsReduceMean(metrics, false)
    ensures keepFirstDim ==> r.Unreduced? && r.m == metrics
  {
    var rowMeans := RowMeans(metrics);
    if !keepFirstDim then Scalar(Mean(rowMeans)) else Unreduced(metrics)
  }

  /** With `keep_first_dim`, the code as written returns its input unreduced, never the per-row means. */
  lemma ReduceMeanAsWrittenKeepsInput(metrics: Grid)
    requires IsGrid(metrics)
    ensures MetricsReduceMeanAsWritten(metrics, true) == Unreduced(metrics)
    ensures MetricsReduceMeanAsWritten(metrics, true) != MetricsReduceMean(metrics, true)
  {
  }

  /** For one row `[1, 0]`, the intended result is `[0.5]`; the code as written returns `[[1, 0]]`. */
  lemma ReduceMeanAsWrittenExample()
    ensures MetricsReduceMean([[1.0, 0.0]], true) == PerExercise([0.5])
    ensures MetricsReduceMeanAsWritten([[1.0, 0.0]], true) == Unreduced([[1.0, 0.0]])
  {
    assert Sum([1.0, 0.0]) == 1.0 by {
      assert [1.0, 0.0][1..] == [0.0];
    }
  }

  /**
   * `metrics_reduce_mean` as intended: with `keep_first_dim` one mean per
   * first index, otherwise the mean of those means.
   */
  function MetricsReduceMean(metrics: Grid, keepFirstDim: bool): (r: Metric)
    requires IsGrid(metrics)
    ensures keepFirstDim ==> r.PerExercise? && |r.xs| == |metrics|
    ensures !keepFirstDim ==> r.Scalar?
  {
    var rowMeans := RowMeans(metrics);
    if !keepFirstDim then Scalar(Mean(rowMeans)) else PerExercise(rowMeans)
  }

  /** Every value of a metric lies in `[lo, hi]`. */
  predicate InRange(r: Metric, lo: real, hi: real)
  {
    match r
    case Scalar(x) => lo <= x <= hi
    case PerExercise(xs) => forall b :: 0 <= b < |xs| ==> lo <= xs[b] <= hi
    case Unreduced(m) => forall b, i :: 0 <= b < |m| && 0 <= i < |m[b]| ==> lo <= m[b][i] <= hi
  }

  /** Reducing keeps every bound of the entries. */
  lemma ReduceMeanBounds(metrics: Grid, keepFirstDim: bool, lo: real, hi: real)
    requires IsGrid(metrics)
    requires forall b, i :: 0 <= b < |metrics| && 0 <= i < |metrics[b]| ==> lo <= metrics[b][i] <= hi
    ensures InRange(MetricsReduceMean(metrics, keepFirstDim), lo, hi)
  {
    var means := RowMeans(metrics);
    forall b | 0 <= b < |metrics|
      ensures lo <= means[b] <= hi
    {
      MeanBounds(metrics[b], lo, hi);
    }
    if !keepFirstDim {
      MeanBounds(means, lo, hi);
    }
  }

  /** A grid of one repeated value reduces to that value. */
  lemma ReduceMeanConstant(metrics: Grid, keepFirstDim: bool, x: real)
    requires IsGrid(metrics)
    requires forall b, i :: 0 <= b < |metrics| && 0 <= i < |metrics[b]| ==> metrics[b][i] == x
    ensures keepFirstDim ==> MetricsReduceMean(metrics, keepFirstDim) == PerExercise(seq(|metrics|, _ => x))
    ensures !keepFirstDim ==> MetricsReduceMean(metrics, keepFirstDim) == Scalar(x)
  {
    var means := RowMeans(metrics);
    forall b | 0 <= b < |metrics|
      ensures means[b] == x
    {
      MeanConstant(metrics[b], x);
    }
    if !keepFirstDim {
      MeanConstant(means, x);
    } else {
      assert means == seq(|metrics|, _ => x);
    }
  }

  // ---------------------------------------------------------------- accuracy_tensor

  /** `tf.argmax` over the last axis: the first index of a largest element. */
  function ArgMax(v: seq<real>): (k: nat)
    requires |v| > 0
    ensures k < |v|
    ensures forall j :: 0 <= j < |v| ==> v[j] <= v[k]
    ensures forall j :: 0 <= j < k ==> v[j] < v[k]
  {
    if |v| == 1 then 0
    else
      var k := ArgMax(v[..|v| - 1]);
      if v[|v| - 1] > v[k] then |v| - 1 else k
  }

  /** `float(argmax(predictions) == argmax(labels))` at every position. */
  function Hits(predictions: Scores, labels: Scores): (hits: Grid)
    requires Matching(predictions, labels)
    ensures |hits| == |predictions| && IsGrid(hits)
    ensures forall b, i :: 0 <= b < |hits| && 0 <= i < |hits[b]| ==>
              i < |predictions[b]| &&
              (hits[b][i] == 1.0 <==> ArgMax(predictions[b][i]) == ArgMax(labels[b][i])) &&
              (hits[b][i] == 0.0 <==> ArgMax(predictions[b][i]) != ArgMax(labels[b][i]))
  {
    seq(|predictions|, b requires 0 <= b < |predictions| =>
      seq(|predictions[b]|, i requires 0 <= i < |predictions[b]| =>
        if ArgMax(predictions[b][i]) == ArgMax(labels[b][i]) then 1.0 else 0.0))
  }

  /** `accuracy_tensor`: the hits, reduced by `metrics_reduce_mean`. */
  function AccuracyTensor(predictions: Scores, labels: Scores, keepFirstDim: bool): (r: Metric)
    requires Matching(predictions, labels)
    ensures keepFirstDim ==> r.PerExercise? && |r.xs| == |predictions|
    ensures !keepFirstDim ==> r.Scalar?
  {
    MetricsReduceMean(Hits(predictions, labels), keepFirstDim)
  }

  /** Accuracy lies in `[0, 1]`. */
  lemma AccuracyInUnitInterval(predictions: Scores, labels: Scores, keepFirstDim: bool)
    requires Matching(predictions, labels)
    ensures InRange(AccuracyTensor(predictions, labels, keepFirstDim), 0.0, 1.0)
  {
    ReduceMeanBounds(Hits(predictions, labels), keepFirstDim, 0.0, 1.0);
  }

  /** When every predicted class is the labelled class, accuracy is 1 (per exercise, or overall). */
  lemma AccuracyPerfect(predictions: Scores, labels: Scores, keepFirstDim: bool)
    requires Matching(predictions, labels)
    requires forall b, i :: 0 <= b < |predictions| && 0 <= i < |predictions[b]| ==>
               ArgMax(predictions[b][i]) == ArgMax(labels[b][i])
    ensures keepFirstDim ==> AccuracyTensor(predictions, labels, keepFirstDim) == PerExercise(seq(|predictions|, _ => 1.0))
    ensures !keepFirstDim ==> AccuracyTensor(predictions, labels, keepFirstDim) == Scalar(1.0)
  {
    ReduceMeanConstant(Hits(predictions, labels), keepFirstDim, 1.0);
  }

  // ---------------------------------------------------------------- bpc_tensor

  /** `np.log(2)` as a double. */
  const Ln2: real := 0.6931471805599453

  /** `bpc_tensor(loss)`: `loss / ln 2`, element-wise. */
  function BpcTensor(loss: Metric): (bpc: Metric)
    ensures bpc.Scalar? <==> loss.Scalar?
    ensures bpc.Scalar? ==> bpc.x * Ln2 == loss.x
    ensures bpc.PerExercise? <==> loss.PerExercise?
    ensures bpc.PerExercise? ==> |bpc.xs| == |loss.xs| && forall b :: 0 <= b < |bpc.xs| ==> bpc.xs[b] * Ln2 == loss.xs[b]
    ensures bpc.Unreduced? <==> loss.Unreduced?
    ensures bpc.Unreduced? ==> |bpc.m| == |loss.m| && forall b :: 0 <= b < |bpc.m| ==>
              |bpc.m[b]| == |loss.m[b]| && forall i :: 0 <= i < |bpc.m[b]| ==> bpc.m[b][i] * Ln2 == loss.m[b][i]
  {
    match loss
    case Scalar(x) => Scalar(x / Ln2)
    case PerExercise(xs) => PerExercise(seq(|xs|, b requires 0 <= b < |xs| => xs[b] / Ln2))
    case Unreduced(m) =>
      Unreduced(seq(|m|, b requires 0 <= b < |m| => seq(|m[b]|, i requires 0 <= i < |m[b]| => m[b][i] / Ln2)))
  }

  // ---------------------------------------------------------------- identity_tensor

  /**
   * `identity_tensor(**kwargs)`: more than one keyword argument is an
   * `InvalidArgumentError`; otherwise the only value, or `None` without any.
   */
  method IdentityTensor<V(==)>(kwargs: map<string, V>) returns (r: Result<Option<V>, MetricsError>)
    ensures r.Failure? <==> |kwargs| > 1
    ensures r.Failure? ==> r.error == InvalidArgument
    ensures |kwargs| == 0 ==> r == Success(None)
    ensures |kwargs| == 1 ==> r.Success? && r.value.Some? && kwargs.Values == {r.value.value}
  {
    if |kwargs| > 1 {
      return Failure(InvalidArgument);
    }
    // the first (and only) keyword argument, if there is one
    if kwargs.Keys != {} {
      var name :| name in kwargs;
      SingletonMap(kwargs, name);
      return Success(Some(kwargs[name]));
    }
    assert kwargs == map[];
    return Success(None);
  }

  /** A map with at most one key holds exactly the value at any of its keys. */
  lemma SingletonMap<K, V>(m: map<K, V>, k: K)
    requires |m| <= 1 && k in m
    ensures |m| == 1 && m.Values == {m[k]}
  {
    var rest := m.Keys - {k};
    assert m.Keys == rest + {k};
    assert |rest| == 0;
    assert m.Keys == {k};
  }

  // ---------------------------------------------------------------- compute_metrics

  /**
   * `loss_tensor` and `perplexity_tensor`, whose logarithm arithmetic is
   * not modelled: any functions of their inputs.
   */
  datatype Backend = Backend(
    lossTensor: (Scores, Scores, bool) -> Metric,
    perplexityTensor: (Scores, bool) -> Metric)

  /** The metric names `compute_metrics` knows. */
  const MetricNames: set<string> := {"loss", "bpc", "accuracy", "perplexity"}

  /** Predictions and labels, where given, have usable shapes. */
  predicate ShapesFit(predictions: Option<Scores>, labels: Option<Scores>)
  {
    && (predictions.Some? ==> IsScores(predictions.value))
    && (predictions.Some? && labels.Some? ==> Matching(predictions.value, labels.value))
  }

  /** The loss `bpc` is computed from: the explicit `loss`, else the loss of the predictions. */
  function BpcSource(backend: Backend, predictions: Option<Scores>, labels: Option<Scores>,
                     loss: Option<Metric>, keepFirstDim: bool): Option<Metric>
  {
    if loss.Some? then loss
    else if predictions.Some? && labels.Some? then Some(backend.lossTensor(predictions.value, labels.value, keepFirstDim))
    else None
  }

  /** The first failure `compute_metrics` runs into, checking `loss`, `bpc`, `accuracy`, `perplexity` in turn. */
  function MetricsFailure(metrics: seq<string>, predictions: Option<Scores>, labels: Option<Scores>,
                          loss: Option<Metric>): Option<MetricsError>
  {
    var both := predictions.Some? && labels.Some?;
    if "loss" in metrics && !both then Some(MissingOperand)
    else if "bpc" in metrics && loss.None? && !both then Some(InvalidArgument)
    else if "accuracy" in metrics && !both then Some(MissingOperand)
    else if "perplexity" in metrics && predictions.None? then Some(MissingOperand)
    else None
  }

  /**
   * `compute_metrics`: builds the dictionary of requested metrics key by key.
   * Its keys are exactly the requested names among `loss`, `bpc`, `accuracy`
   * and `perplexity`; `bpc` comes from the explicit loss if there is one, and
   * otherwise from the loss of the predictions; with neither, it is an
   * `InvalidArgumentError`.
   */
  method ComputeMetrics(backend: Backend, metrics: seq<string>, predictions: Option<Scores>, labels: Option<Scores>,
                        loss: Option<Metric>, keepFirstDim: bool)
    returns (r: Result<map<string, Metric>, MetricsError>)
    requires ShapesFit(predictions, labels)
    ensures r.Failure? <==> MetricsFailure(metrics, predictions, labels, loss).Some?
    ensures r.Failure? ==> r.error == MetricsFailure(metrics, predictions, labels, loss).value
    ensures r.Success? ==> r.value.Keys == set name | name in metrics && name in MetricNames
    ensures r.Success? && "loss" in metrics ==>
              predictions.Some? && labels.Some? &&
              r.value["loss"] == backend.lossTensor(predictions.value, labels.value, keepFirstDim)
    ensures r.Success? && "bpc" in metrics ==>
              BpcSource(backend, predictions, labels, loss, keepFirstDim).Some? &&
              r.value["bpc"] == BpcTensor(BpcSource(backend, predictions, labels, loss, keepFirstDim).value)
    ensures r.Success? && "accuracy" in metrics ==>
              predictions.Some? && labels.Some? &&
              r.value["accuracy"] == AccuracyTensor(predictions.value, labels.value, keepFirstDim)
    ensures r.Success? && "perplexity" in metrics ==>
              predictions.Some? && r.value["perplexity"] == backend.perplexityTensor(predictions.value, keepFirstDim)
  {
    var res: map<string, Metric> := map[];
    var l: Option<Metric> := None;
    if "loss" in metrics {
      if predictions.None? || labels.None? {
        return Failure(MissingOperand);
      }
      l := Some(backend.lossTensor(predictions.value, labels.value, keepFirstDim));
      res := res["loss" := l.value];
    }
    if "bpc" in metrics {
      if loss.Some? {
        res := res["bpc" := BpcTensor(loss.value)];
      } else if l.Some? {
        res := res["bpc" := BpcTensor(l.value)];
      } else if predictions.Some? && labels.Some? {
        res := res["bpc" := BpcTensor(backend.lossTensor(predictions.value, labels.value, keepFirstDim))];
      } else {
        return Failure(InvalidArgument);
      }
    }
    if "accuracy" in metrics {
      if predictions.None? || labels.None? {
        return Failure(MissingOperand);
      }
      res := res["accuracy" := AccuracyTensor(predictions.value, labels.value, keepFirstDim)];
    }
    if "perplexity" in metrics {
      if predictions.None? {
        return Failure(MissingOperand);
      }
      res := res["perplexity" := backend.perplexityTensor(predictions.value, keepFirstDim)];
    }
    r := Success(res);
  }
}
