/**
 * The `Empty` baseline optimizer of `learning_to_learn/optimizers/empty.py`:
 * the in-place building of hyperparameter keyword arguments, the constructor's
 * regime check and hooks, its (empty) optimizer state and the scaling its
 * optimizer core asks for.
 */
module EmptyOptimizer {
  import opened Wrappers
  import opened Matrices
  import opened OptimizerInputs

  // ---------------------------------------------------------------- form_kwargs

  /** A hyperparameter value: a scalar, a string, `None`, or a list of values. */
  datatype Hp = Number(x: real) | Text(s: string) | NoneValue | Items(items: seq<Hp>)

  /** An insertion: paste `paste` at key `hpName`, or at `list_index` of the list stored there. */
  datatype Insertion = Insertion(hpName: string, listIndex: Option<int>, paste: Hp)

  /** What Python raises when an insertion cannot be applied. */
  datatype FormError =
    | KeyError(name: string)  // no value at `hp_name`
    | TypeError(name: string) // the value at `hp_name` is not a list
    | IndexError(name: string, index: int)

  /** Python's reading of a list index `i` into a list of length `n`, if it is in range. */
  function PyIndex(i: int, n: nat): (k: Option<nat>)
    ensures k.Some? <==> -(n as int) <= i < n
    ensures k.Some? ==> k.value < n && (k.value == i || k.value == n + i)
  {
    if 0 <= i < n then Some(i)
    else if -(n as int) <= i < 0 then Some(n + i)
    else None
  }

  /** One insertion applied to the keyword arguments. */
  function ApplyInsertion(kwargs: map<string, Hp>, insertion: Insertion): (r: Result<map<string, Hp>, FormError>)
    ensures r.Success? ==> r.value.Keys == kwargs.Keys + {insertion.hpName}
    ensures r.Success? ==> forall name :: name in kwargs && name != insertion.hpName ==> r.value[name] == kwargs[name]
    ensures insertion.listIndex.None? ==> r == Success(kwargs[insertion.hpName := insertion.paste])
    ensures insertion.listIndex.Some? ==>
              var name, i := insertion.hpName, insertion.listIndex.value;
              && (name !in kwargs ==> r == Failure(KeyError(name)))
              && (name in kwargs && !kwargs[name].Items? ==> r == Failure(TypeError(name)))
              && (name in kwargs && kwargs[name].Items? ==>
                    var items := kwargs[name].items;
                    && (r.Failure? <==> PyIndex(i, |items|).None?)
                    && (r.Failure? ==> r.error == IndexError(name, i))
                    && (r.Success? ==>
                          && r.value[name].Items?
                          && |r.value[name].items| == |items|
                          && r.value[name].items[PyIndex(i, |items|).value] == insertion.paste
                          && forall j :: 0 <= j < |items| && j != PyIndex(i, |items|).value ==>
                               r.value[name].items[j] == items[j]))
  {
    var name := insertion.hpName;
    match insertion.listIndex
    case None => Success(kwargs[name := insertion.paste])
    case Some(i) =>
      if name !in kwargs then Failure(KeyError(name))
      else if !kwargs[name].Items? then Failure(TypeError(name))
      else
        var items := kwargs[name].items;
        match PyIndex(i, |items|)
        case None => Failure(IndexError(name, i))
        case Some(k) => Success(kwargs[name := Items(items[k := insertion.paste])])
  }

  /**
   * The insertions applied in order: the keyword arguments reached, and the
   * error of the first insertion that fails (those before it stay applied).
   */
  function ApplyAll(kwargs: map<string, Hp>, insertions: seq<Insertion>): (r: (map<string, Hp>, Option<FormError>))
    ensures kwargs.Keys <= r.0.Keys
    ensures forall name :: name in r.0 && name !in kwargs ==> Names(insertions, name)
    ensures r.1.Some? ==> exists j :: 0 <= j < |insertions| && insertions[j].listIndex.Some? && insertions[j].hpName == r.1.value.name
  {
    if |insertions| == 0 then (kwargs, None)
    else
      var (before, err) := ApplyAll(kwargs, insertions[..|insertions| - 1]);
      if err.Some? then (before, err)
      else
        match ApplyInsertion(before, insertions[|insertions| - 1])
        case Success(after) => (after, None)
        case Failure(e) => (before, Some(e))
  }

  /** Whether any insertion names `name`. */
  predicate Names(insertions: seq<Insertion>, name: string)
  {
    exists j :: 0 <= j < |insertions| && insertions[j].hpName == name
  }

  /** A key that no insertion names keeps its value, and no other key appears. */
  lemma {:induction false} UntouchedKeys(kwargs: map<string, Hp>, insertions: seq<Insertion>, name: string)
    requires !Names(insertions, name)
    ensures var result := ApplyAll(kwargs, insertions).0;
            && (name in result <==> name in kwargs)
            && (name in kwargs ==> result[name] == kwargs[name])
  {
    if |insertions| > 0 {
      var front := insertions[..|insertions| - 1];
      assert !Names(front, name) by {
        forall j | 0 <= j < |front|
          ensures front[j].hpName != name
        {
          assert front[j] == insertions[j];
        }
      }
      UntouchedKeys(kwargs, front, name);
    }
  }

  /**
   * Later insertions win: if the last insertion naming `name` pastes the whole
   * key and every insertion succeeds, the key ends up holding its `paste`.
   */
  lemma {:induction false} LastWholeKeyInsertionWins(kwargs: map<string, Hp>, insertions: seq<Insertion>, j: nat)
    requires j < |insertions| && insertions[j].listIndex.None?
    requires forall k :: j < k < |insertions| ==> insertions[k].hpName != insertions[j].hpName
    requires ApplyAll(kwargs, insertions).1.None?
    ensures var result := ApplyAll(kwargs, insertions).0;
            insertions[j].hpName in result && result[insertions[j].hpName] == insertions[j].paste
  {
    var front := insertions[..|insertions| - 1];
    if j < |insertions| - 1 {
      forall k | j < k < |front|
        ensures front[k].hpName != front[j].hpName
      {
        assert front[k] == insertions[k];
      }
      LastWholeKeyInsertionWins(kwargs, front, j);
    }
  }

  /**
   * Later insertions win for list elements too: if insertion `j` pastes at
   * `list_index` `i` of the `n`-element list at its key, every later insertion
   * naming that key pastes at some other element, and every insertion
   * succeeds, then element `i` (read as Python reads it) ends up holding its
   * `paste`, and the list keeps its `n` elements.
   */
  lemma {:induction false} LastListIndexInsertionWins(kwargs: map<string, Hp>, insertions: seq<Insertion>, j: nat, n: nat)
    requires j < |insertions| && insertions[j].listIndex.Some?
    requires var before := ApplyAll(kwargs, insertions[..j]).0;
             insertions[j].hpName in before && before[insertions[j].hpName].Items?
             && |before[insertions[j].hpName].items| == n
    requires forall k :: j < k < |insertions| && insertions[k].hpName == insertions[j].hpName ==>
               insertions[k].listIndex.Some? &&
               PyIndex(insertions[k].listIndex.value, n) != PyIndex(insertions[j].listIndex.value, n)
    requires ApplyAll(kwargs, insertions).1.None?
    ensures var result := ApplyAll(kwargs, insertions).0;
            var name := insertions[j].hpName;
            && name in result && result[name].Items? && |result[name].items| == n
            && PyIndex(insertions[j].listIndex.value, n).Some?
            && result[name].items[PyIndex(insertions[j].listIndex.value, n).value] == insertions[j].paste
  {
    var front := insertions[..|insertions| - 1];
    var last := insertions[|insertions| - 1];
    var name, i := insertions[j].hpName, insertions[j].listIndex.value;
    if j == |insertions| - 1 {
      assert front == insertions[..j];
    } else {
      assert front[..j] == insertions[..j];
      forall k | j < k < |front| && front[k].hpName == front[j].hpName
        ensures front[k].listIndex.Some? && PyIndex(front[k].listIndex.value, n) != PyIndex(i, n)
      {
        assert front[k] == insertions[k];
      }
      LastListIndexInsertionWins(kwargs, front, j, n);
      var mid := ApplyAll(kwargs, front).0;
      assert ApplyAll(kwargs, insertions).0 == ApplyInsertion(mid, last).value;
    }
  }

  /** Insertions of whole keys never fail. */
  lemma {:induction false} WholeKeyInsertionsSucceed(kwargs: map<string, Hp>, insertions: seq<Insertion>)
    requires forall j :: 0 <= j < |insertions| ==> insertions[j].listIndex.None?
    ensures ApplyAll(kwargs, insertions).1.None?
  {
    if |insertions| > 0 {
      WholeKeyInsertionsSucceed(kwargs, insertions[..|insertions| - 1]);
    }
  }

  /** `kwargs_for_building`: the dictionary `form_kwargs` updates in place. */
  class KwargsForBuilding {
    var entries: map<string, Hp>

    constructor(entries: map<string, Hp>)
      ensures this.entries == entries
    {
      this.entries := entries;
    }
  }

  // ---------------------------------------------------------------- learning-rate scaling

  /** Every number of a tensor multiplied by `factor`. */
  function ScaleTensor(t: Tensor, factor: real): (s: Tensor)
    ensures |s| == |t|
    ensures forall e :: 0 <= e < |t| ==> |s[e]| == |t[e]|
    ensures forall e, i :: 0 <= e < |t| && 0 <= i < |t[e]| ==> |s[e][i]| == |t[e][i]|
    ensures forall e, i, j :: 0 <= e < |t| && 0 <= i < |t[e]| && 0 <= j < |t[e][i]| ==>
              s[e][i][j] == factor * t[e][i][j]
  {
    seq(|t|, e requires 0 <= e < |t| =>
      seq(|t[e]|, i requires 0 <= i < |t[e]| =>
        seq(|t[e][i]|, j requires 0 <= j < |t[e][i]| => factor * t[e][i][j])))
  }

  /** A field scaled by `factor`, element-wise when it is a list. */
  function ScaleField(f: Field, factor: real): (g: Field)
    ensures g.Single? <==> f.Single?
    ensures g.Single? ==> g.t == ScaleTensor(f.t, factor)
    ensures g.Several? ==> |g.ts| == |f.ts| && forall k :: 0 <= k < |f.ts| ==> g.ts[k] == ScaleTensor(f.ts[k], factor)
  {
    match f
    case Single(t) => Single(ScaleTensor(t, factor))
    case Several(ts) => Several(seq(|ts|, k requires 0 <= k < |ts| => ScaleTensor(ts[k], factor)))
  }

  /** `_multiply_by_factor(optimizer_ins, dict(sigma=factor))`: every layer's `sigma` scaled. */
  function ScaleSigmas(layers: map<LayerName, LayerIns>, factor: real): (r: map<LayerName, LayerIns>)
    ensures r.Keys == layers.Keys
    ensures forall k :: k in layers ==>
              && r[k].sigma == ScaleField(layers[k].sigma, factor)
              && r[k].o == layers[k].o
              && r[k].inPerm == layers[k].inPerm
              && r[k].outPerm == layers[k].outPerm
  {
    map k | k in layers :: layers[k].(sigma := ScaleField(layers[k].sigma, factor))
  }

  lemma ScaleTensorCompose(t: Tensor, a: real, b: real)
    ensures ScaleTensor(ScaleTensor(t, a), b) == ScaleTensor(t, b * a)
  {
    var l, r := ScaleTensor(ScaleTensor(t, a), b), ScaleTensor(t, b * a);
    forall e, i | 0 <= e < |t| && 0 <= i < |t[e]|
      ensures l[e][i] == r[e][i]
    {
      assert |l[e][i]| == |r[e][i]|;
      forall j | 0 <= j < |t[e][i]|
        ensures l[e][i][j] == r[e][i][j]
      {
        assert l[e][i][j] == b * (a * t[e][i][j]);
      }
    }
    forall e | 0 <= e < |t|
      ensures l[e] == r[e]
    {
    }
  }

  /**
   * Scaling by `a` and then by `b` is scaling by `b * a`; in particular a
   * learning rate of 1 leaves the signal alone and scaling by `1 / a` undoes it.
   */
  lemma ScaleSigmasCompose(layers: map<LayerName, LayerIns>, a: real, b: real)
    ensures ScaleSigmas(ScaleSigmas(layers, a), b) == ScaleSigmas(layers, b * a)
  {
    forall k | k in layers
      ensures ScaleField(ScaleField(layers[k].sigma, a), b) == ScaleField(layers[k].sigma, b * a)
    {
      match layers[k].sigma
      case Single(t) =>
        ScaleTensorCompose(t, a, b);
      case Several(ts) =>
        var l, r := ScaleField(ScaleField(layers[k].sigma, a), b), ScaleField(layers[k].sigma, b * a);
        forall m | 0 <= m < |ts|
          ensures l.ts[m] == r.ts[m]
        {
          ScaleTensorCompose(ts[m], a, b);
        }
    }
  }

  lemma ScaleTensorByOne(t: Tensor)
    ensures ScaleTensor(t, 1.0) == t
  {
    var s := ScaleTensor(t, 1.0);
    forall e | 0 <= e < |t|
      ensures s[e] == t[e]
    {
      forall i | 0 <= i < |t[e]|
        ensures s[e][i] == t[e][i]
      {
      }
    }
  }

  /** A learning rate of 1 leaves the optimizer inputs as they are. */
  lemma ScaleSigmasByOne(layers: map<LayerName, LayerIns>)
    ensures ScaleSigmas(layers, 1.0) == layers
  {
    forall k | k in layers
      ensures ScaleField(layers[k].sigma, 1.0) == layers[k].sigma
    {
      match layers[k].sigma
      case Single(t) =>
        ScaleTensorByOne(t);
      case Several(ts) =>
        forall m | 0 <= m < |ts|
          ensures ScaleTensor(ts[m], 1.0) == ts[m]
        {
          ScaleTensorByOne(ts[m]);
        }
    }
  }

  // ---------------------------------------------------------------- the optimizer

  /** The default hook names, each initially `None`. */
  const DefaultHookNames: set<string> := {
    "train_with_meta_optimizer_op", "reset_optimizer_inference_pupil_storage", "loss",
    "pupil_trainable_initializers", "train_optimizer_summary", "learning_rate"}

  /** What a hook holds once set: here only the learning-rate placeholder. */
  datatype Hook = LearningRatePlaceholder

  /** Why the constructor raises. */
  datatype EmptyError = NotImplemented

  class Empty {
    const regime: string
    const additionalMetrics: seq<string>
    const flags: seq<string>
    const getTheta: bool
    var hooks: map<string, Option<Hook>>

    /** `form_kwargs`: applies the insertions in order to `kwargs`, in place, and returns it. */
    static method FormKwargs(kwargs: KwargsForBuilding, insertions: seq<Insertion>)
      returns (r: KwargsForBuilding, err: Option<FormError>)
      modifies kwargs
      ensures r == kwargs
      ensures (kwargs.entries, err) == ApplyAll(old(kwargs.entries), insertions)
    {
      ghost var start := kwargs.entries;
      var i := 0;
      while i < |insertions|
        invariant 0 <= i <= |insertions|
        invariant ApplyAll(start, insertions[..i]) == (kwargs.entries, None)
      {
        assert insertions[..i + 1][..i] == insertions[..i];
        var applied := ApplyInsertion(kwargs.entries, insertions[i]);
        if applied.Failure? {
          ApplyAllStops(start, insertions, i + 1);
          return kwargs, Some(applied.error);
        }
        kwargs.entries := applied.value;
        i := i + 1;
      }
      assert insertions[..i] == insertions;
      return kwargs, None;
    }

    /** The hooks dictionary: the default keys and one per additional metric, with the learning rate set. */
    static method BuildHooks(additionalMetrics: seq<string>) returns (hooks: map<string, Option<Hook>>)
      ensures hooks.Keys == DefaultHookNames + set m | m in additionalMetrics
      ensures hooks["learning_rate"] == Some(LearningRatePlaceholder)
      ensures forall name :: name in hooks && name != "learning_rate" ==> hooks[name] == None
    {
      hooks := map[
        "train_with_meta_optimizer_op" := None,
        "reset_optimizer_inference_pupil_storage" := None,
        "loss" := None,
        "pupil_trainable_initializers" := None,
        "train_optimizer_summary" := None,
        "learning_rate" := None];
      for i := 0 to |additionalMetrics|
        invariant hooks.Keys == DefaultHookNames + set m | m in additionalMetrics[..i]
        invariant forall name :: name in hooks ==> hooks[name] == None
      {
        assert additionalMetrics[..i + 1] == additionalMetrics[..i] + [additionalMetrics[i]];
        hooks := hooks[additionalMetrics[i] := None];
      }
      assert additionalMetrics[..|additionalMetrics|] == additionalMetrics;
      hooks := hooks["learning_rate" := Some(LearningRatePlaceholder)];
    }

    /** The fields `__init__` sets before its regime check. */
    constructor(regime: string, additionalMetrics: Option<seq<string>>, flags: Option<seq<string>>, getTheta: bool)
      ensures this.regime == regime && this.getTheta == getTheta
      ensures this.additionalMetrics == (if additionalMetrics.Some? then additionalMetrics.value else [])
      ensures this.flags == (if flags.Some? then flags.value else [])
      ensures hooks.Keys == DefaultHookNames + set m | m in this.additionalMetrics
      ensures hooks["learning_rate"] == Some(LearningRatePlaceholder)
      ensures forall name :: name in hooks && name != "learning_rate" ==> hooks[name] == None
    {
      var metrics := if additionalMetrics.Some? then additionalMetrics.value else [];
      this.regime := regime;
      this.additionalMetrics := metrics;
      this.flags := if flags.Some? then flags.value else [];
      this.getTheta := getTheta;
      new;
      hooks := BuildHooks(metrics);
    }

    /** `Empty(...)`: only the `'inference'` regime is supported; any other raises `NotImplementedError`. */
    static method Create(regime: string, additionalMetrics: Option<seq<string>>, flags: Option<seq<string>>,
                         getTheta: bool)
      returns (r: Result<Empty, EmptyError>)
      ensures r.Failure? <==> regime != "inference"
      ensures r.Success? ==> fresh(r.value) && r.value.regime == "inference"
      ensures r.Success? ==> r.value.hooks.Keys == DefaultHookNames + set m | m in r.value.additionalMetrics
    {
      var optimizer := new Empty(regime, additionalMetrics, flags, getTheta);
      if regime == "inference" {
        r := Success(optimizer);
      } else {
        r := Failure(NotImplemented);
      }
    }

    /** `_create_optimizer_states`: this optimizer keeps no state. */
    method CreateOptimizerStates(numExercises: nat, varScope: string, gpuIdx: nat) returns (states: seq<Tensor>)
      ensures states == []
    {
      states := [];
    }

    /**
     * `_optimizer_core`: asks for the `sigma` of every layer to be scaled by
     * the learning rate; `o` and the permutations are left alone.
     */
    method OptimizerCore(ins: OptimizerIns, learningRate: real, gpuIdx: nat)
      modifies ins
      ensures ins.layers == ScaleSigmas(old(ins.layers), learningRate)
    {
      ins.layers := ScaleSigmas(ins.layers, learningRate);
    }
  }

  /** Once an insertion fails, later insertions are not applied. */
  lemma {:induction false} ApplyAllStops(kwargs: map<string, Hp>, insertions: seq<Insertion>, n: nat)
    requires 0 < n <= |insertions|
    requires ApplyAll(kwargs, insertions[..n]).1.Some?
    ensures ApplyAll(kwargs, insertions) == ApplyAll(kwargs, insertions[..n])
  {
    if n < |insertions| {
      var front := insertions[..|insertions| - 1];
      assert front[..n] == insertions[..n];
      ApplyAllStops(kwargs, front, n);
    } else {
      assert insertions[..n] == insertions;
    }
  }
}
