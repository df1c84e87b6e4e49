/**
 * The bookkeeping of the `ResNet4Lstm` meta-optimizer: the recurrent `h`/`c`
 * state store keyed by (variable scope, GPU), the per-GPU permutation-matrix
 * store keyed by (GPU, group), the wiring of those permutations into the
 * optimizer-input record, and the forward and backward permutation of that
 * record.  TensorFlow variables are entries of the two stores; a variable
 * scope opened with reuse becomes "look the key up, create it if absent".
 */
module FirstMetaOpt {
  import opened Wrappers
  import opened Matrices
  import opened OptimizerInputs
  import GpuPartition

  /** `pupil.get_net_size()`: `num_nodes`, `num_output_nodes` and the optional `embedding_size`. */
  datatype NetSize = NetSize(numNodes: seq<nat>, numOutputNodes: seq<nat>, embeddingSize: Option<nat>)

  /** The permutation groups of one GPU: `'embedding'`, `'c_%s'` and `'h_%s'`. */
  datatype Group = Embedding | CellGroup(layer: nat) | HiddenGroup(layer: nat)

  /**
   * The groups the pupil's topology calls for: the embedding only when the
   * pupil has one, one `c_i` per LSTM layer and one `h_i` for every output
   * layer but the last.
   */
  predicate InNet(g: Group, net: NetSize)
  {
    match g
    case Embedding => net.embeddingSize.Some?
    case CellGroup(i) => i < |net.numNodes|
    case HiddenGroup(i) => i + 1 < |net.numOutputNodes|
  }

  /** The number of units a group permutes. */
  function GroupSize(g: Group, net: NetSize): nat
    requires InNet(g, net)
  {
    match g
    case Embedding => net.embeddingSize.value
    case CellGroup(i) => net.numNodes[i]
    case HiddenGroup(i) => net.numOutputNodes[i]
  }

  /** A `[numExercises, size, size]` permutation variable. */
  datatype PermVariable = PermVariable(numExercises: nat, size: nat, value: Tensor)

  /** A `[rows, cols]` state variable. */
  datatype StateVariable = StateVariable(rows: nat, cols: nat, value: Matrix)

  /** The `h` and `c` state of one (scope, GPU) key. */
  datatype OptimizerState = OptimizerState(h: StateVariable, c: StateVariable)

  /** `get_variable` with reuse on a name that does not exist (a `ValueError` in the source). */
  datatype StoreError = StateNotFound | PermutationNotFound

  /** `tf.zeros([rows, cols])`. */
  function Zeros(rows: nat, cols: nat): (z: Matrix)
    ensures |z| == rows && Rect(z, cols)
    ensures forall i, j :: 0 <= i < rows && 0 <= j < cols ==> z[i][j] == 0.0
  {
    seq(rows, _ => seq(cols, _ => 0.0))
  }

  /** A state variable of the given shape holding only zeros. */
  predicate IsZeroVariable(v: StateVariable)
  {
    && |v.value| == v.rows && Rect(v.value, v.cols)
    && forall i, j :: 0 <= i < v.rows && 0 <= j < v.cols ==> v.value[i][j] == 0.0
  }

  function ZeroVariable(rows: nat, cols: nat): (v: StateVariable)
    ensures v.rows == rows && v.cols == cols && IsZeroVariable(v)
  {
    StateVariable(rows, cols, Zeros(rows, cols))
  }

  /** The state after the two `tf.assign(_, tf.zeros(shape))` of `_reset_optimizer_states`. */
  function ResetState(s: OptimizerState): (t: OptimizerState)
    ensures t.h.rows == s.h.rows && t.h.cols == s.h.cols && IsZeroVariable(t.h)
    ensures t.c.rows == s.c.rows && t.c.cols == s.c.cols && IsZeroVariable(t.c)
  {
    OptimizerState(ZeroVariable(s.h.rows, s.h.cols), ZeroVariable(s.c.rows, s.c.cols))
  }

  /** Resetting twice is resetting once. */
  lemma ResetStateIdempotent(s: OptimizerState)
    ensures ResetState(ResetState(s)) == ResetState(s)
  {
  }

  lemma FourTimes(size: nat)
    ensures TotalSize([size, size, size, size]) == 4 * size
  {
    assert TotalSize([size]) == size;
    assert [size, size][1..] == [size];
    assert TotalSize([size, size]) == 2 * size;
    assert [size, size, size][1..] == [size, size];
    assert TotalSize([size, size, size]) == 3 * size;
    assert [size, size, size, size][1..] == [size, size, size];
  }

  lemma TwoBlocks(sizeA: nat, sizeB: nat)
    ensures TotalSize([sizeA, sizeB]) == sizeA + sizeB
  {
    assert TotalSize([sizeB]) == sizeB;
    assert [sizeA, sizeB][1..] == [sizeB];
  }

  lemma FourTimesAll(c: Tensor)
    ensures forall e :: 0 <= e < |c| ==> TotalSize([|c[e]|, |c[e]|, |c[e]|, |c[e]|]) == 4 * |c[e]|
  {
    forall e | 0 <= e < |c| {
      FourTimes(|c[e]|);
    }
  }

  lemma TwoBlocksAll(a: Tensor, b: Tensor)
    requires |a| == |b|
    ensures forall e :: 0 <= e < |a| ==> TotalSize([|a[e]|, |b[e]|]) == |a[e]| + |b[e]|
  {
    forall e | 0 <= e < |a| {
      TwoBlocks(|a[e]|, |b[e]|);
    }
  }

  /** `[c] * 4` composed block-diagonally: the `out_perm` of an LSTM layer. */
  function FourCopies(c: Tensor): (d: Tensor)
    requires SquareStack(c)
    ensures |d| == |c| && SquareStack(d)
    ensures forall e :: 0 <= e < |c| ==> |d[e]| == 4 * |c[e]|
  {
    var d := BatchBlockDiagonal([c, c, c, c], |c|);
    assert forall e :: 0 <= e < |c| ==> Sizes(Slices([c, c, c, c], e)) == [|c[e]|, |c[e]|, |c[e]|, |c[e]|];
    FourTimesAll(c);
    d
  }

  /** `block_diagonal([a, b])`: the `in_perm` of an LSTM layer. */
  function Pair(a: Tensor, b: Tensor): (d: Tensor)
    requires SquareStack(a) && SquareStack(b) && |a| == |b|
    ensures |d| == |a| && SquareStack(d)
    ensures forall e :: 0 <= e < |a| ==> |d[e]| == |a[e]| + |b[e]|
  {
    var d := BatchBlockDiagonal([a, b], |a|);
    assert forall e :: 0 <= e < |a| ==> Sizes(Slices([a, b], e)) == [|a[e]|, |b[e]|];
    TwoBlocksAll(a, b);
    d
  }

  /** Four copies of a permutation of `size` units permute the `4 * size` gate units. */
  lemma FourCopiesIsPermutation(c: Tensor, n: nat, size: nat)
    requires IsPermTensor(c, n, size)
    ensures SquareStack(c) && IsPermTensor(FourCopies(c), n, 4 * size)
  {
    BatchBlockDiagonalOfPermTensors([c, c, c, c], n, [size, size, size, size]);
    FourTimes(size);
  }

  /** The pair of two permutations permutes the concatenation of their units. */
  lemma PairIsPermutation(a: Tensor, b: Tensor, n: nat, sizeA: nat, sizeB: nat)
    requires IsPermTensor(a, n, sizeA) && IsPermTensor(b, n, sizeB)
    ensures SquareStack(a) && SquareStack(b) && |a| == |b|
    ensures IsPermTensor(Pair(a, b), n, sizeA + sizeB)
  {
    BatchBlockDiagonalOfPermTensors([a, b], n, [sizeA, sizeB]);
    TwoBlocks(sizeA, sizeB);
  }

  // ---------------------------------------------------------------- variable names

  function DigitChar(d: nat): char
    requires d < 10
  {
    (48 + d) as char
  }

  /** `'%s' % n` for a natural number: its decimal digits. */
  function NatToString(n: nat): (s: string)
    ensures |s| >= 1
    ensures n < 10 ==> s == [DigitChar(n)]
  {
    if n < 10 then [DigitChar(n)] else NatToString(n / 10) + [DigitChar(n % 10)]
  }

  /** The decimal digits of `n` are digits. */
  lemma {:induction false} DigitsOnly(n: nat)
    ensures forall i :: 0 <= i < |NatToString(n)| ==> '0' <= NatToString(n)[i] <= '9'
  {
    if n >= 10 {
      DigitsOnly(n / 10);
    }
  }

  const ScopePrefix: string := "permutation_matrices_on_gpu_"

  /** `'permutation_matrices_on_gpu_%s' % gpu_idx`. */
  function ScopeName(gpuIdx: nat): string
  {
    ScopePrefix + NatToString(gpuIdx)
  }

  /** A scope name holds no `/`. */
  lemma ScopeNameWithoutSlash(gpuIdx: nat)
    ensures forall i :: 0 <= i < |ScopeName(gpuIdx)| ==> ScopeName(gpuIdx)[i] != '/'
  {
    DigitsOnly(gpuIdx);
  }

  /** A prefix of `t + "/" + rest` without a `/` is a prefix of `t`. */
  lemma PrefixBeforeSlash(s: string, t: string, rest: string)
    requires forall i :: 0 <= i < |s| ==> s[i] != '/'
    ensures s <= t + "/" + rest ==> s <= t
  {
    var v := t + "/" + rest;
    if s <= v {
      assert v[|t|] == '/';
      assert forall i :: 0 <= i < |s| ==> s[i] == v[i];
      assert |s| <= |t|;
      assert s == v[..|s|] == t[..|s|];
    }
  }

  function GroupName(g: Group): string
  {
    match g
    case Embedding => "embedding"
    case CellGroup(i) => "c_" + NatToString(i)
    case HiddenGroup(i) => "h_" + NatToString(i)
  }

  /** The full name of the permutation variable of group `key.1` on GPU `key.0`. */
  function VariableName(key: (nat, Group)): string
  {
    ScopeName(key.0) + "/" + GroupName(key.1) + ":0"
  }

  /**
   * The selection `tf.get_collection(GLOBAL_VARIABLES, scope=...)` makes in
   * `_reset_permutations`, as written: it keeps every variable whose name the
   * scope string `re.match`es.  The scope string holds only letters, digits
   * and underscores, so the match is a prefix test.
   */
  predicate SelectedAsWritten(gpuIdx: nat, key: (nat, Group))
    ensures SelectedAsWritten(gpuIdx, key) ==> ScopeName(gpuIdx) <= ScopeName(key.0)
  {
    ScopeNameWithoutSlash(gpuIdx);
    PrefixBeforeSlash(ScopeName(gpuIdx), ScopeName(key.0), GroupName(key.1) + ":0");
    ScopeName(gpuIdx) <= VariableName(key)
  }

  /** The selection the method is meant to make: the variables of GPU `gpuIdx`. */
  predicate Selected(gpuIdx: nat, key: (nat, Group))
  {
    key.0 == gpuIdx
  }

  /** The selection as written keeps everything the intended one keeps. */
  lemma SelectedAsWrittenKeepsOwnGpu(gpuIdx: nat, key: (nat, Group))
    requires Selected(gpuIdx, key)
    ensures SelectedAsWritten(gpuIdx, key)
  {
  }

  /**
   * The selection as written also picks up the variables of GPU 10 when
   * resetting GPU 1, because `permutation_matrices_on_gpu_1` is a prefix of
   * `permutation_matrices_on_gpu_10/c_0:0`.
   */
  lemma SelectedAsWrittenReachesGpuTen()
    ensures SelectedAsWritten(1, (10, CellGroup(0)))
    ensures !Selected(1, (10, CellGroup(0)))
  {
    var name := VariableName((10, CellGroup(0)));
    assert NatToString(10) == NatToString(1) + [DigitChar(0)];
    assert name == ScopePrefix + "1" + "0" + "/" + "c_" + "0" + ":0";
    assert name[..|ScopeName(1)|] == ScopeName(1);
  }

  /** With fewer than eleven GPUs (indices below 10) the two selections agree. */
  lemma SelectionsAgreeBelowTenGpus(gpuIdx: nat, key: (nat, Group))
    requires gpuIdx < 10 && key.0 < 10
    ensures SelectedAsWritten(gpuIdx, key) <==> Selected(gpuIdx, key)
  {
    if SelectedAsWritten(gpuIdx, key) {
      var k := |ScopePrefix|;
      assert ScopeName(gpuIdx)[k] == DigitChar(gpuIdx);
      assert VariableName(key)[k] == DigitChar(key.0);
    }
  }

  /** Both stacked shuffles and their shape are available for group `g`. */
  predicate ShufflesFor(shuffles: map<Group, seq<seq<int>>>, g: Group, numExercises: nat, size: nat)
  {
    && g in shuffles
    && |shuffles[g]| == numExercises
    && forall e :: 0 <= e < numExercises ==> IsPermutation(shuffles[g][e], size)
  }

  /**
   * Every stored permutation variable belongs to a group of the pupil, has
   * that group's size and holds a permutation matrix per exercise.
   */
  ghost predicate ValidStore(perms: map<(nat, Group), PermVariable>, net: NetSize)
  {
    forall key :: key in perms ==>
      && InNet(key.1, net)
      && perms[key].size == GroupSize(key.1, net)
      && IsPermTensor(perms[key].value, perms[key].numExercises, perms[key].size)
  }

  /** The variable `_create_permutation_matrices` creates for group `g`. */
  function NewPermutation(net: NetSize, g: Group, numExercises: nat, shuffles: map<Group, seq<seq<int>>>): (v: PermVariable)
    requires InNet(g, net) && ShufflesFor(shuffles, g, numExercises, GroupSize(g, net))
    ensures v.numExercises == numExercises && v.size == GroupSize(g, net)
    ensures IsPermTensor(v.value, numExercises, v.size)
  {
    PermVariable(numExercises, GroupSize(g, net), ResNet4Lstm.PermutationMatrix(GroupSize(g, net), shuffles[g]))
  }

  /** The groups created so far: the embedding once `embedded`, then `c_i` for `i < cells`, then `h_i` for `i < hiddens`. */
  ghost predicate CreatedSoFar(net: NetSize, g: Group, embedded: bool, cells: nat, hiddens: nat)
  {
    InNet(g, net) &&
    match g
    case Embedding => embedded
    case CellGroup(i) => i < cells
    case HiddenGroup(i) => i < hiddens
  }

  /** `after` differs from `before` only by new variables of GPU `gpuIdx` for the groups created so far. */
  ghost predicate Extends(before: map<(nat, Group), PermVariable>, after: map<(nat, Group), PermVariable>,
                          net: NetSize, numExercises: nat, gpuIdx: nat, shuffles: map<Group, seq<seq<int>>>,
                          embedded: bool, cells: nat, hiddens: nat)
  {
    && (forall key :: key in before ==> key in after && after[key] == before[key])
    && (forall g :: CreatedSoFar(net, g, embedded, cells, hiddens) ==> (gpuIdx, g) in after)
    && (forall key :: key in after && key !in before ==>
          && key.0 == gpuIdx && CreatedSoFar(net, key.1, embedded, cells, hiddens)
          && ShufflesFor(shuffles, key.1, numExercises, GroupSize(key.1, net))
          && after[key] == NewPermutation(net, key.1, numExercises, shuffles))
  }

  /** Getting or creating the variable of one more group keeps `Extends`. */
  lemma ExtendsStep(before: map<(nat, Group), PermVariable>, mid: map<(nat, Group), PermVariable>,
                    after: map<(nat, Group), PermVariable>, net: NetSize, numExercises: nat, gpuIdx: nat,
                    shuffles: map<Group, seq<seq<int>>>, embedded: bool, cells: nat, hiddens: nat,
                    embedded': bool, cells': nat, hiddens': nat, g: Group)
    requires Extends(before, mid, net, numExercises, gpuIdx, shuffles, embedded, cells, hiddens)
    requires InNet(g, net) && ShufflesFor(shuffles, g, numExercises, GroupSize(g, net))
    requires after == if (gpuIdx, g) in mid then mid else mid[(gpuIdx, g) := NewPermutation(net, g, numExercises, shuffles)]
    requires forall h :: CreatedSoFar(net, h, embedded', cells', hiddens') <==> CreatedSoFar(net, h, embedded, cells, hiddens) || h == g
    ensures Extends(before, after, net, numExercises, gpuIdx, shuffles, embedded', cells', hiddens')
  {
  }

  /** Creating the `c_i` variable extends the groups created so far by `c_i`. */
  lemma ExtendsCell(before: map<(nat, Group), PermVariable>, mid: map<(nat, Group), PermVariable>,
                    after: map<(nat, Group), PermVariable>, net: NetSize, numExercises: nat, gpuIdx: nat,
                    shuffles: map<Group, seq<seq<int>>>, i: nat)
    requires Extends(before, mid, net, numExercises, gpuIdx, shuffles, true, i, 0)
    requires i < |net.numNodes| && ShufflesFor(shuffles, CellGroup(i), numExercises, GroupSize(CellGroup(i), net))
    requires after == if (gpuIdx, CellGroup(i)) in mid then mid
                      else mid[(gpuIdx, CellGroup(i)) := NewPermutation(net, CellGroup(i), numExercises, shuffles)]
    ensures Extends(before, after, net, numExercises, gpuIdx, shuffles, true, i + 1, 0)
  {
    forall h
      ensures CreatedSoFar(net, h, true, i + 1, 0) <==> CreatedSoFar(net, h, true, i, 0) || h == CellGroup(i)
    {
    }
    ExtendsStep(before, mid, after, net, numExercises, gpuIdx, shuffles, true, i, 0, true, i + 1, 0, CellGroup(i));
  }

  /** Creating the `h_j` variable extends the groups created so far by `h_j`. */
  lemma ExtendsHidden(before: map<(nat, Group), PermVariable>, mid: map<(nat, Group), PermVariable>,
                      after: map<(nat, Group), PermVariable>, net: NetSize, numExercises: nat, gpuIdx: nat,
                      shuffles: map<Group, seq<seq<int>>>, j: nat)
    requires Extends(before, mid, net, numExercises, gpuIdx, shuffles, true, |net.numNodes|, j)
    requires j + 1 < |net.numOutputNodes| && ShufflesFor(shuffles, HiddenGroup(j), numExercises, GroupSize(HiddenGroup(j), net))
    requires after == if (gpuIdx, HiddenGroup(j)) in mid then mid
                      else mid[(gpuIdx, HiddenGroup(j)) := NewPermutation(net, HiddenGroup(j), numExercises, shuffles)]
    ensures Extends(before, after, net, numExercises, gpuIdx, shuffles, true, |net.numNodes|, j + 1)
  {
    forall h
      ensures CreatedSoFar(net, h, true, |net.numNodes|, j + 1) <==> CreatedSoFar(net, h, true, |net.numNodes|, j) || h == HiddenGroup(j)
    {
    }
    ExtendsStep(before, mid, after, net, numExercises, gpuIdx, shuffles, true, |net.numNodes|, j, true, |net.numNodes|, j + 1, HiddenGroup(j));
  }

  /** Once every group is created, the new variables are exactly those of the pupil's groups. */
  lemma ExtendsComplete(before: map<(nat, Group), PermVariable>, after: map<(nat, Group), PermVariable>,
                        net: NetSize, numExercises: nat, gpuIdx: nat, shuffles: map<Group, seq<seq<int>>>, j: nat)
    requires Extends(before, after, net, numExercises, gpuIdx, shuffles, true, |net.numNodes|, j)
    requires j + 1 >= |net.numOutputNodes| && (j == 0 || j < |net.numOutputNodes|)
    requires ValidStore(before, net)
    ensures ValidStore(after, net)
    ensures forall key :: key in before ==> key in after && after[key] == before[key]
    ensures forall g :: (gpuIdx, g) in after <==> (gpuIdx, g) in before || InNet(g, net)
    ensures forall key :: key in after && key !in before ==>
              key.0 == gpuIdx && InNet(key.1, net) && after[key] == NewPermutation(net, key.1, numExercises, shuffles)
  {
    assert forall g :: CreatedSoFar(net, g, true, |net.numNodes|, j) <==> InNet(g, net);
  }

  /** Shuffles are available for every variable of GPU `gpuIdx`, in its own shape. */
  ghost predicate ShufflesForGpu(perms: map<(nat, Group), PermVariable>, gpuIdx: nat, shuffles: map<Group, seq<seq<int>>>)
  {
    forall key :: key in perms && Selected(gpuIdx, key) ==>
      ShufflesFor(shuffles, key.1, perms[key].numExercises, perms[key].size)
  }

  /** Regenerating the variables of one GPU in their own shapes keeps the store well formed. */
  lemma RegeneratedStoreValid(before: map<(nat, Group), PermVariable>, after: map<(nat, Group), PermVariable>,
                              net: NetSize, gpuIdx: nat, shuffles: map<Group, seq<seq<int>>>)
    requires ValidStore(before, net) && ShufflesForGpu(before, gpuIdx, shuffles)
    requires after.Keys == before.Keys
    requires forall key :: key in after ==>
               after[key] == if Selected(gpuIdx, key) then ResNet4Lstm.Regenerated(before[key], shuffles[key.1]) else before[key]
    ensures ValidStore(after, net)
  {
  }

  class ResNet4Lstm {
    const pupil: NetSize
    const numExercises: nat
    const numLstmNodes: nat
    const numOptimizerUnrollings: nat
    const permPeriod: Option<nat>
    const numGpus: nat
    const regime: string
    const optimizerForOptType: string
    /** `_exercise_gpu_map` (`None` outside the `'train'` regime). */
    const exerciseGpuMap: Option<seq<nat>>
    /** `_num_ex_on_gpus` (only set in the `'train'` regime). */
    const numExOnGpus: Option<seq<nat>>

    /** The `h`/`c` variables, keyed by (variable scope, GPU). */
    var optimizerStates: map<(string, nat), OptimizerState>
    /** The permutation variables, keyed by (GPU, group). */
    var permutations: map<(nat, Group), PermVariable>

    /** The permutation store is well formed (see `ValidStore`). */
    ghost predicate Valid()
      reads this
    {
      ValidStore(permutations, pupil)
    }

    /** The construction steps of `__init__` that the model keeps (the `'train'` partition included). */
    constructor(pupil: NetSize, numExercises: nat, numLstmNodes: nat, numOptimizerUnrollings: nat,
                permPeriod: Option<nat>, numGpus: nat, regime: string, optimizerForOptType: string)
      requires regime == "train" ==> numGpus > 0
      ensures this.pupil == pupil && this.numExercises == numExercises && this.numLstmNodes == numLstmNodes
      ensures this.numOptimizerUnrollings == numOptimizerUnrollings && this.permPeriod == permPeriod
      ensures this.numGpus == numGpus && this.regime == regime && this.optimizerForOptType == optimizerForOptType
      ensures regime == "train" ==>
                && exerciseGpuMap == Some(GpuPartition.ExerciseGpuMap(numExercises, numGpus))
                && numExOnGpus == Some(GpuPartition.NumExOnGpus(numExercises, numGpus))
      ensures regime != "train" ==> exerciseGpuMap.None? && numExOnGpus.None?
      ensures optimizerStates == map[] && permutations == map[]
      ensures Valid()
    {
      this.pupil := pupil;
      this.numExercises := numExercises;
      this.numLstmNodes := numLstmNodes;
      this.numOptimizerUnrollings := numOptimizerUnrollings;
      this.permPeriod := permPeriod;
      this.numGpus := numGpus;
      this.regime := regime;
      this.optimizerForOptType := optimizerForOptType;
      if regime == "train" {
        exerciseGpuMap := Some(GpuPartition.ExerciseGpuMap(numExercises, numGpus));
        numExOnGpus := Some(GpuPartition.NumExOnGpus(numExercises, numGpus));
      } else {
        exerciseGpuMap := None;
        numExOnGpus := None;
      }
      optimizerStates := map[];
      permutations := map[];
    }

    // The methods below take the `num_exercises` argument of the call as
    // `exercises`; it is not the `numExercises` field.

    /** The state a new key starts with: `h` and `c` of zeros, `[exercises, numLstmNodes]`. */
    function InitialState(exercises: nat): (s: OptimizerState)
      ensures s.h.rows == exercises && s.h.cols == numLstmNodes && IsZeroVariable(s.h)
      ensures s.c.rows == exercises && s.c.cols == numLstmNodes && IsZeroVariable(s.c)
    {
      OptimizerState(ZeroVariable(exercises, numLstmNodes), ZeroVariable(exercises, numLstmNodes))
    }

    /** Resetting a freshly created state leaves it as it was. */
    lemma ResetInitialState(exercises: nat)
      ensures ResetState(InitialState(exercises)) == InitialState(exercises)
    {
    }

    /** `_create_optimizer_states`: the `[h, c]` variables of (scope, GPU), created as zeros when absent. */
    method CreateOptimizerStates(exercises: nat, varScope: string, gpuIdx: nat) returns (states: seq<StateVariable>)
      modifies this`optimizerStates
      ensures (varScope, gpuIdx) in optimizerStates
      ensures optimizerStates ==
                if (varScope, gpuIdx) in old(optimizerStates) then old(optimizerStates)
                else old(optimizerStates)[(varScope, gpuIdx) := InitialState(exercises)]
      ensures states == [optimizerStates[(varScope, gpuIdx)].h, optimizerStates[(varScope, gpuIdx)].c]
    {
      var key := (varScope, gpuIdx);
      if key !in optimizerStates {
        optimizerStates := optimizerStates[key := InitialState(exercises)];
      }
      states := [optimizerStates[key].h, optimizerStates[key].c];
    }

    /**
     * `_reset_optimizer_states`: overwrites `h` and `c` of (scope, GPU) with
     * zeros of their own shape; every other key is untouched.  A missing key
     * is an error and changes nothing.
     */
    method ResetOptimizerStates(varScope: string, gpuIdx: nat) returns (err: Option<StoreError>)
      modifies this`optimizerStates
      ensures err.None? <==> (varScope, gpuIdx) in old(optimizerStates)
      ensures err.None? ==>
                optimizerStates == old(optimizerStates)[(varScope, gpuIdx) := ResetState(old(optimizerStates)[(varScope, gpuIdx)])]
      ensures err.Some? ==> err == Some(StateNotFound) && optimizerStates == old(optimizerStates)
    {
      var key := (varScope, gpuIdx);
      if key !in optimizerStates {
        return Some(StateNotFound);
      }
      var s := optimizerStates[key];
      var h := ZeroVariable(s.h.rows, s.h.cols);
      var c := ZeroVariable(s.c.rows, s.c.cols);
      optimizerStates := optimizerStates[key := OptimizerState(h, c)];
      err := None;
    }

    /**
     * `_create_permutation_matrix(size, num_exercises)`: one one-hot encoded
     * shuffle of `range(size)` per exercise.  The shuffles are inputs.
     */
    static function PermutationMatrix(size: nat, shuffles: seq<seq<int>>): (t: Tensor)
      requires forall e :: 0 <= e < |shuffles| ==> IsPermutation(shuffles[e], size)
      ensures IsPermTensor(t, |shuffles|, size)
    {
      var t := seq(|shuffles|, e requires 0 <= e < |shuffles| => OneHot(shuffles[e], size));
      assert forall e :: 0 <= e < |shuffles| ==> IsPermMatrix(t[e], size) by {
        forall e | 0 <= e < |shuffles|
          ensures IsPermMatrix(t[e], size)
        {
          OneHotOfPermutation(shuffles[e], size);
        }
      }
      t
    }

    /** `tf.get_variable(name, initializer)` in the permutation scope of `gpuIdx`. */
    method GetOrCreatePermutation(exercises: nat, gpuIdx: nat, g: Group, shuffles: map<Group, seq<seq<int>>>)
      requires InNet(g, pupil) && ShufflesFor(shuffles, g, exercises, GroupSize(g, pupil))
      modifies this`permutations
      ensures permutations ==
                if (gpuIdx, g) in old(permutations) then old(permutations)
                else old(permutations)[(gpuIdx, g) := NewPermutation(pupil, g, exercises, shuffles)]
    {
      if (gpuIdx, g) !in permutations {
        permutations := permutations[(gpuIdx, g) := NewPermutation(pupil, g, exercises, shuffles)];
      }
    }

    /**
     * `_create_permutation_matrices`: makes sure GPU `gpuIdx` has a variable
     * for exactly the groups the pupil calls for, creating the missing ones
     * from the given shuffles; existing variables are kept.
     */
    method CreatePermutationMatrices(exercises: nat, gpuIdx: nat, shuffles: map<Group, seq<seq<int>>>)
      requires Valid()
      requires forall g :: InNet(g, pupil) ==> ShufflesFor(shuffles, g, exercises, GroupSize(g, pupil))
      modifies this`permutations
      ensures Valid()
      ensures forall key :: key in old(permutations) ==> key in permutations && permutations[key] == old(permutations)[key]
      ensures forall g :: (gpuIdx, g) in permutations <==> (gpuIdx, g) in old(permutations) || InNet(g, pupil)
      ensures forall key :: key in permutations && key !in old(permutations) ==>
                key.0 == gpuIdx && InNet(key.1, pupil) && permutations[key] == NewPermutation(pupil, key.1, exercises, shuffles)
    {
      var numLayers, numOutputLayers := |pupil.numNodes|, |pupil.numOutputNodes|;
      ghost var before := permutations;
      if pupil.embeddingSize.Some? {
        GetOrCreatePermutation(exercises, gpuIdx, Embedding, shuffles);
        ExtendsStep(before, before, permutations, pupil, exercises, gpuIdx, shuffles, false, 0, 0, true, 0, 0, Embedding);
      } else {
        assert Extends(before, permutations, pupil, exercises, gpuIdx, shuffles, true, 0, 0);
      }
      for layerIdx := 0 to numLayers
        invariant Extends(before, permutations, pupil, exercises, gpuIdx, shuffles, true, layerIdx, 0)
      {
        ghost var mid := permutations;
        GetOrCreatePermutation(exercises, gpuIdx, CellGroup(layerIdx), shuffles);
        ExtendsCell(before, mid, permutations, pupil, exercises, gpuIdx, shuffles, layerIdx);
      }
      var layerIdx := 0;
      while layerIdx + 1 < numOutputLayers
        invariant Extends(before, permutations, pupil, exercises, gpuIdx, shuffles, true, numLayers, layerIdx)
        invariant layerIdx == 0 || layerIdx < numOutputLayers
        decreases numOutputLayers - layerIdx
      {
        ghost var mid := permutations;
        GetOrCreatePermutation(exercises, gpuIdx, HiddenGroup(layerIdx), shuffles);
        ExtendsHidden(before, mid, permutations, pupil, exercises, gpuIdx, shuffles, layerIdx);
        layerIdx := layerIdx + 1;
      }
      ExtendsComplete(before, permutations, pupil, exercises, gpuIdx, shuffles, layerIdx);
    }

    /** The variable `_reset_permutations` assigns: a new permutation of the same shape. */
    static function Regenerated(v: PermVariable, shuffles: seq<seq<int>>): (w: PermVariable)
      requires |shuffles| == v.numExercises && forall e :: 0 <= e < |shuffles| ==> IsPermutation(shuffles[e], v.size)
      ensures w.numExercises == v.numExercises && w.size == v.size
      ensures IsPermTensor(w.value, w.numExercises, w.size)
    {
      PermVariable(v.numExercises, v.size, PermutationMatrix(v.size, shuffles))
    }

    /**
     * `_reset_permutations`: every permutation variable of GPU `gpuIdx` is
     * reassigned a new permutation of its own shape; the set of variables and
     * the variables of other GPUs are unchanged.
     */
    method ResetPermutations(gpuIdx: nat, shuffles: map<Group, seq<seq<int>>>)
      requires Valid() && ShufflesForGpu(permutations, gpuIdx, shuffles)
      modifies this`permutations
      ensures Valid()
      ensures permutations.Keys == old(permutations).Keys
      ensures forall key :: key in permutations ==>
                permutations[key] ==
                  if Selected(gpuIdx, key) then Regenerated(old(permutations)[key], shuffles[key.1])
                  else old(permutations)[key]
    {
      ghost var before := permutations;
      var variables := set key | key in permutations && Selected(gpuIdx, key);
      while variables != {}
        invariant variables <= permutations.Keys
        invariant forall key :: key in variables ==> Selected(gpuIdx, key)
        invariant permutations.Keys == before.Keys
        invariant forall key :: key in permutations ==>
                    permutations[key] ==
                      if Selected(gpuIdx, key) && key !in variables then Regenerated(before[key], shuffles[key.1])
                      else before[key]
        decreases |variables|
      {
        var v :| v in variables;
        var regenerated := Regenerated(permutations[v], shuffles[v.1]);
        permutations := permutations[v := regenerated];
        variables := variables - {v};
      }
      RegeneratedStoreValid(before, permutations, pupil, gpuIdx, shuffles);
    }

    /** The tensor of the permutation variable of group `g` on GPU `gpuIdx`. */
    function Perm(gpuIdx: nat, g: Group): Tensor
      reads this
      requires (gpuIdx, g) in permutations
    {
      permutations[(gpuIdx, g)].value
    }

    /** Every group the pupil calls for has a variable on GPU `gpuIdx`. */
    ghost predicate AllGroupsPresent(gpuIdx: nat)
      reads this
    {
      forall g :: InNet(g, pupil) ==> (gpuIdx, g) in permutations
    }

    /** The variables of GPU `gpuIdx` all cover the same number of exercises. */
    ghost predicate SameExerciseCount(gpuIdx: nat)
      reads this
    {
      forall g, h :: (gpuIdx, g) in permutations && (gpuIdx, h) in permutations ==>
        permutations[(gpuIdx, g)].numExercises == permutations[(gpuIdx, h)].numExercises
    }

    /** Permutation variables of one GPU are stacks of square slices of equal count. */
    lemma PermsOnGpuSquare(gpuIdx: nat, g: Group)
      requires Valid() && (gpuIdx, g) in permutations
      ensures SquareStack(Perm(gpuIdx, g)) && |Perm(gpuIdx, g)| == permutations[(gpuIdx, g)].numExercises
    {
      var v := permutations[(gpuIdx, g)];
      PermTensorIsSquare(v.value, v.numExercises, v.size);
    }

    /** The output permutation of LSTM layer i permutes its `4 * num_nodes[i]` gate units. */
    lemma LstmOutPermShape(gpuIdx: nat, i: nat)
      requires Valid() && AllGroupsPresent(gpuIdx) && i < |pupil.numNodes|
      ensures SquareStack(Perm(gpuIdx, CellGroup(i)))
      ensures IsPermTensor(FourCopies(Perm(gpuIdx, CellGroup(i))), permutations[(gpuIdx, CellGroup(i))].numExercises,
                           4 * pupil.numNodes[i])
    {
      assert InNet(CellGroup(i), pupil);
      var v := permutations[(gpuIdx, CellGroup(i))];
      FourCopiesIsPermutation(v.value, v.numExercises, pupil.numNodes[i]);
    }

    /** The input permutation of LSTM layer i > 0 permutes `num_nodes[i-1] + num_nodes[i]` units. */
    lemma LstmInPermShape(gpuIdx: nat, i: nat)
      requires Valid() && AllGroupsPresent(gpuIdx) && SameExerciseCount(gpuIdx) && 0 < i < |pupil.numNodes|
      ensures SquareStack(Perm(gpuIdx, CellGroup(i - 1))) && SquareStack(Perm(gpuIdx, CellGroup(i)))
      ensures |Perm(gpuIdx, CellGroup(i - 1))| == |Perm(gpuIdx, CellGroup(i))|
      ensures IsPermTensor(Pair(Perm(gpuIdx, CellGroup(i - 1)), Perm(gpuIdx, CellGroup(i))),
                           permutations[(gpuIdx, CellGroup(i))].numExercises, pupil.numNodes[i - 1] + pupil.numNodes[i])
    {
      assert InNet(CellGroup(i - 1), pupil) && InNet(CellGroup(i), pupil);
      var a, b := permutations[(gpuIdx, CellGroup(i - 1))], permutations[(gpuIdx, CellGroup(i))];
      PairIsPermutation(a.value, b.value, b.numExercises, pupil.numNodes[i - 1], pupil.numNodes[i]);
    }

    /** Behind an embedding, the input permutation of LSTM layer 0 permutes `embedding_size + num_nodes[0]` units. */
    lemma EmbeddingInPermShape(gpuIdx: nat)
      requires Valid() && AllGroupsPresent(gpuIdx) && SameExerciseCount(gpuIdx)
      requires |pupil.numNodes| > 0 && pupil.embeddingSize.Some?
      ensures SquareStack(Perm(gpuIdx, Embedding)) && SquareStack(Perm(gpuIdx, CellGroup(0)))
      ensures |Perm(gpuIdx, Embedding)| == |Perm(gpuIdx, CellGroup(0))|
      ensures IsPermTensor(Pair(Perm(gpuIdx, Embedding), Perm(gpuIdx, CellGroup(0))),
                           permutations[(gpuIdx, CellGroup(0))].numExercises, pupil.embeddingSize.value + pupil.numNodes[0])
    {
      assert InNet(Embedding, pupil) && InNet(CellGroup(0), pupil);
      var a, b := permutations[(gpuIdx, Embedding)], permutations[(gpuIdx, CellGroup(0))];
      PairIsPermutation(a.value, b.value, b.numExercises, pupil.embeddingSize.value, pupil.numNodes[0]);
    }

    /**
     * The look-up half of `_extend_with_permutations` (the reusing
     * `get_variable` calls for `'embedding'`, every `'c_%s'` and every
     * `'h_%s'`): looks up the variables of GPU `gpuIdx`; a missing one is an error.
     */
    method LookUpPermutations(gpuIdx: nat) returns (emb: Option<Tensor>, lstmLayers: seq<Tensor>, outputLayers: seq<Tensor>, err: Option<StoreError>)
      ensures err.None? <==> AllGroupsPresent(gpuIdx)
      ensures err.Some? ==> err == Some(PermutationNotFound)
      ensures err.None? ==>
                && (emb.Some? <==> pupil.embeddingSize.Some?)
                && (emb.Some? ==> emb.value == Perm(gpuIdx, Embedding))
                && |lstmLayers| == |pupil.numNodes|
                && (forall i :: 0 <= i < |lstmLayers| ==> lstmLayers[i] == Perm(gpuIdx, CellGroup(i)))
                && |outputLayers| + 1 == (if |pupil.numOutputNodes| == 0 then 1 else |pupil.numOutputNodes|)
                && (forall j :: 0 <= j < |outputLayers| ==> outputLayers[j] == Perm(gpuIdx, HiddenGroup(j)))
    {
      var numLayers, numOutputLayers := |pupil.numNodes|, |pupil.numOutputNodes|;
      emb, lstmLayers, outputLayers := None, [], [];
      if pupil.embeddingSize.Some? {
        if (gpuIdx, Embedding) !in permutations {
          assert InNet(Embedding, pupil);
          return emb, lstmLayers, outputLayers, Some(PermutationNotFound);
        }
        emb := Some(Perm(gpuIdx, Embedding));
      }
      for layerIdx := 0 to numLayers
        invariant |lstmLayers| == layerIdx
        invariant forall j :: 0 <= j < layerIdx ==> (gpuIdx, CellGroup(j)) in permutations && lstmLayers[j] == Perm(gpuIdx, CellGroup(j))
      {
        if (gpuIdx, CellGroup(layerIdx)) !in permutations {
          assert InNet(CellGroup(layerIdx), pupil);
          return emb, lstmLayers, outputLayers, Some(PermutationNotFound);
        }
        lstmLayers := lstmLayers + [Perm(gpuIdx, CellGroup(layerIdx))];
      }
      var layerIdx := 0;
      while layerIdx + 1 < numOutputLayers
        invariant |outputLayers| == layerIdx
        invariant layerIdx == 0 || layerIdx < numOutputLayers
        invariant forall j :: 0 <= j < layerIdx ==> (gpuIdx, HiddenGroup(j)) in permutations && outputLayers[j] == Perm(gpuIdx, HiddenGroup(j))
        decreases numOutputLayers - layerIdx
      {
        if (gpuIdx, HiddenGroup(layerIdx)) !in permutations {
          assert InNet(HiddenGroup(layerIdx), pupil);
          return emb, lstmLayers, outputLayers, Some(PermutationNotFound);
        }
        outputLayers := outputLayers + [Perm(gpuIdx, HiddenGroup(layerIdx))];
        layerIdx := layerIdx + 1;
      }
      assert forall j :: 0 <= j < |pupil.numNodes| ==> (gpuIdx, CellGroup(j)) in permutations;
      err := None;
    }

    /**
     * The wiring half of `_extend_with_permutations`, up to the assignment of
     * `output_layer_0`'s `in_perm`: attaches the looked-up permutations to
     * the layer entries of `ins` in place.
     */
    static method WireLayers(ins: OptimizerIns, emb: Option<Tensor>, lstmLayers: seq<Tensor>)
      requires |lstmLayers| > 0
      requires forall i :: 0 <= i < |lstmLayers| ==> SquareStack(lstmLayers[i]) && |lstmLayers[i]| == |lstmLayers[0]|
      requires forall i :: 0 <= i < |lstmLayers| ==> LstmLayer(i) in ins.layers
      requires OutputLayer(0) in ins.layers
      requires EmbeddingLayer in ins.layers ==> emb.Some? && SquareStack(emb.value) && |emb.value| == |lstmLayers[0]|
      modifies ins
      ensures ins.layers.Keys == old(ins.layers).Keys
      ensures forall k :: k in ins.layers ==>
                ins.layers[k].o == old(ins.layers)[k].o && ins.layers[k].sigma == old(ins.layers)[k].sigma
      ensures forall k :: k in ins.layers && !(k.LstmLayer? && k.index < |lstmLayers|) && k != OutputLayer(0) && k != EmbeddingLayer ==>
                ins.layers[k] == old(ins.layers)[k]
      ensures forall i :: 0 <= i < |lstmLayers| ==> ins.layers[LstmLayer(i)].outPerm == Some(FourCopies(lstmLayers[i]))
      ensures forall i :: 0 < i < |lstmLayers| ==> ins.layers[LstmLayer(i)].inPerm == Some(Pair(lstmLayers[i - 1], lstmLayers[i]))
      ensures EmbeddingLayer in old(ins.layers) ==>
                && ins.layers[EmbeddingLayer] == old(ins.layers)[EmbeddingLayer].(outPerm := emb)
                && ins.layers[LstmLayer(0)].inPerm == Some(Pair(emb.value, lstmLayers[0]))
      ensures EmbeddingLayer !in old(ins.layers) ==> ins.layers[LstmLayer(0)].inPerm == old(ins.layers)[LstmLayer(0)].inPerm
      ensures ins.layers[OutputLayer(0)] == old(ins.layers)[OutputLayer(0)].(inPerm := Some(lstmLayers[|lstmLayers| - 1]))
    {
      if EmbeddingLayer in ins.layers {
        WireEmbedding(ins, emb.value, lstmLayers[0]);
      }
      WireLstmLayers(ins, lstmLayers);
      var numLayers := |lstmLayers|;
      ins.layers := ins.layers[OutputLayer(0) := ins.layers[OutputLayer(0)].(inPerm := Some(lstmLayers[numLayers - 1]))];
    }

    /** The `'embedding_layer' in optimizer_ins` branch: the embedding layer's `out_perm` and the input permutation of LSTM layer 0. */
    static method WireEmbedding(ins: OptimizerIns, emb: Tensor, c0: Tensor)
      requires SquareStack(emb) && SquareStack(c0) && |emb| == |c0|
      requires EmbeddingLayer in ins.layers && LstmLayer(0) in ins.layers
      modifies ins
      ensures ins.layers.Keys == old(ins.layers).Keys
      ensures ins.layers[EmbeddingLayer] == old(ins.layers)[EmbeddingLayer].(outPerm := Some(emb))
      ensures ins.layers[LstmLayer(0)] == old(ins.layers)[LstmLayer(0)].(inPerm := Some(Pair(emb, c0)))
      ensures forall k :: k in ins.layers && k != EmbeddingLayer && k != LstmLayer(0) ==> ins.layers[k] == old(ins.layers)[k]
    {
      ins.layers := ins.layers[EmbeddingLayer := ins.layers[EmbeddingLayer].(outPerm := Some(emb))];
      ins.layers := ins.layers[LstmLayer(0) := ins.layers[LstmLayer(0)].(inPerm := Some(Pair(emb, c0)))];
    }

    /** The loop over `enumerate(lstm_layers)`: the output permutation of every LSTM layer and the input permutation of every layer but the first. */
    static method WireLstmLayers(ins: OptimizerIns, lstmLayers: seq<Tensor>)
      requires forall i :: 0 <= i < |lstmLayers| ==> SquareStack(lstmLayers[i]) && |lstmLayers[i]| == |lstmLayers[0]|
      requires forall i :: 0 <= i < |lstmLayers| ==> LstmLayer(i) in ins.layers
      modifies ins
      ensures ins.layers.Keys == old(ins.layers).Keys
      ensures forall k :: k in ins.layers ==>
                ins.layers[k].o == old(ins.layers)[k].o && ins.layers[k].sigma == old(ins.layers)[k].sigma
      ensures forall k :: k in ins.layers && !(k.LstmLayer? && k.index < |lstmLayers|) ==> ins.layers[k] == old(ins.layers)[k]
      ensures forall i :: 0 <= i < |lstmLayers| ==> ins.layers[LstmLayer(i)].outPerm == Some(FourCopies(lstmLayers[i]))
      ensures forall i :: 0 < i < |lstmLayers| ==> ins.layers[LstmLayer(i)].inPerm == Some(Pair(lstmLayers[i - 1], lstmLayers[i]))
      ensures |lstmLayers| > 0 ==> ins.layers[LstmLayer(0)].inPerm == old(ins.layers)[LstmLayer(0)].inPerm
    {
      var numLayers := |lstmLayers|;
      for i := 0 to numLayers
        invariant ins.layers.Keys == old(ins.layers).Keys
        invariant forall k :: k in ins.layers ==>
                    ins.layers[k] == if k.LstmLayer? && k.index < numLayers then WiredSoFar(old(ins.layers)[k], lstmLayers, k.index, i)
                                     else old(ins.layers)[k]
      {
        WireLstmLayer(ins, lstmLayers, i);
      }
    }

    /** The entry of LSTM layer `j` after `i` iterations of the loop over `enumerate(lstm_layers)`. */
    static ghost function WiredSoFar(v: LayerIns, lstmLayers: seq<Tensor>, j: nat, i: nat): LayerIns
      requires j < |lstmLayers|
      requires forall j :: 0 <= j < |lstmLayers| ==> SquareStack(lstmLayers[j]) && |lstmLayers[j]| == |lstmLayers[0]|
    {
      v.(outPerm := if j < i then Some(FourCopies(lstmLayers[j])) else v.outPerm,
         inPerm := if 0 < j <= i then Some(Pair(lstmLayers[j - 1], lstmLayers[j])) else v.inPerm)
    }

    /** One iteration of the loop over `enumerate(lstm_layers)`, for LSTM layer `i`. */
    static method WireLstmLayer(ins: OptimizerIns, lstmLayers: seq<Tensor>, i: nat)
      requires i < |lstmLayers|
      requires forall j :: 0 <= j < |lstmLayers| ==> SquareStack(lstmLayers[j]) && |lstmLayers[j]| == |lstmLayers[0]|
      requires forall j :: 0 <= j < |lstmLayers| ==> LstmLayer(j) in ins.layers
      modifies ins
      ensures ins.layers.Keys == old(ins.layers).Keys
      ensures ins.layers[LstmLayer(i)] == old(ins.layers)[LstmLayer(i)].(outPerm := Some(FourCopies(lstmLayers[i])))
      ensures i + 1 < |lstmLayers| ==>
                ins.layers[LstmLayer(i + 1)] == old(ins.layers)[LstmLayer(i + 1)].(inPerm := Some(Pair(lstmLayers[i], lstmLayers[i + 1])))
      ensures forall k :: k in ins.layers && k != LstmLayer(i) && (k != LstmLayer(i + 1) || i + 1 == |lstmLayers|) ==>
                ins.layers[k] == old(ins.layers)[k]
    {
      var numLayers := |lstmLayers|;
      var c := lstmLayers[i];
      ins.layers := ins.layers[LstmLayer(i) := ins.layers[LstmLayer(i)].(outPerm := Some(FourCopies(c)))];
      if i < numLayers - 1 {
        ins.layers := ins.layers[LstmLayer(i + 1) := ins.layers[LstmLayer(i + 1)].(inPerm := Some(Pair(c, lstmLayers[i + 1])))];
      }
    }

    /**
     * `_extend_with_permutations`: looks up the GPU's permutation variables
     * (an error, before anything is written, when one is missing) and
     * attaches them to the layer entries of `ins` in place.
     */
    method ExtendWithPermutations(ins: OptimizerIns, gpuIdx: nat) returns (r: OptimizerIns, err: Option<StoreError>)
      requires Valid() && SameExerciseCount(gpuIdx)
      requires |pupil.numNodes| > 0
      requires forall i :: 0 <= i < |pupil.numNodes| ==> LstmLayer(i) in ins.layers
      requires OutputLayer(0) in ins.layers
      requires EmbeddingLayer in ins.layers ==> pupil.embeddingSize.Some?
      modifies ins
      ensures r == ins
      ensures err.None? <==> AllGroupsPresent(gpuIdx)
      ensures err.Some? ==> err == Some(PermutationNotFound) && ins.layers == old(ins.layers)
      ensures err.None? ==> ins.layers.Keys == old(ins.layers).Keys
      ensures err.None? ==> forall k :: k in ins.layers ==>
                ins.layers[k].o == old(ins.layers)[k].o && ins.layers[k].sigma == old(ins.layers)[k].sigma
      ensures err.None? ==> forall k :: k in ins.layers && !(k.LstmLayer? && k.index < |pupil.numNodes|) && k != OutputLayer(0) && k != EmbeddingLayer ==>
                ins.layers[k] == old(ins.layers)[k]
      ensures err.None? ==> forall i :: 0 <= i < |pupil.numNodes| ==>
                (gpuIdx, CellGroup(i)) in permutations && SquareStack(Perm(gpuIdx, CellGroup(i)))
                && ins.layers[LstmLayer(i)].outPerm == Some(FourCopies(Perm(gpuIdx, CellGroup(i))))
      ensures err.None? ==> forall i :: 0 < i < |pupil.numNodes| ==>
                |Perm(gpuIdx, CellGroup(i - 1))| == |Perm(gpuIdx, CellGroup(i))|
                && ins.layers[LstmLayer(i)].inPerm == Some(Pair(Perm(gpuIdx, CellGroup(i - 1)), Perm(gpuIdx, CellGroup(i))))
      ensures err.None? && EmbeddingLayer in old(ins.layers) ==>
                && (gpuIdx, Embedding) in permutations && SquareStack(Perm(gpuIdx, Embedding))
                && |Perm(gpuIdx, Embedding)| == |Perm(gpuIdx, CellGroup(0))|
                && ins.layers[EmbeddingLayer] == old(ins.layers)[EmbeddingLayer].(outPerm := Some(Perm(gpuIdx, Embedding)))
                && ins.layers[LstmLayer(0)].inPerm == Some(Pair(Perm(gpuIdx, Embedding), Perm(gpuIdx, CellGroup(0))))
      ensures err.None? && EmbeddingLayer !in old(ins.layers) ==>
                ins.layers[LstmLayer(0)].inPerm == old(ins.layers)[LstmLayer(0)].inPerm
      ensures err.None? ==>
                ins.layers[OutputLayer(0)] == old(ins.layers)[OutputLayer(0)].(inPerm := Some(Perm(gpuIdx, CellGroup(|pupil.numNodes| - 1))))
    {
      r := ins;
      var emb, lstmLayers, outputLayers;
      emb, lstmLayers, outputLayers, err := LookUpPermutations(gpuIdx);
      if err.Some? {
        return;
      }
      forall i | 0 <= i < |lstmLayers|
        ensures SquareStack(lstmLayers[i]) && |lstmLayers[i]| == |lstmLayers[0]|
      {
        PermsOnGpuSquare(gpuIdx, CellGroup(i));
        PermsOnGpuSquare(gpuIdx, CellGroup(0));
      }
      if emb.Some? {
        PermsOnGpuSquare(gpuIdx, Embedding);
        PermsOnGpuSquare(gpuIdx, CellGroup(0));
      }
      WireLayers(ins, emb, lstmLayers);
    }

    /**
     * `_forward_permute`: every entry's `o` is multiplied by its `in_perm` and
     * its `sigma` by its `out_perm`, element-wise for list fields.
     */
    static method ForwardPermute(ins: OptimizerIns) returns (r: OptimizerIns)
      requires AllPermutable(ins.layers)
      modifies ins
      ensures r == ins && ins.layers == ForwardAll(old(ins.layers))
    {
      ghost var before := ins.layers;
      var pending := ins.layers.Keys;
      while pending != {}
        invariant pending <= before.Keys && ins.layers.Keys == before.Keys
        invariant forall k :: k in before ==> ins.layers[k] == if k in pending then before[k] else ForwardEntry(before[k])
        decreases |pending|
      {
        var k :| k in pending;
        var v := ins.layers[k];
        var o := PermuteField(v.o, v.inPerm.value);
        var sigma := PermuteField(v.sigma, v.outPerm.value);
        assert v.(o := o, sigma := sigma) == ForwardEntry(before[k]);
        ins.layers := ins.layers[k := v.(o := o, sigma := sigma)];
        pending := pending - {k};
      }
      r := ins;
    }

    /**
     * `_backward_permute`: the same products with the transposed
     * permutations, which undoes `ForwardPermute` (see `RecordRoundTrip`).
     */
    static method BackwardPermute(ins: OptimizerIns) returns (r: OptimizerIns)
      requires AllPermutable(ins.layers)
      modifies ins
      ensures r == ins && ins.layers == BackwardAll(old(ins.layers))
    {
      ghost var before := ins.layers;
      var pending := ins.layers.Keys;
      while pending != {}
        invariant pending <= before.Keys && ins.layers.Keys == before.Keys
        invariant forall k :: k in before ==> ins.layers[k] == if k in pending then before[k] else BackwardEntry(before[k])
        decreases |pending|
      {
        var k :| k in pending;
        var v := ins.layers[k];
        var inTr := BatchTranspose(v.inPerm.value);
        var outTr := BatchTranspose(v.outPerm.value);
        FieldConformsSameShape(v.o, v.inPerm.value, inTr);
        FieldConformsSameShape(v.sigma, v.outPerm.value, outTr);
        var o := PermuteField(v.o, inTr);
        var sigma := PermuteField(v.sigma, outTr);
        FieldConformsSameShape(o, v.inPerm.value, inTr);
        FieldConformsSameShape(sigma, v.outPerm.value, outTr);
        assert v.(o := o, sigma := sigma) == BackwardEntry(before[k]);
        ins.layers := ins.layers[k := v.(o := o, sigma := sigma)];
        pending := pending - {k};
      }
      r := ins;
    }
  }
}
