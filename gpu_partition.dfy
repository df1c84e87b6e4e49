/**
 * The static partition of exercises over GPUs computed by the `ResNet4Lstm`
 * constructor in the `'train'` regime: `ex_per_gpu = N // G` exercises on each
 * of the first G-1 GPUs, and the remainder on top of that on the last one.
 */
module GpuPartition {

  /** `ex_per_gpu`: Python's floor division `num_exercises // num_gpus`. */
  function ExPerGpu(numExercises: nat, numGpus: nat): (e: nat)
    requires numGpus > 0
    ensures numGpus * e <= numExercises < numGpus * e + numGpus
  {
    numExercises / numGpus
  }

  /** `remaining`: what is left after every GPU got `ex_per_gpu` exercises. */
  function Remaining(numExercises: nat, numGpus: nat): (r: nat)
    requires numGpus > 0
    ensures r < numGpus
  {
    numExercises - numGpus * ExPerGpu(numExercises, numGpus)
  }

  /** `_exercise_gpu_map`: entry i is the GPU that exercise i runs on. */
  function ExerciseGpuMap(numExercises: nat, numGpus: nat): (m: seq<nat>)
    requires numGpus > 0
    ensures |m| == numExercises
  {
    var e, r := ExPerGpu(numExercises, numGpus), Remaining(numExercises, numGpus);
    var front := (numGpus - 1) * e;
    MulPositive(numGpus - 1, e);
    Decompose(numExercises, numGpus);
    seq(front, n requires 0 <= n < front => n / e) + seq(e + r, _ => numGpus - 1)
  }

  /** `_num_ex_on_gpus`: how many exercises each GPU runs. */
  function NumExOnGpus(numExercises: nat, numGpus: nat): (counts: seq<nat>)
    requires numGpus > 0
    ensures |counts| == numGpus
  {
    var e, r := ExPerGpu(numExercises, numGpus), Remaining(numExercises, numGpus);
    seq(numGpus - 1, _ => e) + [e + r]
  }

  /** The index of the first exercise on `gpu`. */
  function FirstExercise(numExercises: nat, numGpus: nat, gpu: nat): nat
    requires numGpus > 0
  {
    gpu * ExPerGpu(numExercises, numGpus)
  }

  function Sum(s: seq<nat>): nat
  {
    if |s| == 0 then 0 else s[0] + Sum(s[1..])
  }

  // ---------------------------------------------------------------- arithmetic helpers

  lemma FrontBound(numGpus: nat, e: nat)
    requires numGpus > 0
    ensures forall n :: 0 <= n < (numGpus - 1) * e ==> e > 0 && n / e < numGpus - 1
  {
    forall n | 0 <= n < (numGpus - 1) * e
      ensures e > 0 && n / e < numGpus - 1
    {
      MulPositive(numGpus - 1, e);
      DivBlock(n, e, n / e);
      if n / e >= numGpus - 1 {
        MulMonotone(numGpus - 1, n / e, e);
      }
    }
  }

  lemma MulPositive(a: nat, b: nat)
    ensures a * b > 0 ==> b > 0
  {
  }

  lemma Decompose(numExercises: nat, numGpus: nat)
    requires numGpus > 0
    ensures (numGpus - 1) * ExPerGpu(numExercises, numGpus) + ExPerGpu(numExercises, numGpus)
            + Remaining(numExercises, numGpus) == numExercises
  {
    var e := ExPerGpu(numExercises, numGpus);
    assert (numGpus - 1) * e + e == numGpus * e;
  }

  lemma DivMonotone(i: nat, j: nat, e: nat)
    requires i <= j && e > 0
    ensures i / e <= j / e
  {
    var qi, qj := i / e, j / e;
    DivBlock(i, e, qi);
    DivBlock(j, e, qj);
    if qi > qj {
      MulMonotone(qj + 1, qi, e);
    }
  }

  /** Entry i of the map, read off the two halves of its definition. */
  lemma MapAt(numExercises: nat, numGpus: nat, i: nat)
    requires numGpus > 0 && i < numExercises
    ensures var e := ExPerGpu(numExercises, numGpus);
            var front := (numGpus - 1) * e;
            && (i < front ==> e > 0 && ExerciseGpuMap(numExercises, numGpus)[i] == i / e)
            && (front <= i ==> ExerciseGpuMap(numExercises, numGpus)[i] == numGpus - 1)
  {
    FrontBound(numGpus, ExPerGpu(numExercises, numGpus));
  }

  lemma MulMonotone(a: nat, b: nat, c: nat)
    requires a <= b
    ensures a * c <= b * c
  {
  }

  /** `i // e == g` exactly when `i` lies in the g-th block of length `e`. */
  lemma DivBlock(i: nat, e: nat, g: nat)
    requires e > 0
    ensures i / e == g <==> g * e <= i < g * e + e
  {
    var q := i / e;
    assert q * e <= i < q * e + e;
    if q < g {
      MulMonotone(q + 1, g, e);
    } else if q > g {
      MulMonotone(g + 1, q, e);
    }
  }

  lemma {:induction false} SumConstant(k: nat, e: nat)
    ensures Sum(seq(k, _ => e)) == k * e
  {
    if k > 0 {
      assert seq(k, _ => e)[1..] == seq(k - 1, _ => e);
      SumConstant(k - 1, e);
    }
  }

  lemma {:induction false} SumAppend(s: seq<nat>, x: nat)
    ensures Sum(s + [x]) == Sum(s) + x
  {
    if |s| > 0 {
      assert (s + [x])[1..] == s[1..] + [x];
      SumAppend(s[1..], x);
    }
  }

  // ---------------------------------------------------------------- properties

  /** The per-GPU counts are `[E]*(G-1) + [E+R]` and add up to the number of exercises. */
  lemma NumExOnGpusSum(numExercises: nat, numGpus: nat)
    requires numGpus > 0
    ensures Sum(NumExOnGpus(numExercises, numGpus)) == numExercises
    ensures forall g :: 0 <= g < numGpus - 1 ==> NumExOnGpus(numExercises, numGpus)[g] == ExPerGpu(numExercises, numGpus)
    ensures NumExOnGpus(numExercises, numGpus)[numGpus - 1]
            == ExPerGpu(numExercises, numGpus) + Remaining(numExercises, numGpus)
  {
    var e, r := ExPerGpu(numExercises, numGpus), Remaining(numExercises, numGpus);
    SumConstant(numGpus - 1, e);
    SumAppend(seq(numGpus - 1, _ => e), e + r);
    assert (numGpus - 1) * e + e == numGpus * e;
  }

  /**
   * Exercise i runs on GPU g exactly when i lies in g's contiguous block, which
   * starts at `g * E` and holds `NumExOnGpus[g]` exercises: the blocks tile
   * `[0, N)` in GPU order, without gap or overlap.
   */
  lemma ExerciseGpuMapBlocks(numExercises: nat, numGpus: nat, i: nat, g: nat)
    requires numGpus > 0 && i < numExercises && g < numGpus
    ensures var first := FirstExercise(numExercises, numGpus, g);
            ExerciseGpuMap(numExercises, numGpus)[i] == g
            <==> first <= i < first + NumExOnGpus(numExercises, numGpus)[g]
  {
    var e, r := ExPerGpu(numExercises, numGpus), Remaining(numExercises, numGpus);
    var front := (numGpus - 1) * e;
    Decompose(numExercises, numGpus);
    MapAt(numExercises, numGpus, i);
    if i < front {
      DivBlock(i, e, g);
      if g == numGpus - 1 {
        assert i < g * e;
      }
    } else if g < numGpus - 1 {
      MulMonotone(g + 1, numGpus - 1, e);
    }
  }

  /** Every exercise is mapped to an existing GPU. */
  lemma ExerciseGpuMapRange(numExercises: nat, numGpus: nat, i: nat)
    requires numGpus > 0 && i < numExercises
    ensures ExerciseGpuMap(numExercises, numGpus)[i] < numGpus
  {
    MapAt(numExercises, numGpus, i);
    FrontBound(numGpus, ExPerGpu(numExercises, numGpus));
  }

  /** The map is non-decreasing: exercises are assigned to GPUs in index order. */
  lemma ExerciseGpuMapSorted(numExercises: nat, numGpus: nat, i: nat, j: nat)
    requires numGpus > 0 && i <= j < numExercises
    ensures ExerciseGpuMap(numExercises, numGpus)[i] <= ExerciseGpuMap(numExercises, numGpus)[j]
  {
    var e := ExPerGpu(numExercises, numGpus);
    MapAt(numExercises, numGpus, i);
    MapAt(numExercises, numGpus, j);
    FrontBound(numGpus, e);
    if j < (numGpus - 1) * e {
      DivMonotone(i, j, e);
    }
  }

  /** With a single GPU every exercise is on GPU 0. */
  lemma SingleGpu(numExercises: nat)
    ensures ExerciseGpuMap(numExercises, 1) == seq(numExercises, _ => 0)
    ensures NumExOnGpus(numExercises, 1) == [numExercises]
  {
  }

  /**
   * With fewer exercises than GPUs, `ex_per_gpu` is 0 and every exercise goes
   * to the last GPU; no error is raised.
   */
  lemma FewerExercisesThanGpus(numExercises: nat, numGpus: nat)
    requires numExercises < numGpus
    ensures ExerciseGpuMap(numExercises, numGpus) == seq(numExercises, _ => numGpus - 1)
    ensures NumExOnGpus(numExercises, numGpus) == seq(numGpus - 1, _ => 0) + [numExercises]
  {
    assert ExPerGpu(numExercises, numGpus) == 0;
    assert (numGpus - 1) * 0 == 0;
  }

  lemma SeventeenOnFour()
    ensures NumExOnGpus(17, 4) == [4, 4, 4, 5]
  {
  }

  lemma TenOnThree()
    ensures NumExOnGpus(10, 3) == [3, 3, 4]
  {
  }
}
