/**
 * The optimizer-input record (`optimizer_ins`): for every pupil layer, its
 * output activations `o` and target signal `sigma` (each a single tensor or a
 * list of tensors, one per gate) and the `in_perm` / `out_perm` permutation
 * tensors attached to that layer.  Only these four fields of a layer entry are
 * modelled.
 */
module OptimizerInputs {
  import opened Wrappers
  import opened Matrices

  /** `'embedding_layer'`, `'lstm_layer_%s'` and `'output_layer_%s'`. */
  datatype LayerName = EmbeddingLayer | LstmLayer(index: nat) | OutputLayer(index: nat)

  /** A field that holds either one tensor or a list of tensors. */
  datatype Field = Single(t: Tensor) | Several(ts: seq<Tensor>)

  datatype LayerIns = LayerIns(o: Field, sigma: Field, inPerm: Option<Tensor>, outPerm: Option<Tensor>)

  /** Every tensor of `f` can be multiplied by `p`, exercise by exercise. */
  predicate FieldConforms(f: Field, p: Tensor)
  {
    match f
    case Single(t) => Conforms(t, p)
    case Several(ts) => forall k :: 0 <= k < |ts| ==> Conforms(ts[k], p)
  }

  /** Whether a field conforms depends only on the number and sizes of the slices of `p`. */
  lemma FieldConformsSameShape(f: Field, p: Tensor, q: Tensor)
    requires |p| == |q| && forall e :: 0 <= e < |p| ==> |p[e]| == |q[e]|
    ensures FieldConforms(f, p) <==> FieldConforms(f, q)
  {
  }

  /** `custom_matmul(x, p)` applied to the field, element-wise when it is a list. */
  function PermuteField(f: Field, p: Tensor): (g: Field)
    requires SquareStack(p) && FieldConforms(f, p)
    ensures FieldConforms(g, p)
    ensures g.Single? <==> f.Single?
    ensures g.Several? ==> |g.ts| == |f.ts|
  {
    match f
    case Single(t) => Single(BatchMatMul(t, p))
    case Several(ts) => Several(seq(|ts|, k requires 0 <= k < |ts| => BatchMatMul(ts[k], p)))
  }

  /** Both permutations are attached and both fields fit them. */
  predicate Permutable(v: LayerIns)
  {
    && v.inPerm.Some? && v.outPerm.Some?
    && SquareStack(v.inPerm.value) && SquareStack(v.outPerm.value)
    && FieldConforms(v.o, v.inPerm.value) && FieldConforms(v.sigma, v.outPerm.value)
  }

  /** In addition, the attached tensors are permutation matrices. */
  ghost predicate PermutedByPermutations(v: LayerIns)
  {
    Permutable(v) && IsPermStack(v.inPerm.value) && IsPermStack(v.outPerm.value)
  }

  /** One iteration of `_forward_permute`: `o := o · in_perm`, `sigma := sigma · out_perm`. */
  function ForwardEntry(v: LayerIns): (w: LayerIns)
    requires Permutable(v)
    ensures Permutable(w) && w.inPerm == v.inPerm && w.outPerm == v.outPerm
  {
    v.(o := PermuteField(v.o, v.inPerm.value), sigma := PermuteField(v.sigma, v.outPerm.value))
  }

  /** One iteration of `_backward_permute`: the same products with the transposed permutations. */
  function BackwardEntry(v: LayerIns): (w: LayerIns)
    requires Permutable(v)
    ensures Permutable(w) && w.inPerm == v.inPerm && w.outPerm == v.outPerm
  {
    var inT, outT := BatchTranspose(v.inPerm.value), BatchTranspose(v.outPerm.value);
    FieldConformsSameShape(v.o, v.inPerm.value, inT);
    FieldConformsSameShape(v.sigma, v.outPerm.value, outT);
    var o', sigma' := PermuteField(v.o, inT), PermuteField(v.sigma, outT);
    FieldConformsSameShape(o', v.inPerm.value, inT);
    FieldConformsSameShape(sigma', v.outPerm.value, outT);
    v.(o := o', sigma := sigma')
  }

  /** A field keeps its form, and a list field its length. */
  predicate SameForm(f: Field, g: Field)
  {
    && (f.Single? <==> g.Single?)
    && (f.Several? && g.Several? ==> |f.ts| == |g.ts|)
  }

  /** Both permutation steps keep the list-or-single form of `o` and `sigma` and the length of lists. */
  lemma EntriesKeepForm(v: LayerIns)
    requires Permutable(v)
    ensures SameForm(ForwardEntry(v).o, v.o) && SameForm(ForwardEntry(v).sigma, v.sigma)
    ensures SameForm(BackwardEntry(v).o, v.o) && SameForm(BackwardEntry(v).sigma, v.sigma)
  {
  }

  lemma FieldRoundTrip(f: Field, p: Tensor)
    requires IsPermStack(p) && SquareStack(p) && FieldConforms(f, p)
    ensures PermuteField(PermuteField(f, p), BatchTranspose(p)) == f
  {
    var g := PermuteField(f, p);
    FieldConformsSameShape(g, p, BatchTranspose(p));
    match f
    case Single(t) =>
      BatchRoundTrip(t, p);
    case Several(ts) =>
      var back := PermuteField(g, BatchTranspose(p)).ts;
      forall k | 0 <= k < |ts|
        ensures back[k] == ts[k]
      {
        BatchRoundTrip(ts[k], p);
      }
  }

  lemma FieldRoundTripReverse(f: Field, p: Tensor)
    requires IsPermStack(p) && SquareStack(p) && FieldConforms(f, p)
    ensures PermuteField(PermuteField(f, BatchTranspose(p)), p) == f
  {
    FieldConformsSameShape(f, p, BatchTranspose(p));
    var g := PermuteField(f, BatchTranspose(p));
    FieldConformsSameShape(g, p, BatchTranspose(p));
    match f
    case Single(t) =>
      BatchRoundTripReverse(t, p);
    case Several(ts) =>
      var back := PermuteField(g, p).ts;
      forall k | 0 <= k < |ts|
        ensures back[k] == ts[k]
      {
        BatchRoundTripReverse(ts[k], p);
      }
  }

  /** `_backward_permute` undoes `_forward_permute` on one layer entry. */
  lemma EntryRoundTrip(v: LayerIns)
    requires PermutedByPermutations(v)
    ensures BackwardEntry(ForwardEntry(v)) == v
  {
    FieldRoundTrip(v.o, v.inPerm.value);
    FieldRoundTrip(v.sigma, v.outPerm.value);
  }

  /** `_forward_permute` also undoes `_backward_permute`: the two are inverse to each other. */
  lemma EntryRoundTripReverse(v: LayerIns)
    requires PermutedByPermutations(v)
    ensures ForwardEntry(BackwardEntry(v)) == v
  {
    FieldRoundTripReverse(v.o, v.inPerm.value);
    FieldRoundTripReverse(v.sigma, v.outPerm.value);
  }

  predicate AllPermutable(layers: map<LayerName, LayerIns>)
  {
    forall k :: k in layers ==> Permutable(layers[k])
  }

  /** The record after `_forward_permute`. */
  function ForwardAll(layers: map<LayerName, LayerIns>): (r: map<LayerName, LayerIns>)
    requires AllPermutable(layers)
    ensures r.Keys == layers.Keys && AllPermutable(r)
  {
    map k | k in layers :: ForwardEntry(layers[k])
  }

  /** The record after `_backward_permute`. */
  function BackwardAll(layers: map<LayerName, LayerIns>): (r: map<LayerName, LayerIns>)
    requires AllPermutable(layers)
    ensures r.Keys == layers.Keys && AllPermutable(r)
  {
    map k | k in layers :: BackwardEntry(layers[k])
  }

  /** `backward_permute(forward_permute(x)) == x` for every record whose permutations are permutation matrices. */
  lemma RecordRoundTrip(layers: map<LayerName, LayerIns>)
    requires AllPermutable(layers) && forall k :: k in layers ==> PermutedByPermutations(layers[k])
    ensures BackwardAll(ForwardAll(layers)) == layers
  {
    var back := BackwardAll(ForwardAll(layers));
    forall k | k in layers
      ensures back[k] == layers[k]
    {
      EntryRoundTrip(layers[k]);
    }
  }

  /** `forward_permute(backward_permute(x)) == x` as well. */
  lemma RecordRoundTripReverse(layers: map<LayerName, LayerIns>)
    requires AllPermutable(layers) && forall k :: k in layers ==> PermutedByPermutations(layers[k])
    ensures ForwardAll(BackwardAll(layers)) == layers
  {
    var back := ForwardAll(BackwardAll(layers));
    forall k | k in layers
      ensures back[k] == layers[k]
    {
      EntryRoundTripReverse(layers[k]);
    }
  }

  /** The `optimizer_ins` dictionary, which the permutation methods update in place. */
  class OptimizerIns {
    var layers: map<LayerName, LayerIns>

    constructor(layers: map<LayerName, LayerIns>)
      ensures this.layers == layers
    {
      this.layers := layers;
    }
  }
}
