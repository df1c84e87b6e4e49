# ResNet4Lstm permutation bookkeeping, metric helpers and the Empty optimizer, in Dafny

This project models three parts of a learning-to-learn code base (a TensorFlow
meta-optimizer library). It proves properties of the model.

- **`ResNet4Lstm`** (`first_meta_opt.py`) is a meta-optimizer that trains a
  pupil network.
  - Its constructor splits the exercises (independent copies of the pupil)
    over the GPUs, in the `'train'` regime.
  - It keeps two stores of TensorFlow variables. One holds the zero-initialised
    recurrent `h`/`c` state per (variable scope, GPU). The other holds
    permutation matrices per (GPU, group). The groups are `embedding`, `c_i`
    for every LSTM layer, and `h_i` for every output layer but the last.
  - It attaches those permutations to the optimizer-input record, as the
    `in_perm`/`out_perm` of each layer.
  - `_forward_permute` multiplies every `o` by `in_perm` and every `sigma` by
    `out_perm`. `_backward_permute` multiplies them by the transposes instead.
  - TensorFlow variables are modelled as entries of `map` fields of a class.
    `get_variable` under a reusing scope is modelled as "look the key up,
    create it if it is absent".
  - A permutation matrix is a real 0/1 matrix: the one-hot encoding of a
    shuffle of `range(size)`. Each shuffle is an input.
  - `custom_matmul` is modelled as the product of each exercise's matrix.
    `block_diagonal` is modelled as the block-diagonal matrix of each
    exercise's blocks.
- **The metric helpers** (`learning_to_learn/tensors.py`) are modelled over
  exact reals.
  - A metric tensor is a grid: its first index is the tensor's first
    dimension, and the rest of the tensor is flattened into each row.
  - The helpers modelled are `choose_biggest`, `metrics_reduce_mean`,
    `accuracy_tensor`, `bpc_tensor`, `identity_tensor` and `compute_metrics`.
  - `loss_tensor` and `perplexity_tensor` are arbitrary functions that are
    passed in.
- **The `Empty` optimizer** (`learning_to_learn/optimizers/empty.py`) covers
  the following:
  - `form_kwargs` updates a keyword-argument dictionary in place, with Python's
    `KeyError`, `TypeError` and `IndexError`, and with negative list indices;
  - the constructor's hooks and its regime check;
  - its empty optimizer state;
  - the learning-rate scaling of `sigma` that its optimizer core asks for.

Files:

- `wrappers.dfy` holds Option and Result.
- `matrices.dfy` holds matrices, one-hot permutation matrices, block diagonals
  and batched products.
- `gpu_partition.dfy` holds the exercise-to-GPU map.
- `optimizer_inputs.dfy` holds the optimizer-input record and the permutation
  of one entry.
- `first_meta_opt.dfy` holds the `ResNet4Lstm` class.
- `tensors.dfy` holds the metric helpers.
- `empty.dfy` holds the `Empty` optimizer.

## Model

| member | source | states |
|---|---|---|
| GpuPartition.ExPerGpu | first_meta_opt.py:179 | `ex_per_gpu` is the floor of N / G: G·E ≤ N < G·E + G |
| GpuPartition.ExerciseGpuMap | first_meta_opt.py:181-182 | `_exercise_gpu_map` has one entry per exercise |
| GpuPartition.NumExOnGpus | first_meta_opt.py:183 | `_num_ex_on_gpus` has one entry per GPU |
| GpuPartition.Remaining | first_meta_opt.py:179-180 | `remaining` is below the number of GPUs |
| GpuPartition.NumExOnGpusSum | first_meta_opt.py:179-183 | the per-GPU counts are `[E]*(G-1) + [E+R]`, with `E = N // G`, and they add up to N |
| GpuPartition.ExerciseGpuMapBlocks | first_meta_opt.py:181-183 | exercise i is on GPU g exactly when i lies in g's contiguous block, which starts at `g*E` and holds `NumExOnGpus[g]` exercises |
| GpuPartition.ExerciseGpuMapRange | first_meta_opt.py:181-182 | every exercise goes to a GPU in `[0, G)` |
| GpuPartition.ExerciseGpuMapSorted | first_meta_opt.py:181-182 | the map is non-decreasing |
| GpuPartition.SingleGpu | first_meta_opt.py:179-183 | with one GPU, every exercise is on GPU 0 |
| GpuPartition.FewerExercisesThanGpus | first_meta_opt.py:179-183 | when N < G, every exercise goes to the last GPU and no error arises |
| GpuPartition.SeventeenOnFour | first_meta_opt.py:183 | 17 exercises on 4 GPUs are counted `[4, 4, 4, 5]` |
| GpuPartition.TenOnThree | first_meta_opt.py:183 | 10 exercises on 3 GPUs are counted `[3, 3, 4]` |
| FirstMetaOpt.ResNet4Lstm.constructor | first_meta_opt.py:151-183 | the fields are set; in `'train'` the exercise map and the counts are set, otherwise they are absent; both stores start empty and valid |
| FirstMetaOpt.ResNet4Lstm.InitialState | first_meta_opt.py:11-16 | a new `h` and a new `c` are zeros of shape `[num_exercises, num_lstm_nodes]` |
| FirstMetaOpt.ResNet4Lstm.CreateOptimizerStates | first_meta_opt.py:8-17 | the state of (scope, GPU) is created as zeros if absent and kept if present; `[h, c]` of that key is returned; other keys are untouched |
| FirstMetaOpt.Zeros | first_meta_opt.py:28-29 | `tf.zeros([rows, cols])` has that shape and holds only zeros |
| FirstMetaOpt.ResetState | first_meta_opt.py:25-30 | `h` and `c` become zeros of their own shape |
| FirstMetaOpt.ResetStateIdempotent | first_meta_opt.py:25-30 | resetting twice is resetting once |
| FirstMetaOpt.ResNet4Lstm.ResetInitialState | first_meta_opt.py:8-31 | resetting a freshly created state leaves it unchanged |
| FirstMetaOpt.ResNet4Lstm.ResetOptimizerStates | first_meta_opt.py:19-31 | on success exactly the (scope, GPU) entry is reset and every other key is untouched; a missing key is an error that changes nothing |
| Matrices.OneHot | first_meta_opt.py:35-39 | `tf.one_hot(indices, depth)` has one row per index and `depth` columns; a row whose index lies in `[0, depth)` holds a single 1 at that index and zeros elsewhere, and a row whose index is out of range is all zeros |
| Matrices.OneHotOfPermutation | first_meta_opt.py:35-39 | the one-hot encoding of a shuffle of `range(size)` has exactly one 1 in each row and each column, and 0 elsewhere |
| FirstMetaOpt.ResNet4Lstm.PermutationMatrix | first_meta_opt.py:33-39 | `_create_permutation_matrix(size, n)` is an `[n, size, size]` stack of permutation matrices |
| FirstMetaOpt.NewPermutation | first_meta_opt.py:58-75 | the created variable of a group has shape `[num_exercises, size, size]`, with the group's size, and holds permutation matrices |
| FirstMetaOpt.ResNet4Lstm.GetOrCreatePermutation | first_meta_opt.py:59-74 | `get_variable` keeps an existing variable and otherwise creates the group's new permutation |
| FirstMetaOpt.ExtendsStep | first_meta_opt.py:57-75 | getting or creating one more group's variable adds only that group's key, for this GPU |
| FirstMetaOpt.ExtendsCell | first_meta_opt.py:64-69 | one iteration of the `c_i` loop extends the created groups by `c_i` |
| FirstMetaOpt.ExtendsHidden | first_meta_opt.py:70-75 | one iteration of the `h_i` loop extends the created groups by `h_i` |
| FirstMetaOpt.ExtendsComplete | first_meta_opt.py:57-75 | after the loops, the GPU has a variable for exactly the pupil's groups; the store stays valid |
| FirstMetaOpt.ResNet4Lstm.CreatePermutationMatrices | first_meta_opt.py:51-75 | afterwards GPU `gpu_idx` has a variable for exactly these groups: the embedding only when the pupil has `embedding_size`, one `c_i` per LSTM layer, and one `h_i` per output layer but the last. New variables are fresh permutations of the group's size; existing variables are kept |
| FirstMetaOpt.ResNet4Lstm.Regenerated | first_meta_opt.py:45-47 | a reset variable keeps its `[n, size, size]` shape and holds new permutation matrices |
| FirstMetaOpt.RegeneratedStoreValid | first_meta_opt.py:41-49 | regenerating one GPU's variables in their own shapes keeps the store well formed |
| FirstMetaOpt.ResNet4Lstm.ResetPermutations | first_meta_opt.py:41-49 | every variable of the GPU is regenerated with its own shape; other GPUs' variables are unchanged; the set of variables is unchanged |
| FirstMetaOpt.SelectedAsWritten | first_meta_opt.py:42 | the scope-prefix selection of GPU `gpu_idx` reaches only GPUs whose scope name starts with `permutation_matrices_on_gpu_<gpu_idx>`, because a scope name holds no `/` |
| FirstMetaOpt.SelectedAsWrittenKeepsOwnGpu | first_meta_opt.py:42 | the scope-prefix selection includes every variable of the GPU itself |
| FirstMetaOpt.SelectedAsWrittenReachesGpuTen | first_meta_opt.py:42 | resetting GPU 1 also selects GPU 10's variables, because scope selection matches by prefix |
| FirstMetaOpt.SelectionsAgreeBelowTenGpus | first_meta_opt.py:42 | for GPU indices below 10, the prefix selection is exactly "this GPU's variables" |
| FirstMetaOpt.ResNet4Lstm.PermsOnGpuSquare | first_meta_opt.py:83-89 | every looked-up variable is a stack of square slices, one per exercise |
| FirstMetaOpt.ResNet4Lstm.LookUpPermutations | first_meta_opt.py:81-89 | returns `emb`, then `c_0..c_{L-1}`, then `h_0..h_{K-2}`; a missing variable is an error exactly when some pupil group has no variable |
| Matrices.BlockDiag2OfPermMatrices | first_meta_opt.py:92 | the block diagonal of two permutation matrices of sizes n and m is a permutation matrix of size n+m |
| Matrices.BlockDiagonalOfPermMatrices | first_meta_opt.py:94-99 | the block diagonal of permutation matrices is a permutation matrix whose size is the sum of their sizes |
| Matrices.BatchBlockDiagonalOfPermTensors | first_meta_opt.py:94-99 | the same, exercise by exercise |
| FirstMetaOpt.FourCopies | first_meta_opt.py:94-96 | `block_diagonal([c]*4)` has one square slice per exercise, four times the size of `c`'s slice |
| FirstMetaOpt.Pair | first_meta_opt.py:92-98 | `block_diagonal([a, b])` has one square slice per exercise, whose size is the sum of the sizes of `a`'s and `b`'s slices |
| FirstMetaOpt.FourCopiesIsPermutation | first_meta_opt.py:94-96 | `block_diagonal([c]*4)` permutes the `4·num_nodes[i]` gate units |
| FirstMetaOpt.PairIsPermutation | first_meta_opt.py:98-99 | `block_diagonal([a, b])` permutes `size(a) + size(b)` units |
| FirstMetaOpt.ResNet4Lstm.LstmOutPermShape | first_meta_opt.py:93-96 | `lstm_layer_i.out_perm` is a permutation of size `4·num_nodes[i]` |
| FirstMetaOpt.ResNet4Lstm.LstmInPermShape | first_meta_opt.py:97-99 | `lstm_layer_{i+1}.in_perm` is a permutation of size `num_nodes[i] + num_nodes[i+1]` |
| FirstMetaOpt.ResNet4Lstm.EmbeddingInPermShape | first_meta_opt.py:90-92 | behind an embedding, `lstm_layer_0.in_perm` is a permutation of size `embedding_size + num_nodes[0]` |
| FirstMetaOpt.ResNet4Lstm.WireEmbedding | first_meta_opt.py:90-92 | `embedding_layer.out_perm` is `emb`, `lstm_layer_0.in_perm` is `blockdiag(emb, c_0)`, and no other entry changes |
| FirstMetaOpt.ResNet4Lstm.WireLstmLayer | first_meta_opt.py:93-99 | one iteration sets `lstm_layer_i.out_perm` and, except for the last layer, `lstm_layer_{i+1}.in_perm`; no other entry changes |
| FirstMetaOpt.ResNet4Lstm.WireLstmLayers | first_meta_opt.py:93-99 | every `lstm_layer_i.out_perm` is four copies of `c_i`, every `lstm_layer_{i+1}.in_perm` is `blockdiag(c_i, c_{i+1})`, `o`/`sigma` are untouched, and other layers are unchanged |
| FirstMetaOpt.ResNet4Lstm.WireLayers | first_meta_opt.py:90-100 | the whole wiring, including `output_layer_0.in_perm` being the last `c` |
| FirstMetaOpt.ResNet4Lstm.ExtendWithPermutations | first_meta_opt.py:77-104 | the wiring in terms of the GPU's stored variables; a missing variable is reported before anything is written, and then the record is unchanged |
| Matrices.BatchMatMul | first_meta_opt.py:110-116 | `custom_matmul(x, p)` keeps x's shape relative to p |
| Matrices.BatchTranspose | first_meta_opt.py:122-123 | `tf.matrix_transpose` of a square stack is a square stack with the same slice sizes |
| OptimizerInputs.PermuteField | first_meta_opt.py:109-116 | a list field stays a list of the same length; a single tensor stays single |
| OptimizerInputs.ForwardEntry | first_meta_opt.py:108-116 | the permutations of the entry stay attached and conforming after the forward step |
| OptimizerInputs.BackwardEntry | first_meta_opt.py:121-131 | the same for the backward step with transposes |
| OptimizerInputs.EntriesKeepForm | first_meta_opt.py:108-131 | both steps keep the list-or-single form of `o` and `sigma` and the length of list fields |
| OptimizerInputs.ForwardAll | first_meta_opt.py:106-117 | the forward record has the same layers, all still permutable |
| OptimizerInputs.BackwardAll | first_meta_opt.py:119-132 | the backward record has the same layers, all still permutable |
| Matrices.PermuteThenTranspose | first_meta_opt.py:110-131 | `(x·P)·Pᵀ == x` for a permutation matrix P |
| Matrices.TransposeThenPermute | first_meta_opt.py:110-131 | `(x·Pᵀ)·P == x` for a permutation matrix P |
| Matrices.BatchRoundTrip | first_meta_opt.py:110-131 | the same, exercise by exercise |
| Matrices.BatchRoundTripReverse | first_meta_opt.py:110-131 | the reverse order, exercise by exercise |
| OptimizerInputs.FieldRoundTrip | first_meta_opt.py:109-131 | the backward permute of a field undoes its forward permute, for single and list fields |
| OptimizerInputs.FieldRoundTripReverse | first_meta_opt.py:109-131 | the forward permute of a field undoes its backward permute |
| OptimizerInputs.EntryRoundTrip | first_meta_opt.py:108-131 | on a layer entry, the backward step undoes the forward step |
| OptimizerInputs.EntryRoundTripReverse | first_meta_opt.py:108-131 | on a layer entry, the forward step undoes the backward step |
| OptimizerInputs.RecordRoundTrip | first_meta_opt.py:106-132 | `_backward_permute(_forward_permute(x)) == x` for every record whose permutations are permutation matrices |
| OptimizerInputs.RecordRoundTripReverse | first_meta_opt.py:106-132 | `_forward_permute(_backward_permute(x)) == x` |
| FirstMetaOpt.ResNet4Lstm.ForwardPermute | first_meta_opt.py:106-117 | the record is updated in place to the forward-permuted record, and the same record is returned |
| FirstMetaOpt.ResNet4Lstm.BackwardPermute | first_meta_opt.py:119-132 | the record is updated in place to the backward-permuted record, and the same record is returned |
| Tensors.ChooseBiggest | learning_to_learn/tensors.py:7-10 | each element is at least both inputs and equal to one of them: the element-wise maximum |
| Tensors.ChooseBiggestSymmetric | learning_to_learn/tensors.py:7-10 | the mask arithmetic does not depend on the order of the arguments |
| Tensors.MeanBounds | learning_to_learn/tensors.py:15-17 | a `reduce_mean` lies between any bounds of its elements |
| Tensors.MeanConstant | learning_to_learn/tensors.py:15-17 | the mean of a constant is that constant |
| Tensors.RowMeans | learning_to_learn/tensors.py:14-15 | the reduction over every axis but the first yields one value per first index |
| Tensors.MetricsReduceMean | learning_to_learn/tensors.py:13-18 | with `keep_first_dim`, one value per first index; otherwise a scalar (the mean of the per-index means) |
| Tensors.ReduceMeanBounds | learning_to_learn/tensors.py:13-18 | every bound on the entries bounds the reduced metric |
| Tensors.ReduceMeanConstant | learning_to_learn/tensors.py:13-18 | a constant grid reduces to that constant, per index or overall |
| Tensors.MetricsReduceMeanAsWritten | learning_to_learn/tensors.py:13-18 | as written, without `keep_first_dim` the result agrees with the corrected reduction, the mean of the per-index means; with it, the input grid comes back unchanged |
| Tensors.ReduceMeanAsWrittenKeepsInput | learning_to_learn/tensors.py:16-18 | as written, `keep_first_dim=True` returns the input unreduced, never the per-index means |
| Tensors.ReduceMeanAsWrittenExample | learning_to_learn/tensors.py:16-18 | for the grid `[[1, 0]]`, the intended result is `[0.5]`, but the code returns `[[1, 0]]` |
| Tensors.ArgMax | learning_to_learn/tensors.py:57-58 | `argmax` is the first index of a largest element |
| Tensors.Hits | learning_to_learn/tensors.py:57-66 | each position is 1 exactly when the two argmaxes agree, and 0 exactly when they differ |
| Tensors.AccuracyTensor | learning_to_learn/tensors.py:55-67 | the hits, reduced: with `keep_first_dim`, one accuracy per first index, otherwise a single scalar |
| Tensors.AccuracyInUnitInterval | learning_to_learn/tensors.py:55-67 | accuracy lies in [0, 1] |
| Tensors.AccuracyPerfect | learning_to_learn/tensors.py:55-67 | accuracy is 1 (per exercise or overall) when every argmax agrees |
| Tensors.BpcTensor | learning_to_learn/tensors.py:50-52 | `bpc · ln 2 == loss`, element by element, with the same shape |
| Tensors.IdentityTensor | learning_to_learn/tensors.py:70-74 | more than one keyword argument is `InvalidArgumentError`; otherwise the only value is returned, or `None` when there is none |
| Tensors.ComputeMetrics | learning_to_learn/tensors.py:77-115 | the result's keys are exactly the requested names among the four. `bpc` comes from the explicit loss, otherwise from the loss of predictions and labels; when neither is available it is `InvalidArgumentError`. Every failure is the first one the code runs into |
| EmptyOptimizer.PyIndex | learning_to_learn/optimizers/empty.py:13 | a Python list index is valid exactly in `[-n, n)`, and a negative index counts from the end |
| EmptyOptimizer.ApplyInsertion | learning_to_learn/optimizers/empty.py:10-13 | a whole-key insertion sets the key. A list-index insertion replaces exactly that element and keeps the list length. It raises `KeyError`, `TypeError` or `IndexError` on a missing key, a value that is not a list, or an index out of range. Other keys are untouched |
| EmptyOptimizer.ApplyAll | learning_to_learn/optimizers/empty.py:8-14 | applying the insertions in order keeps every existing key and adds only keys that some insertion names; an error always names the key of an insertion with a list index |
| EmptyOptimizer.UntouchedKeys | learning_to_learn/optimizers/empty.py:8-14 | a key named by no insertion keeps its value, and no other key appears |
| EmptyOptimizer.LastWholeKeyInsertionWins | learning_to_learn/optimizers/empty.py:8-14 | when every insertion succeeds and a whole-key insertion is the last to name its key, the key holds its `paste` |
| EmptyOptimizer.LastListIndexInsertionWins | learning_to_learn/optimizers/empty.py:8-14 | when every insertion succeeds and a list-index insertion is the last to paste at its element (read with Python's index rules), that element holds its `paste` and the list keeps its length |
| EmptyOptimizer.WholeKeyInsertionsSucceed | learning_to_learn/optimizers/empty.py:10-11 | whole-key insertions never fail |
| EmptyOptimizer.ApplyAllStops | learning_to_learn/optimizers/empty.py:9-13 | insertions after a failing one are not applied |
| EmptyOptimizer.Empty.FormKwargs | learning_to_learn/optimizers/empty.py:7-14 | the dictionary is updated in place by the insertions in order; on an error, the insertions before it stay applied; the same dictionary is returned |
| EmptyOptimizer.Empty.BuildHooks | learning_to_learn/optimizers/empty.py:63-74 | the hook keys are the six defaults plus one per additional metric; `learning_rate` holds the learning-rate placeholder and every other hook is `None` |
| EmptyOptimizer.Empty.constructor | learning_to_learn/optimizers/empty.py:48-75 | `None` metrics and flags become empty lists; the fields and the hooks are set as above |
| EmptyOptimizer.Empty.Create | learning_to_learn/optimizers/empty.py:77-81 | construction fails with `NotImplementedError` exactly when the regime is not `'inference'` |
| EmptyOptimizer.Empty.CreateOptimizerStates | learning_to_learn/optimizers/empty.py:20-21 | the optimizer state is always the empty list |
| EmptyOptimizer.ScaleTensor | learning_to_learn/optimizers/empty.py:24-29 | every number is multiplied by the factor, and the shape is kept |
| EmptyOptimizer.ScaleSigmas | learning_to_learn/optimizers/empty.py:24-29 | only `sigma` is scaled: the layers, `o` and the permutations are unchanged |
| EmptyOptimizer.ScaleSigmasCompose | learning_to_learn/optimizers/empty.py:24-29 | scaling by a and then by b is scaling by b·a |
| EmptyOptimizer.ScaleSigmasByOne | learning_to_learn/optimizers/empty.py:24-29 | a learning rate of 1 changes nothing |
| EmptyOptimizer.Empty.OptimizerCore | learning_to_learn/optimizers/empty.py:23-30 | the record's `sigma`s are scaled in place by the learning rate |

## Left out

- TensorFlow graph plumbing is not modelled:
  - placeholders (beyond one token for the learning rate);
  - device strings (first_meta_opt.py:157-160);
  - the Adam/SGD optimizer objects (first_meta_opt.py:204-216);
  - `_train_graph`, `_inference_graph`, savers, `_add_standard_train_hooks` and `_make_inputs_and_labels_placeholders`;
  - the `ResNet4Lstm` hooks dictionary (first_meta_opt.py:165-174);
  - `get_default_hooks`.
- `tf.random_shuffle` is not modelled. The shuffles are inputs that must be permutations of `range(size)`; their distribution is not modelled.
- Scope and variable names are modelled only as the keys (scope, GPU) and (GPU, group). The full string name is modelled only to state the `get_collection` finding.
- The model runs one GPU's work after another. Parallel execution on several GPUs is not modelled.
- `_gpu_idx_borders` (first_meta_opt.py:184) is not part of this model; its source is not available.
- `_empty_core` and `_multiply_by_factor` are not part of this model; their sources are not available.
  - `EmptyOptimizer.ScaleSigmas` gives `_multiply_by_factor(ins, dict(sigma=lr))` a minimal meaning: scale every layer's `sigma`.
  - What `_empty_core` returns is not modelled.
- `block_diagonal` and `custom_matmul` are not part of this model; they are given the standard definitions.
- The call `self._create_optimizer_states(False)` in `__init__` (first_meta_opt.py:176) lacks two arguments and would raise a `TypeError`. The constructor model leaves it out.
- The output-layer loop (first_meta_opt.py:101-103) unpacks each tensor as a pair and indexes past the end of `output_layers`. Its wiring is not modelled: the `h_i` permutations are looked up but not attached.
- `ResNet4Lstm._optimizer_core` (first_meta_opt.py:137-140) is not modelled. It delegates to `_empty_core`, and its permutation calls are commented out.
- `_create_optimizer_trainable_vars` is not modelled; it does nothing.
- `FirstMetaOpt.ResNet4Lstm.ResetOptimizerStates`: line 25 reads `h.get_shape.as_list()`, without the call parentheses, which would raise an `AttributeError`. It is modelled as intended, like line 26. It is an instance method here, because the store is a field, although the source declares it static.
- FirstMetaOpt.ResNet4Lstm.ResetOptimizerStates and FirstMetaOpt.ResNet4Lstm.ResetPermutations change the store when they are called. The source only builds `tf.assign` and `tf.group` operations, which take effect when a session runs them. The model gives those operations' effect once run; when they run is not modelled.
- `FirstMetaOpt.ResNet4Lstm.CreateOptimizerStates` models `get_variable` under a non-reusing scope as get-or-create. TensorFlow would raise when the variable already exists.
- `FirstMetaOpt.ResNet4Lstm.CreatePermutationMatrices` models `get_variable` under `reuse=True` as get-or-create. TensorFlow would raise for a variable that does not exist yet.
- FirstMetaOpt.ResNet4Lstm.CreateOptimizerStates reads the zeros tensor passed to `get_variable` as the variable's initial value. As written, it is passed as the second positional argument, which is `shape`, so the call fails before any variable is made.
- FirstMetaOpt.ResNet4Lstm.CreatePermutationMatrices reads the stacked one-hot tensor passed to `get_variable` as the variable's initial value. As written, it is passed as the second positional argument, which is `shape`, so the call fails before any variable is made.
- FirstMetaOpt.ResNet4Lstm.ExtendWithPermutations requires at least one LSTM layer. With none, `lstm_layers[0]` and `lstm_layers[-1]` raise `IndexError`, which is not modelled.
- FirstMetaOpt.ResNet4Lstm.ForwardPermute requires every entry to carry an `in_perm` and an `out_perm` that its `o` and `sigma` conform to. A missing one raises `KeyError`, and a non-conforming tensor makes the product fail; neither error is modelled. After the wiring, the embedding layer has no `in_perm` and `output_layer_0` has no `out_perm`, so on such a record the source raises `KeyError` where the model has no case.
- FirstMetaOpt.ResNet4Lstm.BackwardPermute has the same requirement, with the same `KeyError` and shape errors left unmodelled.
- `FirstMetaOpt.ResNet4Lstm.constructor` requires at least one GPU in the `'train'` regime, because `num_exercises // 0` raises `ZeroDivisionError`.
- The code raises no error when there are fewer exercises than GPUs. The model follows the code: every exercise goes to the last GPU.
- `FirstMetaOpt.ResNet4Lstm.ExtendWithPermutations` requires the layer entries the code writes to (`lstm_layer_i`, `output_layer_0`) and an embedding size whenever the record has an embedding layer. The source fails with `KeyError` or `NameError` in those cases.
- `FirstMetaOpt.ResNet4Lstm.ExtendWithPermutations` also requires that one GPU's permutation variables cover the same number of exercises, which holds whenever they are created together.
- `loss_tensor` and `perplexity_tensor` are not modelled: `Tensors.Backend` passes them in as arbitrary functions. This leaves out their log and clip arithmetic.
- `log_and_sign` and `compute_metrics_raw_lbls` are not modelled.
- Floating point is not modelled: values are exact reals, and `ln 2` is the constant `0.6931471805599453`.
- Means of empty tensors (NaN in TensorFlow) are not modelled: grids, rows and class vectors must be non-empty.
- Metric tensors are modelled with all dimensions after the first flattened into one row. A rank-1 metric, which the source leaves unreduced over an empty axis list, is not modelled.
- `Tensors.ArgMax` breaks ties at the first index.
- `Tensors.ComputeMetrics` models a TensorFlow operation applied to `None` as the error `MissingOperand`.
- Tensors.ComputeMetrics requires predictions and labels, where given, to have matching first dimensions and position counts. The TensorFlow shape errors for mismatched tensors are not modelled.
- Tensors.ComputeMetrics uses the corrected reduction for `accuracy`. As written, `keep_first_dim=True` returns the unreduced hit grid there (see Findings).
- Tensors.AccuracyTensor uses the corrected reduction. As written, `keep_first_dim=True` returns the unreduced hit grid rather than one accuracy per first index (see Findings).
- `Tensors.ComputeMetrics` does not model the `print` before `InvalidArgumentError`.
- `choose_biggest` broadcasting a scalar against a tensor is not modelled: both arguments have the same length.
- `EmptyOptimizer.ApplyInsertion` treats item assignment on any value other than a list as `TypeError`. Assigning into a dictionary-valued hyperparameter is not modelled.
- Aliasing between nested lists in the keyword dictionary is not modelled.
- `check_kwargs` is not modelled; it does nothing.
- `EmptyOptimizer.Empty.Create` does not model the `print` before `NotImplementedError`.
- `Empty.__init__` attributes with no behaviour here are not modelled: `_normalizing`, `_inp_gradient_clipping` and `_debug_tensors`.
- The `pupil` argument of `Empty.__init__` is not modelled.

## Findings

| source | as written | input that shows it | evidently intended | confidence | as-written member | corrected member |
|---|---|---|---|---|---|---|
| learning_to_learn/tensors.py:16-18 | with `keep_first_dim=True`, `metrics_reduce_mean` computes the per-first-index means but returns its input unreduced | the grid `[[1, 0]]` is returned as `[[1, 0]]` instead of `[0.5]` | return the per-first-index means | not executed | Tensors.ReduceMeanAsWrittenKeepsInput | Tensors.MetricsReduceMean |
| first_meta_opt.py:42 | `tf.get_collection(..., scope='permutation_matrices_on_gpu_%s' % gpu_idx)` selects by name prefix | resetting GPU 1 also selects `permutation_matrices_on_gpu_10/c_0:0` | select only the variables of GPU `gpu_idx` | not executed | FirstMetaOpt.SelectedAsWrittenReachesGpuTen | FirstMetaOpt.ResNet4Lstm.ResetPermutations |
