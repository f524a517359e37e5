# Cartesian genome function, modelled in Dafny

`CartesianGenomeFunc` is the evaluator of a Cartesian Genetic Programming
(CGP) library. Its topology is fixed when it is built: `n_inputs` inputs,
`depth` hidden layers of `n_rows` nodes, `n_outputs` outputs, a recursion
depth, and an arity. A genome is a flat list of genes in [0, 1]. It has
`n_rows * (arity + 1)` genes per layer: for each node, one function gene
and `arity` address genes. The last `n_outputs` genes are output
addresses. `set_genome` validates a genome and decodes it into a node
table. A gene `g` chooses element `floor(g * N)` of a list of `N`
alternatives. `call` loads the inputs into buffer 0, then evaluates each
hidden layer into the next buffer. A node of layer `l` reads a window
made of buffers `l, l - 1, ...`, newest first, as deep as the recursion
depth allows. Finally `call` decodes the output genes against the window
of layer `depth` and returns a copy of the output buffer.

The model has these modules:

- `Outcomes`: the exceptions the evaluator lets escape, with `Result`, `Outcome` and `Option`.
- `Decoding`: selecting by gene (`floor(g * N)` with Python list indexing), and decoding a list of address genes against a window.
- `Layout`: the genome's shape and length, where the block of node (l, r) starts, and Python's `genome[-n:]`.
- `Basis`: basis functions with a declared arity, finding the maximum arity, and decoding nodes and the node table.
- `Propagation`: the candidate window, and one propagation step, the hidden layers, the output step and a whole call, each as a function on the buffer contents.
- `GenomeFunction`: the class `CartesianGenomeFunc`.
  - Constant topology fields.
  - `genome` and `layerFuncs` fields that its methods reassign.
  - `layersCalls`, a sequence of arrays that propagation overwrites slot by slot.
  - Each method is proved against the matching `Propagation` or `Basis` function.
- `Scenarios` and `ArityScenarios`: the concrete genomes from the test suite, driven end to end through the class and proved.

In these edge cases the model follows the code:

- A gene equal to 1.0 is not clamped. It selects index `N`, which raises `IndexError`. This holds for function genes and address genes alike.
- `set_genome` refuses a genome by a failed `assert`. The model names the two reasons as `GenomeLengthMismatch` and `GeneOutOfRange`.
- A refused genome leaves the object unchanged. A genome that passes validation is stored before it is decoded: if decoding raises, the new genome stays, next to a partial node table.
- With `n_outputs == 0`, `genome[-0:]` is the whole genome, so a call with at least one node always raises (`NoOutputsCallRaises`).

Basis functions are values of `BasisFunc(arity, apply)`. `apply` returns `Ok(value)` or the exception the function raises, and that exception propagates unchanged. Values are of a generic type `V`. The `False` placeholder that fills fresh buffers is the constructor parameter `blank`.

## Model

| member | source | states |
|---|---|---|
| Decoding.SelectByGene | cartesian_genetics_base/cartesian_genome_func.py:212-213 | selecting by a gene raises only IndexError, and it can succeed only on a non-empty list |
| Decoding.DecodeIndexInRange | cartesian_genetics_base/cartesian_genome_func.py:168 | for a gene in [0, 1) and N > 0, floor(g * N) is a valid index in [0, N) |
| Decoding.DecodeIndexAtOne | cartesian_genetics_base/cartesian_genome_func.py:168-169 | the gene 1.0 selects index N, one past the last alternative |
| Decoding.SelectByGeneSpec | cartesian_genetics_base/cartesian_genome_func.py:167-169 | for a gene in [0, 1], selecting succeeds exactly when the gene is below 1 and the list is not empty, then yields the element at floor(g * N); otherwise it raises IndexError |
| Decoding.DecodeInputs | cartesian_genetics_base/cartesian_genome_func.py:212-213 | decoding yields one value per address gene, and the only exception it raises is IndexError |
| Decoding.DecodeInputsSelects | cartesian_genetics_base/cartesian_genome_func.py:212-213 | decoding succeeds exactly when every address gene selects, and value i is what gene i selects |
| Decoding.DecodeInputsSpec | cartesian_genetics_base/cartesian_genome_func.py:212-213 | for genes in [0, 1], decoding succeeds exactly when every gene is below 1 and the window is not empty (unless there are no genes); value i is the window element at floor(g_i * window length) |
| Layout.GenomeLength | cartesian_genetics_base/cartesian_genome_func.py:142 | the required genome length `n_rows * (arity + 1) * depth + n_outputs` is where the output genes start, right after the blocks of all `depth * n_rows` nodes, plus the n_outputs output genes |
| Layout.PySuffix | cartesian_genetics_base/cartesian_genome_func.py:196 | `xs[-n:]` has n elements when 0 < n < len(xs), and len(xs) elements otherwise |
| Layout.PySuffixIsSuffix | cartesian_genetics_base/cartesian_genome_func.py:196 | `xs[-n:]` is always the suffix of xs of that length: the last n elements when 0 < n < len(xs), and the whole list when n is 0 or at least len(xs) |
| Layout.BlockStartSplit | cartesian_genetics_base/cartesian_genome_func.py:153-161 | node (l, r) is block number `l * n_rows + r` of `arity + 1` genes, so its function gene sits at the layer offset `l * n_rows * (arity + 1)` plus the row offset `r * (arity + 1)` |
| Layout.BlockInBounds | cartesian_genetics_base/cartesian_genome_func.py:152-161 | the block of genes of every node (l, r) lies inside the node part of a genome of the required length |
| Layout.BlocksTileGenome | cartesian_genetics_base/cartesian_genome_func.py:152-161 | every gene index in the node part is gene j of exactly the node (l, r) given by division and remainder |
| Layout.BlocksDisjoint | cartesian_genetics_base/cartesian_genome_func.py:152-161 | two different node positions never share a gene |
| Layout.OutputGenesAreTail | cartesian_genetics_base/cartesian_genome_func.py:196 | for n_outputs > 0, `genome[-n_outputs:]` is the trailing block of n_outputs genes after all node blocks |
| Layout.NoOutputsSuffixIsWholeGenome | cartesian_genetics_base/cartesian_genome_func.py:196 | for n_outputs == 0, `genome[-n_outputs:]` is the whole genome |
| Basis.CountMaxArity | cartesian_genetics_base/cartesian_genome_func.py:88-95 | the result bounds the arity of every basis function and is the arity of one of them, or 0 for an empty basis |
| Basis.FunctionFromBasis | cartesian_genetics_base/cartesian_genome_func.py:167-169 | the selected function is one of the basis functions, and the only exception is IndexError |
| Basis.DecodeNode | cartesian_genetics_base/cartesian_genome_func.py:157-165 | a decoded node holds one of the basis functions and exactly `arity` address genes, and the only exception is IndexError |
| Basis.DecodeNodeSpec | cartesian_genetics_base/cartesian_genome_func.py:152-169 | node (l, r) takes its function gene at l * n_rows * (arity + 1) + r * (arity + 1) and its codes from the next arity genes; the function is the basis entry at floor(g * basis size); it decodes exactly when that gene is below 1 and the basis is not empty, and otherwise raises IndexError |
| Basis.TableDecodesSpec | cartesian_genetics_base/cartesian_genome_func.py:148-169 | a valid genome decodes completely exactly when there are no nodes, or the basis is not empty and no function gene equals 1.0 |
| Basis.TableDecodesBelowOne | cartesian_genetics_base/cartesian_genome_func.py:148-169 | a genome whose genes all lie in [0, 1) decodes completely unless the basis is empty and there are nodes |
| Propagation.InputsForLayer | cartesian_genetics_base/cartesian_genome_func.py:215-222 | with a recursion depth of at least 1, the window is at least as long as buffer l (its first part, as InputsNewestFirst states) |
| Propagation.InputsNewestFirst | cartesian_genetics_base/cartesian_genome_func.py:215-222 | the window of layer l is buffer l followed by the window of layer l - 1 one level shallower, so buffers come newest first |
| Propagation.InputsLength | cartesian_genetics_base/cartesian_genome_func.py:215-222 | the window's length is the sum of the lengths of buffers max(0, l - recurse_depth + 1) .. l |
| Propagation.InputsIgnoreHigherLayers | cartesian_genetics_base/cartesian_genome_func.py:215-222 | the window of layer l never depends on buffers above l |
| Propagation.EvalNode | cartesian_genetics_base/cartesian_genome_func.py:207-209 | a node whose address genes select nothing raises IndexError, and a function with more parameters than the node has address genes never returns a value |
| Propagation.EvalLayer | cartesian_genetics_base/cartesian_genome_func.py:206-210 | a layer that evaluates yields one value per node |
| Propagation.EvalLayerNodes | cartesian_genetics_base/cartesian_genome_func.py:206-210 | a layer evaluates exactly when each of its nodes does, and value i is node i's value |
| Propagation.EvalLayerFirstFailure | cartesian_genetics_base/cartesian_genome_func.py:206-210 | the first node that raises decides the layer's exception |
| Propagation.EvaluatedPrefix | cartesian_genetics_base/cartesian_genome_func.py:206-210 | the values the node loop has stored when it stops: the nodes before it all evaluate, to these values, and when it stops early the next node raises |
| Propagation.EvaluatedPrefixUnique | cartesian_genetics_base/cartesian_genome_func.py:206-210 | that prefix is fixed by the first failure: when nodes 0 .. k - 1 evaluate and node k raises (or k is the end), it is exactly their values |
| Propagation.LoadInputs | cartesian_genetics_base/cartesian_genome_func.py:184-185 | loading the inputs keeps the number and lengths of all buffers |
| Propagation.Step | cartesian_genetics_base/cartesian_genome_func.py:202-210 | a propagation step keeps the number and lengths of all buffers |
| Propagation.Propagate | cartesian_genetics_base/cartesian_genome_func.py:187-188 | propagating several layers keeps the number and lengths of all buffers |
| Propagation.Outputs | cartesian_genetics_base/cartesian_genome_func.py:194-200 | the output step keeps every buffer length, changes only the output buffer, and raises only IndexError |
| Propagation.Run | cartesian_genetics_base/cartesian_genome_func.py:183-192 | a run keeps every buffer length, and more inputs than input slots raise IndexError |
| Propagation.CallResult | cartesian_genetics_base/cartesian_genome_func.py:171-181 | a successful call returns as many values as the output buffer holds, and more inputs than input slots raise IndexError |
| Propagation.StepWritesOnlyNextLayer | cartesian_genetics_base/cartesian_genome_func.py:202-210 | step l changes only buffer l + 1; slot i receives node i's function applied to the first (function arity) decoded values; later slots are kept; it succeeds exactly when layer l exists, fits its buffer and every node evaluates |
| Propagation.OutputsSpec | cartesian_genetics_base/cartesian_genome_func.py:194-200 | output i is the value of the window of layer depth selected by output gene i, and no other buffer changes; the step succeeds exactly when the window is not empty and every output gene is below 1 |
| Propagation.StepDeterminedByLowerLayers | cartesian_genetics_base/cartesian_genome_func.py:202-210 | for a complete layer, a step from buffers that agree up to l gives the same outcome, and the results agree up to l + 1 |
| Propagation.PropagateFirstStep | cartesian_genetics_base/cartesian_genome_func.py:187-188 | propagating layers l .. k - 1 runs step l first, then the remaining layers from its result, and stops at its exception |
| Propagation.PropagateDeterminedByLowerLayers | cartesian_genetics_base/cartesian_genome_func.py:187-188 | with complete layers, propagation from buffers that agree up to l gives the same outcome, and the results agree up to k |
| Propagation.OutputsDeterminedByLowerLayers | cartesian_genetics_base/cartesian_genome_func.py:194-200 | the output step reads only buffers 0 .. depth and overwrites the whole output buffer |
| Propagation.CallResultLength | cartesian_genetics_base/cartesian_genome_func.py:171-181 | a successful call returns exactly n_outputs values |
| Propagation.RunIgnoresStaleBuffers | cartesian_genetics_base/cartesian_genome_func.py:171-200 | when there are exactly n_inputs inputs and the table is complete, a call's outcome depends only on the genome, the table and the inputs, not on what earlier calls left in the buffers |
| Propagation.CallBeforeSetGenome | cartesian_genetics_base/cartesian_genome_func.py:68-86 | before any `set_genome` (empty table, all-1 genome), a call raises exactly when there is a hidden layer, an output, or more inputs than input slots |
| Propagation.NoOutputsCallRaises | cartesian_genetics_base/cartesian_genome_func.py:194-200 | with no outputs and at least one node, every call raises |
| GenomeFunction.CartesianGenomeFunc.constructor | cartesian_genetics_base/cartesian_genome_func.py:43-86 | the arity is the given one or the basis maximum; the genome is n_rows * (arity + 1) * depth + n_outputs ones; the table is empty; the buffers are fresh and all blank |
| GenomeFunction.CartesianGenomeFunc.ResolveArity | cartesian_genetics_base/cartesian_genome_func.py:68-71 | an explicit arity is kept; otherwise the result bounds every basis arity and is attained, or 0 |
| GenomeFunction.CartesianGenomeFunc.InitLayers | cartesian_genetics_base/cartesian_genome_func.py:110-116 | depth + 2 distinct fresh buffers of n_inputs, n_rows (depth times) and n_outputs slots, all blank |
| GenomeFunction.CartesianGenomeFunc.GetGenome | cartesian_genetics_base/cartesian_genome_func.py:118-124 | returns the current genome |
| GenomeFunction.CartesianGenomeFunc.SetGenome | cartesian_genetics_base/cartesian_genome_func.py:133-146 | a wrong length or a gene outside [0, 1] is refused with nothing changed; otherwise the genome is stored and the table rebuilt, succeeding exactly when every node decodes; otherwise it raises IndexError and the table holds the complete layers and the rows decoded before the first node that does not decode |
| GenomeFunction.CartesianGenomeFunc.RecreateLayerFuncs | cartesian_genetics_base/cartesian_genome_func.py:148-165 | the table is rebuilt in row-major order; it succeeds exactly when every node decodes, and then holds depth layers of n_rows decoded entries; on failure it holds the entries decoded so far |
| GenomeFunction.CartesianGenomeFunc.DecodeLayer | cartesian_genetics_base/cartesian_genome_func.py:155-165 | the row loop appends the decoded entry of each row of layer l and stops at the first row whose function gene selects nothing, earlier layers unchanged |
| GenomeFunction.CartesianGenomeFunc.InitRandomGenome | cartesian_genetics_base/cartesian_genome_func.py:224-230 | a drawn genome with genes in [0, 1) becomes the genome; it decodes exactly when the basis is not empty or there are no nodes, and otherwise raises IndexError at node (0, 0), leaving a table with one empty layer |
| GenomeFunction.CartesianGenomeFunc.Call | cartesian_genetics_base/cartesian_genome_func.py:171-181 | the result is `CallResult` of the genome, table and buffers before the call, and on success the buffers hold the full run's result |
| GenomeFunction.CartesianGenomeFunc.MakeTopDownPropagation | cartesian_genetics_base/cartesian_genome_func.py:183-192 | loading, the hidden layers and the outputs succeed exactly when `Run` does, raise its exception otherwise, and leave its buffers |
| GenomeFunction.CartesianGenomeFunc.PropagateHidden | cartesian_genetics_base/cartesian_genome_func.py:187-188 | the layer loop ends with the buffers `Propagate` computes, or raises its exception |
| GenomeFunction.CartesianGenomeFunc.PropagateCalls | cartesian_genetics_base/cartesian_genome_func.py:202-210 | one layer's node loop ends with the buffers `Step` computes, or raises its exception |
| GenomeFunction.CartesianGenomeFunc.PropagateOutputs | cartesian_genetics_base/cartesian_genome_func.py:194-200 | the output step ends with the buffers `Outputs` computes, or raises its exception |
| GenomeFunction.CartesianGenomeFunc.WriteSlots | cartesian_genetics_base/cartesian_genome_func.py:184-185 | values are written to slots 0, 1, ... in order; a list longer than the buffer raises IndexError after filling every slot with the first values |
| GenomeFunction.CartesianGenomeFunc.EvalLayerInto | cartesian_genetics_base/cartesian_genome_func.py:206-210 | the node loop stores node i's value in slot i and stops at the first exception, which is the layer's exception; the slots before the failing node then hold `EvaluatedPrefix` and the rest are unchanged |
| Scenarios.GenomeRoundTrip | test_cartesian_genome_func.py:110-115 | after `set_genome(g)`, `get_genome()` returns g when g is accepted and the previous genome when it is refused, always of the required length |
| Scenarios.NegatesItsInput | test_cartesian_genome_func.py:117-181 | basis `[neg]`, genome `[0.1, 0.1, 0.1]`: the call maps `[x]` to `[not x]` |
| Scenarios.RecursionReachesInputs | test_cartesian_genome_func.py:280-310 | recursion depth 2, genome `[0.1, 0.9, 0.1, 0.1, 0.1, 0.7]`: the call maps `[a, b]` to `[not b, a]`, so `[False, True]` gives `[False, False]` |
| ArityScenarios.SetTwoLayerGenome | test_cartesian_genome_func.py:407-409 | the 14-gene genome decodes into node (0, 0) = f0 on genes (0.9, 0.5), node (0, 1) = f1 on (0.1, 0.1), and both nodes of layer 1 = f0 on (0.1, 0.1) |
| ArityScenarios.SumAndDivide | test_cartesian_genome_func.py:379-414 | basis `[summ, div]`: `[x, y, z]` gives `[2 (y + z), 2 (y + z)]` when x is not zero, so `[1, 2, 10]` gives `[24, 24]`; when x is zero the division raises and the call raises that exception |
| ArityScenarios.DivideByZero | cartesian_genetics_base/cartesian_genome_func.py:209 | for the test's table `[summ, div]`, the exception raised by the division node stops the layer and escapes unchanged |
| ArityScenarios.MixedLowerLayer | cartesian_genetics_base/cartesian_genome_func.py:207-209 | for the test's table `[summ, m_one]`, the one-parameter node with two address genes is passed only its first decoded value |
| ArityScenarios.MixedArity | test_cartesian_genome_func.py:416-449 | basis `[summ, m_one]` with the arity inferred as 2: `[x, y, z]` gives `[2 (y + z), 2 (y + z)]` |

## Left out

- The genetic optimizer and the estimator wrapper (`CartGenModel` in `cartgen.py`) are not part of this model. They are empty stubs with no behaviour to compare against.
- Randomness: the seed argument and `random.seed` are left out. `init_random_genome` takes its draws as a parameter (`InitRandomGenome`).
- `set_basis` is not modelled. It calls `_count_and_set_max_arity_on_basis` without its argument, so it always raises `TypeError` before changing anything but the basis.
- `get_int_genome` is an empty stub and is not modelled.
- `inspect.signature`: each basis function carries a declared arity instead. Functions with default or variadic parameters are not modelled.
- Floating point: genes are exact reals and decoding is `floor(g * N)` on reals. IEEE-754 rounding of `g * N` is not modelled.
- Aliasing: `set_genome` keeps the caller's list and `get_genome` hands it back without a copy. The model's genomes are values, so later mutation of that list by the caller is not captured.
- GenomeFunction.CartesianGenomeFunc.Call: on an exception, the contract does not say which buffer slots were already overwritten. It states only the exception and that the object stays valid.
- GenomeFunction.CartesianGenomeFunc.MakeTopDownPropagation: on an exception, the contract does not say which buffer slots were already overwritten. It states only the exception and that the object stays valid.
- GenomeFunction.CartesianGenomeFunc.PropagateHidden: on an exception, the contract does not say which buffer slots were already overwritten. It states only the exception and that the object stays valid.
- GenomeFunction.CartesianGenomeFunc.PropagateCalls: on an exception, the contract does not say which buffer slots were already overwritten. It states only the exception and that the object stays valid.
- GenomeFunction.CartesianGenomeFunc.PropagateOutputs: on an exception, the contract does not say which buffer slots were already overwritten. It states only the exception and that the object stays valid.
- Constructor defaults: `recurse_depth=1` is not a default in the model; every caller passes the recursion depth. The `None` defaults are not modelled. Leaving out `n_inputs`, `n_outputs`, `depth` or `n_rows` makes `__init__` raise `TypeError` (`[False,] * None` or `range(None)` in `_init_layers`, or `[1,] * None` for the genome). Leaving out `basis_funcs` makes `__init__` raise `TypeError` only when the arity is inferred (iterating `None`); with an explicit arity the object is built, and `set_genome` then raises `TypeError` at `len(None)` on the first node, while an object without nodes works normally. That case is not modelled, because the model's basis is always a sequence. Negative sizes, which Python accepts and turns into empty lists, are excluded by the model's `nat` parameters.
- Optimised Python (`python -O`) is not modelled. The validation in `set_genome` is a bare `assert`, which `-O` removes; in that mode any genome is stored and decoded, while `SetGenome` always validates.
- The list `_make_top_down_propagation` returns is ignored by `call`. `MakeTopDownPropagation` returns only its outcome.
- The remaining test vectors are not modelled as end-to-end scenarios. These are test_calculate_genome_simple3 to simple7 and the length checks of the first three tests. The length checks follow from the constructor's contract.
