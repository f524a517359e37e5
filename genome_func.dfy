/**
  * `CartesianGenomeFunc`: a genome, the node table decoded from it, and the
  * `depth + 2` value buffers that a call propagates through.
  */
module GenomeFunction {
  import opened Outcomes
  import opened Decoding
  import opened Layout
  import opened Basis
  import opened Propagation

  class CartesianGenomeFunc<V> {
    const basisFuncs: seq<BasisFunc<V>>
    const arity: nat
    const nInputs: nat
    const nOutputs: nat
    const depth: nat
    const recurseDepth: nat
    const nRows: nat
    /** `_layers_calls`: the input buffer, `depth` hidden buffers, the output buffer. */
    const layersCalls: seq<array<V>>
    /** `_layer_funcs`: the decoded node table, layer by layer. */
    var layerFuncs: seq<seq<Node<V>>>
    /** `_genome`. */
    var genome: seq<real>

    /** The topology fixed at construction. */
    function Geometry(): Shape
    {
      Shape(nInputs, nOutputs, depth, nRows, recurseDepth, arity)
    }

    /** The buffers have the lengths `_init_layers` gave them, and each table layer fits its buffer. */
    ghost predicate BuffersShaped()
      reads this
    {
      |layersCalls| == depth + 2 &&
      layersCalls[0].Length == nInputs && layersCalls[depth + 1].Length == nOutputs &&
      (forall l :: 1 <= l <= depth ==> layersCalls[l].Length == nRows) &&
      (forall i, j :: 0 <= i < j < |layersCalls| ==> layersCalls[i] != layersCalls[j]) &&
      |layerFuncs| <= depth && (forall l :: 0 <= l < |layerFuncs| ==> |layerFuncs[l]| <= nRows)
    }

    /** The object invariant. */
    ghost predicate Valid()
      reads this
    {
      BuffersShaped() &&
      ValidGenome(Geometry(), genome) &&
      IsTablePrefix(basisFuncs, Geometry(), genome, layerFuncs)
    }

    /** The contents of the buffers. */
    function Buffers(): (bufs: seq<seq<V>>)
      reads layersCalls
      ensures |bufs| == |layersCalls|
      ensures forall i :: 0 <= i < |layersCalls| ==> bufs[i] == layersCalls[i][..]
    {
      seq(|layersCalls|, i reads layersCalls requires 0 <= i < |layersCalls| => layersCalls[i][..])
    }

    /**
      * `__init__`: the arity is the given one, or the largest in the basis;
      * the genome is all 1s of length `n_rows * (arity + 1) * depth + n_outputs`;
      * the node table is empty (it is built by `set_genome` only).
      */
    constructor(nInputs: nat, nOutputs: nat, depth: nat, nRows: nat, basisFuncs: seq<BasisFunc<V>>,
                recurseDepth: nat, arity: Option<nat>, blank: V)
      ensures Valid()
      ensures this.nInputs == nInputs && this.nOutputs == nOutputs && this.depth == depth
      ensures this.nRows == nRows && this.recurseDepth == recurseDepth && this.basisFuncs == basisFuncs
      ensures arity.Some? ==> this.arity == arity.value
      ensures arity.None? ==> forall i :: 0 <= i < |basisFuncs| ==> basisFuncs[i].arity <= this.arity
      ensures arity.None? ==> this.arity == 0 || exists i :: 0 <= i < |basisFuncs| && basisFuncs[i].arity == this.arity
      ensures |genome| == nRows * (this.arity + 1) * depth + nOutputs
      ensures forall i :: 0 <= i < |genome| ==> genome[i] == 1.0
      ensures layerFuncs == []
      ensures forall i :: 0 <= i < |layersCalls| ==> fresh(layersCalls[i])
      ensures forall i, j :: 0 <= i < |layersCalls| && 0 <= j < layersCalls[i].Length ==> layersCalls[i][j] == blank
    {
      this.basisFuncs := basisFuncs;
      var a := CartesianGenomeFunc.ResolveArity(basisFuncs, arity);
      this.arity := a;
      this.nInputs := nInputs;
      this.nOutputs := nOutputs;
      this.depth := depth;
      this.recurseDepth := recurseDepth;
      this.nRows := nRows;
      layerFuncs := [];
      var layers := CartesianGenomeFunc.InitLayers(nInputs, depth, nRows, nOutputs, blank);
      layersCalls := layers;
      genome := seq(nRows * (a + 1) * depth + nOutputs, _ => 1.0);
    }

    /** The arity given to `__init__`, or else the largest arity in the basis. */
    static method ResolveArity(basisFuncs: seq<BasisFunc<V>>, arity: Option<nat>) returns (a: nat)
      ensures arity.Some? ==> a == arity.value
      ensures arity.None? ==> forall i :: 0 <= i < |basisFuncs| ==> basisFuncs[i].arity <= a
      ensures arity.None? ==> a == 0 || exists i :: 0 <= i < |basisFuncs| && basisFuncs[i].arity == a
    {
      if arity.None? {
        a := CountMaxArity(basisFuncs);
      } else {
        a := arity.value;
      }
    }

    /** `_init_layers`: `n_inputs` slots, then `n_rows` slots per hidden layer, then `n_outputs` slots, all `blank`. */
    static method InitLayers(nInputs: nat, depth: nat, nRows: nat, nOutputs: nat, blank: V)
      returns (layers: seq<array<V>>)
      ensures |layers| == depth + 2
      ensures layers[0].Length == nInputs && layers[depth + 1].Length == nOutputs
      ensures forall l :: 1 <= l <= depth ==> layers[l].Length == nRows
      ensures forall i, j :: 0 <= i < j < |layers| ==> layers[i] != layers[j]
      ensures forall i :: 0 <= i < |layers| ==> fresh(layers[i])
      ensures forall i, j :: 0 <= i < |layers| && 0 <= j < layers[i].Length ==> layers[i][j] == blank
    {
      var inputLayer := new V[nInputs](_ => blank);
      layers := [inputLayer];
      for d := 0 to depth
        invariant |layers| == d + 1 && layers[0] == inputLayer
        invariant forall l :: 1 <= l <= d ==> layers[l].Length == nRows
        invariant forall i, j :: 0 <= i < j < |layers| ==> layers[i] != layers[j]
        invariant forall i :: 0 <= i < |layers| ==> fresh(layers[i])
        invariant forall i, j :: 0 <= i < |layers| && 0 <= j < layers[i].Length ==> layers[i][j] == blank
      {
        var hidden := new V[nRows](_ => blank);
        layers := layers + [hidden];
      }
      var outputLayer := new V[nOutputs](_ => blank);
      layers := layers + [outputLayer];
    }

    /** `get_genome`. */
    method GetGenome() returns (g: seq<real>)
      ensures g == genome
    {
      g := genome;
    }

    /**
      * `set_genome`: a genome of the wrong length or with a gene outside
      * [0, 1] is refused and nothing changes; otherwise it becomes the genome
      * (even if decoding it then raises) and the node table is rebuilt.
      */
    method SetGenome(newGenome: seq<real>) returns (status: Outcome)
      requires Valid()
      modifies this`genome, this`layerFuncs
      ensures Valid()
      ensures |newGenome| != GenomeLength(Geometry()) ==>
                status == Fail(GenomeLengthMismatch) && genome == old(genome) && layerFuncs == old(layerFuncs)
      ensures |newGenome| == GenomeLength(Geometry()) && !InUnitInterval(newGenome) ==>
                status == Fail(GeneOutOfRange) && genome == old(genome) && layerFuncs == old(layerFuncs)
      ensures ValidGenome(Geometry(), newGenome) ==> genome == newGenome
      ensures ValidGenome(Geometry(), newGenome) ==>
                (status == Pass <==> TableDecodes(basisFuncs, Geometry(), newGenome)) &&
                (status == Pass ==> IsFullTable(basisFuncs, Geometry(), genome, layerFuncs)) &&
                (status != Pass ==>
                   status == Fail(IndexError) && 0 < |layerFuncs| &&
                   |layerFuncs[|layerFuncs| - 1]| < nRows &&
                   DecodeNode(basisFuncs, Geometry(), genome, |layerFuncs| - 1, |layerFuncs[|layerFuncs| - 1]|).Err?)
    {
      if |newGenome| != nRows * (arity + 1) * depth + nOutputs {
        return Fail(GenomeLengthMismatch);
      }
      if !(forall i :: 0 <= i < |newGenome| ==> 0.0 <= newGenome[i] <= 1.0) {
        return Fail(GeneOutOfRange);
      }
      genome := newGenome;
      status := RecreateLayerFuncs();
    }

    /**
      * `_recreate_layer_funcs`: clear the table, then for each layer and each
      * row decode that node's block; the first function gene that selects no
      * basis function raises, leaving the table built so far.
      */
    method RecreateLayerFuncs() returns (status: Outcome)
      requires ValidGenome(Geometry(), genome)
      modifies this`layerFuncs
      ensures IsTablePrefix(basisFuncs, Geometry(), genome, layerFuncs)
      ensures status == Pass <==> TableDecodes(basisFuncs, Geometry(), genome)
      ensures status == Pass ==> IsFullTable(basisFuncs, Geometry(), genome, layerFuncs)
      ensures status != Pass ==>
                status == Fail(IndexError) && 0 < |layerFuncs| &&
                |layerFuncs[|layerFuncs| - 1]| < nRows &&
                DecodeNode(basisFuncs, Geometry(), genome, |layerFuncs| - 1, |layerFuncs[|layerFuncs| - 1]|).Err?
    {
      layerFuncs := [];
      for l := 0 to depth
        invariant |layerFuncs| == l
        invariant forall k :: 0 <= k < l ==> |layerFuncs[k]| == nRows
        invariant forall k, r :: 0 <= k < l && 0 <= r < nRows ==> DecodeNode(basisFuncs, Geometry(), genome, k, r) == Ok(layerFuncs[k][r])
      {
        layerFuncs := layerFuncs + [[]];
        status := DecodeLayer(l);
        if status != Pass {
          return;
        }
      }
      status := Pass;
    }

    /**
      * The row loop of `_recreate_layer_funcs` for layer l: append the entry
      * of each row in turn to the last table layer; the first function gene
      * that selects no basis function raises, leaving the rows decoded so far.
      */
    method DecodeLayer(l: nat) returns (status: Outcome)
      requires ValidGenome(Geometry(), genome) && l < depth
      requires |layerFuncs| == l + 1 && layerFuncs[l] == []
      modifies this`layerFuncs
      ensures |layerFuncs| == l + 1 && layerFuncs[..l] == old(layerFuncs[..l])
      ensures |layerFuncs[l]| <= nRows
      ensures forall r :: 0 <= r < |layerFuncs[l]| ==> DecodeNode(basisFuncs, Geometry(), genome, l, r) == Ok(layerFuncs[l][r])
      ensures status == Pass ==> |layerFuncs[l]| == nRows
      ensures status != Pass ==>
                status == Fail(IndexError) && |layerFuncs[l]| < nRows &&
                DecodeNode(basisFuncs, Geometry(), genome, l, |layerFuncs[l]|).Err?
    {
      var s := Geometry();
      var offset := l * (nRows * (arity + 1));
      for rowNum := 0 to nRows
        invariant |layerFuncs| == l + 1 && |layerFuncs[l]| == rowNum && layerFuncs[..l] == old(layerFuncs[..l])
        invariant forall r :: 0 <= r < rowNum ==> DecodeNode(basisFuncs, s, genome, l, r) == Ok(layerFuncs[l][r])
      {
        var funcIndexFrom := rowNum * (arity + 1);
        var funcIndexTo := (rowNum + 1) * (arity + 1);
        BlockInBounds(s, l, rowNum);
        BlockStartSplit(s, l, rowNum);
        assert offset + funcIndexFrom == BlockStart(s, l, rowNum);
        assert funcIndexTo == funcIndexFrom + arity + 1;
        var block := genome[offset + funcIndexFrom..offset + funcIndexTo];
        var decodedFunction := FunctionFromBasis(basisFuncs, block[0]);
        if decodedFunction.Err? {
          assert DecodeNode(basisFuncs, s, genome, l, rowNum).Err?;
          return Fail(decodedFunction.error);
        }
        layerFuncs := layerFuncs[l := layerFuncs[l] + [Node(decodedFunction.value, block[1..])]];
      }
      status := Pass;
    }

    /**
      * `init_random_genome`: `set_genome` of a genome drawn from [0, 1);
      * the draws are a parameter. Such a genome always decodes unless the
      * basis is empty and there are nodes.
      */
    method InitRandomGenome(draws: seq<real>) returns (status: Outcome)
      requires Valid()
      requires |draws| == |genome| && forall i :: 0 <= i < |draws| ==> 0.0 <= draws[i] < 1.0
      modifies this`genome, this`layerFuncs
      ensures Valid() && genome == draws
      ensures status == Pass <==> |basisFuncs| > 0 || depth == 0 || nRows == 0
      ensures status == Pass ==> IsFullTable(basisFuncs, Geometry(), genome, layerFuncs)
      ensures status != Pass ==> status == Fail(IndexError) && layerFuncs == [[]]
    {
      TableDecodesBelowOne(basisFuncs, Geometry(), draws);
      status := SetGenome(draws);
      if status != Pass {
        var s := Geometry();
        var last := |layerFuncs| - 1;
        DecodeNodeSpec(basisFuncs, s, genome, last, |layerFuncs[last]|);
        assert |basisFuncs| == 0;
        if last > 0 {
          DecodeNodeSpec(basisFuncs, s, genome, 0, 0);
          assert false;
        }
        if |layerFuncs[0]| > 0 {
          DecodeNodeSpec(basisFuncs, s, genome, 0, 0);
          assert false;
        }
      }
    }

    /**
      * `call`: propagate the inputs and return a copy of the output buffer,
      * or the exception propagation raised.
      */
    method Call(inputVals: seq<V>) returns (r: Result<seq<V>>)
      requires Valid()
      modifies layersCalls
      ensures Valid()
      ensures r == CallResult(Geometry(), genome, layerFuncs, old(Buffers()), inputVals)
      ensures r.Ok? ==> Buffers() == Run(Geometry(), genome, layerFuncs, old(Buffers()), inputVals).value
    {
      var st := MakeTopDownPropagation(inputVals);
      if st.Fail? {
        return Err(st.error);
      }
      r := Ok(layersCalls[depth + 1][..]);
    }

    /**
      * `_make_top_down_propagation`: load the inputs into buffer 0 slot by
      * slot, propagate layers 0 .. depth - 1 in order, then the outputs.
      */
    method MakeTopDownPropagation(inputs: seq<V>) returns (status: Outcome)
      requires Valid()
      modifies layersCalls
      ensures Valid()
      ensures status == Pass <==> Run(Geometry(), genome, layerFuncs, old(Buffers()), inputs).Ok?
      ensures status.Fail? ==> Run(Geometry(), genome, layerFuncs, old(Buffers()), inputs) == Err(status.error)
      ensures status == Pass ==> Buffers() == Run(Geometry(), genome, layerFuncs, old(Buffers()), inputs).value
    {
      ghost var start := Buffers();
      var loadStatus := WriteSlots(layersCalls[0], inputs);
      if loadStatus.Fail? {
        return loadStatus;
      }
      assert Buffers() == start[0 := Overwrite(start[0], inputs)];
      ghost var loaded := Buffers();
      assert LoadInputs(start, inputs) == Ok(loaded);
      status := PropagateHidden();
      if status == Pass {
        status := PropagateOutputs();
      }
    }

    /** The `for layer in range(depth)` loop of `_make_top_down_propagation`. */
    method PropagateHidden() returns (status: Outcome)
      requires BuffersShaped()
      modifies layersCalls
      ensures status == Pass <==> Propagate(layerFuncs, old(Buffers()), 0, depth, recurseDepth).Ok?
      ensures status.Fail? ==> Propagate(layerFuncs, old(Buffers()), 0, depth, recurseDepth) == Err(status.error)
      ensures status == Pass ==> Buffers() == Propagate(layerFuncs, old(Buffers()), 0, depth, recurseDepth).value
    {
      ghost var start := Buffers();
      for l := 0 to depth
        invariant Propagate(layerFuncs, start, 0, depth, recurseDepth) == Propagate(layerFuncs, Buffers(), l, depth, recurseDepth)
      {
        var st := PropagateCalls(l);
        if st.Fail? {
          return st;
        }
      }
      status := Pass;
    }

    /**
      * `_propagate_calls(to_layer)`: evaluate each node of layer l against the
      * window of layer l and write its value into slot i of buffer l + 1.
      */
    method PropagateCalls(l: nat) returns (status: Outcome)
      requires BuffersShaped() && l < depth
      modifies layersCalls[l + 1]
      ensures status == Pass <==> Step(layerFuncs, old(Buffers()), l, recurseDepth).Ok?
      ensures status.Fail? ==> Step(layerFuncs, old(Buffers()), l, recurseDepth) == Err(status.error)
      ensures status == Pass ==> Buffers() == Step(layerFuncs, old(Buffers()), l, recurseDepth).value
    {
      if l >= |layerFuncs| {
        return Fail(IndexError);
      }
      ghost var start := Buffers();
      var layerFunctionsWithEncodedInputs := layerFuncs[l];
      var layerTotalInputs := InputsForLayer(Buffers(), l, recurseDepth);
      var target := layersCalls[l + 1];
      status := EvalLayerInto(layerTotalInputs, layerFunctionsWithEncodedInputs, target);
      if status == Pass {
        OnlyBufferChanged(l + 1);
      }
    }

    /** When only buffer `t` was written, the other buffers keep their contents. */
    twostate lemma OnlyBufferChanged(t: nat)
      requires t < |layersCalls|
      requires forall j :: 0 <= j < |layersCalls| && j != t ==> unchanged(layersCalls[j])
      ensures Buffers() == old(Buffers())[t := layersCalls[t][..]]
    {
      forall j | 0 <= j < |layersCalls| && j != t
        ensures layersCalls[j][..] == old(layersCalls[j][..])
      {
      }
    }

    /**
      * `_propagate_outputs`: decode `genome[-n_outputs:]` against the window
      * of layer `depth`, then write the selected values into the output buffer.
      */
    method PropagateOutputs() returns (status: Outcome)
      requires BuffersShaped()
      modifies layersCalls[depth + 1]
      ensures status == Pass <==> Outputs(Geometry(), genome, old(Buffers())).Ok?
      ensures status.Fail? ==> Outputs(Geometry(), genome, old(Buffers())) == Err(status.error)
      ensures status == Pass ==> Buffers() == Outputs(Geometry(), genome, old(Buffers())).value
    {
      ghost var start := Buffers();
      var lastInputs := InputsForLayer(Buffers(), depth, recurseDepth);
      var currentGenome := GetGenome();
      var encodedOuts := PySuffix(currentGenome, nOutputs);
      var outValue := DecodeInputs(lastInputs, encodedOuts);
      if outValue.Err? {
        return Fail(outValue.error);
      }
      status := WriteSlots(layersCalls[depth + 1], outValue.value);
      if status == Pass {
        assert Buffers() == start[depth + 1 := layersCalls[depth + 1][..]];
      }
    }

    /**
      * The `for i, value in enumerate(values): buffer[i] = value` loops of
      * input loading and output writing: slots are written in order, and a
      * list longer than the buffer raises `IndexError` at the first slot past
      * its end.
      */
    static method WriteSlots(target: array<V>, vals: seq<V>) returns (status: Outcome)
      modifies target
      ensures status == Pass <==> |vals| <= target.Length
      ensures status != Pass ==> status == Fail(IndexError) && target[..] == vals[..target.Length]
      ensures status == Pass ==> target[..] == Overwrite(old(target[..]), vals)
    {
      for i := 0 to |vals|
        invariant i <= target.Length
        invariant forall k :: 0 <= k < i ==> target[k] == vals[k]
        invariant forall k :: i <= k < target.Length ==> target[k] == old(target[k])
      {
        if i >= target.Length {
          return Fail(IndexError);
        }
        target[i] := vals[i];
      }
      status := Pass;
    }

    /**
      * The node loop of `_propagate_calls`: node i is evaluated against the
      * window (`EvalNode`) and its value stored in slot i; the first exception
      * stops the loop.
      */
    static method EvalLayerInto(window: seq<V>, nodes: seq<Node<V>>, target: array<V>) returns (status: Outcome)
      requires |nodes| <= target.Length
      modifies target
      ensures status == Pass <==> EvalLayer(window, nodes).Ok?
      ensures status.Fail? ==> EvalLayer(window, nodes) == Err(status.error)
      ensures status == Pass ==> target[..] == Overwrite(old(target[..]), EvalLayer(window, nodes).value)
      ensures status.Fail? ==>
                var done := EvaluatedPrefix(window, nodes);
                |done| < |nodes| && EvalNode(window, nodes[|done|]) == Err(status.error) &&
                target[..] == Overwrite(old(target[..]), done)
    {
      ghost var before := target[..];
      ghost var written: seq<V> := [];
      for i := 0 to |nodes|
        invariant |written| == i
        invariant EvalLayer(window, nodes[..i]) == Ok(written)
        invariant target[..] == Overwrite(before, written)
      {
        assert nodes[..i + 1][..i] == nodes[..i];
        var value := EvalNode(window, nodes[i]);
        if value.Err? {
          EvalLayerFirstFailure(window, nodes, i + 1);
          EvaluatedPrefixUnique(window, nodes, i);
          return Fail(value.error);
        }
        OverwriteStep(before, written, value.value);
        target[i] := value.value;
        written := written + [value.value];
      }
      assert nodes[..|nodes|] == nodes;
      status := Pass;
    }
  }
}
