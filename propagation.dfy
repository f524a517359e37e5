/**
  * Forward propagation as functions on the layer buffers: buffer 0 holds the
  * inputs, buffers 1..depth the node values of each hidden layer, buffer
  * depth + 1 the outputs. Each function says what the buffers hold after the
  * corresponding step of `CartesianGenomeFunc`, or which exception it raises.
  */
module Propagation {
  import opened Outcomes
  import opened Decoding
  import opened Layout
  import opened Basis

  /**
    * `_get_inputs_for_layer(l)`: the list its loop has built after `rd` passes
    * (`depth` = 0 .. rd - 1), each pass appending buffer l - depth when that
    * index is not negative.
    */
  function InputsForLayer<V>(bufs: seq<seq<V>>, l: nat, rd: nat): (w: seq<V>)
    requires l < |bufs|
    ensures 0 < rd ==> |bufs[l]| <= |w|
  {
    if rd == 0 then []
    else InputsForLayer(bufs, l, rd - 1) + (if rd - 1 <= l then bufs[l - (rd - 1)] else [])
  }

  /** |bufs[lo]| + ... + |bufs[hi - 1]|. */
  function SumLengths<V>(bufs: seq<seq<V>>, lo: nat, hi: nat): nat
    requires lo <= hi <= |bufs|
    decreases hi - lo
  {
    if lo == hi then 0 else |bufs[lo]| + SumLengths(bufs, lo + 1, hi)
  }

  /** The lowest layer the window of layer l reaches: max(0, l - rd + 1), or l + 1 (nothing) when rd == 0. */
  function LowestLayer(l: nat, rd: nat): nat
  {
    if rd > l then 0 else l + 1 - rd
  }

  /** The window of layer l starts with buffer l and continues with the window of layer l - 1, one layer shallower. */
  lemma {:induction false} InputsNewestFirst<V>(bufs: seq<seq<V>>, l: nat, rd: nat)
    requires l < |bufs| && rd >= 1
    ensures InputsForLayer(bufs, l, rd) == bufs[l] + (if l == 0 then [] else InputsForLayer(bufs, l - 1, rd - 1))
  {
    if rd == 1 {
      assert InputsForLayer(bufs, l, 0) == [];
      if l > 0 {
        assert InputsForLayer(bufs, l - 1, 0) == [];
      }
    } else {
      InputsNewestFirst(bufs, l, rd - 1);
      var tail := if rd - 1 <= l then bufs[l - (rd - 1)] else [];
      if l == 0 {
        assert tail == [];
      } else {
        assert InputsForLayer(bufs, l - 1, rd - 1) == InputsForLayer(bufs, l - 1, rd - 2) + tail;
      }
    }
  }

  /** The window of layer l is as long as buffers LowestLayer(l, rd) .. l together. */
  lemma {:induction false} InputsLength<V>(bufs: seq<seq<V>>, l: nat, rd: nat)
    requires l < |bufs|
    ensures |InputsForLayer(bufs, l, rd)| == SumLengths(bufs, LowestLayer(l, rd), l + 1)
  {
    if rd > 0 {
      InputsLength(bufs, l, rd - 1);
    }
  }

  /** The window of layer l never reads a buffer above l. */
  lemma {:induction false} InputsIgnoreHigherLayers<V>(bufs: seq<seq<V>>, bufs': seq<seq<V>>, l: nat, rd: nat)
    requires l < |bufs| && l < |bufs'|
    requires forall i :: 0 <= i <= l ==> bufs[i] == bufs'[i]
    ensures InputsForLayer(bufs, l, rd) == InputsForLayer(bufs', l, rd)
  {
    if rd > 0 {
      InputsIgnoreHigherLayers(bufs, bufs', l, rd - 1);
    }
  }

  /**
    * One node of `_propagate_calls`: decode its address codes against the
    * window, call its function with the first `arity` of them (a function
    * with more parameters than decoded values raises TypeError).
    */
  function EvalNode<V>(window: seq<V>, node: Node<V>): (r: Result<V>)
    ensures DecodeInputs(window, node.codes).Err? ==> r == Err(IndexError)
    ensures |node.codes| < node.fn.arity ==> r.Err?
  {
    var args :- DecodeInputs(window, node.codes);
    if |args| < node.fn.arity then Err(TypeError) else node.fn.apply(args[..node.fn.arity])
  }

  /** The values of a layer's nodes, computed left to right; the first node that raises stops it. */
  function EvalLayer<V>(window: seq<V>, nodes: seq<Node<V>>): (r: Result<seq<V>>)
    ensures r.Ok? ==> |r.value| == |nodes|
  {
    if nodes == [] then Ok([])
    else
      var prev :- EvalLayer(window, nodes[..|nodes| - 1]);
      var v :- EvalNode(window, nodes[|nodes| - 1]);
      Ok(prev + [v])
  }

  /** A layer evaluates exactly when every node does, and value i is node i's value. */
  lemma {:induction false} EvalLayerNodes<V>(window: seq<V>, nodes: seq<Node<V>>)
    ensures EvalLayer(window, nodes).Ok? <==> forall i :: 0 <= i < |nodes| ==> EvalNode(window, nodes[i]).Ok?
    ensures EvalLayer(window, nodes).Ok? ==>
              forall i :: 0 <= i < |nodes| ==> EvalNode(window, nodes[i]) == Ok(EvalLayer(window, nodes).value[i])
  {
    if nodes != [] {
      var front := nodes[..|nodes| - 1];
      EvalLayerNodes(window, front);
      assert forall i :: 0 <= i < |front| ==> front[i] == nodes[i];
    }
  }

  /** Once a prefix of the layer raises, the whole layer raises with that exception. */
  lemma {:induction false} EvalLayerFirstFailure<V>(window: seq<V>, nodes: seq<Node<V>>, k: nat)
    requires k <= |nodes| && EvalLayer(window, nodes[..k]).Err?
    ensures EvalLayer(window, nodes) == EvalLayer(window, nodes[..k])
    decreases |nodes| - k
  {
    if k < |nodes| {
      var front := nodes[..|nodes| - 1];
      assert front[..k] == nodes[..k];
      EvalLayerFirstFailure(window, front, k);
    } else {
      assert nodes[..k] == nodes;
    }
  }

  /**
    * The values of a layer's nodes before the first node that raises (all of
    * them when none raises): what the node loop has stored when it stops.
    */
  function EvaluatedPrefix<V>(window: seq<V>, nodes: seq<Node<V>>): (vals: seq<V>)
    ensures |vals| <= |nodes|
    ensures EvalLayer(window, nodes[..|vals|]) == Ok(vals)
    ensures |vals| < |nodes| ==> EvalNode(window, nodes[|vals|]).Err?
  {
    if nodes == [] then []
    else
      var front := nodes[..|nodes| - 1];
      var p := EvaluatedPrefix(window, front);
      assert front[..|p|] == nodes[..|p|];
      if |p| < |front| then
        assert front[|p|] == nodes[|p|];
        p
      else
        assert nodes[..|p|] == front;
        match EvalNode(window, nodes[|nodes| - 1])
        case Ok(v) =>
          assert nodes[..|p| + 1] == nodes;
          p + [v]
        case Err(_) => p
  }

  /** Every node inside a prefix that evaluates evaluates too. */
  lemma PrefixNodeEvaluates<V>(window: seq<V>, nodes: seq<Node<V>>, m: nat, j: nat)
    requires j < m <= |nodes| && EvalLayer(window, nodes[..m]).Ok?
    ensures EvalNode(window, nodes[j]).Ok?
  {
    EvalLayerNodes(window, nodes[..m]);
    assert nodes[..m][j] == nodes[j];
  }

  /**
    * The prefix is determined by the first failure: if nodes 0 .. k - 1
    * evaluate and node k raises (or k is the end), the prefix is their values.
    */
  lemma EvaluatedPrefixUnique<V>(window: seq<V>, nodes: seq<Node<V>>, k: nat)
    requires k <= |nodes| && EvalLayer(window, nodes[..k]).Ok?
    requires k < |nodes| ==> EvalNode(window, nodes[k]).Err?
    ensures EvaluatedPrefix(window, nodes) == EvalLayer(window, nodes[..k]).value
  {
    var p := EvaluatedPrefix(window, nodes);
    if |p| < k {
      PrefixNodeEvaluates(window, nodes, k, |p|);
      assert false;
    } else if k < |p| {
      PrefixNodeEvaluates(window, nodes, |p|, k);
      assert false;
    }
  }

  /** Writing `vals` into slots 0 .. |vals| - 1 of `buf`, slot by slot. */
  function Overwrite<V>(buf: seq<V>, vals: seq<V>): seq<V>
    requires |vals| <= |buf|
  {
    vals + buf[|vals|..]
  }

  /** Writing one more value into the next slot extends the overwrite by that value. */
  lemma OverwriteStep<V>(buf: seq<V>, vals: seq<V>, v: V)
    requires |vals| < |buf|
    ensures Overwrite(buf, vals)[|vals| := v] == Overwrite(buf, vals + [v])
  {
  }

  /** Two buffer lists with the same number of buffers, each of the same length. */
  ghost predicate SameShape<V>(a: seq<seq<V>>, b: seq<seq<V>>)
  {
    |a| == |b| && forall i :: 0 <= i < |a| ==> |a[i]| == |b[i]|
  }


  /** The buffer lengths `_init_layers` sets up for a shape. */
  ghost predicate BuffersFit<V>(s: Shape, bufs: seq<seq<V>>)
  {
    |bufs| == s.depth + 2 && |bufs[0]| == s.nInputs && |bufs[s.depth + 1]| == s.nOutputs &&
    forall l :: 1 <= l <= s.depth ==> |bufs[l]| == s.nRows
  }

  /** `_make_top_down_propagation`'s first loop: input i goes to slot i of buffer 0. */
  function LoadInputs<V>(bufs: seq<seq<V>>, inputs: seq<V>): (r: Result<seq<seq<V>>>)
    requires |bufs| > 0
    ensures r.Ok? ==> SameShape(r.value, bufs)
  {
    if |inputs| > |bufs[0]| then Err(IndexError) else Ok(bufs[0 := Overwrite(bufs[0], inputs)])
  }

  /** `_propagate_calls(l)`: evaluate the nodes of layer l against its window and write buffer l + 1. */
  function Step<V>(table: seq<seq<Node<V>>>, bufs: seq<seq<V>>, l: nat, rd: nat): (r: Result<seq<seq<V>>>)
    requires l + 1 < |bufs|
    ensures r.Ok? ==> SameShape(r.value, bufs)
  {
    if l >= |table| then Err(IndexError)
    else
      var vals :- EvalLayer(InputsForLayer(bufs, l, rd), table[l]);
      if |vals| > |bufs[l + 1]| then Err(IndexError)
      else Ok(bufs[l + 1 := Overwrite(bufs[l + 1], vals)])
  }

  /** The buffers after `_propagate_calls(l)`, ..., `_propagate_calls(k - 1)`, in that order, starting from `bufs`. */
  function Propagate<V>(table: seq<seq<Node<V>>>, bufs: seq<seq<V>>, l: nat, k: nat, rd: nat): (r: Result<seq<seq<V>>>)
    requires l <= k < |bufs|
    ensures r.Ok? ==> SameShape(r.value, bufs)
    decreases k - l
  {
    if l == k then Ok(bufs)
    else
      var b :- Step(table, bufs, l, rd);
      Propagate(table, b, l + 1, k, rd)
  }

  /**
    * `_propagate_outputs`: decode the genes `genome[-n_outputs:]` against the
    * window of layer `depth`, then write the selected values into the last
    * buffer slot by slot.
    */
  function Outputs<V>(s: Shape, genome: seq<real>, bufs: seq<seq<V>>): (r: Result<seq<seq<V>>>)
    requires |bufs| == s.depth + 2
    ensures r.Ok? ==> SameShape(r.value, bufs) && r.value[..s.depth + 1] == bufs[..s.depth + 1]
    ensures r.Err? ==> r.error == IndexError
  {
    var vals :- DecodeInputs(InputsForLayer(bufs, s.depth, s.recurseDepth), PySuffix(genome, s.nOutputs));
    if |vals| > |bufs[s.depth + 1]| then Err(IndexError)
    else Ok(bufs[s.depth + 1 := Overwrite(bufs[s.depth + 1], vals)])
  }

  /** `_make_top_down_propagation`: the buffers after loading the inputs, every hidden layer and the outputs. */
  function Run<V>(s: Shape, genome: seq<real>, table: seq<seq<Node<V>>>, bufs: seq<seq<V>>, inputs: seq<V>)
    : (r: Result<seq<seq<V>>>)
    requires |bufs| == s.depth + 2
    ensures r.Ok? ==> SameShape(r.value, bufs)
    ensures |inputs| > |bufs[0]| ==> r == Err(IndexError)
  {
    var b0 :- LoadInputs(bufs, inputs);
    var b1 :- Propagate(table, b0, 0, s.depth, s.recurseDepth);
    Outputs(s, genome, b1)
  }

  /** What `call` returns: a copy of the last buffer after propagation. */
  function CallResult<V>(s: Shape, genome: seq<real>, table: seq<seq<Node<V>>>, bufs: seq<seq<V>>, inputs: seq<V>)
    : (r: Result<seq<V>>)
    requires |bufs| == s.depth + 2
    ensures r.Ok? ==> |r.value| == |bufs[s.depth + 1]|
    ensures |inputs| > |bufs[0]| ==> r == Err(IndexError)
  {
    var b :- Run(s, genome, table, bufs, inputs);
    Ok(b[s.depth + 1])
  }

  /**
    * One propagation step writes buffer l + 1 only: slot i of it receives the
    * function of node i applied to the first (function arity) values its
    * codes decode, extra decoded values being dropped; slots beyond the
    * layer's nodes and every other buffer are unchanged. It succeeds exactly
    * when layer l exists in the table and every node of it evaluates.
    */
  lemma StepWritesOnlyNextLayer<V>(table: seq<seq<Node<V>>>, bufs: seq<seq<V>>, l: nat, rd: nat)
    requires l + 1 < |bufs|
    ensures Step(table, bufs, l, rd).Ok? <==>
              l < |table| && |table[l]| <= |bufs[l + 1]| && forall i :: 0 <= i < |table[l]| ==> EvalNode(InputsForLayer(bufs, l, rd), table[l][i]).Ok?
    ensures Step(table, bufs, l, rd).Ok? ==>
              var b', w := Step(table, bufs, l, rd).value, InputsForLayer(bufs, l, rd);
              |b'| == |bufs| && (forall j :: 0 <= j < |bufs| && j != l + 1 ==> b'[j] == bufs[j]) &&
              |b'[l + 1]| == |bufs[l + 1]| &&
              b'[l + 1][|table[l]|..] == bufs[l + 1][|table[l]|..] &&
              forall i :: 0 <= i < |table[l]| ==>
                var node := table[l][i];
                DecodeInputs(w, node.codes).Ok? && node.fn.arity <= |node.codes| &&
                node.fn.apply(DecodeInputs(w, node.codes).value[..node.fn.arity]) == Ok(b'[l + 1][i])
  {
    if l < |table| {
      var w := InputsForLayer(bufs, l, rd);
      var r := EvalLayer(w, table[l]);
      EvalLayerNodes(w, table[l]);
      if r.Ok? {
        forall i | 0 <= i < |table[l]|
          ensures DecodeInputs(w, table[l][i].codes).Ok? && table[l][i].fn.arity <= |table[l][i].codes|
        {
          assert EvalNode(w, table[l][i]).Ok?;
        }
      }
    }
  }

  /**
    * The output step, for a genome of the right length and at least one
    * output: output i is the window value that output gene i (gene i of
    * `genome[-n_outputs:]`) selects, and no other buffer changes; it succeeds
    * exactly when every output gene is below 1 and the window of layer
    * `depth` is not empty.
    */
  lemma OutputsSpec<V>(s: Shape, genome: seq<real>, bufs: seq<seq<V>>)
    requires ValidGenome(s, genome) && BuffersFit(s, bufs) && s.nOutputs > 0
    ensures |PySuffix(genome, s.nOutputs)| == s.nOutputs
    ensures var w, outs := InputsForLayer(bufs, s.depth, s.recurseDepth), PySuffix(genome, s.nOutputs);
            Outputs(s, genome, bufs).Ok? <==> |w| > 0 && forall i :: 0 <= i < |outs| ==> outs[i] < 1.0
    ensures var w, outs := InputsForLayer(bufs, s.depth, s.recurseDepth), PySuffix(genome, s.nOutputs);
            Outputs(s, genome, bufs).Ok? ==>
              var b' := Outputs(s, genome, bufs).value;
              |b'| == |bufs| && b'[..s.depth + 1] == bufs[..s.depth + 1] && |b'[s.depth + 1]| == s.nOutputs &&
              forall i :: 0 <= i < |outs| ==>
                0 <= DecodeIndex(outs[i], |w|) < |w| && b'[s.depth + 1][i] == w[DecodeIndex(outs[i], |w|)]
  {
    var w := InputsForLayer(bufs, s.depth, s.recurseDepth);
    OutputGenesAreTail(s, genome);
    var outs := PySuffix(genome, s.nOutputs);
    assert forall i :: 0 <= i < |outs| ==> 0.0 <= outs[i] <= 1.0 by {
      forall i | 0 <= i < |outs| ensures 0.0 <= outs[i] <= 1.0 {
        assert outs[i] == genome[|genome| - s.nOutputs + i];
      }
    }
    DecodeInputsSpec(w, outs);
  }

  /** Two outcomes that are the same exception, or both succeed with buffers 0 .. k equal. */
  ghost predicate AgreeUpTo<V>(r: Result<seq<seq<V>>>, r': Result<seq<seq<V>>>, k: nat)
  {
    (r.Err? ==> r == r') &&
    (r.Ok? ==> r'.Ok? && k < |r.value| && k < |r'.value| && forall i :: 0 <= i <= k ==> r.value[i] == r'.value[i])
  }

  /**
    * One step from two buffer lists that agree on buffers 0 .. l, for a
    * complete layer l: the same outcome, and the results agree on 0 .. l + 1.
    */
  lemma StepDeterminedByLowerLayers<V>(table: seq<seq<Node<V>>>, c: seq<seq<V>>, c': seq<seq<V>>, l: nat, rd: nat)
    requires l + 1 < |c| && SameShape(c, c')
    requires forall i :: 0 <= i <= l ==> c[i] == c'[i]
    requires l < |table| && |table[l]| == |c[l + 1]|
    ensures AgreeUpTo(Step(table, c, l, rd), Step(table, c', l, rd), l + 1)
  {
    InputsIgnoreHigherLayers(c, c', l, rd);
    var w := InputsForLayer(c, l, rd);
    var r := EvalLayer(w, table[l]);
    if r.Ok? {
      assert Overwrite(c[l + 1], r.value) == r.value == Overwrite(c'[l + 1], r.value);
    }
  }

  /** Propagating layers l .. k - 1 is one step, then layers l + 1 .. k - 1 from its result. */
  lemma PropagateFirstStep<V>(table: seq<seq<Node<V>>>, c: seq<seq<V>>, l: nat, k: nat, rd: nat)
    requires l < k < |c|
    ensures Step(table, c, l, rd).Err? ==> Propagate(table, c, l, k, rd) == Step(table, c, l, rd)
    ensures Step(table, c, l, rd).Ok? ==>
              Propagate(table, c, l, k, rd) == Propagate(table, Step(table, c, l, rd).value, l + 1, k, rd)
  {
  }

  /**
    * Starting from buffers that agree on buffers 0 .. l, with hidden layers
    * l .. k - 1 complete, propagating them gives the same outcome and
    * buffers 0 .. k agree.
    */
  lemma {:induction false} PropagateDeterminedByLowerLayers<V>(table: seq<seq<Node<V>>>, c: seq<seq<V>>, c': seq<seq<V>>,
                                                               l: nat, k: nat, rd: nat)
    requires l <= k < |c| && SameShape(c, c')
    requires forall i :: 0 <= i <= l ==> c[i] == c'[i]
    requires k <= |table| && forall j :: l <= j < k ==> |table[j]| == |c[j + 1]|
    ensures AgreeUpTo(Propagate(table, c, l, k, rd), Propagate(table, c', l, k, rd), k)
    decreases k - l
  {
    if l < k {
      StepDeterminedByLowerLayers(table, c, c', l, rd);
      PropagateFirstStep(table, c, l, k, rd);
      PropagateFirstStep(table, c', l, k, rd);
      var r, r' := Step(table, c, l, rd), Step(table, c', l, rd);
      if r.Ok? {
        PropagateDeterminedByLowerLayers(table, r.value, r'.value, l + 1, k, rd);
      }
    }
  }

  /**
    * The output step reads only buffers 0 .. depth, and for a genome of the
    * right length it overwrites the whole output buffer when it succeeds.
    */
  lemma OutputsDeterminedByLowerLayers<V>(s: Shape, genome: seq<real>, c: seq<seq<V>>, c': seq<seq<V>>)
    requires |c| == s.depth + 2 && SameShape(c, c') && |c[s.depth + 1]| == s.nOutputs
    requires forall i :: 0 <= i <= s.depth ==> c[i] == c'[i]
    requires |genome| == GenomeLength(s)
    ensures Outputs(s, genome, c) == Outputs(s, genome, c')
  {
    InputsIgnoreHigherLayers(c, c', s.depth, s.recurseDepth);
    var w := InputsForLayer(c, s.depth, s.recurseDepth);
    var outs := PySuffix(genome, s.nOutputs);
    var r := DecodeInputs(w, outs);
    if r.Ok? && |r.value| <= s.nOutputs {
      assert |outs| == s.nOutputs || s.nOutputs == 0;
      assert Overwrite(c[s.depth + 1], r.value) == r.value == Overwrite(c'[s.depth + 1], r.value);
      var o, o' := c[s.depth + 1 := r.value], c'[s.depth + 1 := r.value];
      assert forall j :: 0 <= j < |o| ==> o[j] == o'[j];
      assert o == o';
      assert Outputs(s, genome, c) == Ok(o) && Outputs(s, genome, c') == Ok(o');
    }
  }

  /** A successful call returns a list of exactly `n_outputs` values, whatever the inputs and the table. */
  lemma CallResultLength<V>(s: Shape, genome: seq<real>, table: seq<seq<Node<V>>>, bufs: seq<seq<V>>, inputs: seq<V>)
    requires BuffersFit(s, bufs)
    ensures CallResult(s, genome, table, bufs, inputs).Ok? ==> |CallResult(s, genome, table, bufs, inputs).value| == s.nOutputs
  {
    var b0 := LoadInputs(bufs, inputs);
    if b0.Ok? {
      var b1 := Propagate(table, b0.value, 0, s.depth, s.recurseDepth);
      if b1.Ok? {
        assert |b1.value[s.depth + 1]| == s.nOutputs;
      }
    }
  }

  /**
    * When the inputs fill buffer 0 and the table is complete, the outcome of
    * a call depends only on the genome, the table and the inputs: whatever
    * earlier calls left in the buffers is overwritten before it is read.
    */
  lemma RunIgnoresStaleBuffers<V>(s: Shape, genome: seq<real>, table: seq<seq<Node<V>>>,
                                  bufs: seq<seq<V>>, bufs': seq<seq<V>>, inputs: seq<V>)
    requires BuffersFit(s, bufs) && BuffersFit(s, bufs')
    requires |genome| == GenomeLength(s)
    requires |table| == s.depth && forall l :: 0 <= l < s.depth ==> |table[l]| == s.nRows
    requires |inputs| == s.nInputs
    ensures Run(s, genome, table, bufs, inputs) == Run(s, genome, table, bufs', inputs)
  {
    var b0, b0' := LoadInputs(bufs, inputs).value, LoadInputs(bufs', inputs).value;
    assert b0[0] == inputs == b0'[0];
    PropagateDeterminedByLowerLayers(table, b0, b0', 0, s.depth, s.recurseDepth);
    var h, h' := Propagate(table, b0, 0, s.depth, s.recurseDepth), Propagate(table, b0', 0, s.depth, s.recurseDepth);
    if h.Ok? {
      OutputsDeterminedByLowerLayers(s, genome, h.value, h'.value);
      assert Run(s, genome, table, bufs, inputs) == Outputs(s, genome, h.value);
      assert Run(s, genome, table, bufs', inputs) == Outputs(s, genome, h'.value);
    } else {
      assert Run(s, genome, table, bufs, inputs) == Err(h.error);
      assert Run(s, genome, table, bufs', inputs) == Err(h.error);
    }
  }

  /**
    * Before `set_genome` the table is empty and the genome is all 1s: a call
    * raises exactly when there is a hidden layer, an output, or more inputs
    * than input slots.
    */
  lemma CallBeforeSetGenome<V>(s: Shape, bufs: seq<seq<V>>, inputs: seq<V>)
    requires BuffersFit(s, bufs)
    ensures Run(s, seq(GenomeLength(s), _ => 1.0), [], bufs, inputs).Err? <==>
              s.depth > 0 || s.nOutputs > 0 || |inputs| > s.nInputs
  {
    var genome := seq(GenomeLength(s), _ => 1.0);
    if |inputs| <= s.nInputs && s.depth == 0 {
      var b0 := LoadInputs(bufs, inputs).value;
      var w := InputsForLayer(b0, 0, s.recurseDepth);
      var outs := PySuffix(genome, s.nOutputs);
      assert outs == genome;
      DecodeInputsSpec(w, outs);
      if s.nOutputs > 0 {
        assert outs[0] == 1.0;
      }
    }
  }

  /**
    * With no outputs but at least one node, `genome[-0:]` is the whole
    * genome, so the output step selects more values than the output buffer
    * holds (or fails to select them): every call raises.
    */
  lemma NoOutputsCallRaises<V>(s: Shape, genome: seq<real>, table: seq<seq<Node<V>>>, bufs: seq<seq<V>>, inputs: seq<V>)
    requires BuffersFit(s, bufs) && |genome| == GenomeLength(s)
    requires s.nOutputs == 0 && LayerGenes(s) * s.depth > 0
    ensures Run(s, genome, table, bufs, inputs).Err?
  {
    NoOutputsSuffixIsWholeGenome(s, genome);
  }
}
