/**
  * Concrete genomes from the repository's tests, driven through the class and proved:
  * construct, `set_genome`, `call`. The lemmas evaluate the decoding and the
  * propagation on the literal shape and genome; each method then drives an
  * object through the same steps and states the outputs the tests expect.
  */
module Scenarios {
  import opened Outcomes
  import opened Decoding
  import opened Layout
  import opened Basis
  import opened Propagation
  import opened GenomeFunction

  /** Decoding yields `vals` when code i selects vals[i]. */
  lemma DecodeInputsTo<V>(window: seq<V>, codes: seq<real>, vals: seq<V>)
    requires |vals| == |codes| && forall i :: 0 <= i < |codes| ==> SelectByGene(window, codes[i]) == Ok(vals[i])
    ensures DecodeInputs(window, codes) == Ok(vals)
  {
    DecodeInputsSelects(window, codes);
    assert DecodeInputs(window, codes).value == vals;
  }

  /** With recursion depth 1 a layer sees only the buffer below it. */
  lemma WindowDepthOne<V>(bufs: seq<seq<V>>, l: nat)
    requires l < |bufs|
    ensures InputsForLayer(bufs, l, 1) == bufs[l]
  {
    InputsNewestFirst(bufs, l, 1);
    assert bufs[l] + [] == bufs[l];
  }

  /** With recursion depth 2 a layer above the first sees the buffer below it, then the one below that. */
  lemma WindowDepthTwo<V>(bufs: seq<seq<V>>, l: nat)
    requires 0 < l < |bufs|
    ensures InputsForLayer(bufs, l, 2) == bufs[l] + bufs[l - 1]
  {
    assert InputsForLayer(bufs, l, 1) == [] + bufs[l] == bufs[l];
  }

  /** A layer yields `vals` when node i evaluates to vals[i]. */
  lemma EvalLayerTo<V>(window: seq<V>, nodes: seq<Node<V>>, vals: seq<V>)
    requires |vals| == |nodes| && forall i :: 0 <= i < |nodes| ==> EvalNode(window, nodes[i]) == Ok(vals[i])
    ensures EvalLayer(window, nodes) == Ok(vals)
  {
    EvalLayerNodes(window, nodes);
    assert EvalLayer(window, nodes).value == vals;
  }

  /** A step whose layer fills its whole buffer with `vals`. */
  lemma StepTo<V>(table: seq<seq<Node<V>>>, bufs: seq<seq<V>>, l: nat, rd: nat, vals: seq<V>)
    requires l + 1 < |bufs| && l < |table| && |vals| == |bufs[l + 1]|
    requires EvalLayer(InputsForLayer(bufs, l, rd), table[l]) == Ok(vals)
    ensures Step(table, bufs, l, rd) == Ok(bufs[l + 1 := vals])
  {
    assert Overwrite(bufs[l + 1], vals) == vals;
  }

  /** The output step when the selected values fill the whole output buffer. */
  lemma OutputsTo<V>(s: Shape, genome: seq<real>, bufs: seq<seq<V>>, vals: seq<V>)
    requires |bufs| == s.depth + 2 && |vals| == |bufs[s.depth + 1]|
    requires DecodeInputs(InputsForLayer(bufs, s.depth, s.recurseDepth), PySuffix(genome, s.nOutputs)) == Ok(vals)
    ensures Outputs(s, genome, bufs) == Ok(bufs[s.depth + 1 := vals])
  {
    assert Overwrite(bufs[s.depth + 1], vals) == vals;
  }

  /** Loading inputs that fill the input buffer. */
  lemma LoadInputsTo<V>(bufs: seq<seq<V>>, inputs: seq<V>)
    requires |bufs| > 0 && |inputs| == |bufs[0]|
    ensures LoadInputs(bufs, inputs) == Ok(bufs[0 := inputs])
  {
    assert Overwrite(bufs[0], inputs) == inputs;
  }

  /** The entry of a complete table at (l, r), and the table's dimensions. */
  lemma FullTableEntry<V>(basis: seq<BasisFunc<V>>, s: Shape, genome: seq<real>, table: seq<seq<Node<V>>>, l: nat, r: nat)
    requires |genome| == GenomeLength(s) && IsFullTable(basis, s, genome, table)
    requires l < s.depth && r < s.nRows
    ensures |table| == s.depth && |table[l]| == s.nRows
    ensures DecodeNode(basis, s, genome, l, r) == Ok(table[l][r])
  {
  }

  /** The first node of the first layer is decoded from the first `arity + 1` genes. */
  lemma FirstBlockDecodes<V>(basis: seq<BasisFunc<V>>, s: Shape, genome: seq<real>)
    requires |genome| == GenomeLength(s) && 0 < s.depth && 0 < s.nRows
    ensures s.arity + 1 <= |genome|
    ensures DecodeNode(basis, s, genome, 0, 0) ==
            match FunctionFromBasis(basis, genome[0])
            case Ok(fn) => Ok(Node(fn, genome[1..s.arity + 1]))
            case Err(e) => Err(e)
  {
    BlockInBounds(s, 0, 0);
  }

  /**
    * `set_genome(g)` then `get_genome()`: a genome `set_genome` accepts comes
    * back unchanged, a refused one leaves the previous genome in place; either
    * way the genome has the length the topology fixes.
    */
  method GenomeRoundTrip<V>(f: CartesianGenomeFunc<V>, g: seq<real>) returns (status: Outcome, got: seq<real>)
    requires f.Valid()
    modifies f
    ensures ValidGenome(f.Geometry(), g) ==> got == g
    ensures !ValidGenome(f.Geometry(), g) ==> status.Fail? && got == old(f.genome)
    ensures |got| == GenomeLength(f.Geometry())
  {
    status := f.SetGenome(g);
    got := f.GetGenome();
  }

  // ---------------------------------------------------------------------
  // Basis `[neg]`, one input, one node, one output.

  /** `neg(x)`: `not x`. */
  function Neg(): BasisFunc<bool>
  {
    BasisFunc(1, args => if |args| == 1 then Ok(!args[0]) else Err(TypeError))
  }

  lemma NegDecodes()
    ensures DecodeNode([Neg()], Shape(1, 1, 1, 1, 1, 1), [0.1, 0.1, 0.1], 0, 0) == Ok(Node(Neg(), [0.1]))
  {
    assert [0.1, 0.1, 0.1][0..2][1..] == [0.1];
  }

  lemma NegOutputGenes()
    ensures PySuffix([0.1, 0.1, 0.1], 1) == [0.1]
  {
  }

  lemma NegTable()
    ensures TableDecodes([Neg()], Shape(1, 1, 1, 1, 1, 1), [0.1, 0.1, 0.1])
  {
    TableDecodesBelowOne([Neg()], Shape(1, 1, 1, 1, 1, 1), [0.1, 0.1, 0.1]);
  }

  lemma NegNode(n: Node<bool>)
    requires DecodeNode([Neg()], Shape(1, 1, 1, 1, 1, 1), [0.1, 0.1, 0.1], 0, 0) == Ok(n)
    ensures n == Node(Neg(), [0.1])
  {
    NegDecodes();
  }

  /** The table `set_genome` builds for `[0.1, 0.1, 0.1]`: one `neg` node reading the input. */
  lemma NegTableIs(table: seq<seq<Node<bool>>>)
    requires IsFullTable([Neg()], Shape(1, 1, 1, 1, 1, 1), [0.1, 0.1, 0.1], table)
    ensures |table| == 1 && |table[0]| == 1 && table[0][0] == Node(Neg(), [0.1])
  {
    FullTableEntry([Neg()], Shape(1, 1, 1, 1, 1, 1), [0.1, 0.1, 0.1], table, 0, 0);
    NegNode(table[0][0]);
  }

  /** Layer 0 of the `[neg]` genome negates the input. */
  lemma NegPropagates(table: seq<seq<Node<bool>>>, b0: seq<seq<bool>>, x: bool)
    requires |table| == 1 && |table[0]| == 1 && table[0][0] == Node(Neg(), [0.1])
    requires |b0| == 3 && b0[0] == [x] && |b0[1]| == 1
    ensures Propagate(table, b0, 0, 1, 1) == Ok(b0[1 := [!x]])
  {
    WindowDepthOne(b0, 0);
    DecodeInputsTo([x], [0.1], [x]);
    EvalLayerTo([x], table[0], [!x]);
    StepTo(table, b0, 0, 1, [!x]);
  }

  /** The output gene of the `[neg]` genome selects the hidden value. */
  lemma NegOutputs(genome: seq<real>, b1: seq<seq<bool>>, y: bool)
    requires PySuffix(genome, 1) == [0.1]
    requires |b1| == 3 && b1[1] == [y] && |b1[2]| == 1
    ensures Outputs(Shape(1, 1, 1, 1, 1, 1), genome, b1) == Ok(b1[2 := [y]])
  {
    WindowDepthOne(b1, 1);
    DecodeInputsTo([y], [0.1], [y]);
    OutputsTo(Shape(1, 1, 1, 1, 1, 1), genome, b1, [y]);
  }

  lemma NegCall(genome: seq<real>, table: seq<seq<Node<bool>>>, bufs: seq<seq<bool>>, x: bool)
    requires PySuffix(genome, 1) == [0.1]
    requires |table| == 1 && |table[0]| == 1 && table[0][0] == Node(Neg(), [0.1])
    requires |bufs| == 3 && |bufs[0]| == 1 && |bufs[1]| == 1 && |bufs[2]| == 1
    ensures CallResult(Shape(1, 1, 1, 1, 1, 1), genome, table, bufs, [x]) == Ok([!x])
  {
    LoadInputsTo(bufs, [x]);
    NegPropagates(table, bufs[0 := [x]], x);
    NegOutputs(genome, bufs[0 := [x]][1 := [!x]], !x);
  }

  /** `set_genome([0.1, 0.1, 0.1])` on a one-input, one-node, one-output function over `[neg]`. */
  method SetNegGenome(f: CartesianGenomeFunc<bool>)
    requires f.Valid() && f.Geometry() == Shape(1, 1, 1, 1, 1, 1) && f.basisFuncs == [Neg()]
    modifies f
    ensures f.Valid() && PySuffix(f.genome, 1) == [0.1]
    ensures |f.layerFuncs| == 1 && |f.layerFuncs[0]| == 1 && f.layerFuncs[0][0] == Node(Neg(), [0.1])
  {
    NegTable();
    var status := f.SetGenome([0.1, 0.1, 0.1]);
    NegTableIs(f.layerFuncs);
    NegOutputGenes();
  }

  /**
    * Basis `[neg]`, genome `[0.1, 0.1, 0.1]`: the function negates its single
    * input.
    */
  method NegatesItsInput(x: bool) returns (out: Result<seq<bool>>)
    ensures out == Ok([!x])
  {
    var f := new CartesianGenomeFunc(1, 1, 1, 1, [Neg()], 1, Some(1), false);
    SetNegGenome(f);
    NegCall(f.genome, f.layerFuncs, f.Buffers(), x);
    out := f.Call([x]);
  }

  // ---------------------------------------------------------------------
  // Basis `[neg]`, two inputs, one layer of two nodes, two outputs, and a
  // recursion depth of 2: the outputs read the hidden layer and the inputs.

  lemma RecurseDecodes()
    ensures DecodeNode([Neg()], Shape(2, 2, 1, 2, 2, 1), [0.1, 0.9, 0.1, 0.1, 0.1, 0.7], 0, 0) == Ok(Node(Neg(), [0.9]))
    ensures DecodeNode([Neg()], Shape(2, 2, 1, 2, 2, 1), [0.1, 0.9, 0.1, 0.1, 0.1, 0.7], 0, 1) == Ok(Node(Neg(), [0.1]))
  {
    assert [0.1, 0.9, 0.1, 0.1, 0.1, 0.7][0..2][1..] == [0.9];
    assert [0.1, 0.9, 0.1, 0.1, 0.1, 0.7][2..4][1..] == [0.1];
  }

  lemma RecurseOutputGenes()
    ensures PySuffix([0.1, 0.9, 0.1, 0.1, 0.1, 0.7], 2) == [0.1, 0.7]
  {
  }

  lemma RecurseTable()
    ensures TableDecodes([Neg()], Shape(2, 2, 1, 2, 2, 1), [0.1, 0.9, 0.1, 0.1, 0.1, 0.7])
  {
    TableDecodesBelowOne([Neg()], Shape(2, 2, 1, 2, 2, 1), [0.1, 0.9, 0.1, 0.1, 0.1, 0.7]);
  }

  lemma RecurseEntry0(table: seq<seq<Node<bool>>>)
    requires IsFullTable([Neg()], Shape(2, 2, 1, 2, 2, 1), [0.1, 0.9, 0.1, 0.1, 0.1, 0.7], table)
    ensures |table| == 1 && |table[0]| == 2 && table[0][0] == Node(Neg(), [0.9])
  {
    FullTableEntry([Neg()], Shape(2, 2, 1, 2, 2, 1), [0.1, 0.9, 0.1, 0.1, 0.1, 0.7], table, 0, 0);
    RecurseNode0(table[0][0]);
  }

  lemma RecurseEntry1(table: seq<seq<Node<bool>>>)
    requires IsFullTable([Neg()], Shape(2, 2, 1, 2, 2, 1), [0.1, 0.9, 0.1, 0.1, 0.1, 0.7], table)
    ensures |table| == 1 && |table[0]| == 2 && table[0][1] == Node(Neg(), [0.1])
  {
    FullTableEntry([Neg()], Shape(2, 2, 1, 2, 2, 1), [0.1, 0.9, 0.1, 0.1, 0.1, 0.7], table, 0, 1);
    RecurseNode1(table[0][1]);
  }

  lemma RecurseNode0(n: Node<bool>)
    requires DecodeNode([Neg()], Shape(2, 2, 1, 2, 2, 1), [0.1, 0.9, 0.1, 0.1, 0.1, 0.7], 0, 0) == Ok(n)
    ensures n == Node(Neg(), [0.9])
  {
    RecurseDecodes();
  }

  lemma RecurseNode1(n: Node<bool>)
    requires DecodeNode([Neg()], Shape(2, 2, 1, 2, 2, 1), [0.1, 0.9, 0.1, 0.1, 0.1, 0.7], 0, 1) == Ok(n)
    ensures n == Node(Neg(), [0.1])
  {
    RecurseDecodes();
  }

  /** The table `set_genome` builds for `[0.1, 0.9, 0.1, 0.1, 0.1, 0.7]`: two `neg` nodes reading input 1 and input 0. */
  lemma RecurseTableIs(table: seq<seq<Node<bool>>>)
    requires IsFullTable([Neg()], Shape(2, 2, 1, 2, 2, 1), [0.1, 0.9, 0.1, 0.1, 0.1, 0.7], table)
    ensures |table| == 1 && |table[0]| == 2
    ensures table[0][0] == Node(Neg(), [0.9]) && table[0][1] == Node(Neg(), [0.1])
  {
    RecurseEntry0(table);
    RecurseEntry1(table);
  }

  /** The hidden layer holds the negated inputs, swapped. */
  lemma RecursePropagates(table: seq<seq<Node<bool>>>, b0: seq<seq<bool>>, a: bool, b: bool)
    requires |table| == 1 && |table[0]| == 2
    requires table[0][0] == Node(Neg(), [0.9]) && table[0][1] == Node(Neg(), [0.1])
    requires |b0| == 3 && b0[0] == [a, b] && |b0[1]| == 2
    ensures Propagate(table, b0, 0, 1, 2) == Ok(b0[1 := [!b, !a]])
  {
    InputsNewestFirst(b0, 0, 2);
    assert b0[0] + [] == [a, b];
    DecodeInputsTo([a, b], [0.9], [b]);
    DecodeInputsTo([a, b], [0.1], [a]);
    EvalLayerTo([a, b], table[0], [!b, !a]);
    StepTo(table, b0, 0, 2, [!b, !a]);
  }

  /** With recursion depth 2 the output window is the hidden layer followed by the inputs. */
  lemma RecurseOutputs(genome: seq<real>, b1: seq<seq<bool>>, a: bool, b: bool)
    requires PySuffix(genome, 2) == [0.1, 0.7]
    requires |b1| == 3 && b1[0] == [a, b] && b1[1] == [!b, !a] && |b1[2]| == 2
    ensures Outputs(Shape(2, 2, 1, 2, 2, 1), genome, b1) == Ok(b1[2 := [!b, a]])
  {
    WindowDepthTwo(b1, 1);
    assert b1[1] + b1[0] == [!b, !a, a, b];
    DecodeInputsTo([!b, !a, a, b], [0.1, 0.7], [!b, a]);
    OutputsTo(Shape(2, 2, 1, 2, 2, 1), genome, b1, [!b, a]);
  }

  lemma RecurseCall(genome: seq<real>, table: seq<seq<Node<bool>>>, bufs: seq<seq<bool>>, a: bool, b: bool)
    requires PySuffix(genome, 2) == [0.1, 0.7]
    requires |table| == 1 && |table[0]| == 2
    requires table[0][0] == Node(Neg(), [0.9]) && table[0][1] == Node(Neg(), [0.1])
    requires |bufs| == 3 && |bufs[0]| == 2 && |bufs[1]| == 2 && |bufs[2]| == 2
    ensures CallResult(Shape(2, 2, 1, 2, 2, 1), genome, table, bufs, [a, b]) == Ok([!b, a])
  {
    LoadInputsTo(bufs, [a, b]);
    RecursePropagates(table, bufs[0 := [a, b]], a, b);
    RecurseOutputs(genome, bufs[0 := [a, b]][1 := [!b, !a]], a, b);
  }

  /** `set_genome([0.1, 0.9, 0.1, 0.1, 0.1, 0.7])` on the two-input, two-node, two-output function over `[neg]`. */
  method SetRecurseGenome(f: CartesianGenomeFunc<bool>)
    requires f.Valid() && f.Geometry() == Shape(2, 2, 1, 2, 2, 1) && f.basisFuncs == [Neg()]
    modifies f
    ensures f.Valid() && PySuffix(f.genome, 2) == [0.1, 0.7]
    ensures |f.layerFuncs| == 1 && |f.layerFuncs[0]| == 2
    ensures f.layerFuncs[0][0] == Node(Neg(), [0.9]) && f.layerFuncs[0][1] == Node(Neg(), [0.1])
  {
    RecurseTable();
    var status := f.SetGenome([0.1, 0.9, 0.1, 0.1, 0.1, 0.7]);
    RecurseTableIs(f.layerFuncs);
    RecurseOutputGenes();
  }

  /**
    * Basis `[neg]`, recursion depth 2, genome `[0.1, 0.9, 0.1, 0.1, 0.1, 0.7]`:
    * the hidden layer is `[not b, not a]`; output 0 reads hidden slot 0 and
    * output 1 reads input 0 through the recursion window.
    */
  method RecursionReachesInputs(a: bool, b: bool) returns (out: Result<seq<bool>>)
    ensures out == Ok([!b, a])
  {
    var f := new CartesianGenomeFunc(2, 2, 1, 2, [Neg()], 2, Some(1), false);
    SetRecurseGenome(f);
    RecurseCall(f.genome, f.layerFuncs, f.Buffers(), a, b);
    out := f.Call([a, b]);
  }
}
