/**
  * Two-parameter basis functions: three inputs, two layers of two nodes with
  * two address genes each, two outputs, recursion depth 1, and the genome
  * `[0.1, 0.9, 0.5, 0.8, 0.1, 0.1, 0.1, 0.1, 0.1, 0.1, 0.1, 0.1, 0.1, 0.1]`
  * decoded over a basis `[f0, f1]`:
  *   node (0, 0) is f0 on (input 2, input 1), node (0, 1) is f1 on (input 0, input 0),
  *   both nodes of layer 1 are f0 on (hidden 0, hidden 0), and both outputs read
  *   slot 0 of the last hidden layer.
  */
module ArityScenarios {
  import opened Outcomes
  import opened Decoding
  import opened Layout
  import opened Basis
  import opened Propagation
  import opened GenomeFunction
  import opened Scenarios

  // ---------------------------------------------------------------------
  // Decoding the genome, for any two basis functions.

  lemma TwoLayerPicksFirst<V>(f0: BasisFunc<V>, f1: BasisFunc<V>)
    ensures FunctionFromBasis([f0, f1], 0.1) == Ok(f0)
  {
  }

  lemma TwoLayerFirstCodes()
    ensures [0.1, 0.9, 0.5, 0.8, 0.1, 0.1, 0.1, 0.1, 0.1, 0.1, 0.1, 0.1, 0.1, 0.1][1..3] == [0.9, 0.5]
  {
  }

  /** Node (0, 0) only depends on the first three genes. */
  lemma FirstNodeDecodes<V>(f0: BasisFunc<V>, f1: BasisFunc<V>, genome: seq<real>)
    requires |genome| == 14 && genome[0] == 0.1 && genome[1..3] == [0.9, 0.5]
    ensures DecodeNode([f0, f1], Shape(3, 2, 2, 2, 1, 2), genome, 0, 0) == Ok(Node(f0, [0.9, 0.5]))
  {
    FirstBlockDecodes([f0, f1], Shape(3, 2, 2, 2, 1, 2), genome);
    TwoLayerPicksFirst(f0, f1);
  }

  lemma TwoLayerDecodes00<V>(f0: BasisFunc<V>, f1: BasisFunc<V>)
    ensures DecodeNode([f0, f1], Shape(3, 2, 2, 2, 1, 2), [0.1, 0.9, 0.5, 0.8, 0.1, 0.1, 0.1, 0.1, 0.1, 0.1, 0.1, 0.1, 0.1, 0.1], 0, 0) == Ok(Node(f0, [0.9, 0.5]))
  {
    TwoLayerFirstCodes();
    FirstNodeDecodes(f0, f1, [0.1, 0.9, 0.5, 0.8, 0.1, 0.1, 0.1, 0.1, 0.1, 0.1, 0.1, 0.1, 0.1, 0.1]);
  }

  lemma TwoLayerDecodes01<V>(f0: BasisFunc<V>, f1: BasisFunc<V>)
    ensures DecodeNode([f0, f1], Shape(3, 2, 2, 2, 1, 2), [0.1, 0.9, 0.5, 0.8, 0.1, 0.1, 0.1, 0.1, 0.1, 0.1, 0.1, 0.1, 0.1, 0.1], 0, 1) == Ok(Node(f1, [0.1, 0.1]))
  {
    assert [0.1, 0.9, 0.5, 0.8, 0.1, 0.1, 0.1, 0.1, 0.1, 0.1, 0.1, 0.1, 0.1, 0.1][3..6][1..] == [0.1, 0.1];
  }

  lemma TwoLayerDecodesUpper<V>(f0: BasisFunc<V>, f1: BasisFunc<V>)
    ensures DecodeNode([f0, f1], Shape(3, 2, 2, 2, 1, 2), [0.1, 0.9, 0.5, 0.8, 0.1, 0.1, 0.1, 0.1, 0.1, 0.1, 0.1, 0.1, 0.1, 0.1], 1, 0)
              == Ok(Node(f0, [0.1, 0.1]))
    ensures DecodeNode([f0, f1], Shape(3, 2, 2, 2, 1, 2), [0.1, 0.9, 0.5, 0.8, 0.1, 0.1, 0.1, 0.1, 0.1, 0.1, 0.1, 0.1, 0.1, 0.1], 1, 1)
              == Ok(Node(f0, [0.1, 0.1]))
  {
    assert [0.1, 0.9, 0.5, 0.8, 0.1, 0.1, 0.1, 0.1, 0.1, 0.1, 0.1, 0.1, 0.1, 0.1][6..9][1..] == [0.1, 0.1];
    assert [0.1, 0.9, 0.5, 0.8, 0.1, 0.1, 0.1, 0.1, 0.1, 0.1, 0.1, 0.1, 0.1, 0.1][9..12][1..] == [0.1, 0.1];
  }

  lemma TwoLayerTable<V>(f0: BasisFunc<V>, f1: BasisFunc<V>)
    ensures TableDecodes([f0, f1], Shape(3, 2, 2, 2, 1, 2), [0.1, 0.9, 0.5, 0.8, 0.1, 0.1, 0.1, 0.1, 0.1, 0.1, 0.1, 0.1, 0.1, 0.1])
  {
    TableDecodesBelowOne([f0, f1], Shape(3, 2, 2, 2, 1, 2), [0.1, 0.9, 0.5, 0.8, 0.1, 0.1, 0.1, 0.1, 0.1, 0.1, 0.1, 0.1, 0.1, 0.1]);
  }

  lemma TwoLayerOutputGenes()
    ensures PySuffix([0.1, 0.9, 0.5, 0.8, 0.1, 0.1, 0.1, 0.1, 0.1, 0.1, 0.1, 0.1, 0.1, 0.1], 2) == [0.1, 0.1]
  {
  }

  lemma TwoLayerNode00<V>(f0: BasisFunc<V>, f1: BasisFunc<V>, n: Node<V>)
    requires DecodeNode([f0, f1], Shape(3, 2, 2, 2, 1, 2), [0.1, 0.9, 0.5, 0.8, 0.1, 0.1, 0.1, 0.1, 0.1, 0.1, 0.1, 0.1, 0.1, 0.1], 0, 0) == Ok(n)
    ensures n == Node(f0, [0.9, 0.5])
  {
    TwoLayerDecodes00(f0, f1);
  }

  lemma TwoLayerNode01<V>(f0: BasisFunc<V>, f1: BasisFunc<V>, n: Node<V>)
    requires DecodeNode([f0, f1], Shape(3, 2, 2, 2, 1, 2), [0.1, 0.9, 0.5, 0.8, 0.1, 0.1, 0.1, 0.1, 0.1, 0.1, 0.1, 0.1, 0.1, 0.1], 0, 1) == Ok(n)
    ensures n == Node(f1, [0.1, 0.1])
  {
    TwoLayerDecodes01(f0, f1);
  }

  lemma TwoLayerNode10<V>(f0: BasisFunc<V>, f1: BasisFunc<V>, n: Node<V>)
    requires DecodeNode([f0, f1], Shape(3, 2, 2, 2, 1, 2), [0.1, 0.9, 0.5, 0.8, 0.1, 0.1, 0.1, 0.1, 0.1, 0.1, 0.1, 0.1, 0.1, 0.1], 1, 0) == Ok(n)
    ensures n == Node(f0, [0.1, 0.1])
  {
    TwoLayerDecodesUpper(f0, f1);
  }

  lemma TwoLayerNode11<V>(f0: BasisFunc<V>, f1: BasisFunc<V>, n: Node<V>)
    requires DecodeNode([f0, f1], Shape(3, 2, 2, 2, 1, 2), [0.1, 0.9, 0.5, 0.8, 0.1, 0.1, 0.1, 0.1, 0.1, 0.1, 0.1, 0.1, 0.1, 0.1], 1, 1) == Ok(n)
    ensures n == Node(f0, [0.1, 0.1])
  {
    TwoLayerDecodesUpper(f0, f1);
  }

  /** What a complete table for this genome holds, one entry at a time. */
  ghost predicate IsTwoLayerTable<V>(f0: BasisFunc<V>, f1: BasisFunc<V>, table: seq<seq<Node<V>>>)
  {
    |table| == 2 && |table[0]| == 2 && |table[1]| == 2 &&
    table[0][0] == Node(f0, [0.9, 0.5]) && table[0][1] == Node(f1, [0.1, 0.1]) &&
    table[1][0] == Node(f0, [0.1, 0.1]) && table[1][1] == Node(f0, [0.1, 0.1])
  }

  lemma TwoLayerEntry00<V>(f0: BasisFunc<V>, f1: BasisFunc<V>, table: seq<seq<Node<V>>>)
    requires IsFullTable([f0, f1], Shape(3, 2, 2, 2, 1, 2), [0.1, 0.9, 0.5, 0.8, 0.1, 0.1, 0.1, 0.1, 0.1, 0.1, 0.1, 0.1, 0.1, 0.1], table)
    ensures |table| == 2 && |table[0]| == 2 && table[0][0] == Node(f0, [0.9, 0.5])
  {
    FullTableEntry([f0, f1], Shape(3, 2, 2, 2, 1, 2), [0.1, 0.9, 0.5, 0.8, 0.1, 0.1, 0.1, 0.1, 0.1, 0.1, 0.1, 0.1, 0.1, 0.1], table, 0, 0);
    TwoLayerNode00(f0, f1, table[0][0]);
  }

  lemma TwoLayerEntry01<V>(f0: BasisFunc<V>, f1: BasisFunc<V>, table: seq<seq<Node<V>>>)
    requires IsFullTable([f0, f1], Shape(3, 2, 2, 2, 1, 2), [0.1, 0.9, 0.5, 0.8, 0.1, 0.1, 0.1, 0.1, 0.1, 0.1, 0.1, 0.1, 0.1, 0.1], table)
    ensures |table| == 2 && |table[0]| == 2 && table[0][1] == Node(f1, [0.1, 0.1])
  {
    FullTableEntry([f0, f1], Shape(3, 2, 2, 2, 1, 2), [0.1, 0.9, 0.5, 0.8, 0.1, 0.1, 0.1, 0.1, 0.1, 0.1, 0.1, 0.1, 0.1, 0.1], table, 0, 1);
    TwoLayerNode01(f0, f1, table[0][1]);
  }

  lemma TwoLayerEntries1<V>(f0: BasisFunc<V>, f1: BasisFunc<V>, table: seq<seq<Node<V>>>)
    requires IsFullTable([f0, f1], Shape(3, 2, 2, 2, 1, 2), [0.1, 0.9, 0.5, 0.8, 0.1, 0.1, 0.1, 0.1, 0.1, 0.1, 0.1, 0.1, 0.1, 0.1], table)
    ensures |table| == 2 && |table[1]| == 2 && table[1][0] == Node(f0, [0.1, 0.1]) && table[1][1] == Node(f0, [0.1, 0.1])
  {
    FullTableEntry([f0, f1], Shape(3, 2, 2, 2, 1, 2), [0.1, 0.9, 0.5, 0.8, 0.1, 0.1, 0.1, 0.1, 0.1, 0.1, 0.1, 0.1, 0.1, 0.1], table, 1, 0);
    TwoLayerNode10(f0, f1, table[1][0]);
    FullTableEntry([f0, f1], Shape(3, 2, 2, 2, 1, 2), [0.1, 0.9, 0.5, 0.8, 0.1, 0.1, 0.1, 0.1, 0.1, 0.1, 0.1, 0.1, 0.1, 0.1], table, 1, 1);
    TwoLayerNode11(f0, f1, table[1][1]);
  }

  /** The table `set_genome` builds for this genome over `[f0, f1]`. */
  lemma TwoLayerTableIs<V>(f0: BasisFunc<V>, f1: BasisFunc<V>, table: seq<seq<Node<V>>>)
    requires IsFullTable([f0, f1], Shape(3, 2, 2, 2, 1, 2), [0.1, 0.9, 0.5, 0.8, 0.1, 0.1, 0.1, 0.1, 0.1, 0.1, 0.1, 0.1, 0.1, 0.1], table)
    ensures IsTwoLayerTable(f0, f1, table)
  {
    TwoLayerEntry00(f0, f1, table);
    TwoLayerEntry01(f0, f1, table);
    TwoLayerEntries1(f0, f1, table);
  }

  /** `set_genome` with this genome on a function over `[f0, f1]` with this topology. */
  method SetTwoLayerGenome<V>(f: CartesianGenomeFunc<V>, f0: BasisFunc<V>, f1: BasisFunc<V>)
    requires f.Valid() && f.Geometry() == Shape(3, 2, 2, 2, 1, 2) && f.basisFuncs == [f0, f1]
    modifies f
    ensures f.Valid() && PySuffix(f.genome, 2) == [0.1, 0.1]
    ensures IsTwoLayerTable(f0, f1, f.layerFuncs)
  {
    TwoLayerTable(f0, f1);
    var status := f.SetGenome([0.1, 0.9, 0.5, 0.8, 0.1, 0.1, 0.1, 0.1, 0.1, 0.1, 0.1, 0.1, 0.1, 0.1]);
    TwoLayerTableIs(f0, f1, f.layerFuncs);
    TwoLayerOutputGenes();
  }

  // ---------------------------------------------------------------------
  // Propagation through the decoded table, for any two basis functions.

  /** Node (0, 0) applies its function to inputs 2 and 1. */
  lemma LowerNode0<V>(f: BasisFunc<V>, x: V, y: V, z: V)
    requires f.arity == 2
    ensures EvalNode([x, y, z], Node(f, [0.9, 0.5])) == f.apply([z, y])
  {
    DecodeInputsTo([x, y, z], [0.9, 0.5], [z, y]);
    assert [z, y][..2] == [z, y];
  }

  /** Node (0, 1) decodes input 0 twice and passes its function as many copies as it takes. */
  lemma LowerNode1<V>(f: BasisFunc<V>, x: V, y: V, z: V)
    requires f.arity <= 2
    ensures EvalNode([x, y, z], Node(f, [0.1, 0.1])) == f.apply([x, x][..f.arity])
  {
    DecodeInputsTo([x, y, z], [0.1, 0.1], [x, x]);
  }

  /** Two propagation steps, one per layer. */
  lemma PropagateTwoLayers<V>(table: seq<seq<Node<V>>>, bufs: seq<seq<V>>, rd: nat, b1: seq<seq<V>>, b2: seq<seq<V>>)
    requires |bufs| == 4
    requires Step(table, bufs, 0, rd) == Ok(b1) && Step(table, b1, 1, rd) == Ok(b2)
    ensures Propagate(table, bufs, 0, 2, rd) == Ok(b2)
  {
    assert |b1| == 4;
  }

  /** Layer 1 doubles hidden slot 0 into both of its slots, given `f0` adds its arguments. */
  lemma UpperLayer<V>(f0: BasisFunc<V>, f1: BasisFunc<V>, table: seq<seq<Node<V>>>, b1: seq<seq<V>>, u: V, v: V, w: V)
    requires IsTwoLayerTable(f0, f1, table)
    requires |b1| == 4 && b1[1] == [u, v] && |b1[2]| == 2
    requires f0.arity == 2 && f0.apply([u, u]) == Ok(w)
    ensures Step(table, b1, 1, 1) == Ok(b1[2 := [w, w]])
  {
    WindowDepthOne(b1, 1);
    DecodeInputsTo([u, v], [0.1, 0.1], [u, u]);
    assert [u, u][..2] == [u, u];
    EvalLayerTo([u, v], table[1], [w, w]);
    StepTo(table, b1, 1, 1, [w, w]);
  }

  /** Both outputs read slot 0 of the last hidden layer. */
  lemma TwoLayerOutputs<V>(genome: seq<real>, b2: seq<seq<V>>, w: V)
    requires PySuffix(genome, 2) == [0.1, 0.1]
    requires |b2| == 4 && b2[2] == [w, w] && |b2[3]| == 2
    ensures Outputs(Shape(3, 2, 2, 2, 1, 2), genome, b2) == Ok(b2[3 := [w, w]])
  {
    WindowDepthOne(b2, 2);
    DecodeInputsTo([w, w], [0.1, 0.1], [w, w]);
    OutputsTo(Shape(3, 2, 2, 2, 1, 2), genome, b2, [w, w]);
  }

  // ---------------------------------------------------------------------
  // Basis `[summ, div]` over reals, arity 2 given explicitly.

  /** `summ(x, y)`: `x + y`. */
  function AddReal(): BasisFunc<real>
  {
    BasisFunc(2, args => if |args| == 2 then Ok(args[0] + args[1]) else Err(TypeError))
  }

  /** `div(x, y)`: `x / y`, raising on a zero divisor. */
  function Divide(): BasisFunc<real>
  {
    BasisFunc(2, args =>
      if |args| != 2 then Err(TypeError)
      else if args[1] == 0.0 then Err(BasisFunctionError("division by zero"))
      else Ok(args[0] / args[1]))
  }

  /** Layer 0: node 0 adds inputs 2 and 1, node 1 divides input 0 by itself. */
  lemma DivideLowerLayer(table: seq<seq<Node<real>>>, b0: seq<seq<real>>, x: real, y: real, z: real)
    requires IsTwoLayerTable(AddReal(), Divide(), table)
    requires |b0| == 4 && b0[0] == [x, y, z] && |b0[1]| == 2 && x != 0.0
    ensures Step(table, b0, 0, 1) == Ok(b0[1 := [z + y, x / x]])
  {
    WindowDepthOne(b0, 0);
    LowerNode0(AddReal(), x, y, z);
    LowerNode1(Divide(), x, y, z);
    assert [x, x][..2] == [x, x];
    EvalLayerTo([x, y, z], table[0], [z + y, x / x]);
    StepTo(table, b0, 0, 1, [z + y, x / x]);
  }

  /** With input 0 equal to zero, node (0, 1) divides by zero and layer 0 raises. */
  lemma DivideByZero(table: seq<seq<Node<real>>>, b0: seq<seq<real>>, y: real, z: real)
    requires IsTwoLayerTable(AddReal(), Divide(), table)
    requires |b0| == 4 && b0[0] == [0.0, y, z] && |b0[1]| == 2
    ensures Propagate(table, b0, 0, 2, 1) == Err(BasisFunctionError("division by zero"))
  {
    var window := [0.0, y, z];
    WindowDepthOne(b0, 0);
    LowerNode0(AddReal(), 0.0, y, z);
    LowerNode1(Divide(), 0.0, y, z);
    assert [0.0, 0.0][..2] == [0.0, 0.0];
    EvalLayerTo(window, table[0][..1], [z + y]);
    assert table[0][..2 - 1] == table[0][..1];
    assert EvalNode(window, table[0][1]) == Err(BasisFunctionError("division by zero"));
    assert Step(table, b0, 0, 1) == Err(BasisFunctionError("division by zero"));
  }

  lemma DivideCall(genome: seq<real>, table: seq<seq<Node<real>>>, bufs: seq<seq<real>>, x: real, y: real, z: real)
    requires PySuffix(genome, 2) == [0.1, 0.1] && IsTwoLayerTable(AddReal(), Divide(), table)
    requires |bufs| == 4 && |bufs[0]| == 3 && |bufs[1]| == 2 && |bufs[2]| == 2 && |bufs[3]| == 2
    ensures x != 0.0 ==> CallResult(Shape(3, 2, 2, 2, 1, 2), genome, table, bufs, [x, y, z]) == Ok([2.0 * (y + z), 2.0 * (y + z)])
    ensures x == 0.0 ==> CallResult(Shape(3, 2, 2, 2, 1, 2), genome, table, bufs, [x, y, z]) == Err(BasisFunctionError("division by zero"))
  {
    LoadInputsTo(bufs, [x, y, z]);
    var b0 := bufs[0 := [x, y, z]];
    if x == 0.0 {
      DivideByZero(table, b0, y, z);
    } else {
      var w := 2.0 * (y + z);
      DivideLowerLayer(table, b0, x, y, z);
      assert AddReal().apply([z + y, z + y]) == Ok(w);
      UpperLayer(AddReal(), Divide(), table, b0[1 := [z + y, x / x]], z + y, x / x, w);
      PropagateTwoLayers(table, b0, 1, b0[1 := [z + y, x / x]], b0[1 := [z + y, x / x]][2 := [w, w]]);
      TwoLayerOutputs(genome, b0[1 := [z + y, x / x]][2 := [w, w]], w);
    }
  }

  /**
    * Basis `[summ, div]`, arity 2: the outputs are `2 * (y + z)` twice for
    * inputs `[x, y, z]`, and calling raises when `x` is zero.
    */
  method SumAndDivide(x: real, y: real, z: real) returns (out: Result<seq<real>>)
    ensures x != 0.0 ==> out == Ok([2.0 * (y + z), 2.0 * (y + z)])
    ensures x == 0.0 ==> out == Err(BasisFunctionError("division by zero"))
  {
    var f := new CartesianGenomeFunc(3, 2, 2, 2, [AddReal(), Divide()], 1, Some(2), 0.0);
    SetTwoLayerGenome(f, AddReal(), Divide());
    DivideCall(f.genome, f.layerFuncs, f.Buffers(), x, y, z);
    out := f.Call([x, y, z]);
  }

  // ---------------------------------------------------------------------
  // Basis `[summ, m_one]` over integers, arity inferred from the basis.

  /** `summ(x, y)`: `x + y`. */
  function AddInt(): BasisFunc<int>
  {
    BasisFunc(2, args => if |args| == 2 then Ok(args[0] + args[1]) else Err(TypeError))
  }

  /** `m_one(x)`: `x - 1`. */
  function MinusOne(): BasisFunc<int>
  {
    BasisFunc(1, args => if |args| == 1 then Ok(args[0] - 1) else Err(TypeError))
  }

  /** Layer 0: node 0 adds inputs 2 and 1; node 1 decodes two values but `m_one` takes only the first. */
  lemma MixedLowerLayer(table: seq<seq<Node<int>>>, b0: seq<seq<int>>, x: int, y: int, z: int)
    requires IsTwoLayerTable(AddInt(), MinusOne(), table)
    requires |b0| == 4 && b0[0] == [x, y, z] && |b0[1]| == 2
    ensures Step(table, b0, 0, 1) == Ok(b0[1 := [z + y, x - 1]])
  {
    WindowDepthOne(b0, 0);
    LowerNode0(AddInt(), x, y, z);
    LowerNode1(MinusOne(), x, y, z);
    assert [x, x][..1] == [x];
    EvalLayerTo([x, y, z], table[0], [z + y, x - 1]);
    StepTo(table, b0, 0, 1, [z + y, x - 1]);
  }

  lemma MixedCall(genome: seq<real>, table: seq<seq<Node<int>>>, bufs: seq<seq<int>>, x: int, y: int, z: int)
    requires PySuffix(genome, 2) == [0.1, 0.1] && IsTwoLayerTable(AddInt(), MinusOne(), table)
    requires |bufs| == 4 && |bufs[0]| == 3 && |bufs[1]| == 2 && |bufs[2]| == 2 && |bufs[3]| == 2
    ensures CallResult(Shape(3, 2, 2, 2, 1, 2), genome, table, bufs, [x, y, z]) == Ok([2 * (y + z), 2 * (y + z)])
  {
    LoadInputsTo(bufs, [x, y, z]);
    var b0 := bufs[0 := [x, y, z]];
    var w := 2 * (y + z);
    MixedLowerLayer(table, b0, x, y, z);
    assert AddInt().apply([z + y, z + y]) == Ok(w);
    UpperLayer(AddInt(), MinusOne(), table, b0[1 := [z + y, x - 1]], z + y, x - 1, w);
    PropagateTwoLayers(table, b0, 1, b0[1 := [z + y, x - 1]], b0[1 := [z + y, x - 1]][2 := [w, w]]);
    TwoLayerOutputs(genome, b0[1 := [z + y, x - 1]][2 := [w, w]], w);
  }

  /**
    * Basis `[summ, m_one]` with the arity left to the constructor: it is 2,
    * the larger parameter count, and the one-parameter node ignores its
    * second address gene; the outputs are `2 * (y + z)` twice.
    */
  method MixedArity(x: int, y: int, z: int) returns (out: Result<seq<int>>)
    ensures out == Ok([2 * (y + z), 2 * (y + z)])
  {
    var f := new CartesianGenomeFunc(3, 2, 2, 2, [AddInt(), MinusOne()], 1, None, 0);
    assert f.arity == 2 by {
      assert f.basisFuncs[0].arity == 2 && f.basisFuncs[1].arity == 1;
    }
    SetTwoLayerGenome(f, AddInt(), MinusOne());
    MixedCall(f.genome, f.layerFuncs, f.Buffers(), x, y, z);
    out := f.Call([x, y, z]);
  }
}
