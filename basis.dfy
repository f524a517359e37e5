/**
  * Basis functions and the node table a genome decodes into.
  */
module Basis {
  import opened Outcomes
  import opened Decoding
  import opened Layout

  /**
    * A basis function with its declared parameter count; it takes exactly
    * `arity` arguments and may itself raise.
    */
  datatype BasisFunc<!V> = BasisFunc(arity: nat, apply: seq<V> -> Result<V>)

  /** One decoded node: its basis function and its `arity` address genes. */
  datatype Node<!V> = Node(fn: BasisFunc<V>, codes: seq<real>)

  /** `_count_and_set_max_arity_on_basis`: the largest parameter count in the basis, 0 if it is empty. */
  method CountMaxArity<V>(basis: seq<BasisFunc<V>>) returns (maxArity: nat)
    ensures forall i :: 0 <= i < |basis| ==> basis[i].arity <= maxArity
    ensures maxArity == 0 || exists i :: 0 <= i < |basis| && basis[i].arity == maxArity
  {
    maxArity := 0;
    for i := 0 to |basis|
      invariant forall j :: 0 <= j < i ==> basis[j].arity <= maxArity
      invariant maxArity == 0 || exists j :: 0 <= j < i && basis[j].arity == maxArity
    {
      if basis[i].arity > maxArity {
        maxArity := basis[i].arity;
      }
    }
  }

  /** `_get_function_from_basis`: the basis function a function gene selects. */
  function FunctionFromBasis<V>(basis: seq<BasisFunc<V>>, g: real): (r: Result<BasisFunc<V>>)
    ensures r.Ok? ==> r.value in basis
    ensures r.Err? ==> r.error == IndexError
  {
    SelectByGene(basis, g)
  }

  /**
    * The entry `_recreate_layer_funcs` builds for node (l, r): the block of
    * `arity + 1` genes starting at BlockStart(l, r), its first gene decoded
    * as a basis function and the rest kept as address codes.
    */
  function DecodeNode<V>(basis: seq<BasisFunc<V>>, s: Shape, genome: seq<real>, l: nat, r: nat): (n: Result<Node<V>>)
    requires |genome| == GenomeLength(s) && l < s.depth && r < s.nRows
    ensures n.Ok? ==> n.value.fn in basis && |n.value.codes| == s.arity
    ensures n.Err? ==> n.error == IndexError
  {
    BlockInBounds(s, l, r);
    var start := BlockStart(s, l, r);
    var block := genome[start..start + s.arity + 1];
    var fn :- FunctionFromBasis(basis, block[0]);
    Ok(Node(fn, block[1..]))
  }

  /**
    * What a decoded node holds: its function is the basis entry at
    * floor(g * |basis|) for its function gene g, its codes are the `arity`
    * genes that follow; it decodes exactly when g < 1 and the basis is not empty.
    */
  lemma DecodeNodeSpec<V>(basis: seq<BasisFunc<V>>, s: Shape, genome: seq<real>, l: nat, r: nat)
    requires ValidGenome(s, genome) && l < s.depth && r < s.nRows
    ensures BlockStart(s, l, r) + s.arity + 1 <= |genome|
    ensures DecodeNode(basis, s, genome, l, r).Ok? <==> genome[BlockStart(s, l, r)] < 1.0 && |basis| > 0
    ensures DecodeNode(basis, s, genome, l, r).Err? ==> DecodeNode(basis, s, genome, l, r).error == IndexError
    ensures DecodeNode(basis, s, genome, l, r).Ok? ==>
              var start, node := BlockStart(s, l, r), DecodeNode(basis, s, genome, l, r).value;
              0 <= DecodeIndex(genome[start], |basis|) < |basis| &&
              node.fn == basis[DecodeIndex(genome[start], |basis|)] &&
              node.codes == genome[start + 1..start + s.arity + 1] && |node.codes| == s.arity
  {
    BlockInBounds(s, l, r);
    SelectByGeneSpec(basis, genome[BlockStart(s, l, r)]);
  }

  /** The function gene of node (l, r). */
  function FunctionGene(s: Shape, genome: seq<real>, l: nat, r: nat): real
    requires |genome| == GenomeLength(s) && l < s.depth && r < s.nRows
  {
    BlockInBounds(s, l, r);
    genome[BlockStart(s, l, r)]
  }

  /** Every node of the genome decodes. */
  ghost predicate TableDecodes<V>(basis: seq<BasisFunc<V>>, s: Shape, genome: seq<real>)
    requires |genome| == GenomeLength(s)
  {
    forall l, r :: 0 <= l < s.depth && 0 <= r < s.nRows ==> DecodeNode(basis, s, genome, l, r).Ok?
  }

  /**
    * What `_layer_funcs` holds at any time: the decoded entries of the current
    * genome in row-major order, every layer but the last one complete.
    */
  ghost predicate IsTablePrefix<V>(basis: seq<BasisFunc<V>>, s: Shape, genome: seq<real>, table: seq<seq<Node<V>>>)
    requires |genome| == GenomeLength(s)
  {
    |table| <= s.depth &&
    (forall l :: 0 <= l < |table| ==> |table[l]| <= s.nRows) &&
    (forall l :: 0 <= l < |table| - 1 ==> |table[l]| == s.nRows) &&
    forall l, r :: 0 <= l < |table| && 0 <= r < |table[l]| ==> DecodeNode(basis, s, genome, l, r) == Ok(table[l][r])
  }

  /** The complete table: `depth` layers of `n_rows` decoded entries. */
  ghost predicate IsFullTable<V>(basis: seq<BasisFunc<V>>, s: Shape, genome: seq<real>, table: seq<seq<Node<V>>>)
    requires |genome| == GenomeLength(s)
  {
    |table| == s.depth &&
    (forall l :: 0 <= l < |table| ==> |table[l]| == s.nRows) &&
    forall l, r :: 0 <= l < |table| && 0 <= r < |table[l]| ==> DecodeNode(basis, s, genome, l, r) == Ok(table[l][r])
  }

  /**
    * A valid genome decodes completely exactly when there are no nodes, or
    * the basis is not empty and no function gene is the boundary value 1.0.
    */
  lemma TableDecodesSpec<V>(basis: seq<BasisFunc<V>>, s: Shape, genome: seq<real>)
    requires ValidGenome(s, genome)
    ensures TableDecodes(basis, s, genome) <==>
              s.depth == 0 || s.nRows == 0 ||
              (|basis| > 0 && forall l, r :: 0 <= l < s.depth && 0 <= r < s.nRows ==> FunctionGene(s, genome, l, r) < 1.0)
  {
    var someNodes := s.depth > 0 && s.nRows > 0;
    forall l, r | 0 <= l < s.depth && 0 <= r < s.nRows
      ensures DecodeNode(basis, s, genome, l, r).Ok? <==> FunctionGene(s, genome, l, r) < 1.0 && |basis| > 0
    {
      DecodeNodeSpec(basis, s, genome, l, r);
    }
    if someNodes && TableDecodes(basis, s, genome) {
      assert DecodeNode(basis, s, genome, 0, 0).Ok?;
    }
  }

  /** With genes drawn from [0, 1) every node decodes, unless the basis is empty and there are nodes. */
  lemma TableDecodesBelowOne<V>(basis: seq<BasisFunc<V>>, s: Shape, genome: seq<real>)
    requires |genome| == GenomeLength(s)
    requires forall i :: 0 <= i < |genome| ==> 0.0 <= genome[i] < 1.0
    ensures TableDecodes(basis, s, genome) <==> |basis| > 0 || s.depth == 0 || s.nRows == 0
  {
    TableDecodesSpec(basis, s, genome);
    forall l, r | 0 <= l < s.depth && 0 <= r < s.nRows
      ensures FunctionGene(s, genome, l, r) < 1.0
    {
      BlockInBounds(s, l, r);
    }
  }
}
