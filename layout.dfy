/**
  * The layout of a genome: `depth` layers of `n_rows` node blocks of
  * `arity + 1` genes (one function gene, then `arity` address genes),
  * followed by `n_outputs` output-address genes.
  */
module Layout {

  /** The fixed topology a genome function is built with. */
  datatype Shape = Shape(nInputs: nat, nOutputs: nat, depth: nat, nRows: nat, recurseDepth: nat, arity: nat)

  /** Genes per layer: `n_rows * (arity + 1)`. */
  function LayerGenes(s: Shape): nat
  {
    s.nRows * (s.arity + 1)
  }

  /** `n_rows * (arity + 1) * depth + n_outputs`: the output genes start right after the blocks of all `depth * n_rows` nodes. */
  function GenomeLength(s: Shape): (n: nat)
    ensures n == BlockStart(s, s.depth, 0) + s.nOutputs
  {
    BlockStartSplit(s, s.depth, 0);
    LayerGenes(s) * s.depth + s.nOutputs
  }

  /** Index of the function gene of node (l, r): node l * n_rows + r of blocks of `arity + 1` genes. */
  function BlockStart(s: Shape, l: nat, r: nat): nat
  {
    (l * s.nRows + r) * (s.arity + 1)
  }

  /** The block of node (l, r) starts at layer offset `l * n_rows * (arity + 1)` plus row offset `r * (arity + 1)`. */
  lemma BlockStartSplit(s: Shape, l: nat, r: nat)
    ensures BlockStart(s, l, r) == l * LayerGenes(s) + r * (s.arity + 1)
  {
    assert (l * s.nRows + r) * (s.arity + 1) == (l * s.nRows) * (s.arity + 1) + r * (s.arity + 1);
    assert (l * s.nRows) * (s.arity + 1) == l * (s.nRows * (s.arity + 1));
  }

  /** Every gene lies in [0, 1]. */
  predicate InUnitInterval(g: seq<real>)
  {
    forall i :: 0 <= i < |g| ==> 0.0 <= g[i] <= 1.0
  }

  /** What `set_genome` accepts. */
  predicate ValidGenome(s: Shape, g: seq<real>)
  {
    |g| == GenomeLength(s) && InUnitInterval(g)
  }

  /** Python's `xs[-n:]`; note that `-0` is `0`, so for n == 0 it is the whole list. */
  function PySuffix<T>(xs: seq<T>, n: nat): (r: seq<T>)
    ensures |r| == if n == 0 || n >= |xs| then |xs| else n
  {
    if n == 0 || n >= |xs| then xs else xs[|xs| - n..]
  }

  /** `xs[-n:]` is always a suffix of `xs`; with its length, this fixes which elements come back. */
  lemma PySuffixIsSuffix<T>(xs: seq<T>, n: nat)
    ensures PySuffix(xs, n) == xs[|xs| - |PySuffix(xs, n)|..]
  {
  }

  lemma MulMonotone(a: nat, b: nat, c: nat)
    requires a <= b
    ensures a * c <= b * c
  {
  }

  /** The block of every node lies inside the node part of the genome. */
  lemma BlockInBounds(s: Shape, l: nat, r: nat)
    requires l < s.depth && r < s.nRows
    ensures BlockStart(s, l, r) + s.arity + 1 <= LayerGenes(s) * s.depth
    ensures BlockStart(s, l, r) + s.arity + 1 <= GenomeLength(s)
  {
    MulMonotone(r + 1, s.nRows, s.arity + 1);
    BlockStartSplit(s, l, r);
    MulMonotone(l + 1, s.depth, LayerGenes(s));
    assert (l + 1) * LayerGenes(s) == l * LayerGenes(s) + LayerGenes(s);
    assert (r + 1) * (s.arity + 1) == r * (s.arity + 1) + s.arity + 1;
  }

  /** Euclidean division of naturals: quotient and remainder. */
  lemma DivDecompose(k: nat, d: nat)
    requires d > 0
    ensures k == (k / d) * d + k % d && 0 <= k % d < d
  {
  }

  /** If q * d + m < n * d with a remainder m < d, then q < n. */
  lemma QuotientBelow(q: nat, d: nat, m: nat, n: nat)
    requires m < d && q * d + m < n * d
    ensures q < n
  {
    if q >= n {
      MulMonotone(n, q, d);
    }
  }

  /** A quotient and remainder are unique. */
  lemma DivModUnique(k: nat, d: nat, q: nat, m: nat)
    requires d > 0 && m < d && k == q * d + m
    ensures k / d == q && k % d == m
  {
    DivDecompose(k, d);
    var q', m' := k / d, k % d;
    if q' < q {
      MulMonotone(q' + 1, q, d);
    } else if q < q' {
      MulMonotone(q + 1, q', d);
    }
  }

  /**
    * The node blocks tile the node part of the genome: each gene index below
    * `depth * n_rows * (arity + 1)` is gene `j` of node (l, r) for the l, r, j
    * given by division and remainder.
    */
  lemma BlocksTileGenome(s: Shape, k: nat)
    requires k < LayerGenes(s) * s.depth
    ensures var l, r, j := k / LayerGenes(s), (k % LayerGenes(s)) / (s.arity + 1), k % (s.arity + 1);
            l < s.depth && r < s.nRows && j <= s.arity && k == BlockStart(s, l, r) + j
  {
    MixedRadix(k, s.depth, s.nRows, s.arity + 1);
  }

  /** Two numbers written with the same digit base `d` are equal only when their digits are. */
  lemma DigitsUnique(q: nat, m: nat, q': nat, m': nat, d: nat)
    requires m < d && m' < d && q * d + m == q' * d + m'
    ensures q == q' && m == m'
  {
    DivModUnique(q * d + m, d, q, m);
    DivModUnique(q' * d + m', d, q', m');
  }

  /** Mixed-radix digits of k < depth * (rows * width). */
  lemma MixedRadix(k: nat, depth: nat, rows: nat, width: nat)
    requires k < (rows * width) * depth
    ensures rows * width > 0 && width > 0
    ensures var l, r, j := k / (rows * width), (k % (rows * width)) / width, k % width;
            l < depth && r < rows && j < width &&
            k == l * (rows * width) + r * width + j && k == (l * rows + r) * width + j
  {
    var lg := rows * width;
    assert lg > 0;
    DivDecompose(k, lg);
    var l, m := k / lg, k % lg;
    QuotientBelow(l, lg, m, depth);
    DivDecompose(m, width);
    var r, j := m / width, m % width;
    QuotientBelow(r, width, j, rows);
    assert k == (l * rows + r) * width + j by {
      assert l * lg == (l * rows) * width;
      assert (l * rows + r) * width == (l * rows) * width + r * width;
    }
    DivModUnique(k, width, l * rows + r, j);
  }

  /** Two distinct node positions never share a gene. */
  lemma BlocksDisjoint(s: Shape, l: nat, r: nat, j: nat, l': nat, r': nat, j': nat)
    requires l < s.depth && r < s.nRows && j <= s.arity
    requires l' < s.depth && r' < s.nRows && j' <= s.arity
    requires BlockStart(s, l, r) + j == BlockStart(s, l', r') + j'
    ensures l == l' && r == r' && j == j'
  {
    DigitsUnique(l * s.nRows + r, j, l' * s.nRows + r', j', s.arity + 1);
    DigitsUnique(l, r, l', r', s.nRows);
  }

  /** For a genome of the right length, `genome[-n_outputs:]` is the trailing output block. */
  lemma OutputGenesAreTail<T>(s: Shape, g: seq<T>)
    requires |g| == GenomeLength(s) && s.nOutputs > 0
    ensures PySuffix(g, s.nOutputs) == g[LayerGenes(s) * s.depth..]
    ensures |PySuffix(g, s.nOutputs)| == s.nOutputs
  {
  }

  /** With no outputs, `genome[-0:]` is the whole genome rather than an empty list. */
  lemma NoOutputsSuffixIsWholeGenome<T>(s: Shape, g: seq<T>)
    requires |g| == GenomeLength(s) && s.nOutputs == 0
    ensures PySuffix(g, s.nOutputs) == g && |PySuffix(g, s.nOutputs)| == LayerGenes(s) * s.depth
  {
  }
}
