/**
  * How a gene in [0, 1] selects one element of a list: the index is
  * floor(gene * length), and the list is indexed the way Python indexes it.
  * Used both to pick a basis function and to pick an input value.
  */
module Decoding {
  import opened Outcomes

  /** The index floor(g * n) that gene `g` selects among `n` alternatives. */
  function DecodeIndex(g: real, n: nat): int
  {
    (g * n as real).Floor
  }

  /** Python's `xs[k]`: a negative `k` counts from the end; anything else out of range raises. */
  function PyIndex<T>(xs: seq<T>, k: int): Result<T>
  {
    if 0 <= k < |xs| then Ok(xs[k])
    else if -|xs| <= k < 0 then Ok(xs[|xs| + k])
    else Err(IndexError)
  }

  /** `xs[math.floor(g * len(xs))]`. */
  function SelectByGene<T>(xs: seq<T>, g: real): (r: Result<T>)
    ensures r.Ok? ==> |xs| > 0
    ensures r.Err? ==> r.error == IndexError
  {
    PyIndex(xs, DecodeIndex(g, |xs|))
  }

  /** A gene in [0, 1) selects a valid index among n > 0 alternatives. */
  lemma DecodeIndexInRange(g: real, n: nat)
    requires 0.0 <= g < 1.0 && n > 0
    ensures 0 <= DecodeIndex(g, n) < n
  {
    assert 0.0 <= g * n as real;
    assert g * n as real < n as real by {
      assert (1.0 - g) * n as real > 0.0;
    }
  }

  /** The boundary gene 1.0 selects index n, one past the last alternative. */
  lemma DecodeIndexAtOne(n: nat)
    ensures DecodeIndex(1.0, n) == n
  {
  }

  /**
    * For a gene in [0, 1], selection succeeds exactly when the gene is below 1
    * and the list is not empty, and then yields the element at floor(g * |xs|).
    */
  lemma SelectByGeneSpec<T>(xs: seq<T>, g: real)
    requires 0.0 <= g <= 1.0
    ensures SelectByGene(xs, g).Ok? <==> g < 1.0 && |xs| > 0
    ensures SelectByGene(xs, g).Err? ==> SelectByGene(xs, g).error == IndexError
    ensures SelectByGene(xs, g).Ok? ==>
              0 <= DecodeIndex(g, |xs|) < |xs| && SelectByGene(xs, g).value == xs[DecodeIndex(g, |xs|)]
  {
    var k := DecodeIndex(g, |xs|);
    assert 0 <= k by {
      assert 0.0 <= g * |xs| as real;
    }
    if g < 1.0 && |xs| > 0 {
      DecodeIndexInRange(g, |xs|);
    } else if g == 1.0 {
      DecodeIndexAtOne(|xs|);
    }
  }

  /**
    * `tuple(total_inputs[math.floor(i * len(total_inputs))] for i in encoded_inputs)`:
    * every code selects one value of `window`, left to right; the first code
    * that selects nothing raises.
    */
  function DecodeInputs<V>(window: seq<V>, codes: seq<real>): (r: Result<seq<V>>)
    ensures r.Ok? ==> |r.value| == |codes|
    ensures r.Err? ==> r.error == IndexError
  {
    if codes == [] then Ok([])
    else
      var v :- SelectByGene(window, codes[0]);
      var rest :- DecodeInputs(window, codes[1..]);
      Ok([v] + rest)
  }

  /** Decoding succeeds exactly when every code selects, and value i is what code i selects. */
  lemma {:induction false} DecodeInputsSelects<V>(window: seq<V>, codes: seq<real>)
    ensures DecodeInputs(window, codes).Ok? <==> forall i :: 0 <= i < |codes| ==> SelectByGene(window, codes[i]).Ok?
    ensures DecodeInputs(window, codes).Ok? ==>
              forall i :: 0 <= i < |codes| ==> SelectByGene(window, codes[i]) == Ok(DecodeInputs(window, codes).value[i])
  {
    if codes != [] {
      DecodeInputsSelects(window, codes[1..]);
      assert forall i :: 1 <= i < |codes| ==> codes[i] == codes[1..][i - 1];
    }
  }

  /**
    * For codes in [0, 1]: decoding succeeds exactly when every code is below 1
    * and, unless there are no codes, the window is not empty; value i is then
    * the window element at floor(codes[i] * |window|).
    */
  lemma DecodeInputsSpec<V>(window: seq<V>, codes: seq<real>)
    requires forall i :: 0 <= i < |codes| ==> 0.0 <= codes[i] <= 1.0
    ensures DecodeInputs(window, codes).Ok? <==>
              (forall i :: 0 <= i < |codes| ==> codes[i] < 1.0) && (|codes| == 0 || |window| > 0)
    ensures DecodeInputs(window, codes).Ok? ==>
              forall i :: 0 <= i < |codes| ==>
                0 <= DecodeIndex(codes[i], |window|) < |window| &&
                DecodeInputs(window, codes).value[i] == window[DecodeIndex(codes[i], |window|)]
  {
    DecodeInputsSelects(window, codes);
    forall i | 0 <= i < |codes| {
      SelectByGeneSpec(window, codes[i]);
    }
  }
}
