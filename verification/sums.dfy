/**
 Sums of integer sequences, as Rust's `Iterator::sum` computes them: the
 running total starts at zero and the entries are added from the left.
 */
module Sums {

  /** The sum of `xs`: the running total starts at zero and each entry is
      added in turn from the left. Non-negative entries give a non-negative
      total that is at least each of them. */
  function Sum(xs: seq<int>): (total: int)
    ensures (forall i :: 0 <= i < |xs| ==> xs[i] >= 0) ==>
              forall i :: 0 <= i < |xs| ==> 0 <= xs[i] <= total
  {
    if |xs| == 0 then 0 else Sum(xs[..|xs| - 1]) + xs[|xs| - 1]
  }

  /** Accumulating from the front gives the same total as accumulating from the
      back. */
  lemma {:induction false} SumFromFront(xs: seq<int>)
    requires |xs| > 0
    ensures Sum(xs) == xs[0] + Sum(xs[1..])
    decreases |xs|
  {
    var n := |xs| - 1;
    if n > 0 {
      SumFromFront(xs[..n]);
      assert xs[..n][1..] == xs[1..][..n - 1];
    } else {
      assert xs[..n] == [] && xs[1..] == [];
    }
  }

  /** The sum of a four-entry sequence, for the worked examples. */
  lemma SumOfFour(a: int, b: int, c: int, d: int)
    ensures Sum([a, b, c, d]) == a + b + c + d
  {
    assert Sum([a]) == a by {
      assert [a][..0] == [];
    }
    assert Sum([a, b]) == a + b by {
      assert [a, b][..1] == [a];
    }
    assert Sum([a, b, c]) == a + b + c by {
      assert [a, b, c][..2] == [a, b];
    }
    assert [a, b, c, d][..3] == [a, b, c];
  }

  /** The sum of two sequences joined together is the sum of their sums. */
  lemma {:induction false} SumConcat(xs: seq<int>, ys: seq<int>)
    ensures Sum(xs + ys) == Sum(xs) + Sum(ys)
    decreases |ys|
  {
    if |ys| == 0 {
      assert xs + ys == xs;
    } else {
      var n := |ys| - 1;
      assert (xs + ys)[..|xs + ys| - 1] == xs + ys[..n];
      SumConcat(xs, ys[..n]);
    }
  }

  /** A pointwise comparison of two sequences carries over to their sums, and the
      sums are equal only when every entry is. */
  lemma {:induction false} SumPointwise(xs: seq<int>, ys: seq<int>)
    requires |xs| == |ys|
    requires forall i :: 0 <= i < |xs| ==> xs[i] <= ys[i]
    ensures Sum(xs) <= Sum(ys)
    ensures Sum(xs) == Sum(ys) <==> forall i :: 0 <= i < |xs| ==> xs[i] == ys[i]
    decreases |xs|
  {
    if |xs| > 0 {
      var n := |xs| - 1;
      SumPointwise(xs[..n], ys[..n]);
      if Sum(xs) == Sum(ys) {
        forall i | 0 <= i < |xs|
          ensures xs[i] == ys[i]
        {
          if i < n {
            assert xs[..n][i] == xs[i] && ys[..n][i] == ys[i];
          }
        }
      }
    }
  }

}
