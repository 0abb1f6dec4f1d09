/** The weight mask of the classification branch: numpy's w.nonzero(), the fancy indexing
    y[w.nonzero()] and the cast astype(int). */
module Masking {
  import opened Errors

  /** No example of the task carries weight. */
  predicate Unweighted(w: seq<real>)
  {
    forall k :: 0 <= k < |w| ==> w[k] == 0.0
  }

  /** w.nonzero(): the positions of the nonzero weights, in increasing order. */
  function NonzeroIndices(w: seq<real>): (idx: seq<nat>)
    ensures forall k :: 0 <= k < |idx| ==> idx[k] < |w| && w[idx[k]] != 0.0
  {
    if w == [] then []
    else
      var n := |w| - 1;
      NonzeroIndices(w[..n]) + (if w[n] != 0.0 then [n] else [])
  }

  /** w.nonzero() lists every position of nonzero weight, each once, in increasing order:
      as many positions as there are nonzero weights. */
  lemma {:induction false} NonzeroIndicesExact(w: seq<real>)
    ensures var idx := NonzeroIndices(w);
            && |idx| == |w| - multiset(w)[0.0]
            && (forall k, l :: 0 <= k < l < |idx| ==> idx[k] < idx[l])
            && (forall i :: 0 <= i < |w| && w[i] != 0.0 ==> i in idx)
  {
    if w != [] {
      var n := |w| - 1;
      NonzeroIndicesExact(w[..n]);
      assert w == w[..n] + [w[n]];
      var rest := NonzeroIndices(w[..n]);
      forall i | 0 <= i < n && w[i] != 0.0
        ensures i in rest
      {
        assert w[..n][i] == w[i];
      }
    }
  }

  /** Fancy indexing v[idx]: the entries at the given positions, or IndexError when one is
      out of range. */
  function Take(v: seq<real>, idx: seq<nat>): (r: Result<seq<real>>)
    ensures r.Ok? <==> forall k :: 0 <= k < |idx| ==> idx[k] < |v|
    ensures r.Ok? ==> |r.value| == |idx| && forall k :: 0 <= k < |idx| ==> r.value[k] == v[idx[k]]
    ensures r.Err? ==> r.error == IndexError
  {
    if forall k :: 0 <= k < |idx| ==> idx[k] < |v| then
      Ok(seq(|idx|, k requires 0 <= k < |idx| => v[idx[k]]))
    else
      Err(IndexError)
  }

  /** Labels and weights walked side by side, keeping each label whose weight is nonzero. */
  function KeepWeighted(v: seq<real>, w: seq<real>): seq<real>
    requires |v| == |w|
  {
    if w == [] then []
    else (if w[0] != 0.0 then [v[0]] else []) + KeepWeighted(v[1..], w[1..])
  }

  /** The length of KeepWeighted is the number of nonzero weights. */
  lemma {:induction false} KeepWeightedLength(v: seq<real>, w: seq<real>)
    requires |v| == |w|
    ensures |KeepWeighted(v, w)| == |w| - multiset(w)[0.0]
  {
    if w != [] {
      assert w == [w[0]] + w[1..];
      KeepWeightedLength(v[1..], w[1..]);
    }
  }

  /** KeepWeighted on a vector extended at the end. */
  lemma {:induction false} KeepWeightedSnoc(v: seq<real>, w: seq<real>, x: real, weight: real)
    requires |v| == |w|
    ensures KeepWeighted(v + [x], w + [weight])
         == KeepWeighted(v, w) + (if weight != 0.0 then [x] else [])
  {
    if w == [] {
      assert KeepWeighted([x], [weight]) == (if weight != 0.0 then [x] else []) + KeepWeighted([], []);
    } else {
      assert (v + [x])[1..] == v[1..] + [x];
      assert (w + [weight])[1..] == w[1..] + [weight];
      KeepWeightedSnoc(v[1..], w[1..], x, weight);
    }
  }

  /** Indexing a vector at positions all below n reads only its first n entries. */
  lemma TakeFromPrefix(v: seq<real>, n: nat, idx: seq<nat>)
    requires n <= |v|
    requires forall k :: 0 <= k < |idx| ==> idx[k] < n
    ensures Take(v, idx) == Take(v[..n], idx)
  {
    assert Take(v, idx).value == Take(v[..n], idx).value;
  }

  /** Indexing at a concatenation of positions concatenates the selections. */
  lemma TakeAppend(v: seq<real>, a: seq<nat>, b: seq<nat>)
    requires Take(v, a).Ok? && Take(v, b).Ok?
    ensures Take(v, a + b) == Ok(Take(v, a).value + Take(v, b).value)
  {
    assert Take(v, a + b).Ok?;
    assert Take(v, a + b).value == Take(v, a).value + Take(v, b).value;
  }

  /** KeepWeighted peeled from the end. */
  lemma {:induction false} KeepWeightedLast(v: seq<real>, w: seq<real>)
    requires |v| == |w| > 0
    ensures KeepWeighted(v, w)
         == KeepWeighted(v[..|w| - 1], w[..|w| - 1]) + (if w[|w| - 1] != 0.0 then [v[|w| - 1]] else [])
  {
    var n := |w| - 1;
    KeepWeightedSnoc(v[..n], w[..n], v[n], w[n]);
    assert v[..n] + [v[n]] == v;
    assert w[..n] + [w[n]] == w;
  }

  /** y[w.nonzero()] keeps exactly the entries at positions of nonzero weight, in their
      original order, and as many as there are nonzero weights. */
  lemma {:induction false} MaskKeepsWeightedEntries(v: seq<real>, w: seq<real>)
    requires |v| == |w|
    ensures Take(v, NonzeroIndices(w)) == Ok(KeepWeighted(v, w))
    ensures |KeepWeighted(v, w)| == |w| - multiset(w)[0.0]
  {
    KeepWeightedLength(v, w);
    if w != [] {
      var n := |w| - 1;
      MaskKeepsWeightedEntries(v[..n], w[..n]);
      KeepWeightedLast(v, w);
      var prefix := NonzeroIndices(w[..n]);
      var tail: seq<nat> := if w[n] != 0.0 then [n] else [];
      assert NonzeroIndices(w) == prefix + tail;
      TakeFromPrefix(v, n, prefix);
      if w[n] != 0.0 {
        assert Take(v, tail).value == [v[n]];
      } else {
        assert Take(v, tail).value == [];
      }
      TakeAppend(v, prefix, tail);
    }
  }

  /** The float-to-integer conversion of astype(int), which truncates toward zero; the
      64-bit range of the target type is not modelled. */
  function Truncate(x: real): (n: int)
    ensures 0.0 <= x ==> n as real <= x < n as real + 1.0
    ensures x < 0.0 ==> n as real - 1.0 < x <= n as real
  {
    if 0.0 <= x then x.Floor else -((-x).Floor)
  }

  /** astype(int) on a vector. */
  function AsInt(v: seq<real>): (r: seq<int>)
    ensures |r| == |v|
    ensures forall k :: 0 <= k < |v| ==> r[k] == Truncate(v[k])
  {
    seq(|v|, k requires 0 <= k < |v| => Truncate(v[k]))
  }
}
