/** Reversal of the label transformers (undo_transforms in deepchem/utils/evaluate.py). */
module Transforms {
  import opened Errors

  /** A numeric column of the prediction table. */
  type Vector = seq<real>

  /** A transformer that was applied to the labels before training. The evaluator only
      calls `untransform`; `transform` is the forward map it undoes. Both are opaque. */
  datatype Transformer = Transformer(transform: Vector -> Vector, untransform: Vector -> Vector)

  /** Undoing a list of transformers that were applied in list order: the first one
      applied is undone last, so it is the outermost call. */
  function UndoAll(y: Vector, transformers: seq<Transformer>): Vector
  {
    if transformers == [] then y
    else transformers[0].untransform(UndoAll(y, transformers[1..]))
  }

  /** Applying the transformers in list order, the first one first. */
  function ApplyAll(y: Vector, transformers: seq<Transformer>): Vector
    decreases transformers
  {
    if transformers == [] then y
    else ApplyAll(transformers[0].transform(y), transformers[1..])
  }

  /** Python's reversed(). */
  function Reversed<T>(s: seq<T>): (r: seq<T>)
    ensures |r| == |s|
    ensures forall k :: 0 <= k < |s| ==> r[k] == s[|s| - 1 - k]
  {
    if s == [] then [] else [s[|s| - 1]] + Reversed(s[..|s| - 1])
  }

  /** Calling untransform on y once per element of `order`, from the first element to the last. */
  function FoldUntransform(y: Vector, order: seq<Transformer>): Vector
    decreases order
  {
    if order == [] then y else FoldUntransform(order[0].untransform(y), order[1..])
  }

  /** A transformer whose untransform is a left inverse of its transform. */
  ghost predicate Invertible(t: Transformer)
  {
    forall v :: t.untransform(t.transform(v)) == v
  }

  /** undo_transforms: walks the transformers from last to first and undoes each one. */
  method UndoTransforms(y: Vector, transformers: seq<Transformer>) returns (r: Vector)
    ensures r == UndoAll(y, transformers)
    ensures transformers == [] ==> r == y
  {
    r := y;
    var i := |transformers|;
    while i > 0
      invariant 0 <= i <= |transformers|
      invariant r == UndoAll(y, transformers[i..])
    {
      i := i - 1;
      assert transformers[i..][1..] == transformers[i + 1..];
      r := transformers[i].untransform(r);
    }
    assert transformers[0..] == transformers;
  }

  /** Undoing a concatenation undoes the later part first. */
  lemma {:induction false} UndoAllAppend(y: Vector, first: seq<Transformer>, last: seq<Transformer>)
    ensures UndoAll(y, first + last) == UndoAll(UndoAll(y, last), first)
  {
    if first == [] {
      assert first + last == last;
    } else {
      assert (first + last)[1..] == first[1..] + last;
      UndoAllAppend(y, first[1..], last);
    }
  }

  /** The last transformer in the list is the first one undone. */
  lemma {:induction false} LastUndoneFirst(y: Vector, transformers: seq<Transformer>)
    requires transformers != []
    ensures UndoAll(y, transformers)
         == UndoAll(transformers[|transformers| - 1].untransform(y), transformers[..|transformers| - 1])
  {
    var n := |transformers| - 1;
    assert transformers == transformers[..n] + [transformers[n]];
    UndoAllAppend(y, transformers[..n], [transformers[n]]);
    assert [transformers[n]][1..] == [];
  }

  /** The loop of undo_transforms, a fold of untransform over reversed(transformers), is UndoAll. */
  lemma {:induction false} UndoIsFoldOverReversed(y: Vector, transformers: seq<Transformer>)
    ensures FoldUntransform(y, Reversed(transformers)) == UndoAll(y, transformers)
    decreases transformers
  {
    if transformers != [] {
      var n := |transformers| - 1;
      var t := transformers[n];
      LastUndoneFirst(y, transformers);
      UndoIsFoldOverReversed(t.untransform(y), transformers[..n]);
      assert Reversed(transformers)[1..] == Reversed(transformers[..n]);
    }
  }

  /** Undoing what was applied gives back the original labels, when every transformer
      can be undone. */
  lemma {:induction false} UndoAfterApply(y: Vector, transformers: seq<Transformer>)
    requires forall k :: 0 <= k < |transformers| ==> Invertible(transformers[k])
    ensures UndoAll(ApplyAll(y, transformers), transformers) == y
    decreases transformers
  {
    if transformers != [] {
      var t := transformers[0];
      UndoAfterApply(t.transform(y), transformers[1..]);
      assert Invertible(t);
    }
  }

  /** Every element of v scaled by `scale` and shifted by `shift`. */
  function Affine(v: Vector, scale: real, shift: real): (r: Vector)
    ensures |r| == |v|
    ensures forall k :: 0 <= k < |v| ==> r[k] == v[k] * scale + shift
  {
    seq(|v|, k requires 0 <= k < |v| => v[k] * scale + shift)
  }

  /** A normalising transformer: forward (x - mean) / std, undone by x * std + mean. */
  function Normalizer(mean: real, std: real): Transformer
    requires std != 0.0
  {
    var inverse := 1.0 / std;
    Transformer(v => Affine(v, inverse, -mean * inverse), v => Affine(v, std, mean))
  }

  lemma NormalizerInvertible(mean: real, std: real)
    requires std != 0.0
    ensures Invertible(Normalizer(mean, std))
  {
    var t := Normalizer(mean, std);
    var inverse := 1.0 / std;
    assert inverse * std == 1.0;
    forall v: Vector
      ensures t.untransform(t.transform(v)) == v
    {
      var u := t.untransform(t.transform(v));
      forall k | 0 <= k < |v|
        ensures u[k] == v[k]
      {
        calc {
          u[k];
          (v[k] * inverse + -mean * inverse) * std + mean;
          v[k] * (inverse * std) - mean * (inverse * std) + mean;
        }
      }
    }
  }

  /** Undoing in the wrong order gives a different answer: two normalisations, undone
      last-first and first-last from the same value 1.0, end at 4.0 and at 3.0. */
  lemma OrderMatters()
    ensures UndoAll([1.0], [Normalizer(0.0, 2.0), Normalizer(1.0, 1.0)])
         != UndoAll([1.0], [Normalizer(1.0, 1.0), Normalizer(0.0, 2.0)])
  {
    var a, b := Normalizer(0.0, 2.0), Normalizer(1.0, 1.0);
    assert [a, b][1..] == [b] && [b, a][1..] == [a];
    assert UndoAll([1.0], [b]) == [2.0];
    assert UndoAll([1.0], [a]) == [2.0];
    assert UndoAll([1.0], [a, b])[0] == 4.0;
    assert UndoAll([1.0], [b, a])[0] == 3.0;
  }

  /** undo_transforms as written: its loop body names `transform`, which is bound nowhere,
      so the first iteration raises NameError; only an empty list gets through. */
  function UndoTransformsAsWritten(y: Vector, transformers: seq<Transformer>): Result<Vector>
  {
    if transformers == [] then Ok(y) else Err(NameError("transform"))
  }

  /** The code as written agrees with the documented intent only on the empty list. */
  lemma AsWrittenAgreesOnlyWhenEmpty(y: Vector, transformers: seq<Transformer>)
    ensures UndoTransformsAsWritten(y, transformers) == Ok(UndoAll(y, transformers))
        <==> transformers == []
  {
  }
}
