/** Lists of lists, lists with one element taken out, lists without repeats. */
module Seqs {

  function Concat<T>(batches: seq<seq<T>>): seq<T> {
    if batches == [] then [] else Concat(batches[..|batches| - 1]) + batches[|batches| - 1]
  }

  lemma ConcatNothing<T>()
    ensures Concat<T>([]) == []
  {
  }

  lemma ConcatMore<T>(batches: seq<seq<T>>, batch: seq<T>)
    ensures Concat(batches + [batch]) == Concat(batches) + batch
  {
    assert (batches + [batch])[..|batches|] == batches;
  }

  /** Full pieces, then possibly a shorter one, none empty. */
  predicate Sized<T>(pieces: seq<seq<T>>, size: nat) {
    && (forall k :: 0 <= k < |pieces| ==> 0 < |pieces[k]| <= size)
    && (forall k :: 0 <= k < |pieces| - 1 ==> |pieces[k]| == size)
  }

  ghost predicate Distinct<T(!new)>(s: seq<T>) {
    forall i, j :: 0 <= i < j < |s| ==> s[i] != s[j]
  }

  function Without<T>(s: seq<T>, i: nat): (r: seq<T>)
    requires i < |s|
    ensures |r| == |s| - 1
  {
    s[..i] + s[i + 1..]
  }
}
