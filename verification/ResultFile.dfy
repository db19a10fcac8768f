/** A flush: sorting and deduplicating a batch in place, then merging it into
    the result file. */
module ResultFile {
  import opened Options
  import opened Ordering
  import opened Results
  import opened ResultMerge
  import opened Seqs

  // ----- deduplication -----

  function Keys(s: seq<Result>): set<string> {
    set r | r in s :: r.key
  }

  /** The first record of every key. */
  function Dedup(s: seq<Result>): seq<Result> {
    if s == [] then []
    else
      var t, r := s[..|s| - 1], s[|s| - 1];
      Dedup(t) + (if r.key in Keys(t) then [] else [r])
  }

  lemma KeysAppend(s: seq<Result>, r: Result)
    ensures Keys(s + [r]) == Keys(s) + {r.key}
  {
    assert forall x :: x in s + [r] <==> x in s || x == r;
    assert r in s + [r];
  }

  lemma {:induction false} DedupMembers(s: seq<Result>)
    ensures Keys(Dedup(s)) == Keys(s)
    ensures forall r :: r in Dedup(s) ==> r in s
  {
    if s != [] {
      var t, r := s[..|s| - 1], s[|s| - 1];
      DedupMembers(t);
      assert s == t + [r];
      KeysAppend(t, r);
      KeysAppend(Dedup(t), r);
      if r.key in Keys(t) {
        assert Dedup(s) == Dedup(t);
      }
    }
  }

  /** On a sorted batch, keeping the first record of a key keeps its best. */
  lemma {:induction false} DedupRanked(s: seq<Result>)
    requires Sorted(CmpResult, s)
    ensures Ranked(Dedup(s)) && BatchOrder(Dedup(s)) && Best(Dedup(s)) == Best(s)
  {
    if s != [] {
      var t, r := s[..|s| - 1], s[|s| - 1];
      SortedLast(t, r, s);
      DedupMembers(t);
      hide Sorted, Ranked, BatchOrder, Best;
      DedupRanked(t);
      if r.key in Keys(t) {
        assert Dedup(s) == Dedup(t);
        BestCovered(t, r, s);
      } else {
        assert s == t + [r] && Dedup(s) == Dedup(t) + [r];
        hide Dedup;
        DedupNext(t, r, Dedup(t));
        BestAppend(t, r);
      }
    }
  }

  /** A later record of a new key goes behind those that are left. */
  lemma DedupNext(t: seq<Result>, r: Result, d: seq<Result>)
    requires Ranked(d) && BatchOrder(d) && Best(d) == Best(t) && r.key !in Keys(t)
    requires forall o :: o in d ==> o in t
    requires forall o :: o in t ==> CmpResult(o, r) <= 0 && o.score >= r.score
    ensures Ranked(d + [r]) && BatchOrder(d + [r]) && Best(d + [r]) == Raise(Best(t), r)
  {
    hide Ranked, BatchOrder, Best;
    forall o | o in d ensures o.score >= r.score && o.key != r.key && CmpResult(o, r) < 0 {
      assert o in t && o.key in Keys(t);
      StrCmpFlip(o.key, r.key);
    }
    hide CmpResult, Keys, StrCmp;
    RankedAppend(d, r);
    BatchOrderAppend(d, r);
    BestAppend(d, r);
  }

  lemma BatchOrderAppend(s: seq<Result>, r: Result)
    requires BatchOrder(s) && forall o :: o in s ==> CmpResult(o, r) < 0
    ensures BatchOrder(s + [r])
  {
    hide CmpResult;
  }

  lemma BestAppend(t: seq<Result>, r: Result)
    ensures Best(t + [r]) == Raise(Best(t), r)
  {
    assert (t + [r])[..|t|] == t;
  }

  lemma BestCovered(t: seq<Result>, r: Result, s: seq<Result>)
    requires s == t + [r] && r.key in Keys(t) && forall o :: o in t ==> o.score >= r.score
    ensures Best(s) == Best(t)
  {
    BestAppend(t, r);
    BestMeaning(t, r.key);
    var x :| x in t && x.key == r.key;
    assert Raise(Best(t), r) == Best(t);
  }

  lemma SortedLast(t: seq<Result>, r: Result, s: seq<Result>)
    requires s == t + [r] && Sorted(CmpResult, s)
    ensures Sorted(CmpResult, t) && forall o :: o in t ==> CmpResult(o, r) <= 0 && o.score >= r.score
  {
    forall o | o in t ensures CmpResult(o, r) <= 0 && o.score >= r.score {
      var i :| 0 <= i < |t| && t[i] == o;
      assert CmpResult(s[i], s[|t|]) <= 0;
    }
    assert forall i :: 0 <= i < |t| ==> t[i] == s[i];
  }

  /** Compacts the array in place; the first n entries are what is left. */
  method DedupInPlace(a: array<Result>) returns (n: nat)
    modifies a
    ensures n <= a.Length && a[..n] == Dedup(old(a[..]))
  {
    hide Dedup, Keys;
    ghost var s := a[..];
    DedupNone(s);
    var seen: set<string> := {};
    n := 0;
    var i := 0;
    while i < a.Length
      invariant n <= i <= a.Length
      invariant a[..n] == Dedup(s[..i])
      invariant forall j :: i <= j < a.Length ==> a[j] == s[j]
      invariant seen == Keys(s[..i])
    {
      var r := a[i];
      DedupStep(s, i);
      if r.key !in seen {
        seen := seen + {r.key};
        a[n] := r;
        n := n + 1;
      }
      i := i + 1;
    }
    assert s[..i] == s;
  }

  lemma DedupNone(s: seq<Result>)
    ensures Dedup(s[..0]) == [] && Keys(s[..0]) == {}
  {
  }

  lemma DedupStep(s: seq<Result>, i: nat)
    requires i < |s|
    ensures Dedup(s[..i + 1]) == Dedup(s[..i]) + (if s[i].key in Keys(s[..i]) then [] else [s[i]])
    ensures Keys(s[..i + 1]) == Keys(s[..i]) + {s[i].key}
  {
    assert s[..i + 1] == s[..i] + [s[i]];
    assert s[..i + 1][..i] == s[..i];
    KeysAppend(s[..i], s[i]);
  }

  // ----- one flush -----

  /** The existing file as the next merge reads it back. */
  function ReadBack(reread: Result -> Result, file: Option<seq<Result>>): seq<Result> {
    if file.None? then [] else seq(|file.value|, i requires 0 <= i < |file.value| => reread(file.value[i]))
  }

  function Contents(file: Option<seq<Result>>): seq<Result> {
    if file.None? then [] else file.value
  }

  /** sorted is a possible outcome of sorting the batch. */
  ghost predicate IsSortOf(sorted: seq<Result>, batch: seq<Result>) {
    Sorted(CmpResult, sorted) && multiset(sorted) == multiset(batch)
  }

  /** next is what a flush of batch can leave in place of file. */
  ghost predicate Flushed(reread: Result -> Result, file: Option<seq<Result>>, batch: seq<Result>,
                          next: Option<seq<Result>>)
  {
    if batch == [] then next == file
    else exists sorted :: IsSortOf(sorted, batch) && next == Some(Merge(ReadBack(reread, file), Dedup(sorted)))
  }

  lemma {:induction false} MergeIntoNothing(delta: seq<Result>, st: State, i: nat)
    requires |st.emitted| == |delta| && i <= |delta|
    requires forall k :: i <= k < |delta| ==> !st.emitted[k]
    ensures EmitRest(delta, st, i).out == st.out + delta[i..]
    decreases |delta| - i
  {
    if i < |delta| {
      MergeIntoNothing(delta, EmitDelta(delta, st, i), i + 1);
      assert delta[i..] == [delta[i]] + delta[i + 1..];
    } else {
      assert delta[i..] == [];
    }
  }

  /** Sorts and deduplicates the batch in the caller's array, then writes the
      batch or its merge with the file. */
  method MergeResults(results: array<Result>, file: Option<seq<Result>>, reread: Result -> Result)
    returns (next: Option<seq<Result>>)
    modifies results
    ensures Flushed(reread, file, old(results[..]), next)
  {
    hide Ranked, Merge, Dedup, Sorted;
    if results.Length == 0 {
      assert results[..] == [];
      return file;
    }
    ghost var batch := results[..];
    CmpResultOrders();
    SortFunc(results, CmpResult);
    ghost var sorted := results[..];
    DedupRanked(sorted);
    var n := DedupInPlace(results);
    var delta := results[..n];
    var existing := ReadBack(reread, file);
    if file.Some? {
      ghost var late;
      var out;
      out, late := MergeWithExisting(existing, delta);
      next := Some(out);
    } else {
      StartMerge(delta);
      next := Some(delta);
    }
    hide ReadBack;
    assert IsSortOf(sorted, batch) && next == Some(Merge(existing, Dedup(sorted)));
  }

  lemma StartMerge(delta: seq<Result>)
    ensures Merge([], delta) == delta
  {
    MergeIntoNothing(delta, Start(delta), 0);
    assert delta[0..] == delta;
  }

  // ----- what a flush does -----

  lemma BestOfSort(sorted: seq<Result>, batch: seq<Result>)
    requires multiset(sorted) == multiset(batch)
    ensures Best(sorted) == Best(batch)
  {
    forall r ensures r in sorted <==> r in batch {
      assert r in sorted <==> r in multiset(sorted);
      assert r in batch <==> r in multiset(batch);
    }
    forall i | 0 <= i < |sorted| ensures sorted[i].key in Best(batch) && sorted[i].score <= Best(batch)[sorted[i].key] {
      assert sorted[i] in batch;
      BestMeaning(batch, sorted[i].key);
    }
    forall k | k in Best(batch)
      ensures exists i :: 0 <= i < |sorted| && sorted[i].key == k && sorted[i].score == Best(batch)[k]
    {
      BestMeaning(batch, k);
      var i :| 0 <= i < |batch| && batch[i].key == k && batch[i].score == Best(batch)[k];
      assert batch[i] in sorted;
    }
    BestFromMeaning(sorted, Best(batch));
  }

  lemma MergeMembers(existing: seq<Result>, delta: seq<Result>, sorted: seq<Result>, batch: seq<Result>)
    requires Ranked(delta) && multiset(sorted) == multiset(batch) && forall r :: r in delta ==> r in sorted
    ensures forall r :: r in Merge(existing, delta) ==> r in existing || r in batch
  {
    hide Merge, Ranked;
    forall r | r in Merge(existing, delta) ensures r in existing || r in batch {
      MergeWrites(existing, delta, r);
      if r in delta {
        assert r in multiset(sorted);
      }
    }
  }

  /** Whatever the file reads back as, a flush raises its score table by the
      batch's; and if it reads back ranked the new file is ranked, in an order
      that only ties of read-back records leave open. */
  lemma FlushEffect(reread: Result -> Result, file: Option<seq<Result>>, batch: seq<Result>, next: Option<seq<Result>>)
    requires Flushed(reread, file, batch, next) && batch != []
    ensures Best(Contents(next)) == MaxMerge(Best(ReadBack(reread, file)), Best(batch))
    ensures Ranked(ReadBack(reread, file)) ==>
              Ranked(Contents(next)) && Ordered(ReadBack(reread, file), Contents(next))
    ensures forall r :: r in Contents(next) ==> r in ReadBack(reread, file) || r in batch
  {
    var existing := ReadBack(reread, file);
    var sorted :| IsSortOf(sorted, batch) && next == Some(Merge(existing, Dedup(sorted)));
    hide ReadBack;
    DedupRanked(sorted);
    DedupMembers(sorted);
    BestOfSort(sorted, batch);
    var delta := Dedup(sorted);
    hide Sorted, Dedup, Best, MaxMerge;
    hide Merge, Ordered, BatchOrder;
    MergeBest(existing, delta);
    MergeMembers(existing, delta, sorted, batch);
    if Ranked(existing) {
      MergeIsMerged(existing, delta);
    }
  }

  // ----- a series of flushes -----

  /** files lists the result file before and after every flush, from none. */
  ghost predicate FlushRun(reread: Result -> Result, batches: seq<seq<Result>>, files: seq<Option<seq<Result>>>) {
    && |files| == |batches| + 1 && files[0] == None
    && forall i {:trigger batches[i]} :: 0 <= i < |batches| ==> Flushed(reread, files[i], batches[i], files[i + 1])
  }

  lemma {:induction false} ConcatMember(batches: seq<seq<Result>>, i: nat, r: Result)
    requires i < |batches| && r in batches[i]
    ensures r in Concat(batches)
  {
    if i < |batches| - 1 {
      ConcatMember(batches[..|batches| - 1], i, r);
    }
  }
}
