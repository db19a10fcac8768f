/** What a series of flushes leaves on file, and exactly when. */
module ResultRuns {
  import opened Options
  import opened Ordering
  import opened Results
  import opened ResultMerge
  import opened ResultFile
  import opened Seqs

  // ----- what formatting and parsing may do -----

  /** Formatting and parsing keep the key. */
  ghost predicate KeepsKeys(reread: Result -> Result) {
    forall r :: reread(r).key == r.key
  }

  /** The records of a list, and of every batch, come from the set. */
  ghost predicate From(among: iset<Result>, s: seq<Result>) {
    forall r :: r in s ==> r in among
  }

  ghost predicate Fed(among: iset<Result>, batches: seq<seq<Result>>) {
    forall k :: 0 <= k < |batches| ==> From(among, batches[k])
  }

  ghost function AllResults(): iset<Result> {
    iset r: Result | |r.key| >= 0
  }

  /** Reading a record of the set back gives another of it. */
  ghost predicate Closed(reread: Result -> Result, among: iset<Result>) {
    forall r :: r in among ==> reread(r) in among
  }

  ghost predicate Pair(among: iset<Result>, r: Result, s: Result) {
    r in among && s in among
  }

  ghost predicate Lower(among: iset<Result>, r: Result, s: Result, d: Result) {
    d in among && d.key != r.key && d.key != s.key && d.score <= r.score && d.score <= s.score
  }

  /** For any two records of the set it has one with another key that scores no
      higher. */
  ghost predicate HasLower(among: iset<Result>) {
    forall r, s :: Pair(among, r, s) ==> exists d :: Lower(among, r, s, d)
  }

  ghost predicate KeepsScores(reread: Result -> Result, among: iset<Result>) {
    forall r :: r in among ==> reread(r).score == r.score
  }

  ghost predicate NeverLowers(reread: Result -> Result, among: iset<Result>) {
    forall r :: r in among ==> reread(r).score >= r.score
  }

  /** Some file can hold r before s: a higher score, or a tie in which r was
      read back from a file, or comes first by key. */
  ghost predicate Precedes(reread: Result -> Result, among: iset<Result>, r: Result, s: Result) {
    r.score > s.score ||
    (r.score == s.score && ((exists x :: x in among && reread(x) == r) || StrCmp(r.key, s.key) < 0))
  }

  /** Formatting and parsing do not swap two records of different keys that a
      file can hold in this order. */
  ghost predicate OrderKept(reread: Result -> Result, among: iset<Result>) {
    forall r: Result, s: Result ::
      r in among && s in among && r.key != s.key && Precedes(reread, among, r, s) ==> reread(r).score >= reread(s).score
  }

  /** Without an exception every set of records will do. */
  lemma AllResultsFit(reread: Result -> Result)
    ensures Closed(reread, AllResults()) && HasLower(AllResults())
  {
    forall r, s | Pair(AllResults(), r, s) ensures exists d :: Lower(AllResults(), r, s, d) {
      var low := if r.score < s.score then r.score else s.score;
      assert Lower(AllResults(), r, s, Result(r.key + s.key + "x", low, 0, ""));
    }
  }

  // ----- the file stays ranked -----

  /** A file whose records stand as some flush may leave them. */
  ghost predicate Standing(reread: Result -> Result, among: iset<Result>, s: seq<Result>) {
    KeyUnique(s) && From(among, s) && forall i, j :: 0 <= i < j < |s| ==> Precedes(reread, among, s[i], s[j])
  }

  lemma StandingReadsBack(reread: Result -> Result, among: iset<Result>, file: Option<seq<Result>>)
    requires KeepsKeys(reread) && OrderKept(reread, among) && Standing(reread, among, Contents(file))
    ensures Ranked(Contents(file)) && Ranked(ReadBack(reread, file))
  {
    var s, t := Contents(file), ReadBack(reread, file);
    forall i, j | 0 <= i < j < |s|
      ensures s[i].score >= s[j].score && t[i].score >= t[j].score && t[i].key != t[j].key
    {
      assert Precedes(reread, among, s[i], s[j]) && s[i].key != s[j].key && s[i] in among && s[j] in among;
    }
  }

  lemma OrderedStands(reread: Result -> Result, among: iset<Result>, file: Option<seq<Result>>, out: seq<Result>)
    requires KeyUnique(out) && From(among, out) && From(among, Contents(file)) && Ordered(ReadBack(reread, file), out)
    ensures Standing(reread, among, out)
  {
    var existing := ReadBack(reread, file);
    forall i, j | 0 <= i < j < |out| ensures Precedes(reread, among, out[i], out[j]) {
      assert MayPrecede(existing, out[i], out[j]);
      if out[i] in existing {
        var p :| 0 <= p < |existing| && existing[p] == out[i];
        assert reread(file.value[p]) == out[i] && file.value[p] in Contents(file);
      }
    }
  }

  /** A flush of records from the set leaves a file of such records. */
  lemma FlushFrom(reread: Result -> Result, among: iset<Result>, file: Option<seq<Result>>, batch: seq<Result>,
                  next: Option<seq<Result>>)
    requires Closed(reread, among) && From(among, Contents(file)) && From(among, batch)
    requires Flushed(reread, file, batch, next)
    ensures From(among, Contents(next))
  {
    if batch != [] {
      FlushEffect(reread, file, batch, next);
      hide Flushed, Ranked, Ordered, Best, MaxMerge;
      var existing := ReadBack(reread, file);
      forall r | r in existing ensures r in among {
        var p :| 0 <= p < |existing| && existing[p] == r;
        assert r == reread(file.value[p]) && file.value[p] in Contents(file);
      }
    }
  }

  lemma {:induction false} FilesFrom(reread: Result -> Result, among: iset<Result>, batches: seq<seq<Result>>,
                                     files: seq<Option<seq<Result>>>, i: nat)
    requires Closed(reread, among) && Fed(among, batches) && FlushRun(reread, batches, files) && i <= |batches|
    ensures From(among, Contents(files[i]))
  {
    if i > 0 {
      hide Closed, From, Flushed, Contents;
      FilesFrom(reread, among, batches, files, i - 1);
      FlushFrom(reread, among, files[i - 1], batches[i - 1], files[i]);
    }
  }

  lemma FlushStands(reread: Result -> Result, among: iset<Result>, file: Option<seq<Result>>, batch: seq<Result>,
                    next: Option<seq<Result>>)
    requires KeepsKeys(reread) && Closed(reread, among) && OrderKept(reread, among) && From(among, batch)
    requires Standing(reread, among, Contents(file)) && Flushed(reread, file, batch, next)
    ensures Standing(reread, among, Contents(next))
  {
    assert From(among, Contents(file));
    hide KeepsKeys, OrderKept, Closed, From, Standing, Ordered, ReadBack, KeyUnique, ScoreDescending;
    StandingReadsBack(reread, among, file);
    if batch != [] {
      FlushFrom(reread, among, file, batch, next);
      FlushEffect(reread, file, batch, next);
      OrderedStands(reread, among, file, Contents(next));
    }
  }

  lemma NothingStands(reread: Result -> Result, among: iset<Result>)
    ensures Standing(reread, among, Contents(None))
  {
  }

  /** If formatting and parsing keep the order, the file is score-descending
      and key-unique after every flush, however the stream is cut. */
  lemma {:induction false} AlwaysRanked(reread: Result -> Result, among: iset<Result>, batches: seq<seq<Result>>,
                                        files: seq<Option<seq<Result>>>, i: nat)
    requires KeepsKeys(reread) && Closed(reread, among) && OrderKept(reread, among)
    requires Fed(among, batches) && FlushRun(reread, batches, files) && i <= |batches|
    ensures Standing(reread, among, Contents(files[i])) && Ranked(Contents(files[i]))
  {
    hide KeepsKeys, OrderKept, Closed, From, Standing, Flushed, Contents, Ranked;
    if i > 0 {
      AlwaysRanked(reread, among, batches, files, i - 1);
      FlushStands(reread, among, files[i - 1], batches[i - 1], files[i]);
    } else {
      NothingStands(reread, among);
    }
    StandingReadsBack(reread, among, files[i]);
  }

  /** After every flush of every stream from the set the file is ranked. */
  ghost predicate StaysRanked(reread: Result -> Result, among: iset<Result>) {
    forall batches, files, i ::
      Fed(among, batches) && FlushRun(reread, batches, files) && 0 <= i < |files| ==> Ranked(Contents(files[i]))
  }

  // ----- runs that show the condition is needed -----

  lemma LowStep(out: seq<Result>, e: Result, d: Result)
    requires e.key != d.key && e.score >= d.score
    ensures Absorb([d], State(0, [false], out), e) == State(0, [false], out + [e])
  {
    assert Find([d], e.key) == None by {
      assert [d][..0] == [];
    }
    assert DrainAbove([d], State(0, [false], out), e.score) == State(0, [false], out);
    hide Find, DrainAbove;
  }

  /** A batch record below the whole file, with a new key, goes to its end. */
  lemma {:induction false} LowLast(existing: seq<Result>, d: Result, x: nat)
    requires x <= |existing| && forall i :: 0 <= i < |existing| ==>
            existing[i].key != d.key && existing[i].score >= d.score
    ensures AbsorbAll(existing[..x], [d]) == State(0, [false], existing[..x])
  {
    hide Absorb;
    if x == 0 {
      NothingAbsorbed(existing, d);
    } else {
      LowLast(existing, d, x - 1);
      LowStep(existing[..x - 1], existing[x - 1], d);
      assert existing[..x][..x - 1] == existing[..x - 1];
      assert existing[..x] == existing[..x - 1] + [existing[x - 1]];
      assert AbsorbAll(existing[..x], [d]) == Absorb([d], AbsorbAll(existing[..x - 1], [d]), existing[x - 1]);
    }
  }

  lemma NothingAbsorbed(existing: seq<Result>, d: Result)
    ensures AbsorbAll(existing[..0], [d]) == State(0, [false], existing[..0])
  {
    assert existing[..0] == [];
    assert Start([d]) == State(0, [false], []);
  }

  lemma LowMerge(existing: seq<Result>, d: Result)
    requires forall i :: 0 <= i < |existing| ==> existing[i].key != d.key && existing[i].score >= d.score
    ensures Merge(existing, [d]) == existing + [d]
  {
    LowLast(existing, d, |existing|);
    assert existing[..|existing|] == existing;
    var st := State(0, [false], existing);
    assert EmitRest([d], st, 0) == EmitRest([d], EmitDelta([d], st, 0), 1);
    assert EmitRest([d], EmitDelta([d], st, 0), 1) == EmitDelta([d], st, 0);
  }

  lemma DedupTwo(r: Result, s: Result)
    ensures Dedup([r]) == [r] && (r.key != s.key ==> Dedup([r, s]) == [r, s])
  {
    hide Dedup, Keys;
    var one, two := [r], [r, s];
    assert one[..0] == [] == two[..0] && one[..1] == [r] == two[..1] && two[..2] == two;
    DedupNone(one);
    DedupStep(one, 0);
    DedupStep(two, 1);
  }

  lemma FlushLow(reread: Result -> Result, file: Option<seq<Result>>, d: Result)
    requires var e := ReadBack(reread, file);
             forall i :: 0 <= i < |e| ==> e[i].key != d.key && e[i].score >= d.score
    ensures Flushed(reread, file, [d], Some(ReadBack(reread, file) + [d]))
  {
    LowMerge(ReadBack(reread, file), d);
    DedupTwo(d, d);
    hide Merge, Dedup, ReadBack;
    assert IsSortOf([d], [d]);
  }

  /** A first flush of two records in the batch order writes them. */
  lemma FlushTwo(reread: Result -> Result, r: Result, s: Result)
    requires r.key != s.key && CmpResult(r, s) < 0
    ensures Flushed(reread, None, [r, s], Some([r, s]))
  {
    DedupTwo(r, s);
    StartMerge([r, s]);
    hide Merge, Dedup, CmpResult;
    assert IsSortOf([r, s], [r, s]);
  }

  /** Every batch has some flush. */
  lemma SomeFlush(reread: Result -> Result, file: Option<seq<Result>>, batch: seq<Result>)
    returns (next: Option<seq<Result>>)
    ensures Flushed(reread, file, batch, next)
  {
    hide Merge, Dedup, ReadBack;
    if batch == [] {
      return file;
    }
    CmpResultOrders();
    StableSortIsStable(CmpResult, batch);
    hide TotalPreorder, CmpResult, Sorted;
    var sorted := StableSort(CmpResult, batch);
    assert IsSortOf(sorted, batch);
    next := Some(Merge(ReadBack(reread, file), Dedup(sorted)));
  }

  lemma FindLower(among: iset<Result>, r: Result, s: Result) returns (d: Result)
    requires HasLower(among) && r in among && s in among
    ensures Lower(among, r, s, d)
  {
    assert Pair(among, r, s);
    d :| Lower(among, r, s, d);
  }

  /** Once a file holds two records that read back swapped, one more flush of
      a low record leaves an unranked file. */
  lemma SwappedUnranks(reread: Result -> Result, among: iset<Result>, batches: seq<seq<Result>>,
                       files: seq<Option<seq<Result>>>, r: Result, s: Result)
    requires KeepsKeys(reread) && Closed(reread, among) && HasLower(among) && Fed(among, batches)
    requires FlushRun(reread, batches, files) && r.key != s.key && r in among && s in among
    requires |files| == |batches| + 1 && files[|batches|] == Some([r, s])
    requires reread(r).score < reread(s).score
    ensures !StaysRanked(reread, among)
  {
    var d := FindLower(among, reread(r), reread(s));
    assert ReadBack(reread, Some([r, s])) == [reread(r), reread(s)];
    FlushLow(reread, Some([r, s]), d);
    var next := Some([reread(r), reread(s)] + [d]);
    hide FlushRun, Flushed, ReadBack, KeepsKeys, HasLower, Closed;
    RunExtends(reread, batches, files, [d], next);
    FedMore(among, batches, d);
    var f := files + [next];
    assert Contents(f[|f| - 1])[0].score < Contents(f[|f| - 1])[1].score;
  }

  lemma FedMore(among: iset<Result>, batches: seq<seq<Result>>, d: Result)
    requires Fed(among, batches) && d in among
    ensures Fed(among, batches + [[d]])
  {
  }

  lemma RunExtends(reread: Result -> Result, batches: seq<seq<Result>>, files: seq<Option<seq<Result>>>,
                   batch: seq<Result>, next: Option<seq<Result>>)
    requires FlushRun(reread, batches, files) && Flushed(reread, files[|batches|], batch, next)
    ensures FlushRun(reread, batches + [batch], files + [next])
  {
    var b, f := batches + [batch], files + [next];
    hide Flushed;
    forall i {:trigger b[i]} | 0 <= i < |b| ensures Flushed(reread, f[i], b[i], f[i + 1]) {
      if i < |batches| {
        assert b[i] == batches[i] && f[i] == files[i] && f[i + 1] == files[i + 1];
      }
    }
  }

  lemma OneFlush(reread: Result -> Result, batch: seq<Result>, file: Option<seq<Result>>)
    requires Flushed(reread, None, batch, file)
    ensures FlushRun(reread, [batch], [None, file])
  {
    hide Flushed;
  }

  lemma TwoFlushes(reread: Result -> Result, x: Result, s: Result)
    requires KeepsKeys(reread) && s.key != x.key && s.score <= reread(x).score
    ensures FlushRun(reread, [[x], [s]], [None, Some([x]), Some([reread(x), s])])
  {
    KeyKept(reread, x);
    hide Flushed, KeepsKeys;
    assert ReadBack(reread, None) + [x] == [x];
    assert ReadBack(reread, Some([x])) == [reread(x)];
    assert [reread(x)] + [s] == [reread(x), s];
    FlushLow(reread, None, x);
    FlushLow(reread, Some([x]), s);
  }

  lemma RecordBefore(reread: Result -> Result, among: iset<Result>, r: Result, s: Result)
    requires Precedes(reread, among, r, s) && r.score <= s.score && StrCmp(r.key, s.key) >= 0
    ensures exists x :: x in among && reread(x) == r
  {
  }

  /** The file stays ranked on every stream from the set and every cutting of
      it, if and only if formatting and parsing keep the order of every two of
      its records that a file can hold in that order. Ties matter: a record
      read back from the file precedes every record of its score, other ties
      go by key. */
  lemma RankedIffOrderKept(reread: Result -> Result, among: iset<Result>)
    requires KeepsKeys(reread) && Closed(reread, among) && HasLower(among)
    ensures StaysRanked(reread, among) <==> OrderKept(reread, among)
  {
    hide Flushed, Ranked, Contents, KeepsKeys, HasLower, Fed;
    if OrderKept(reread, among) {
      hide OrderKept, Closed;
      forall batches, files, i | Fed(among, batches) && FlushRun(reread, batches, files) && 0 <= i < |files|
        ensures Ranked(Contents(files[i]))
      {
        AlwaysRanked(reread, among, batches, files, i);
      }
    } else {
      var r: Result, s: Result :| r in among && s in among && r.key != s.key && Precedes(reread, among, r, s) &&
                                  reread(r).score < reread(s).score;
      hide StaysRanked, OrderKept, Closed;
      Unranked(reread, among, r, s);
    }
  }

  lemma Unranked(reread: Result -> Result, among: iset<Result>, r: Result, s: Result)
    requires KeepsKeys(reread) && Closed(reread, among) && HasLower(among)
    requires r in among && s in among && r.key != s.key && Precedes(reread, among, r, s)
    requires reread(r).score < reread(s).score
    ensures !StaysRanked(reread, among)
  {
    hide Flushed, KeepsKeys, HasLower, StaysRanked, Closed, FlushRun;
    if r.score > s.score || StrCmp(r.key, s.key) < 0 {
      FlushTwo(reread, r, s);
      OneFlush(reread, [r, s], Some([r, s]));
      SwappedUnranks(reread, among, [[r, s]], [None, Some([r, s])], r, s);
    } else {
      RecordBefore(reread, among, r, s);
      var x :| x in among && reread(x) == r;
      KeyKept(reread, x);
      TwoFlushes(reread, x, s);
      SwappedUnranks(reread, among, [[x], [s]], [None, Some([x]), Some([r, s])], r, s);
    }
  }

  lemma KeyKept(reread: Result -> Result, r: Result)
    requires KeepsKeys(reread)
    ensures reread(r).key == r.key
  {
  }

  // ----- the best score of every key -----

  lemma ReadBackAppend(reread: Result -> Result, s: seq<Result>, r: Result)
    ensures ReadBack(reread, Some(s + [r])) == ReadBack(reread, Some(s)) + [reread(r)]
  {
  }

  lemma {:induction false} SameTable(reread: Result -> Result, among: iset<Result>, s: seq<Result>)
    requires KeepsKeys(reread) && KeepsScores(reread, among) && From(among, s)
    ensures Best(ReadBack(reread, Some(s))) == Best(s)
  {
    if s != [] {
      var n := |s| - 1;
      var r := s[n];
      assert s == s[..n] + [r];
      SameTable(reread, among, s[..n]);
      KeyKept(reread, r);
      assert reread(r).score == r.score;
      hide ReadBack, KeepsScores, KeepsKeys, From, Best;
      ReadBackAppend(reread, s[..n], r);
      BestAppend(s[..n], r);
      BestAppend(ReadBack(reread, Some(s[..n])), reread(r));
    }
  }

  lemma NothingRead(reread: Result -> Result)
    ensures ReadBack(reread, None) == [] && Contents(None) == [] && Ranked([]) && Best([]) == map[]
  {
  }

  lemma FlushTable(reread: Result -> Result, among: iset<Result>, file: Option<seq<Result>>, batch: seq<Result>,
                   next: Option<seq<Result>>, sofar: seq<Result>)
    requires KeepsKeys(reread) && KeepsScores(reread, among) && From(among, Contents(file))
    requires Flushed(reread, file, batch, next) && Best(Contents(file)) == Best(sofar)
    ensures Best(Contents(next)) == Best(sofar + batch)
  {
    if batch == [] {
      assert sofar + batch == sofar;
    } else {
      hide Flushed, Best, Ranked, MaxMerge, Ordered, KeepsKeys, KeepsScores, From, ReadBack;
      FlushEffect(reread, file, batch, next);
      BestConcat(sofar, batch);
      if file.Some? {
        SameTable(reread, among, file.value);
      } else {
        NothingRead(reread);
      }
    }
  }

  lemma OrderFromScores(reread: Result -> Result, among: iset<Result>)
    requires KeepsScores(reread, among)
    ensures OrderKept(reread, among) && NeverLowers(reread, among)
  {
  }

  lemma {:induction false} FoldedTable(reread: Result -> Result, among: iset<Result>, batches: seq<seq<Result>>,
                                       files: seq<Option<seq<Result>>>, i: nat)
    requires KeepsKeys(reread) && Closed(reread, among) && KeepsScores(reread, among)
    requires Fed(among, batches) && FlushRun(reread, batches, files) && i <= |batches|
    ensures Best(Contents(files[i])) == Best(Concat(batches[..i]))
  {
    hide KeepsKeys, KeepsScores, Closed, From, Fed, Flushed, Best, Contents, Concat;
    if i > 0 {
      FoldedTable(reread, among, batches, files, i - 1);
      ConcatStep(batches, i);
      FilesFrom(reread, among, batches, files, i - 1);
      FlushTable(reread, among, files[i - 1], batches[i - 1], files[i], Concat(batches[..i - 1]));
    } else {
      NothingRead(reread);
      ConcatNone(batches);
    }
  }

  /** A stream of records that read back with their scores: after each flush
      the file is ranked and its score table is that of everything flushed. */
  lemma FoldedBest(reread: Result -> Result, among: iset<Result>, batches: seq<seq<Result>>,
                   files: seq<Option<seq<Result>>>, i: nat)
    requires KeepsKeys(reread) && Closed(reread, among) && KeepsScores(reread, among)
    requires Fed(among, batches) && FlushRun(reread, batches, files) && i <= |batches|
    ensures Ranked(Contents(files[i])) && Best(Contents(files[i])) == Best(Concat(batches[..i]))
  {
    OrderFromScores(reread, among);
    hide KeepsKeys, KeepsScores, OrderKept, NeverLowers, Closed, Fed, FlushRun, Best, Ranked, Contents, Standing,
         Concat;
    AlwaysRanked(reread, among, batches, files, i);
    FoldedTable(reread, among, batches, files, i);
  }

  lemma ConcatStep(batches: seq<seq<Result>>, i: nat)
    requires 0 < i <= |batches|
    ensures Concat(batches[..i]) == Concat(batches[..i - 1]) + batches[i - 1]
  {
    assert batches[..i][..i - 1] == batches[..i - 1];
  }

  lemma ConcatNone(batches: seq<seq<Result>>)
    ensures Concat(batches[..0]) == []
  {
  }

  /** Every cutting of every stream from the set ends with the score table of
      one merge. */
  ghost predicate BatchingFree(reread: Result -> Result, among: iset<Result>) {
    forall batches, files, once ::
      Fed(among, batches) && FlushRun(reread, batches, files) && Flushed(reread, None, Concat(batches), once) ==>
        Best(Contents(files[|batches|])) == Best(Contents(once))
  }

  lemma OneMerge(reread: Result -> Result, whole: seq<Result>, once: Option<seq<Result>>)
    requires Flushed(reread, None, whole, once)
    ensures Best(Contents(once)) == Best(whole)
  {
    if whole != [] {
      FlushEffect(reread, None, whole, once);
      NothingRead(reread);
      hide Flushed, Best, ReadBack, Ranked, Ordered, Contents;
      assert MaxMerge(map[], Best(whole)) == Best(whole);
    }
  }

  lemma BestOne(r: Result)
    ensures Best([r]) == map[r.key := r.score]
  {
    assert [] + [r] == [r];
    BestAppend([], r);
  }

  lemma BestTwo(r: Result, s: Result)
    requires r.key != s.key
    ensures r.key in Best([r, s]) && Best([r, s])[r.key] == r.score
  {
    assert [] + [r] == [r] && [r] + [s] == [r, s];
    BestAppend([], r);
    BestAppend([r], s);
  }

  /** The best score of every key survives every cutting of every stream from
      the set, if and only if formatting and parsing keep every score. */
  lemma BatchingIrrelevant(reread: Result -> Result, among: iset<Result>)
    requires KeepsKeys(reread) && Closed(reread, among) && HasLower(among)
    ensures BatchingFree(reread, among) <==> KeepsScores(reread, among)
  {
    hide Flushed, Contents, Best, Fed, Closed, HasLower, KeepsKeys;
    if KeepsScores(reread, among) {
      hide KeepsScores;
      forall batches, files, once | Fed(among, batches) && FlushRun(reread, batches, files) &&
                                    Flushed(reread, None, Concat(batches), once)
        ensures Best(Contents(files[|batches|])) == Best(Contents(once))
      {
        FoldedBest(reread, among, batches, files, |batches|);
        assert batches[..|batches|] == batches;
        OneMerge(reread, Concat(batches), once);
      }
    } else {
      var r :| r in among && reread(r).score != r.score;
      LostScore(reread, among, r);
    }
  }

  /** The score a record ends with once a lower one is flushed after it. */
  lemma NextFlush(reread: Result -> Result, among: iset<Result>, r: Result) returns (s: Result)
    requires KeepsKeys(reread) && Closed(reread, among) && HasLower(among) && r in among
    ensures s in among && s.key != r.key && Fed(among, [[r], [s]])
    ensures FlushRun(reread, [[r], [s]], [None, Some([r]), Some([reread(r), s])])
    ensures r.key in Best([reread(r), s]) && Best([reread(r), s])[r.key] == reread(r).score
  {
    s := FindLower(among, r, reread(r));
    KeyKept(reread, r);
    hide KeepsKeys, HasLower, Closed, FlushRun, Best;
    TwoFlushes(reread, r, s);
    BestTwo(reread(r), s);
  }

  lemma AloneOnFile(reread: Result -> Result, r: Result, file: Option<seq<Result>>)
    requires Flushed(reread, None, [r], file)
    ensures file == Some([r])
  {
    var sorted :| IsSortOf(sorted, [r]) && file == Some(Merge(ReadBack(reread, None), Dedup(sorted)));
    hide Merge, Dedup, Sorted;
    assert |multiset(sorted)| == |sorted| && |multiset([r])| == 1;
    assert sorted == [sorted[0]] && sorted[0] in multiset(sorted);
    DedupTwo(r, r);
    StartMerge([r]);
    NothingRead(reread);
  }

  /** A record that is flushed alone is on file, after other keys are flushed,
      with the score it was read back with. */
  lemma AloneThenOthers(reread: Result -> Result, r: Result, first: Option<seq<Result>>, others: seq<Result>,
                        last: Option<seq<Result>>)
    requires KeepsKeys(reread) && others != [] && forall s :: s in others ==> s.key != r.key
    requires Flushed(reread, None, [r], first) && Flushed(reread, first, others, last)
    ensures r.key in Best(Contents(last)) && Best(Contents(last))[r.key] == reread(r).score
  {
    KeyKept(reread, r);
    hide KeepsKeys, Flushed, Best, Contents, Ranked, Ordered;
    AloneOnFile(reread, r, first);
    assert ReadBack(reread, first) == [reread(r)];
    FlushEffect(reread, first, others, last);
    BestOne(reread(r));
    BestMeaning(others, r.key);
  }

  lemma ConcatPair(a: seq<Result>, b: seq<Result>)
    ensures Concat([a, b]) == a + b
  {
    assert [a, b][..1] == [a] && [a][..0] == [];
    assert Concat([a]) == a;
  }

  lemma LostScore(reread: Result -> Result, among: iset<Result>, r: Result)
    requires KeepsKeys(reread) && Closed(reread, among) && HasLower(among)
    requires r in among && reread(r).score != r.score
    ensures !BatchingFree(reread, among)
  {
    hide FlushRun, Flushed, Best, KeepsKeys, Closed, HasLower, Fed, Concat;
    var s := NextFlush(reread, among, r);
    var batches, files := [[r], [s]], [None, Some([r]), Some([reread(r), s])];
    ConcatPair([r], [s]);
    assert [r] + [s] == [r, s];
    var once := SomeFlush(reread, None, [r, s]);
    OneMerge(reread, [r, s], once);
    BestTwo(r, s);
    hide Contents;
    assert FlushRun(reread, batches, files) && Flushed(reread, None, Concat(batches), once);
    assert Contents(files[2]) == [reread(r), s] by {
      SomeContents([reread(r), s]);
    }
    assert Best(Contents(files[2])) != Best(Contents(once));
  }

  lemma SomeContents(s: seq<Result>)
    ensures Contents(Some(s)) == s
  {
  }

  // ----- what stays on file -----

  /** The result's key is on file. */
  ghost predicate KeyOnFile(file: Option<seq<Result>>, r: Result) {
    r.key in Best(Contents(file))
  }

  /** The key is on file with a score that high. */
  ghost predicate AtLeast(file: Option<seq<Result>>, key: string, score: real) {
    key in Best(Contents(file)) && Best(Contents(file))[key] >= score
  }

  /** The result's key is on file with a score at least as high. */
  ghost predicate OnFile(file: Option<seq<Result>>, r: Result) {
    AtLeast(file, r.key, r.score)
  }

  /** What was on file, or is in the batch, has its key on file after a flush,
      whatever order the file reads back in. */
  lemma FlushKeepsKeys(reread: Result -> Result, file: Option<seq<Result>>, batch: seq<Result>,
                       next: Option<seq<Result>>, r: Result)
    requires KeepsKeys(reread) && Flushed(reread, file, batch, next)
    ensures KeyOnFile(file, r) || r in batch ==> KeyOnFile(next, r)
  {
    if batch != [] {
      FlushEffect(reread, file, batch, next);
      BestMeaning(batch, r.key);
      ReadBackTable(reread, file, r.key);
      hide Flushed, Best, ReadBack, Contents;
    }
  }

  /** Reading back loses no key. */
  lemma ReadBackTable(reread: Result -> Result, file: Option<seq<Result>>, k: string)
    requires KeepsKeys(reread)
    ensures k in Best(Contents(file)) ==> k in Best(ReadBack(reread, file))
  {
    var s, t := Contents(file), ReadBack(reread, file);
    BestMeaning(s, k);
    BestMeaning(t, k);
    if k in Best(s) {
      var i :| 0 <= i < |s| && s[i].key == k;
      assert t[i] == reread(s[i]);
    }
  }

  /** A lower bound for every record of the set: what scores as high as the
      record, or beats its bound, does not fall below the bound when it is read
      back, nor does anything that was read back above it. */
  ghost predicate Bounds(reread: Result -> Result, among: iset<Result>, floor: Result -> real) {
    forall r: Result, d: Result :: r in among && d in among ==>
      && (d.score >= r.score || d.score > floor(r) ==> d.score >= floor(r) && reread(d).score >= floor(r))
      && (reread(d).score >= floor(r) ==> reread(reread(d)).score >= floor(r))
  }

  ghost predicate Strong(reread: Result -> Result, e: Result, key: string, score: real) {
    e.key == key && e.score >= score && reread(e).score >= score
  }

  /** Some record on file has the key, and will read back that high. */
  ghost predicate Lasts(reread: Result -> Result, file: Option<seq<Result>>, key: string, score: real) {
    exists e :: e in Contents(file) && Strong(reread, e, key, score)
  }

  lemma LastsAtLeast(reread: Result -> Result, file: Option<seq<Result>>, key: string, score: real)
    requires Lasts(reread, file, key, score)
    ensures AtLeast(file, key, score)
  {
    var e :| e in Contents(file) && Strong(reread, e, key, score);
    var s := Contents(file);
    var i :| 0 <= i < |s| && s[i] == e;
    BestMeaning(s, key);
  }

  /** A strong batch record is written, or stands behind a file record that is
      as good and as strong. */
  lemma StrongWritten(reread: Result -> Result, among: iset<Result>, floor: Result -> real, file: Option<seq<Result>>,
                      delta: seq<Result>, d: Result, r: Result)
    requires Bounds(reread, among, floor) && From(among, Contents(file)) && r in among && Ranked(delta)
    requires d in delta && Strong(reread, d, r.key, floor(r))
    ensures Lasts(reread, Some(Merge(ReadBack(reread, file), delta)), r.key, floor(r))
  {
    var existing := ReadBack(reread, file);
    MergeWrites(existing, delta, d);
    hide Merge, From;
    if !Unmet(existing, d) {
      var p :| 0 <= p < |existing| && existing[p].key == d.key && !Undercut(existing, p + 1, d.score);
      var x, e := file.value[p], existing[p];
      assert e == reread(x) && x in Contents(file) && x in among by {
        FromAt(among, Contents(file), p);
      }
      assert e.score >= d.score by {
        NotUndercut(existing, p, d.score);
      }
      BestOfKey(delta, d, e);
      MergeWrites(existing, delta, e);
      assert Strong(reread, e, r.key, floor(r));
    }
  }

  lemma FromAt(among: iset<Result>, s: seq<Result>, i: nat)
    requires From(among, s) && i < |s|
    ensures s[i] in among
  {
  }

  lemma NotUndercut(existing: seq<Result>, p: nat, score: real)
    requires p < |existing| && !Undercut(existing, p + 1, score)
    ensures existing[p].score >= score
  {
  }

  /** A file record as good as its key's batch record is kept. */
  lemma BestOfKey(delta: seq<Result>, d: Result, e: Result)
    requires KeyUnique(delta) && d in delta && d.key == e.key && d.score <= e.score
    ensures Kept(delta, e)
  {
    var j :| 0 <= j < |delta| && delta[j] == d;
    forall i | 0 <= i < |delta| && delta[i].key == e.key ensures delta[i].score <= e.score {
      assert i == j;
    }
  }

  /** The batch record of a key is as good as each record of the batch. */
  lemma BatchBest(sorted: seq<Result>, batch: seq<Result>, r: Result) returns (d: Result)
    requires IsSortOf(sorted, batch) && r in batch
    ensures d in Dedup(sorted) && d.key == r.key && d.score >= r.score
  {
    DedupRanked(sorted);
    BestOfSort(sorted, batch);
    var delta := Dedup(sorted);
    BestMeaning(batch, r.key);
    BestMeaning(delta, r.key);
    hide Dedup, Best;
    var i :| 0 <= i < |delta| && delta[i].key == r.key && delta[i].score == Best(delta)[r.key];
    d := delta[i];
  }

  /** What is on file above its bound, or in the batch, is on file above its
      bound after a flush, whatever order the file reads back in. */
  lemma FlushLasts(reread: Result -> Result, among: iset<Result>, floor: Result -> real, file: Option<seq<Result>>,
                   batch: seq<Result>, next: Option<seq<Result>>, r: Result)
    requires KeepsKeys(reread) && Bounds(reread, among, floor) && From(among, Contents(file)) && From(among, batch)
    requires r in among && Flushed(reread, file, batch, next)
    requires Lasts(reread, file, r.key, floor(r)) || r in batch
    ensures Lasts(reread, next, r.key, floor(r))
  {
    if batch != [] {
      var existing := ReadBack(reread, file);
      var sorted :| IsSortOf(sorted, batch) && next == Some(Merge(existing, Dedup(sorted)));
      hide Merge, Dedup, From, IsSortOf, KeepsKeys, Bounds, ReadBack, Lasts;
      MergeLasts(reread, among, floor, file, sorted, batch, r);
    }
  }

  lemma MergeLasts(reread: Result -> Result, among: iset<Result>, floor: Result -> real, file: Option<seq<Result>>,
                   sorted: seq<Result>, batch: seq<Result>, r: Result)
    requires KeepsKeys(reread) && Bounds(reread, among, floor) && From(among, Contents(file)) && From(among, batch)
    requires r in among && IsSortOf(sorted, batch)
    requires Lasts(reread, file, r.key, floor(r)) || r in batch
    ensures Lasts(reread, Some(Merge(ReadBack(reread, file), Dedup(sorted))), r.key, floor(r))
  {
    var delta := Dedup(sorted);
    SortedDelta(among, sorted, batch);
    hide Merge, Dedup, From, IsSortOf, BatchOrder, Best, KeepsKeys, Bounds, ReadBack, Ranked, Lasts, Strong;
    if r in batch {
      var d := StrongDelta(reread, among, floor, sorted, batch, r);
      StrongWritten(reread, among, floor, file, delta, d, r);
    } else {
      LastingFlush(reread, among, floor, file, delta, r);
    }
  }

  lemma StrongDelta(reread: Result -> Result, among: iset<Result>, floor: Result -> real, sorted: seq<Result>,
                    batch: seq<Result>, r: Result) returns (d: Result)
    requires Bounds(reread, among, floor) && From(among, Dedup(sorted)) && r in among
    requires IsSortOf(sorted, batch) && r in batch
    ensures d in Dedup(sorted) && Strong(reread, d, r.key, floor(r))
  {
    d := BatchBest(sorted, batch, r);
    InSet(among, Dedup(sorted), d);
    hide Dedup, From, IsSortOf;
  }

  lemma InSet(among: iset<Result>, s: seq<Result>, r: Result)
    requires From(among, s) && r in s
    ensures r in among
  {
  }

  lemma SortedDelta(among: iset<Result>, sorted: seq<Result>, batch: seq<Result>)
    requires IsSortOf(sorted, batch) && From(among, batch)
    ensures Ranked(Dedup(sorted)) && From(among, Dedup(sorted))
  {
    DedupRanked(sorted);
    DeltaFrom(among, sorted, batch);
    hide Dedup, From, Sorted, Ranked, BatchOrder, Best;
  }

  lemma DeltaFrom(among: iset<Result>, sorted: seq<Result>, batch: seq<Result>)
    requires multiset(sorted) == multiset(batch) && From(among, batch)
    ensures From(among, Dedup(sorted))
  {
    DedupMembers(sorted);
    hide Dedup;
    forall r | r in Dedup(sorted) ensures r in batch {
      assert r in multiset(sorted);
    }
  }

  lemma LastingFlush(reread: Result -> Result, among: iset<Result>, floor: Result -> real, file: Option<seq<Result>>,
                     delta: seq<Result>, r: Result)
    requires KeepsKeys(reread) && Bounds(reread, among, floor) && From(among, Contents(file)) && From(among, delta)
    requires r in among && Ranked(delta) && Lasts(reread, file, r.key, floor(r))
    ensures Lasts(reread, Some(Merge(ReadBack(reread, file), delta)), r.key, floor(r))
  {
    var existing := ReadBack(reread, file);
    var e :| e in Contents(file) && Strong(reread, e, r.key, floor(r));
    InSet(among, Contents(file), e);
    KeyKept(reread, e);
    ReadIn(reread, file, e);
    var e1 := reread(e);
    assert Strong(reread, e1, r.key, floor(r));
    hide Merge, From, KeepsKeys;
    if Kept(delta, e1) {
      MergeWrites(existing, delta, e1);
    } else {
      var i :| 0 <= i < |delta| && delta[i].key == e1.key && delta[i].score > e1.score;
      var d := delta[i];
      InSet(among, delta, d);
      assert Strong(reread, d, r.key, floor(r));
      StrongWritten(reread, among, floor, file, delta, d, r);
    }
  }

  lemma ReadIn(reread: Result -> Result, file: Option<seq<Result>>, e: Result)
    requires e in Contents(file)
    ensures reread(e) in ReadBack(reread, file)
  {
    var s, t := Contents(file), ReadBack(reread, file);
    var i :| 0 <= i < |s| && s[i] == e;
    assert t[i] == reread(s[i]);
  }

  /** After every flush, everything flushed so far is on file above its
      bound. */
  lemma {:induction false} StaysAbove(reread: Result -> Result, among: iset<Result>, floor: Result -> real,
                                      batches: seq<seq<Result>>, files: seq<Option<seq<Result>>>, i: nat, r: Result)
    requires KeepsKeys(reread) && Closed(reread, among) && Bounds(reread, among, floor) && Fed(among, batches)
    requires FlushRun(reread, batches, files) && i <= |batches| && r in Concat(batches[..i])
    ensures r in among && Lasts(reread, files[i], r.key, floor(r))
  {
    hide KeepsKeys, Closed, Bounds, Flushed, From, Lasts, Contents, Concat;
    if i > 0 {
      ConcatStep(batches, i);
      FilesFrom(reread, among, batches, files, i - 1);
      if r in batches[i - 1] {
        InSet(among, batches[i - 1], r);
      } else {
        StaysAbove(reread, among, floor, batches, files, i - 1, r);
      }
      FlushLasts(reread, among, floor, files[i - 1], batches[i - 1], files[i], r);
    } else {
      ConcatNone(batches);
    }
  }

  function ItsScore(): Result -> real {
    (r: Result) => r.score
  }

  lemma ScoreBounds(reread: Result -> Result, among: iset<Result>)
    requires Closed(reread, among) && NeverLowers(reread, among)
    ensures Bounds(reread, among, ItsScore())
  {
  }

  /** Every flushed record of the set stays on file with a score at least as
      high. */
  ghost predicate NothingWorsens(reread: Result -> Result, among: iset<Result>) {
    forall batches, files, r :: Fed(among, batches) && FlushRun(reread, batches, files) && r in Concat(batches) ==>
      OnFile(files[|batches|], r)
  }

  /** Flushed scores never worsen on file, if and only if formatting and
      parsing lower none of the set. */
  lemma PersistsIffNeverLowers(reread: Result -> Result, among: iset<Result>)
    requires KeepsKeys(reread) && Closed(reread, among) && HasLower(among)
    ensures NothingWorsens(reread, among) <==> NeverLowers(reread, among)
  {
    hide Flushed, OnFile, KeepsKeys, Closed, HasLower, Fed, Bounds, Lasts;
    if NeverLowers(reread, among) {
      ScoreBounds(reread, among);
      hide NeverLowers;
      forall batches, files, r | Fed(among, batches) && FlushRun(reread, batches, files) && r in Concat(batches)
        ensures OnFile(files[|batches|], r)
      {
        assert batches[..|batches|] == batches;
        StaysAbove(reread, among, ItsScore(), batches, files, |batches|, r);
        LastsOnFile(reread, files[|batches|], r);
      }
    } else {
      var r :| r in among && reread(r).score < r.score;
      Worsened(reread, among, r);
    }
  }

  lemma LastsOnFile(reread: Result -> Result, file: Option<seq<Result>>, r: Result)
    requires Lasts(reread, file, r.key, ItsScore()(r))
    ensures OnFile(file, r)
  {
    LastsAtLeast(reread, file, r.key, r.score);
  }

  lemma Worsened(reread: Result -> Result, among: iset<Result>, r: Result)
    requires KeepsKeys(reread) && Closed(reread, among) && HasLower(among)
    requires r in among && reread(r).score < r.score
    ensures !NothingWorsens(reread, among)
  {
    var s := NextFlush(reread, among, r);
    var batches, files := [[r], [s]], [None, Some([r]), Some([reread(r), s])];
    ConcatMember(batches, 0, r);
    hide FlushRun, Best, KeepsKeys, Closed, HasLower, Concat, Fed;
    assert FlushRun(reread, batches, files) && r in Concat(batches);
    assert !OnFile(files[|batches|], r);
  }
}
