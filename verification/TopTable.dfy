/** The live table of a scan stage: the best rows so far, kept by merging small
    sorted batches into a bounded sorted list. */
module TopTable {
  import opened Options
  import opened Ordering
  import opened Results
  import opened Seqs

  const DEFAULT_MAX_ROW: nat := 10_000

  // ----- merging sorted lists -----

  /** On ties, elements of a come first. */
  function Merge<T>(cmp: (T, T) -> int, a: seq<T>, b: seq<T>): (r: seq<T>)
    ensures |r| == |a| + |b|
  {
    if b == [] then a
    else if a == [] then b
    else if cmp(b[0], a[0]) < 0 then [b[0]] + Merge(cmp, a, b[1..])
    else [a[0]] + Merge(cmp, a[1..], b)
  }

  function Take<T>(s: seq<T>, n: nat): (r: seq<T>)
    ensures |r| == if |s| < n then |s| else n
  {
    if |s| < n then s else s[..n]
  }

  lemma MergeStep<T>(cmp: (T, T) -> int, a: seq<T>, b: seq<T>)
    ensures a == [] ==> Merge(cmp, a, b) == b
    ensures b == [] ==> Merge(cmp, a, b) == a
    ensures a != [] && b != [] ==>
              Merge(cmp, a, b) == if cmp(b[0], a[0]) < 0 then [b[0]] + Merge(cmp, a, b[1..])
                                  else [a[0]] + Merge(cmp, a[1..], b)
  {
  }

  lemma InsertStep<T>(cmp: (T, T) -> int, x: T, a: seq<T>)
    ensures Insert(cmp, x, a) == if a == [] || cmp(x, a[0]) <= 0 then [x] + a else [a[0]] + Insert(cmp, x, a[1..])
  {
  }

  lemma InsertInto<T>(cmp: (T, T) -> int, x: T, h: T, a: seq<T>)
    ensures Insert(cmp, x, [h] + a) == if cmp(x, h) <= 0 then [x] + ([h] + a) else [h] + Insert(cmp, x, a)
  {
    assert ([h] + a)[1..] == a;
  }

  lemma MergeInto<T>(cmp: (T, T) -> int, x: T, a: seq<T>, b: seq<T>)
    ensures b != [] ==>
              Merge(cmp, [x] + a, b) == if cmp(b[0], x) < 0 then [b[0]] + Merge(cmp, [x] + a, b[1..])
                                        else [x] + Merge(cmp, a, b)
  {
    assert ([x] + a)[1..] == a;
  }

  lemma Three<T(!new)>(cmp: (T, T) -> int, x: T, a: T, b: T)
    requires TotalPreorder(cmp)
    ensures cmp(x, b) <= 0 && cmp(b, a) < 0 ==> cmp(x, a) <= 0
    ensures cmp(x, a) <= 0 && cmp(b, a) >= 0 ==> cmp(b, x) >= 0
    ensures cmp(x, b) > 0 <==> cmp(b, x) < 0
  {
    assert cmp(b, a) < 0 ==> cmp(b, a) <= 0;
    assert cmp(b, a) >= 0 ==> cmp(a, b) <= 0;
  }

  /** Inserting into a merge is merging an insertion into the first list. */
  lemma {:induction false} InsertMerge<T(!new)>(cmp: (T, T) -> int, x: T, a: seq<T>, b: seq<T>)
    requires TotalPreorder(cmp)
    ensures Insert(cmp, x, Merge(cmp, a, b)) == Merge(cmp, Insert(cmp, x, a), b)
    decreases |a| + |b|
  {
    hide Insert, Merge, TotalPreorder;
    MergeStep(cmp, a, b);
    InsertStep(cmp, x, a);
    MergeStep(cmp, Insert(cmp, x, a), b);
    if b != [] {
      if a == [] {
        Three(cmp, x, x, b[0]);
        InsertStep(cmp, x, b);
        MergeInto(cmp, x, a, b);
        if cmp(b[0], x) < 0 {
          InsertMerge(cmp, x, a, b[1..]);
          MergeStep(cmp, a, b[1..]);
        }
      } else {
        Three(cmp, x, a[0], b[0]);
        MergeInto(cmp, x, a, b);
        if cmp(b[0], a[0]) < 0 {
          InsertMerge(cmp, x, a, b[1..]);
          InsertInto(cmp, x, b[0], Merge(cmp, a, b[1..]));
          MergeInto(cmp, a[0], Insert(cmp, x, a[1..]), b);
        } else {
          InsertMerge(cmp, x, a[1..], b);
          InsertInto(cmp, x, a[0], Merge(cmp, a[1..], b));
          MergeInto(cmp, a[0], Insert(cmp, x, a[1..]), b);
        }
      }
    }
  }

  lemma SortStep<T>(cmp: (T, T) -> int, s: seq<T>)
    ensures s == [] ==> StableSort(cmp, s) == []
    ensures s != [] ==> StableSort(cmp, s) == Insert(cmp, s[0], StableSort(cmp, s[1..]))
  {
  }

  /** Merging two stably sorted halves stably sorts the whole. */
  lemma {:induction false} SortMerge<T(!new)>(cmp: (T, T) -> int, s: seq<T>, t: seq<T>)
    requires TotalPreorder(cmp)
    ensures StableSort(cmp, s + t) == Merge(cmp, StableSort(cmp, s), StableSort(cmp, t))
  {
    hide StableSort, Insert, Merge, TotalPreorder;
    SortStep(cmp, s);
    SortStep(cmp, s + t);
    if s == [] {
      assert s + t == t;
      MergeStep(cmp, [], StableSort(cmp, t));
    } else {
      SortMerge(cmp, s[1..], t);
      assert (s + t)[1..] == s[1..] + t;
      InsertMerge(cmp, s[0], StableSort(cmp, s[1..]), StableSort(cmp, t));
    }
  }

  /** Only the first n of each list can reach the first n of the merge. */
  lemma {:induction false} MergeTake<T>(cmp: (T, T) -> int, a: seq<T>, b: seq<T>, n: nat, p: nat, q: nat)
    requires n <= p && n <= q
    ensures Take(Merge(cmp, Take(a, p), Take(b, q)), n) == Take(Merge(cmp, a, b), n)
    decreases |a| + |b|
  {
    hide Merge;
    var c, d := Take(a, p), Take(b, q);
    MergeStep(cmp, a, b);
    MergeStep(cmp, c, d);
    if n > 0 && a != [] && b != [] {
      assert c[0] == a[0] && d[0] == b[0];
      if cmp(b[0], a[0]) < 0 {
        MergeTake(cmp, a, b[1..], n - 1, p, q - 1);
        assert d[1..] == Take(b[1..], q - 1);
        TakeCons(b[0], Merge(cmp, c, d[1..]), n);
        TakeCons(b[0], Merge(cmp, a, b[1..]), n);
      } else {
        MergeTake(cmp, a[1..], b, n - 1, p - 1, q);
        assert c[1..] == Take(a[1..], p - 1);
        TakeCons(a[0], Merge(cmp, c[1..], d), n);
        TakeCons(a[0], Merge(cmp, a[1..], b), n);
      }
    }
  }

  lemma TakeCons<T>(x: T, s: seq<T>, n: nat)
    requires n > 0
    ensures Take([x] + s, n) == [x] + Take(s, n - 1)
  {
  }

  /** When nothing in b beats the n-th element of a, the first n stay. */
  lemma {:induction false} NothingEnters<T(!new)>(cmp: (T, T) -> int, a: seq<T>, b: seq<T>, n: nat)
    requires TotalPreorder(cmp) && Sorted(cmp, a) && 0 < n <= |a|
    requires b != [] && cmp(b[0], a[n - 1]) >= 0
    ensures Take(Merge(cmp, a, b), n) == a[..n]
  {
    hide Merge;
    MergeStep(cmp, a, b);
    assert n > 1 ==> cmp(a[0], a[n - 1]) <= 0;
    assert cmp(a[n - 1], b[0]) <= 0;
    assert cmp(a[0], b[0]) <= 0;
    hide TotalPreorder;
    TakeCons(a[0], Merge(cmp, a[1..], b), n);
    assert a[..n] == [a[0]] + a[1..][..n - 1];
    if n > 1 {
      SortedTail(cmp, a);
      NothingEnters(cmp, a[1..], b, n - 1);
    }
  }

  // ----- what the table shows -----

  /** The first limit rows of everything received, in the table's order. */
  function Top(s: seq<Result>, limit: nat): seq<Result> {
    Take(StableSort(CmpResult, s), limit)
  }

  /** One merge: the batch is sorted and cut; a full table that the batch's
      best row does not beat is left alone. */
  function Absorb(results: seq<Result>, batch: seq<Result>, limit: nat): seq<Result>
    requires limit > 0
  {
    var b := Take(StableSort(CmpResult, batch), limit);
    if b == [] || (|results| >= limit && CmpResult(b[0], results[|results| - 1]) >= 0) then results
    else Take(Merge(CmpResult, results, b), limit)
  }

  /** Merging a batch into the table of what came before gives the table of
      all, despite the cut and the early exit. */
  lemma AbsorbTop(s: seq<Result>, batch: seq<Result>, limit: nat)
    requires limit > 0
    ensures Absorb(Top(s, limit), batch, limit) == Top(s + batch, limit)
  {
    hide StableSort, Merge, TotalPreorder, Sorted, CmpResult;
    CmpResultOrders();
    TableSorted(s);
    SortMerge(CmpResult, s, batch);
    AbsorbSorted(StableSort(CmpResult, s), StableSort(CmpResult, batch), limit);
  }

  lemma TableSorted(s: seq<Result>)
    ensures Sorted(CmpResult, StableSort(CmpResult, s))
  {
    hide StableSort, Sorted, CmpResult, TotalPreorder;
    CmpResultOrders();
    StableSortIsStable(CmpResult, s);
  }

  lemma AbsorbSorted(a: seq<Result>, b: seq<Result>, limit: nat)
    requires limit > 0 && Sorted(CmpResult, a) && TotalPreorder(CmpResult)
    ensures var r, c := Take(a, limit), Take(b, limit);
            (if c == [] || (|r| >= limit && CmpResult(c[0], r[|r| - 1]) >= 0) then r
             else Take(Merge(CmpResult, r, c), limit))
            == Take(Merge(CmpResult, a, b), limit)
  {
    hide Merge, TotalPreorder, Sorted, CmpResult;
    var r, c := Take(a, limit), Take(b, limit);
    if b == [] {
      MergeStep(CmpResult, a, b);
    } else if |r| >= limit && CmpResult(c[0], r[|r| - 1]) >= 0 {
      NothingEnters(CmpResult, a, b, limit);
    } else {
      MergeTake(CmpResult, a, b, limit, limit, limit);
    }
  }

  /** The table holds the rows nothing left out beats, best first. */
  lemma TopMeaning(s: seq<Result>, limit: nat)
    ensures var t := Top(s, limit);
            && |t| == (if |s| < limit then |s| else limit)
            && multiset(t) <= multiset(s)
            && (forall i, j :: 0 <= i < j < |t| ==> CmpResult(t[i], t[j]) <= 0)
            && forall shown, left :: shown in t && left in multiset(s) - multiset(t) ==> CmpResult(shown, left) <= 0
  {
    TableSorted(s);
    CmpResultOrders();
    StableSortIsStable(CmpResult, s);
    hide StableSort, CmpResult, TotalPreorder;
    CutMeaning(StableSort(CmpResult, s), limit);
  }

  lemma CutMeaning(all: seq<Result>, limit: nat)
    requires Sorted(CmpResult, all)
    ensures var t := Take(all, limit);
            && multiset(t) <= multiset(all)
            && (forall i, j :: 0 <= i < j < |t| ==> CmpResult(t[i], t[j]) <= 0)
            && forall shown, left :: shown in t && left in multiset(all) - multiset(t) ==> CmpResult(shown, left) <= 0
  {
    hide CmpResult;
    var t := Take(all, limit);
    var rest := all[|t|..];
    CutRest(all, |t|);
    forall shown, left | shown in t && left in rest ensures CmpResult(shown, left) <= 0 {
      LeftOut(all, |t|, shown, left);
    }
  }

  lemma CutRest(all: seq<Result>, n: nat)
    requires n <= |all|
    ensures multiset(all[..n]) <= multiset(all)
    ensures forall left :: left in multiset(all) - multiset(all[..n]) ==> left in all[n..]
  {
    assert all == all[..n] + all[n..];
    assert multiset(all) - multiset(all[..n]) == multiset(all[n..]);
  }

  lemma LeftOut(all: seq<Result>, n: nat, shown: Result, left: Result)
    requires Sorted(CmpResult, all) && n <= |all| && shown in all[..n] && left in all[n..]
    ensures CmpResult(shown, left) <= 0
  {
    hide CmpResult;
    var i :| 0 <= i < n && all[i] == shown;
    var j :| n <= j < |all| && all[j] == left;
    assert CmpResult(all[i], all[j]) <= 0;
  }

  function AbsorbAll(batches: seq<seq<Result>>, limit: nat): seq<Result>
    requires limit > 0
  {
    if batches == [] then [] else Absorb(AbsorbAll(batches[..|batches| - 1], limit), batches[|batches| - 1], limit)
  }

  /** For every batching of the arrivals the table is the same. */
  lemma {:induction false} BatchingIrrelevant(batches: seq<seq<Result>>, limit: nat)
    requires limit > 0
    ensures AbsorbAll(batches, limit) == Top(Concat(batches), limit)
  {
    if batches != [] {
      var n := |batches| - 1;
      BatchingIrrelevant(batches[..n], limit);
      AbsorbTop(Concat(batches[..n]), batches[n], limit);
    }
  }

  // ----- the stage -----

  /** A result as its own record parses back; kept as it is if it does not. */
  function Normalized(parser: Result -> Option<Result>, r: Result): Result {
    match parser(r)
    case Some(n) => n
    case None => r
  }

  function NormalizedAll(parser: Result -> Option<Result>, s: seq<Result>): seq<Result> {
    seq(|s|, i requires 0 <= i < |s| => Normalized(parser, s[i]))
  }

  /** Row by row: what the record parses back as, where it does. */
  lemma NormalizedRows(parser: Result -> Option<Result>, s: seq<Result>)
    ensures var n := NormalizedAll(parser, s);
            && |n| == |s|
            && (forall i :: 0 <= i < |s| && parser(s[i]).Some? ==> n[i] == parser(s[i]).value)
            && (forall i :: 0 <= i < |s| && parser(s[i]).None? ==> n[i] == s[i])
  {
  }

  lemma ParsedRows(parser: Result -> Option<Result>, s: seq<Result>, n: seq<Result>)
    requires |n| == |s|
    requires forall i :: 0 <= i < |s| && parser(s[i]).Some? ==> n[i] == parser(s[i]).value
    requires forall i :: 0 <= i < |s| && parser(s[i]).None? ==> n[i] == s[i]
    ensures n == NormalizedAll(parser, s)
  {
    NormalizedRows(parser, s);
    hide NormalizedAll;
  }

  method MergeSorted(a: seq<Result>, b: seq<Result>, limit: nat) returns (out: seq<Result>)
    ensures out == Take(Merge(CmpResult, a, b), limit)
  {
    hide Merge;
    out := [];
    var i, j := 0, 0;
    while |out| < limit && (i < |a| || j < |b|)
      invariant i <= |a| && j <= |b| && |out| <= limit
      invariant out + Merge(CmpResult, a[i..], b[j..]) == Merge(CmpResult, a, b)
      decreases |a| - i + |b| - j
    {
      RestStep(a, b, i, j, out);
      if j >= |b| {
        out := out + [a[i]];
        i := i + 1;
      } else if i >= |a| {
        out := out + [b[j]];
        j := j + 1;
      } else if CmpResult(b[j], a[i]) < 0 {
        out := out + [b[j]];
        j := j + 1;
      } else {
        out := out + [a[i]];
        i := i + 1;
      }
    }
    MergeStep(CmpResult, a[i..], b[j..]);
  }

  lemma RestStep(a: seq<Result>, b: seq<Result>, i: nat, j: nat, out: seq<Result>)
    requires i <= |a| && j <= |b| && (i < |a| || j < |b|)
    ensures out + Merge(CmpResult, a[i..], b[j..]) ==
            if i < |a| && (j >= |b| || CmpResult(b[j], a[i]) >= 0) then
              out + [a[i]] + Merge(CmpResult, a[i + 1..], b[j..])
            else out + [b[j]] + Merge(CmpResult, a[i..], b[j + 1..])
  {
    hide Merge, CmpResult;
    if i < |a| {
      assert a[i..][0] == a[i] && a[i..][1..] == a[i + 1..];
    }
    if j < |b| {
      assert b[j..][0] == b[j] && b[j..][1..] == b[j + 1..];
    }
    HeadStep(a[i..], b[j..], out);
  }

  lemma HeadStep(a: seq<Result>, b: seq<Result>, out: seq<Result>)
    requires a != [] || b != []
    ensures out + Merge(CmpResult, a, b) ==
            if a != [] && (b == [] || CmpResult(b[0], a[0]) >= 0) then out + [a[0]] + Merge(CmpResult, a[1..], b)
            else out + [b[0]] + Merge(CmpResult, a, b[1..])
  {
    hide Merge, CmpResult;
    MergeStep(CmpResult, a, b);
    if a != [] && (b == [] || CmpResult(b[0], a[0]) >= 0) {
      MergeStep(CmpResult, a[1..], b);
      assert Merge(CmpResult, a, b) == [a[0]] + Merge(CmpResult, a[1..], b);
    } else {
      MergeStep(CmpResult, a, b[1..]);
      assert Merge(CmpResult, a, b) == [b[0]] + Merge(CmpResult, a, b[1..]);
    }
  }

  /** The batch, each result as its own record parses back, sorted in place. */
  method SortedRows(parser: Result -> Option<Result>, batch: seq<Result>)
    returns (sorted: seq<Result>, ghost parsed: seq<Result>)
    ensures |parsed| == |batch| && sorted == StableSort(CmpResult, parsed)
    ensures forall i :: 0 <= i < |batch| && parser(batch[i]).Some? ==> parsed[i] == parser(batch[i]).value
    ensures forall i :: 0 <= i < |batch| && parser(batch[i]).None? ==> parsed[i] == batch[i]
  {
    var rows := new Result[|batch|](i requires 0 <= i < |batch| => batch[i]);
    for i := 0 to rows.Length
      invariant forall k :: 0 <= k < i ==>
                  rows[k] == if parser(batch[k]).Some? then parser(batch[k]).value else batch[k]
      invariant forall k :: i <= k < rows.Length ==> rows[k] == batch[k]
    {
      match parser(rows[i]) {
        case Some(norm) => rows[i] := norm;
        case None =>
      }
    }
    parsed := rows[..];
    CmpResultOrders();
    hide TotalPreorder, IsStableSort, StableSort, CmpResult;
    SortStableFunc(rows, CmpResult);
    sorted := rows[..];
  }

  /** The sorted batch is cut; a full table it cannot improve is kept. */
  method MergeRows(results: seq<Result>, rows: seq<Result>, limit: nat, ghost batch: seq<Result>)
    returns (r: seq<Result>)
    requires limit > 0 && rows != [] && rows == StableSort(CmpResult, batch)
    ensures r == Absorb(results, batch, limit)
  {
    hide StableSort, CmpResult, Merge;
    var b := if |rows| > limit then rows[..limit] else rows;
    assert b == Take(rows, limit);
    if |results| >= limit && CmpResult(b[0], results[|results| - 1]) >= 0 {
      return results;
    }
    r := MergeSorted(results, b, limit);
  }

  /** results belongs to the UI; batch is filled by the engine's workers. */
  class ScanStage {
    const maxIPs: nat
    const parser: Result -> Option<Result>
    var results: seq<Result>
    var batch: seq<Result>
    /** Everything merged so far, in arrival order. */
    ghost var merged: seq<Result>

    ghost predicate Valid()
      reads this
    {
      maxIPs > 0 ==> results == Top(NormalizedAll(parser, merged), maxIPs)
    }

    /** The table is the best of the merged results, each as its record parses
        back, or as it came if it does not parse. */
    lemma ShownRows()
      requires Valid() && maxIPs > 0
      ensures exists n: seq<Result> ::
                && |n| == |merged| && results == Top(n, maxIPs)
                && (forall i :: 0 <= i < |n| && parser(merged[i]).Some? ==> n[i] == parser(merged[i]).value)
                && (forall i :: 0 <= i < |n| && parser(merged[i]).None? ==> n[i] == merged[i])
      ensures forall r :: r in results ==>
                exists i :: 0 <= i < |merged| &&
                            if parser(merged[i]).Some? then r == parser(merged[i]).value else r == merged[i]
    {
      var n := NormalizedAll(parser, merged);
      NormalizedRows(parser, merged);
      TopMeaning(n, maxIPs);
      hide Top, NormalizedAll, CmpResult;
      forall r | r in results
        ensures exists i :: 0 <= i < |merged| &&
                            if parser(merged[i]).Some? then r == parser(merged[i]).value else r == merged[i]
      {
        assert r in multiset(n);
        var i :| 0 <= i < |n| && n[i] == r;
      }
    }

    constructor (maxRow: int, parser: Result -> Option<Result>)
      ensures Valid() && results == [] && batch == [] && merged == []
      ensures maxIPs == (if maxRow < 0 then DEFAULT_MAX_ROW else maxRow) && this.parser == parser
    {
      this.maxIPs := if maxRow < 0 then DEFAULT_MAX_ROW else maxRow;
      this.parser := parser;
      results, batch, merged := [], [], [];
    }

    method OnEngineSuccess(r: Result)
      requires Valid()
      modifies this
      ensures Valid() && results == old(results) && merged == old(merged)
      ensures batch == old(batch) + [r]
    {
      batch := batch + [r];
    }

    method TakeBatch() returns (out: seq<Result>)
      requires Valid()
      modifies this
      ensures Valid() && results == old(results) && merged == old(merged)
      ensures out == old(batch) && batch == []
    {
      out := batch;
      batch := [];
    }

    /** A batch taken before; the workers may have appended more since. With no
        rows allowed, reading the cut batch's best row panics. */
    method MergeTaken(taken: seq<Result>) returns (ok: bool)
      requires Valid()
      modifies this
      ensures Valid() && batch == old(batch)
      ensures ok <==> taken == [] || maxIPs > 0
      ensures merged == if ok then old(merged) + taken else old(merged)
    {
      hide StableSort, CmpResult, Merge, Top, Absorb, NormalizedAll;
      if |taken| == 0 {
        assert merged + taken == merged;
        return true;
      }
      var rows, parsed := SortedRows(parser, taken);
      ParsedRows(parser, taken, parsed);
      if maxIPs == 0 {
        return false;
      }
      NormalizedAppend(parser, merged, taken);
      AbsorbTop(NormalizedAll(parser, merged), NormalizedAll(parser, taken), maxIPs);
      results := MergeRows(results, rows, maxIPs, NormalizedAll(parser, taken));
      merged := merged + taken;
      ok := true;
    }

    /** The table after a merge is the best maxIPs of all rows merged so far. */
    method MergeBatch() returns (ok: bool)
      requires Valid()
      modifies this
      ensures Valid() && batch == []
      ensures ok <==> old(batch) == [] || maxIPs > 0
      ensures merged == if ok then old(merged) + old(batch) else old(merged)
      ensures maxIPs > 0 ==>
                exists n: seq<Result> ::
                  && |n| == |merged| && results == Top(n, maxIPs)
                  && (forall i :: 0 <= i < |n| && parser(merged[i]).Some? ==> n[i] == parser(merged[i]).value)
                  && (forall i :: 0 <= i < |n| && parser(merged[i]).None? ==> n[i] == merged[i])
      ensures maxIPs > 0 ==>
                forall r :: r in results ==>
                  exists i :: 0 <= i < |merged| &&
                              if parser(merged[i]).Some? then r == parser(merged[i]).value else r == merged[i]
    {
      var taken := TakeBatch();
      ok := MergeTaken(taken);
      if maxIPs > 0 {
        ShownRows();
      }
    }
  }

  lemma NormalizedAppend(parser: Result -> Option<Result>, s: seq<Result>, t: seq<Result>)
    ensures NormalizedAll(parser, s + t) == NormalizedAll(parser, s) + NormalizedAll(parser, t)
  {
  }
}
