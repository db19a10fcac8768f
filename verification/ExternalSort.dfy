/** Sorting the lines of a file, in memory or through sorted chunks. */
module ExternalSort {
  import opened Options
  import opened Ordering
  import opened Seqs
  import opened TextLines

  /** The buffers of the two scanners: while splitting, and, by default, while
      the chunks are merged. */
  const SPLIT_BUFFER: nat := 10 * 1024 * 1024
  const MERGE_BUFFER: nat := 64 * 1024

  /** Files above this size are sorted through chunks. */
  const IN_MEMORY_THRESHOLD: nat := 100 * 1024 * 1024

  // ----- sorting strings -----

  function SortLines(lines: seq<string>): (r: seq<string>)
    ensures |r| == |lines| && multiset(r) == multiset(lines)
  {
    StableSort(StrCmp, lines)
  }

  lemma StrCmpOrders()
    ensures TotalPreorder(StrCmp)
  {
    forall a, b ensures StrCmp(a, b) == -StrCmp(b, a) {
      StrCmpFlip(a, b);
    }
    forall a, b, c | StrCmp(a, b) <= 0 && StrCmp(b, c) <= 0 ensures StrCmp(a, c) <= 0 {
      StrCmpTrans(a, b, c);
    }
  }

  lemma SortLinesSorted(lines: seq<string>)
    ensures Sorted(StrCmp, SortLines(lines))
  {
    StrCmpOrders();
    StableSortIsStable(StrCmp, lines);
  }

  /** Sorted lines: each one is the next, or comes before it byte by byte. */
  lemma SortedMeaning(lines: seq<string>)
    requires Sorted(StrCmp, lines)
    ensures forall i, j :: 0 <= i < j < |lines| ==> lines[i] == lines[j] || BytesBefore(lines[i], lines[j])
  {
    forall i, j | 0 <= i < j < |lines| ensures lines[i] == lines[j] || BytesBefore(lines[i], lines[j]) {
      StrCmpMeaning(lines[i], lines[j]);
      hide StrCmp, BytesBefore;
    }
  }

  lemma SortedHeads(a: seq<string>, b: seq<string>)
    requires Sorted(StrCmp, a) && Sorted(StrCmp, b) && a != [] && b != [] && a[0] in b && b[0] in a
    ensures a[0] == b[0]
  {
    hide StrCmp;
    StrCmpFlip(a[0], b[0]);
    StrCmpFlip(a[0], a[0]);
    var i :| 0 <= i < |a| && a[i] == b[0];
    var j :| 0 <= j < |b| && b[j] == a[0];
    assert StrCmp(a[0], a[i]) <= 0 && StrCmp(b[0], b[j]) <= 0;
  }

  lemma SameRest(a: seq<string>, b: seq<string>)
    requires a != [] && b != [] && a[0] == b[0] && multiset(a) == multiset(b)
    ensures multiset(a[1..]) == multiset(b[1..])
  {
    assert a == [a[0]] + a[1..] && b == [b[0]] + b[1..];
    assert multiset(a[1..]) == multiset(a) - multiset{a[0]};
    assert multiset(b[1..]) == multiset(b) - multiset{b[0]};
  }

  /** A list of strings has one sorted order, so stability does not matter. */
  lemma {:induction false} SortedUnique(a: seq<string>, b: seq<string>)
    requires Sorted(StrCmp, a) && Sorted(StrCmp, b) && multiset(a) == multiset(b)
    ensures a == b
  {
    assert |multiset(a)| == |a| && |multiset(b)| == |b|;
    if a != [] {
      assert a[0] in multiset(a) && b[0] in multiset(b);
      SortedHeads(a, b);
      SameRest(a, b);
      SortedTail(StrCmp, a);
      SortedTail(StrCmp, b);
      hide Sorted, StrCmp;
      SortedUnique(a[1..], b[1..]);
      assert a == [a[0]] + a[1..] && b == [b[0]] + b[1..];
    }
  }

  method SortStrings(lines: seq<string>) returns (r: seq<string>)
    ensures r == SortLines(lines)
  {
    var a := new string[|lines|](i requires 0 <= i < |lines| => lines[i]);
    assert a[..] == lines;
    StrCmpOrders();
    SortFunc(a, StrCmp);
    r := a[..];
    SortLinesSorted(lines);
    SortedUnique(r, SortLines(lines));
  }

  // ----- in memory -----

  /** The lines written for a file that fits in memory. */
  method SortInMemory(data: string) returns (out: seq<string>)
    ensures out == SortLines(Pieces(TrimRight(data)))
    ensures multiset(out) == multiset(Pieces(TrimRight(data)))
    ensures forall i, j :: 0 <= i < j < |out| ==> out[i] == out[j] || BytesBefore(out[i], out[j])
  {
    out := SortStrings(Pieces(TrimRight(data)));
    SortLinesSorted(Pieces(TrimRight(data)));
    SortedMeaning(out);
  }

  // ----- splitting -----

  lemma FlatAdd(queues: seq<seq<string>>, q: seq<string>)
    ensures Concat(queues + [q]) == Concat(queues) + q
  {
    assert (queues + [q])[..|queues|] == queues;
  }

  ghost predicate SortedChunks(chunks: seq<seq<string>>) {
    forall c :: 0 <= c < |chunks| ==> Sorted(StrCmp, chunks[c])
  }

  lemma ChunkAdded(chunks: seq<seq<string>>, lines: seq<string>)
    requires SortedChunks(chunks)
    ensures SortedChunks(chunks + [SortLines(lines)])
    ensures multiset(Concat(chunks + [SortLines(lines)])) == multiset(Concat(chunks)) + multiset(lines)
  {
    hide SortLines, Concat, StrCmp, Sorted;
    SortLinesSorted(lines);
    FlatAdd(chunks, SortLines(lines));
  }

  lemma OneMore(tokens: seq<string>, i: nat)
    requires i < |tokens|
    ensures multiset(tokens[..i + 1]) == multiset(tokens[..i]) + multiset{tokens[i]}
  {
    assert tokens[..i + 1] == tokens[..i] + [tokens[i]];
  }

  method SplitAndSort(tokens: seq<string>, size: nat) returns (chunks: seq<seq<string>>)
    requires size > 0
    ensures SortedChunks(chunks) && Sized(chunks, size)
    ensures multiset(Concat(chunks)) == multiset(tokens)
  {
    hide SortLines, Concat, StrCmp, Sorted, SortedChunks;
    chunks := [];
    var lines: seq<string> := [];
    NoChunks();
    for i := 0 to |tokens|
      invariant SortedChunks(chunks) && |lines| < size && forall c :: 0 <= c < |chunks| ==> |chunks[c]| == size
      invariant multiset(Concat(chunks)) + multiset(lines) == multiset(tokens[..i])
    {
      OneMore(tokens, i);
      lines := lines + [tokens[i]];
      if |lines| >= size {
        var sorted := SortStrings(lines);
        ChunkAdded(chunks, lines);
        chunks := chunks + [sorted];
        lines := [];
      }
    }
    assert tokens[..|tokens|] == tokens;
    if |lines| > 0 {
      var sorted := SortStrings(lines);
      ChunkAdded(chunks, lines);
      chunks := chunks + [sorted];
    }
  }

  lemma NoChunks()
    ensures SortedChunks([]) && Concat<string>([]) == []
  {
  }

  // ----- merging -----

  datatype Item = Item(line: string, fileIdx: nat)

  function LinesOf(heap: seq<Item>): (r: seq<string>)
    ensures |r| == |heap| && forall i :: 0 <= i < |r| ==> r[i] == heap[i].line
  {
    seq(|heap|, i requires 0 <= i < |heap| => heap[i].line)
  }

  /** What a heap pop promises: some least item leaves. */
  method PopMin(heap: seq<Item>) returns (min: Item, rest: seq<Item>)
    requires heap != []
    ensures exists i :: 0 <= i < |heap| && min == heap[i] && rest == Without(heap, i)
    ensures forall k :: 0 <= k < |heap| ==> StrCmp(min.line, heap[k].line) <= 0
  {
    hide StrCmp;
    var best := 0;
    StrCmpFlip(heap[0].line, heap[0].line);
    for i := 1 to |heap|
      invariant 0 <= best < i
      invariant forall k :: 0 <= k < i ==> StrCmp(heap[best].line, heap[k].line) <= 0
    {
      if StrCmp(heap[i].line, heap[best].line) < 0 {
        forall k | 0 <= k < i ensures StrCmp(heap[i].line, heap[k].line) <= 0 {
          StrCmpTrans(heap[i].line, heap[best].line, heap[k].line);
        }
        StrCmpFlip(heap[i].line, heap[i].line);
        best := i;
      } else {
        StrCmpFlip(heap[i].line, heap[best].line);
      }
    }
    min, rest := heap[best], Without(heap, best);
  }

  /** Everything still to be written. */
  function Pending(heap: seq<Item>, readers: seq<seq<string>>): (r: multiset<string>)
    ensures |r| == |heap| + |Concat(readers)|
  {
    multiset(LinesOf(heap)) + multiset(Concat(readers))
  }

  lemma {:induction false} FlatTake(readers: seq<seq<string>>, i: nat)
    requires i < |readers| && readers[i] != []
    ensures multiset(Concat(readers)) == multiset(Concat(readers[i := readers[i][1..]])) + multiset{readers[i][0]}
  {
    var n := |readers| - 1;
    var rest := readers[i := readers[i][1..]];
    assert Concat(readers) == Concat(readers[..n]) + readers[n];
    assert Concat(rest) == Concat(rest[..n]) + rest[n];
    if i == n {
      assert rest[..n] == readers[..n];
      assert readers[n] == [readers[n][0]] + readers[n][1..];
    } else {
      FlatTake(readers[..n], i);
      assert rest[..n] == readers[..n][i := readers[i][1..]];
    }
    hide Concat;
  }

  lemma HeapAdd(heap: seq<Item>, item: Item)
    ensures multiset(LinesOf(heap + [item])) == multiset(LinesOf(heap)) + multiset{item.line}
  {
    assert LinesOf(heap + [item]) == LinesOf(heap) + [item.line];
  }

  lemma HeapDrop(heap: seq<Item>, i: nat)
    requires i < |heap|
    ensures multiset(LinesOf(heap)) == multiset(LinesOf(Without(heap, i))) + multiset{heap[i].line}
  {
    var l := LinesOf(heap);
    assert LinesOf(Without(heap, i)) == l[..i] + l[i + 1..];
    assert l == l[..i] + [l[i]] + l[i + 1..];
  }

  /** Every reader with lines left has an item in the heap, and, if the chunks
      are in order, one that does not exceed the reader's next line. */
  ghost predicate Heads(heap: seq<Item>, readers: seq<seq<string>>, ordered: bool) {
    && (forall k :: 0 <= k < |heap| ==> heap[k].fileIdx < |readers|)
    && (forall i :: 0 <= i < |readers| && readers[i] != [] ==> Held(heap, i, readers[i][0], ordered))
    && (ordered ==> SortedChunks(readers))
  }

  ghost predicate Held(heap: seq<Item>, i: nat, next: string, ordered: bool) {
    exists k :: 0 <= k < |heap| && heap[k].fileIdx == i && (ordered ==> StrCmp(heap[k].line, next) <= 0)
  }

  lemma HeldStill(heap: seq<Item>, i: nat, f: nat, next: string, ordered: bool, item: Item)
    requires i < |heap| && heap[i].fileIdx != f && Held(heap, f, next, ordered)
    ensures Held(Without(heap, i), f, next, ordered) && Held(Without(heap, i) + [item], f, next, ordered)
  {
    var k :| 0 <= k < |heap| && heap[k].fileIdx == f && (ordered ==> StrCmp(heap[k].line, next) <= 0);
    var n := if k < i then k else k - 1;
    assert Without(heap, i)[n] == heap[k] == (Without(heap, i) + [item])[n];
  }

  lemma NextHeads(heap: seq<Item>, readers: seq<seq<string>>, i: nat, ordered: bool)
    requires Heads(heap, readers, ordered) && i < |heap| && readers[heap[i].fileIdx] != []
    ensures var f := heap[i].fileIdx;
            Heads(Without(heap, i) + [Item(readers[f][0], f)], readers[f := readers[f][1..]], ordered)
  {
    var f := heap[i].fileIdx;
    var next := Item(readers[f][0], f);
    var h, r := Without(heap, i) + [next], readers[f := readers[f][1..]];
    forall j | 0 <= j < |r| && r[j] != [] ensures Held(h, j, r[j][0], ordered) {
      if j == f {
        assert h[|h| - 1] == next;
        assert ordered ==> StrCmp(readers[f][0], readers[f][1]) <= 0;
      } else {
        HeldStill(heap, i, j, r[j][0], ordered, next);
      }
    }
    if ordered {
      SortedTail(StrCmp, readers[f]);
    }
  }

  lemma LastHeads(heap: seq<Item>, readers: seq<seq<string>>, i: nat, ordered: bool)
    requires Heads(heap, readers, ordered) && i < |heap| && readers[heap[i].fileIdx] == []
    ensures Heads(Without(heap, i), readers, ordered)
  {
    forall j | 0 <= j < |readers| && readers[j] != [] ensures Held(Without(heap, i), j, readers[j][0], ordered) {
      HeldStill(heap, i, j, readers[j][0], ordered, heap[i]);
    }
  }

  /** Everything written is in order and comes before what is in the heap. */
  ghost predicate Before(out: seq<string>, heap: seq<Item>) {
    && Sorted(StrCmp, out)
    && forall i, k :: 0 <= i < |out| && 0 <= k < |heap| ==> StrCmp(out[i], heap[k].line) <= 0
  }

  lemma WrittenNext(out: seq<string>, heap: seq<Item>, i: nat)
    requires Before(out, heap) && i < |heap|
    requires forall k :: 0 <= k < |heap| ==> StrCmp(heap[i].line, heap[k].line) <= 0
    ensures Before(out + [heap[i].line], heap) && Before(out + [heap[i].line], Without(heap, i))
  {
  }

  /** A line read after the pop belongs after everything written. */
  lemma ReadNext(out: seq<string>, heap: seq<Item>, i: nat, f: nat, next: string)
    requires Before(out, heap) && i < |heap| && Held(heap, f, next, true)
    ensures Before(out, Without(heap, i) + [Item(next, f)])
  {
    var k :| 0 <= k < |heap| && heap[k].fileIdx == f && StrCmp(heap[k].line, next) <= 0;
    forall j | 0 <= j < |out| ensures StrCmp(out[j], next) <= 0 {
      StrCmpTrans(out[j], heap[k].line, next);
    }
  }

  lemma {:induction false} NothingRead(readers: seq<seq<string>>)
    requires forall i :: 0 <= i < |readers| ==> readers[i] == []
    ensures Concat(readers) == []
  {
    if readers != [] {
      NothingRead(readers[..|readers| - 1]);
    }
  }

  lemma EmptyHeap(readers: seq<seq<string>>, ordered: bool)
    requires Heads([], readers, ordered)
    ensures Pending([], readers) == multiset{}
  {
    forall i | 0 <= i < |readers| ensures readers[i] == [] {
      assert !Held([], i, if readers[i] == [] then [] else readers[i][0], ordered);
    }
    NothingRead(readers);
  }

  lemma ItemHeld(heap: seq<Item>, item: Item, next: string, ordered: bool)
    requires item in heap && (ordered ==> StrCmp(item.line, next) <= 0)
    ensures Held(heap, item.fileIdx, next, ordered)
  {
  }

  /** The first line of every chunk goes into the heap. */
  method OpenReaders(files: seq<seq<string>>) returns (heap: seq<Item>, readers: seq<seq<string>>)
    ensures |readers| == |files| && Pending(heap, readers) == multiset(Concat(files))
    ensures Heads(heap, readers, SortedChunks(files))
  {
    heap, readers := [], files;
    hide Pending, Concat, StrCmp;
    NothingPopped(files);
    for i := 0 to |files|
      invariant |readers| == |files| && forall k :: 0 <= k < |heap| ==> heap[k].fileIdx < i
      invariant forall j :: i <= j < |readers| ==> readers[j] == files[j]
      invariant forall j :: 0 <= j < i ==> readers[j] == if files[j] == [] then [] else files[j][1..]
      invariant forall j :: 0 <= j < i && files[j] != [] ==> Item(files[j][0], j) in heap
      invariant Pending(heap, readers) == multiset(Concat(files))
    {
      if |readers[i]| > 0 {
        Popped(heap, readers, i);
        heap := heap + [Item(readers[i][0], i)];
        readers := readers[i := readers[i][1..]];
      }
    }
    ghost var ordered := SortedChunks(files);
    forall j | 0 <= j < |readers|
      ensures ordered ==> Sorted(StrCmp, readers[j])
      ensures readers[j] != [] ==> Held(heap, j, readers[j][0], ordered)
    {
      if readers[j] != [] {
        assert ordered ==> StrCmp(files[j][0], files[j][1]) <= 0;
        ItemHeld(heap, Item(files[j][0], j), readers[j][0], ordered);
      }
    }
  }

  lemma NothingPopped(files: seq<seq<string>>)
    ensures Pending([], files) == multiset(Concat(files))
  {
    assert LinesOf([]) == [];
  }

  /** A line moves from its reader into the heap. */
  lemma Popped(heap: seq<Item>, readers: seq<seq<string>>, i: nat)
    requires i < |readers| && readers[i] != []
    ensures Pending(heap + [Item(readers[i][0], i)], readers[i := readers[i][1..]]) == Pending(heap, readers)
  {
    FlatTake(readers, i);
    HeapAdd(heap, Item(readers[i][0], i));
  }

  lemma Dropped(heap: seq<Item>, readers: seq<seq<string>>, i: nat)
    requires i < |heap|
    ensures Pending(heap, readers) == Pending(Without(heap, i), readers) + multiset{heap[i].line}
    ensures |Pending(Without(heap, i), readers)| < |Pending(heap, readers)|
  {
    HeapDrop(heap, i);
  }

  /** All lines of all readers, in order if every reader is in order. */
  method MergeReaders(files: seq<seq<string>>) returns (out: seq<string>)
    ensures multiset(out) == multiset(Concat(files))
    ensures SortedChunks(files) ==> Sorted(StrCmp, out)
  {
    ghost var ordered := SortedChunks(files);
    var heap, readers := OpenReaders(files);
    out := [];
    assert Before(out, heap);
    hide Before, Concat, StrCmp, SortedChunks, Pending;
    while |heap| > 0
      invariant Heads(heap, readers, ordered) && (ordered ==> Before(out, heap))
      invariant multiset(out) + Pending(heap, readers) == multiset(Concat(files))
      decreases |Pending(heap, readers)|
    {
      var min, popped := PopMin(heap);
      ghost var i: nat :| i < |heap| && min == heap[i] && popped == Without(heap, i);
      var f := min.fileIdx;
      Dropped(heap, readers, i);
      if ordered {
        WrittenNext(out, heap, i);
      }
      out := out + [min.line];
      if |readers[f]| > 0 {
        var next := Item(readers[f][0], f);
        NextHeads(heap, readers, i, ordered);
        Popped(popped, readers, f);
        if ordered {
          ReadNext(out, heap, i, f, next.line);
        }
        heap, readers := popped + [next], readers[f := readers[f][1..]];
      } else {
        LastHeads(heap, readers, i, ordered);
        heap := popped;
      }
      hide Heads;
    }
    EmptyHeap(readers, ordered);
    SortedOut(out, heap);
  }

  lemma SortedOut(out: seq<string>, heap: seq<Item>)
    ensures Before(out, heap) ==> Sorted(StrCmp, out)
  {
  }

  // ----- the whole sort -----

  /** What a chunk file holds when it is scanned again. */
  function ReRead(chunk: seq<string>): seq<string> {
    DropCRs(Fitting(chunk, MERGE_BUFFER))
  }

  /** A line that the second scan returns as it is. */
  predicate Sturdy(line: string) {
    |line| < MERGE_BUFFER && !EndsWith(line, '\r')
  }

  ghost predicate AllSturdy(lines: seq<string>) {
    forall l :: l in lines ==> Sturdy(l)
  }

  ghost predicate AllShort(lines: seq<string>, max: nat) {
    forall l :: l in lines ==> |l| < max
  }

  ghost predicate AllOneLine(lines: seq<string>) {
    forall l :: l in lines ==> OneLine(l)
  }

  function Total(lines: seq<string>): nat {
    if lines == [] then 0 else Total(lines[..|lines| - 1]) + |lines[|lines| - 1]|
  }

  lemma {:induction false} TotalAppend(a: seq<string>, b: seq<string>)
    ensures Total(a + b) == Total(a) + Total(b)
  {
    if b == [] {
      assert a + b == a;
    } else {
      var n := |b| - 1;
      assert (a + b)[..|a| + n] == a + b[..n];
      TotalAppend(a, b[..n]);
    }
  }

  lemma TotalWithout(a: seq<string>, i: nat)
    requires i < |a|
    ensures Total(a) == Total(a[..i] + a[i + 1..]) + |a[i]|
    ensures multiset(a) == multiset(a[..i] + a[i + 1..]) + multiset{a[i]}
  {
    assert a == a[..i] + [a[i]] + a[i + 1..];
    TotalAppend(a[..i], [a[i]]);
    TotalAppend(a[..i] + [a[i]], a[i + 1..]);
    TotalAppend(a[..i], a[i + 1..]);
    assert [a[i]][..0] == [];
  }

  /** Reordering keeps the total length and the number of lines. */
  lemma {:induction false} TotalPerm(a: seq<string>, b: seq<string>)
    requires multiset(a) == multiset(b)
    ensures Total(a) == Total(b) && |a| == |b|
  {
    assert |multiset(a)| == |a| && |multiset(b)| == |b|;
    if a != [] {
      var n := |a| - 1;
      assert a[n] in multiset(b);
      var i :| 0 <= i < |b| && b[i] == a[n];
      TotalWithout(a, n);
      TotalWithout(b, i);
      hide Total;
      assert a[..n] + a[n + 1..] == a[..n];
      assert multiset(a[..n]) == multiset(a) - multiset{a[n]};
      assert multiset(b[..i] + b[i + 1..]) == multiset(b) - multiset{b[i]};
      TotalPerm(a[..n], b[..i] + b[i + 1..]);
    }
  }

  lemma {:induction false} TotalDropCR(lines: seq<string>)
    ensures Total(DropCRs(lines)) <= Total(lines)
    ensures Total(DropCRs(lines)) == Total(lines) ==> DropCRs(lines) == lines
  {
    if lines != [] {
      var n := |lines| - 1;
      TotalDropCR(lines[..n]);
      assert DropCRs(lines)[..n] == DropCRs(lines[..n]);
      assert lines == lines[..n] + [lines[n]];
    }
  }

  lemma ShortDropped(lines: seq<string>)
    requires forall i :: 0 <= i < |lines| ==> |lines[i]| < MERGE_BUFFER
    ensures AllShort(DropCRs(lines), MERGE_BUFFER)
  {
    var r := DropCRs(lines);
    forall i | 0 <= i < |r| ensures |r[i]| < MERGE_BUFFER {
      assert |DropCR(lines[i])| <= |lines[i]|;
    }
  }

  lemma ReReadBounds(c: seq<string>)
    ensures |ReRead(c)| <= |c| && Total(ReRead(c)) <= Total(c) && AllShort(ReRead(c), MERGE_BUFFER)
    ensures AllShort(c, MERGE_BUFFER) ==> |ReRead(c)| == |c|
  {
    hide Total, AllShort, Fitting;
    var fit := Fitting(c, MERGE_BUFFER);
    TotalDropCR(fit);
    TotalAppend(fit, c[|fit|..]);
    assert c == fit + c[|fit|..];
    ShortDropped(fit);
    if AllShort(c, MERGE_BUFFER) {
      ShortFitsMerge(c);
    }
  }

  lemma ShortFitsMerge(c: seq<string>)
    requires AllShort(c, MERGE_BUFFER)
    ensures |Fitting(c, MERGE_BUFFER)| == |c|
  {
    hide Fitting;
    forall i | 0 <= i < |c| ensures |c[i]| < MERGE_BUFFER {
      assert c[i] in c;
    }
  }

  /** One chunk, read back: never more than was written, and all of it exactly
      if every line is sturdy. */
  lemma ReReadChunk(c: seq<string>)
    ensures |ReRead(c)| <= |c| && Total(ReRead(c)) <= Total(c) && AllShort(ReRead(c), MERGE_BUFFER)
    ensures AllShort(c, MERGE_BUFFER) ==> |ReRead(c)| == |c|
    ensures AllSturdy(c) ==> ReRead(c) == c
    ensures |ReRead(c)| == |c| && Total(ReRead(c)) == Total(c) ==> AllSturdy(c)
  {
    ReReadBounds(c);
    TotalDropCR(c);
    hide Fitting, Total, AllShort;
    if |ReRead(c)| == |c| && Total(ReRead(c)) == Total(c) {
      assert ReRead(c) == DropCRs(c);
      forall i | 0 <= i < |c| ensures Sturdy(c[i]) {
        assert DropCRs(c)[i] == c[i];
      }
    }
    if AllSturdy(c) {
      forall i | 0 <= i < |c| ensures |c[i]| < MERGE_BUFFER && DropCR(c[i]) == c[i] {
        assert Sturdy(c[i]);
      }
    }
  }

  function ReReadAll(chunks: seq<seq<string>>): (r: seq<seq<string>>)
    ensures |r| == |chunks|
  {
    seq(|chunks|, c requires 0 <= c < |chunks| => ReRead(chunks[c]))
  }

  lemma SturdyAppend(a: seq<string>, b: seq<string>)
    ensures AllSturdy(a + b) <==> AllSturdy(a) && AllSturdy(b)
    ensures AllShort(a + b, MERGE_BUFFER) <==> AllShort(a, MERGE_BUFFER) && AllShort(b, MERGE_BUFFER)
  {
    assert forall l :: l in a + b <==> l in a || l in b;
  }

  lemma {:induction false} ReReadFlat(chunks: seq<seq<string>>)
    ensures var q, c := Concat(ReReadAll(chunks)), Concat(chunks);
            && |q| <= |c| && Total(q) <= Total(c) && AllShort(q, MERGE_BUFFER)
            && (AllShort(c, MERGE_BUFFER) ==> |q| == |c|)
            && (AllSturdy(c) ==> ReReadAll(chunks) == chunks)
            && (|q| == |c| && Total(q) == Total(c) ==> AllSturdy(c))
  {
    hide Total, AllShort, AllSturdy, ReRead;
    if chunks == [] {
      FlatNone();
    } else {
      var n := |chunks| - 1;
      ReReadFlat(chunks[..n]);
      ReReadChunk(chunks[n]);
      assert ReReadAll(chunks)[..n] == ReReadAll(chunks[..n]);
      assert chunks == chunks[..n] + [chunks[n]];
      assert ReReadAll(chunks) == ReReadAll(chunks[..n]) + [ReRead(chunks[n])];
      TotalAppend(Concat(chunks[..n]), chunks[n]);
      TotalAppend(Concat(ReReadAll(chunks[..n])), ReRead(chunks[n]));
      SturdyAppend(Concat(chunks[..n]), chunks[n]);
      SturdyAppend(Concat(ReReadAll(chunks[..n])), ReRead(chunks[n]));
    }
  }

  lemma FlatNone()
    ensures AllShort(Concat([]), MERGE_BUFFER) && AllSturdy(Concat([])) && Concat<string>([]) == [] &&
            ReReadAll([]) == []
  {
  }

  lemma SameMembers(a: seq<string>, b: seq<string>)
    requires multiset(a) == multiset(b)
    ensures AllSturdy(a) <==> AllSturdy(b)
    ensures AllShort(a, MERGE_BUFFER) <==> AllShort(b, MERGE_BUFFER)
    ensures AllOneLine(a) <==> AllOneLine(b)
  {
    forall x ensures x in a <==> x in b {
      assert x in a <==> x in multiset(a);
      assert x in b <==> x in multiset(b);
    }
  }

  lemma {:induction false} ChunkInFlat(chunks: seq<seq<string>>, c: nat)
    requires c < |chunks|
    ensures forall x :: x in chunks[c] ==> x in Concat(chunks)
  {
    var n := |chunks| - 1;
    if c < n {
      ChunkInFlat(chunks[..n], c);
    }
  }

  /** Scanning a chunk file is reading the chunk back. */
  lemma ChunkFile(chunks: seq<seq<string>>, c: nat)
    requires c < |chunks| && AllOneLine(Concat(chunks))
    ensures Scan(JoinLines(chunks[c]), MERGE_BUFFER).tokens == ReRead(chunks[c])
  {
    ChunkInFlat(chunks, c);
    JoinedLines(chunks[c]);
  }

  function Files(chunks: seq<seq<string>>): (r: seq<string>)
    ensures |r| == |chunks| && forall c :: 0 <= c < |r| ==> r[c] == JoinLines(chunks[c])
  {
    seq(|chunks|, c requires 0 <= c < |chunks| => JoinLines(chunks[c]))
  }

  function Readers(files: seq<string>): (r: seq<seq<string>>)
    ensures |r| == |files| && forall c :: 0 <= c < |r| ==> r[c] == Scan(files[c], MERGE_BUFFER).tokens
  {
    seq(|files|, c requires 0 <= c < |files| => Scan(files[c], MERGE_BUFFER).tokens)
  }

  method MergeChunks(files: seq<string>) returns (out: seq<string>)
    ensures multiset(out) == multiset(Concat(Readers(files)))
    ensures SortedChunks(Readers(files)) ==> Sorted(StrCmp, out)
  {
    hide Concat, SortedChunks, Sorted, StrCmp;
    out := MergeReaders(Readers(files));
  }

  /** What merging the chunk files of these tokens gives. */
  lemma MergedOutput(tokens: seq<string>, chunks: seq<seq<string>>, out: seq<string>)
    requires SortedChunks(chunks) && multiset(Concat(chunks)) == multiset(tokens) && AllOneLine(tokens)
    requires multiset(out) == multiset(Concat(Readers(Files(chunks))))
    requires SortedChunks(Readers(Files(chunks))) ==> Sorted(StrCmp, out)
    ensures |out| <= |tokens| && Total(out) <= Total(tokens) && AllShort(out, MERGE_BUFFER)
    ensures AllShort(tokens, MERGE_BUFFER) ==> |out| == |tokens|
    ensures out == SortLines(tokens) <==> AllSturdy(tokens)
  {
    hide Total, AllShort, AllSturdy, AllOneLine, Concat, StrCmp, Sorted, SortedChunks, ReRead, SortLines, Scan,
      JoinLines;
    SameMembers(Concat(chunks), tokens);
    forall c | 0 <= c < |chunks| ensures Readers(Files(chunks))[c] == ReRead(chunks[c]) {
      ChunkFile(chunks, c);
    }
    assert Readers(Files(chunks)) == ReReadAll(chunks);
    ReReadFlat(chunks);
    TotalPerm(Concat(chunks), tokens);
    TotalPerm(out, Concat(ReReadAll(chunks)));
    SameMembers(out, Concat(ReReadAll(chunks)));
    if AllSturdy(tokens) {
      SortLinesSorted(tokens);
      SortedUnique(out, SortLines(tokens));
    }
    if out == SortLines(tokens) {
      TotalPerm(out, tokens);
    }
  }

  // ----- against the sort in memory -----

  /** The files both ways of sorting treat alike: not empty, no blank lines at
      the end, no line that a default scanner cannot hold or that ends in a
      carriage return. */
  ghost predicate Plain(data: string) {
    data != [] && !BlankTail(data) && AllSturdy(Pieces(data))
  }

  lemma TokensOneLine(data: string, max: nat)
    ensures AllOneLine(Scan(data, max).tokens)
  {
    PiecesOneLine(data);
    var raw := RawLines(data);
    forall i | 0 <= i < |Scan(data, max).tokens| ensures OneLine(Scan(data, max).tokens[i]) {
      assert Fitting(raw, max)[i] == raw[i] == Pieces(data)[i];
    }
  }

  /** The last piece, when empty, is as sturdy as any. */
  lemma RawSturdy(data: string)
    ensures AllSturdy(RawLines(data)) <==> AllSturdy(Pieces(data))
    ensures AllShort(RawLines(data), MERGE_BUFFER) <==> AllShort(Pieces(data), MERGE_BUFFER)
  {
    var p := Pieces(data);
    hide Pieces;
    assert p == p[..|p| - 1] + [p[|p| - 1]];
  }

  /** A long line survives the trimming in memory. */
  lemma LongLineKept(data: string)
    ensures AllShort(Pieces(TrimRight(data)), MERGE_BUFFER) <==> AllShort(Pieces(data), MERGE_BUFFER)
  {
    TrimmedPieces(data);
    var p, q := Pieces(data), Pieces(TrimRight(data));
    hide Pieces, TrimRight;
    forall i | 0 <= i < |q| ensures q[i] == p[i] {
      assert q[i] == p[..|q|][i];
    }
  }

  lemma PlainTokens(data: string)
    requires Plain(data)
    ensures var s := Scan(data, SPLIT_BUFFER);
            !s.tooLong && s.tokens == Pieces(TrimRight(data)) && AllSturdy(s.tokens)
  {
    RawAgainstTrimmed(data);
    RawSturdy(data);
    var raw := RawLines(data);
    hide Pieces, RawLines, TrimRight;
    forall i | 0 <= i < |raw| ensures |raw[i]| < SPLIT_BUFFER && DropCR(raw[i]) == raw[i] {
      assert Sturdy(raw[i]);
    }
    assert DropCRs(raw) == raw;
  }

  lemma ShortFits(lines: seq<string>)
    requires AllShort(lines, MERGE_BUFFER)
    ensures Fitting(lines, SPLIT_BUFFER) == lines
  {
    forall i | 0 <= i < |lines| ensures |lines[i]| < SPLIT_BUFFER {
      assert lines[i] in lines;
    }
  }

  lemma ShortUnchangedSturdy(lines: seq<string>)
    requires AllShort(lines, MERGE_BUFFER) && DropCRs(lines) == lines
    ensures AllSturdy(lines)
  {
    forall l | l in lines ensures Sturdy(l) {
      var i :| 0 <= i < |lines| && lines[i] == l;
      assert DropCRs(lines)[i] == l;
    }
  }

  /** Where nothing is too long, agreement on the output means agreement on
      every line. */
  lemma AgreeingTokens(data: string, out: seq<string>)
    requires var s := Scan(data, SPLIT_BUFFER);
             |out| == |s.tokens| && Total(out) <= Total(s.tokens)
    requires AllShort(Pieces(data), MERGE_BUFFER) && out == SortLines(Pieces(TrimRight(data)))
    ensures Plain(data)
  {
    RawAgainstTrimmed(data);
    RawSturdy(data);
    var raw, trimmed := RawLines(data), Pieces(TrimRight(data));
    hide Pieces, RawLines, TrimRight, Total, SortLines, AllShort, AllSturdy, Fitting;
    ShortFits(raw);
    TotalPerm(out, trimmed);
    TotalDropCR(raw);
    ShortUnchangedSturdy(raw);
  }

  lemma AgreesIffPlain(data: string, out: seq<string>)
    requires var s := Scan(data, SPLIT_BUFFER);
             && |out| <= |s.tokens| && Total(out) <= Total(s.tokens) && AllShort(out, MERGE_BUFFER)
             && (AllShort(s.tokens, MERGE_BUFFER) ==> |out| == |s.tokens|)
             && (out == SortLines(s.tokens) <==> AllSturdy(s.tokens))
    ensures out == SortLines(Pieces(TrimRight(data))) <==> Plain(data)
  {
    if Plain(data) {
      PlainTokens(data);
    }
    if out == SortLines(Pieces(TrimRight(data))) {
      LongLineKept(data);
      SameMembers(out, Pieces(TrimRight(data)));
      ShortTokens(data);
      hide Scan, Total, SortLines, AllShort;
      AgreeingTokens(data, out);
    }
  }

  lemma ShortTokens(data: string)
    requires AllShort(Pieces(data), MERGE_BUFFER)
    ensures AllShort(Scan(data, SPLIT_BUFFER).tokens, MERGE_BUFFER)
  {
    RawSturdy(data);
  }

  /** The sort through chunks, for any chunk size. It fails exactly when a line
      does not fit the first scanner. It writes the scanned lines in order
      exactly when all of them are sturdy; and what the sort in memory writes
      exactly for plain files. */
  method SortExternal(data: string, chunkLines: nat) returns (r: Option<seq<string>>)
    requires chunkLines > 0
    ensures r.None? <==> exists i :: 0 <= i < |RawLines(data)| && |RawLines(data)[i]| >= SPLIT_BUFFER
    ensures r.Some? ==> (r.value == SortLines(Scan(data, SPLIT_BUFFER).tokens) <==>
            AllSturdy(Scan(data, SPLIT_BUFFER).tokens))
    ensures (r.Some? && r.value == SortLines(Pieces(TrimRight(data)))) <==> Plain(data)
    ensures r.Some? && AllSturdy(Scan(data, SPLIT_BUFFER).tokens) ==>
              && multiset(r.value) == multiset(Scan(data, SPLIT_BUFFER).tokens)
              && forall i, j :: 0 <= i < j < |r.value| ==>
                   r.value[i] == r.value[j] || BytesBefore(r.value[i], r.value[j])
  {
    hide Total, AllShort, AllSturdy, AllOneLine, Concat, StrCmp, BytesBefore, Sorted, SortedChunks, SortLines, Readers,
         Files, Plain, RawLines, Pieces, TrimRight, Fitting;
    var scanned := Scan(data, SPLIT_BUFFER);
    if scanned.tooLong {
      PlainScans(data);
      return None;
    }
    var chunks := SplitAndSort(scanned.tokens, chunkLines);
    var out := MergeChunks(Files(chunks));
    TokensOneLine(data, SPLIT_BUFFER);
    MergedOutput(scanned.tokens, chunks, out);
    AgreesIffPlain(data, out);
    SortLinesSorted(scanned.tokens);
    SortedMeaning(SortLines(scanned.tokens));
    r := Some(out);
  }

  lemma PlainScans(data: string)
    ensures Plain(data) ==> !Scan(data, SPLIT_BUFFER).tooLong
  {
    if Plain(data) {
      PlainTokens(data);
    }
  }

  // ----- two families of failing files -----

  /** A first line, and n short ones. */
  function FirstOf(first: string, n: nat): (lines: seq<string>)
    ensures |lines| == n + 1 && lines[0] == first && forall i :: 0 < i <= n ==> lines[i] == "b"
  {
    [first] + seq(n, i => "b")
  }

  lemma {:induction false} JoinedEnd(lines: seq<string>)
    requires lines != [] && forall i :: 0 <= i < |lines| ==> OneLine(lines[i]) && lines[i] != []
    ensures var data := JoinLines(lines); |data| >= 2 * |lines| && !BlankTail(data)
    decreases |lines|
  {
    var head, rest := lines[0] + "\n", JoinLines(lines[1..]);
    assert JoinLines(lines) == head + rest;
    if |lines| == 1 {
      assert rest == [];
      var k := |lines[0]| - 1;
      assert lines[0][k] in lines[0] && (head + rest)[k] == lines[0][k];
    } else {
      JoinedEnd(lines[1..]);
      hide JoinLines;
      var k := |head + rest|;
      assert (head + rest)[k - 1] == rest[|rest| - 1] && (head + rest)[k - 2] == rest[|rest| - 2];
    }
  }

  lemma ScanLines(data: string, lines: seq<string>, tokens: seq<string>)
    requires RawLines(data) == lines && |tokens| == |lines|
    requires forall i :: 0 <= i < |lines| ==> |lines[i]| < SPLIT_BUFFER && DropCR(lines[i]) == tokens[i]
    ensures Scan(data, SPLIT_BUFFER) == Scanned(tokens, false)
  {
    hide RawLines, DropCR;
    assert Fitting(lines, SPLIT_BUFFER) == lines;
    assert DropCRs(lines) == tokens;
  }

  lemma PlainFirst(data: string)
    requires Plain(data)
    ensures Sturdy(Pieces(data)[0])
  {
    hide Pieces, Sturdy, BlankTail, AllShort;
    assert Pieces(data)[0] in Pieces(data);
  }

  lemma LongFirst(first: string, token: string, n: nat)
    requires OneLine(first) && first != [] && |first| < SPLIT_BUFFER && DropCR(first) == token
    ensures var data, lines := JoinLines(FirstOf(first, n)), FirstOf(first, n);
            && |data| > 2 * n && Pieces(TrimRight(data)) == lines && (Plain(data) ==> Sturdy(first))
            && Scan(data, SPLIT_BUFFER) == Scanned(FirstOf(token, n), false)
  {
    var lines := FirstOf(first, n);
    var data := JoinLines(lines);
    assert OneLine("b") && DropCR("b") == "b";
    hide JoinLines, Pieces, RawLines, TrimRight, Sturdy, OneLine, DropCR, BlankTail, Scan, FirstOf, Plain;
    JoinedEnd(lines);
    JoinedLines(lines);
    RawAgainstTrimmed(data);
    ScanLines(data, lines, FirstOf(token, n));
    if Plain(data) {
      PlainFirst(data);
    }
  }

  lemma SortsDiffer(a: seq<string>, b: seq<string>, line: string)
    requires line in a && line !in b
    ensures SortLines(a) != SortLines(b)
  {
    hide SortLines;
    assert line in multiset(a) && line !in multiset(b);
  }

  lemma ShortTokensSturdy(n: nat)
    ensures AllSturdy(FirstOf("a", n)) && "a\r" !in FirstOf("a", n)
    ensures !AllSturdy(FirstOf("a\r", n))
  {
    var tokens := FirstOf("a", n);
    assert !EndsWith("a", '\r') && !EndsWith("b", '\r') && "a" != "a\r" && "b" != "a\r";
    forall i | 0 <= i < |tokens| ensures Sturdy(tokens[i]) && tokens[i] != "a\r" {
      assert tokens[i] == "a" || tokens[i] == "b";
    }
    assert FirstOf("a\r", n)[0] == "a\r" && !Sturdy("a\r");
    hide FirstOf, Sturdy;
  }

  lemma Returns()
    ensures OneLine("a\r") && DropCR("a\r") == "a" && !Sturdy("a\r")
    ensures OneLine("a\r\r") && DropCR("a\r\r") == "a\r"
  {
  }

  /** Of every size above that of the sort in memory there are files that fail:
      where a first line ends in a carriage return the chunks drop it and the
      sort in memory does not; where it ends in two, not even the scanned lines
      are written. */
  lemma CarriageReturnLost(n: nat) returns (one: string, two: string)
    requires n >= IN_MEMORY_THRESHOLD
    ensures |one| > n && |two| > n
    ensures var s := Scan(one, SPLIT_BUFFER);
            !s.tooLong && AllSturdy(s.tokens) && SortLines(s.tokens) != SortLines(Pieces(TrimRight(one))) && !Plain(one)
    ensures var s := Scan(two, SPLIT_BUFFER); !s.tooLong && !AllSturdy(s.tokens)
  {
    hide Scan, Plain, Pieces, TrimRight, SortLines, OneLine, DropCR, Sturdy, JoinLines, FirstOf, AllSturdy;
    Returns();
    one, two := JoinLines(FirstOf("a\r", n)), JoinLines(FirstOf("a\r\r", n));
    LongFirst("a\r", "a", n);
    LongFirst("a\r\r", "a\r", n);
    ShortTokensSturdy(n);
    assert FirstOf("a\r", n)[0] in FirstOf("a\r", n);
    SortsDiffer(FirstOf("a\r", n), FirstOf("a", n), "a\r");
  }
}
