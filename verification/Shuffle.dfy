/** The shuffled stream: a walk of the generator over a power-of-two ring,
    rejecting states outside the index. */
module Shuffle {
  import opened Arith
  import opened Lcg
  import opened Netip
  import opened IpList
  import opened Options
  import opened Indexer
  import opened Seqs

  const LCG_A: nat := 6364136223846793005
  const LCG_C: nat := 1442695040888963407
  const TWO_63: nat := 0x8000_0000_0000_0000

  // ----- choosing the ring -----

  /** Number of bits needed for n. */
  function Len64(n: nat): nat {
    if n == 0 then 0 else 1 + Len64(n / 2)
  }

  /** Bitwise and. */
  function BitAnd(a: nat, b: nat): nat {
    if a == 0 || b == 0 then 0 else (if a % 2 == 1 && b % 2 == 1 then 1 else 0) + 2 * BitAnd(a / 2, b / 2)
  }

  lemma {:induction false} LenBounds(n: nat)
    requires n > 0
    ensures Len64(n) >= 1 && Pow2(Len64(n) - 1) <= n < Pow2(Len64(n))
  {
    if n > 1 {
      LenBounds(n / 2);
    } else {
      assert Len64(1) == 1 + Len64(0);
    }
  }

  lemma {:induction false} AndSelf(n: nat)
    ensures BitAnd(n, n) == n
  {
    if n > 0 {
      AndSelf(n / 2);
    }
  }

  lemma AndPred(n: nat)
    requires n > 1
    ensures BitAnd(n, n - 1) == 2 * (if n % 2 == 0 then BitAnd(n / 2, n / 2 - 1) else n / 2)
  {
    if n % 2 == 0 {
      assert (n - 1) / 2 == n / 2 - 1;
    } else {
      AndSelf(n / 2);
      assert (n - 1) / 2 == n / 2;
    }
  }

  /** The bit trick recognises exactly the powers of two. */
  lemma {:induction false} PowerOfTwoTest(n: nat)
    requires n > 0
    ensures BitAnd(n, n - 1) == 0 <==> n == Pow2(Len64(n) - 1)
  {
    if n == 1 {
      assert Len64(1) == 1 + Len64(0);
    } else {
      AndPred(n);
      var h := n / 2;
      assert Len64(n) == 1 + Len64(h);
      LenBounds(h);
      assert Pow2(Len64(n) - 1) == 2 * Pow2(Len64(h) - 1);
      hide BitAnd, Len64, Pow2;
      if n % 2 == 0 {
        PowerOfTwoTest(h);
      }
    }
  }

  /** The exponent of the ring: 64 above half the range, otherwise the
      smallest power of two that holds the index. */
  function RingBits(grandTotal: nat): nat {
    if grandTotal > TWO_63 then 64
    else if grandTotal > 0 && BitAnd(grandTotal, grandTotal - 1) == 0 then Len64(grandTotal) - 1
    else Len64(grandTotal)
  }

  lemma RingBitsShape(grandTotal: nat)
    requires grandTotal > 0
    ensures var n := Len64(grandTotal);
            && n > 0 && Pow2(n - 1) <= grandTotal < Pow2(n) == 2 * Pow2(n - 1)
            && RingBits(grandTotal) ==
               if grandTotal > TWO_63 then 64 else if grandTotal == Pow2(n - 1) then n - 1 else n
  {
    LenBounds(grandTotal);
    PowerOfTwoTest(grandTotal);
    assert Pow2(Len64(grandTotal)) == 2 * Pow2(Len64(grandTotal) - 1);
    hide Pow2, Len64, BitAnd;
  }

  /** The ring holds the index, and rejection stays below one half. */
  lemma RingFits(grandTotal: nat)
    requires 0 < grandTotal <= MAX_UINT64
    ensures RingBits(grandTotal) <= 64
    ensures grandTotal <= Pow2(RingBits(grandTotal)) < 2 * grandTotal
    ensures grandTotal <= TWO_63 ==> RingBits(grandTotal) <= 63
  {
    Pow2Values();
    hide Pow2, Len64, BitAnd, RingBits;
    RingBitsShape(grandTotal);
    var n := Len64(grandTotal);
    if grandTotal <= TWO_63 {
      BelowExponent(n - 1, 64);
      BelowExponent(n - 1, 63);
    }
  }

  lemma BelowExponent(k: nat, m: nat)
    ensures Pow2(k) < Pow2(m) ==> k < m
  {
    if m <= k {
      Pow2Monotone(m, k);
    }
  }

  lemma RingDivides(k: nat) returns (f: nat)
    requires k <= 64
    ensures f > 0 && TWO_64 == Pow2(k) * f
  {
    Pow2Values();
    Pow2Add(k, 64 - k);
    f := Pow2(64 - k);
  }

  /** One step of the walk: wrapping 64-bit arithmetic, then the ring. */
  function StepState(state: uint64, full: bool, mSize: uint64): uint64
    requires full || mSize > 0
  {
    var wrapped := Affine(LCG_A, LCG_C, state as nat) % TWO_64;
    if full then wrapped as uint64 else (wrapped % mSize as nat) as uint64
  }

  lemma StepIsNext(state: uint64, full: bool, mSize: uint64, k: nat)
    requires k <= 64 && (if full then k == 64 else mSize as nat == Pow2(k))
    ensures full || mSize > 0
    ensures StepState(state, full, mSize) as nat == Next(LCG_A, LCG_C, Pow2(k), state as nat)
    ensures StepState(state, full, mSize) as nat ==
            (state as nat * 6364136223846793005 + 1442695040888963407) % Pow2(k)
  {
    Pow2Values();
    if !full {
      var f := RingDivides(k);
      ModMod(Affine(LCG_A, LCG_C, state as nat), Pow2(k), f);
    }
  }

  // ----- which indices come out -----

  /** The in-range states of a walk, in order. */
  function Hits(w: seq<nat>, gt: nat): (h: seq<nat>)
    ensures |h| <= |w|
  {
    if w == [] then []
    else Hits(w[..|w| - 1], gt) + (if w[|w| - 1] < gt then [w[|w| - 1]] else [])
  }

  lemma {:induction false} HitsMembers(w: seq<nat>, gt: nat, v: nat)
    ensures v in Hits(w, gt) <==> v in w && v < gt
  {
    if w != [] {
      HitsMembers(w[..|w| - 1], gt, v);
      assert w == w[..|w| - 1] + [w[|w| - 1]];
    }
  }

  lemma {:induction false} HitsDistinct(w: seq<nat>, gt: nat)
    requires Distinct(w)
    ensures Distinct(Hits(w, gt))
  {
    if w != [] {
      var t, x := w[..|w| - 1], w[|w| - 1];
      HitsDistinct(t, gt);
      HitsMembers(t, gt, x);
      assert x !in t;
    }
  }

  /** Hits of the first n states from a seed. */
  function HitsUpTo(k: nat, seed: nat, gt: nat, n: nat): seq<nat> {
    Hits(Walk(LCG_A, LCG_C, Pow2(k), seed, n), gt)
  }

  lemma HitsStep(k: nat, seed: nat, gt: nat, n: nat)
    ensures var x := Iter(LCG_A, LCG_C, Pow2(k), seed, n + 1);
            HitsUpTo(k, seed, gt, n + 1) == HitsUpTo(k, seed, gt, n) + (if x < gt then [x] else [])
  {
    var w := Walk(LCG_A, LCG_C, Pow2(k), seed, n + 1);
    assert w[..|w| - 1] == Walk(LCG_A, LCG_C, Pow2(k), seed, n);
  }

  lemma {:induction false} HitsGrow(k: nat, seed: nat, gt: nat, i: nat, j: nat)
    requires i <= j
    ensures HitsUpTo(k, seed, gt, i) <= HitsUpTo(k, seed, gt, j)
  {
    hide HitsUpTo;
    if i < j {
      HitsGrow(k, seed, gt, i, j - 1);
      HitsStep(k, seed, gt, j - 1);
    }
  }

  lemma HitsOfPermutation(w: seq<nat>, n: nat, gt: nat)
    requires Distinct(w) && Elements(w) == Below(n) && gt <= n
    ensures var h := Hits(w, gt); Distinct(h) && |h| == gt && Elements(h) == Below(gt)
  {
    hide Distinct, Hits;
    var h := Hits(w, gt);
    HitsDistinct(w, gt);
    forall v | v in Elements(h) ensures v in Below(gt) {
      HitsMembers(w, gt, v);
    }
    forall v | v in Below(gt) ensures v in Elements(h) {
      assert v in Elements(w);
      HitsMembers(w, gt, v);
    }
    assert Elements(h) == Below(gt);
    DistinctSize(h);
    BelowSize(gt);
  }

  /** A full turn of the ring hits every index exactly once. */
  lemma HitsComplete(k: nat, seed: nat, gt: nat)
    requires seed < Pow2(k) && gt <= Pow2(k)
    ensures var h := HitsUpTo(k, seed, gt, Pow2(k)); Distinct(h) && |h| == gt && Elements(h) == Below(gt)
  {
    WalkIsPermutation(LCG_A, LCG_C, k, seed);
    hide Walk, Pow2, Elements, Below, Distinct, Hits;
    HitsOfPermutation(Walk(LCG_A, LCG_C, Pow2(k), seed, Pow2(k)), Pow2(k), gt);
  }

  /** Before a full turn the hits are distinct; at it the walk is done. */
  lemma HitsBefore(k: nat, seed: nat, gt: nat, n: nat)
    requires seed < Pow2(k) && gt <= Pow2(k) && n <= Pow2(k)
    ensures var h := HitsUpTo(k, seed, gt, n);
            && Distinct(h) && |h| <= gt && (forall i :: 0 <= i < |h| ==> h[i] < gt)
            && (n == Pow2(k) ==> |h| == gt)
  {
    HitsComplete(k, seed, gt);
    hide HitsUpTo;
    HitsGrow(k, seed, gt, n, Pow2(k));
    var h, all := HitsUpTo(k, seed, gt, n), HitsUpTo(k, seed, gt, Pow2(k));
    forall i | 0 <= i < |h| ensures h[i] < gt {
      assert h[i] == all[i] && all[i] in Elements(all);
    }
  }

  /** The entries of s at the given places. */
  function Select(s: seq<Addr>, places: seq<nat>): (r: seq<Addr>)
    requires forall i :: 0 <= i < |places| ==> places[i] < |s|
    ensures |r| == |places|
  {
    seq(|places|, i requires 0 <= i < |places| => s[places[i]])
  }

  lemma SelectSplit(s: seq<Addr>, places: seq<nat>, p: nat)
    requires p < |places| && places[p] == |s| - 1
    requires Distinct(places) && forall i :: 0 <= i < |places| ==> places[i] < |s|
    ensures var rest := Without(places, p);
            && Distinct(rest) && (forall i :: 0 <= i < |rest| ==> rest[i] < |s| - 1)
            && multiset(Select(s, places)) == multiset(Select(s[..|s| - 1], rest)) + multiset{s[|s| - 1]}
  {
    var rest := Without(places, p);
    forall i | 0 <= i < |rest| ensures rest[i] == places[if i < p then i else i + 1] && rest[i] < |s| - 1 {
      assert places[if i < p then i else i + 1] != places[p];
    }
    var r, t := Select(s, places), Select(s[..|s| - 1], rest);
    forall i | 0 <= i < |t| ensures t[i] == r[if i < p then i else i + 1] {
    }
    assert r[p] == s[|s| - 1];
    hide Select, Distinct, Without;
    assert t == r[..p] + r[p + 1..];
    assert r == r[..p] + [r[p]] + r[p + 1..];
  }

  /** Reading distinct places reads no entry twice. */
  lemma {:induction false} SelectContained(s: seq<Addr>, places: seq<nat>)
    requires Distinct(places) && forall i :: 0 <= i < |places| ==> places[i] < |s|
    ensures multiset(Select(s, places)) <= multiset(s)
  {
    if s != [] {
      var n := |s| - 1;
      assert s == s[..n] + [s[n]];
      if p :| 0 <= p < |places| && places[p] == n {
        SelectSplit(s, places, p);
        SelectContained(s[..n], Without(places, p));
        hide Select, Distinct;
      } else {
        SelectContained(s[..n], places);
        assert Select(s, places) == Select(s[..n], places);
        hide Select, Distinct;
      }
    }
  }

  lemma ContainedAll(a: multiset<Addr>, b: multiset<Addr>)
    requires a <= b && |a| == |b|
    ensures a == b
  {
    assert b == a + (b - a);
  }

  /** Selecting every place once is a permutation. */
  lemma SelectPermutation(s: seq<Addr>, places: seq<nat>)
    requires |places| == |s| && Distinct(places)
    requires forall i :: 0 <= i < |places| ==> places[i] < |s|
    ensures multiset(Select(s, places)) == multiset(s)
  {
    SelectContained(s, places);
    ContainedAll(multiset(Select(s, places)), multiset(s));
  }

  lemma AllPlaces(places: seq<nat>, n: nat)
    requires |places| == n && Distinct(places) && forall i :: 0 <= i < |places| ==> places[i] < n
    ensures Elements(places) == Below(n)
  {
    DistinctSize(places);
    BelowSize(n);
    SubsetOfEqualSize(Elements(places), Below(n));
  }

  // ----- the stream -----

  /** places visits distinct indices; out reads their addresses off the
      index; the count is the total cut at the limit and the cancellation. */
  ghost predicate Streamed(rows: seq<Row>, mi: MasterIndexer, limit: nat, cancel: Option<nat>, places: seq<nat>,
                           out: seq<Addr>)
    requires Indexes(rows, mi)
  {
    && Distinct(places) && (forall i :: 0 <= i < |places| ==> places[i] < mi.grandTotal as nat)
    && |places| == Stop(mi.grandTotal as nat, limit, cancel)
    && out == Select(Laid(rows, mi), places)
  }

  /** The index, seen as the sequence of addresses it stands for. */
  lemma IndexShape(rows: seq<Row>, mi: MasterIndexer)
    requires Indexes(rows, mi)
    ensures WellFormed(mi) && SinglesReadable(rows, mi.singleOffsets)
    ensures |Laid(rows, mi)| == mi.grandTotal as nat == mi.totalCIDRIPs as nat + |mi.singleOffsets|
  {
    hide Tiled, Span, Flatten, EntriesView, EntriesOf, Sequential;
  }

  /** An index stands for an address of a block, or for a single host. */
  lemma IndexAt(rows: seq<Row>, mi: MasterIndexer, g: nat)
    requires Indexes(rows, mi) && g < mi.grandTotal as nat
    ensures WellFormed(mi) && SinglesReadable(rows, mi.singleOffsets)
    ensures |Laid(rows, mi)| == mi.grandTotal as nat == mi.totalCIDRIPs as nat + |mi.singleOffsets|
    ensures var cidrs := mi.totalCIDRIPs as nat;
            if g < cidrs then g < |Flatten(mi.blocks)| && Laid(rows, mi)[g] == Flatten(mi.blocks)[g]
            else ReadIPAt(rows, mi.singleOffsets[g - cidrs]) == Some(Laid(rows, mi)[g])
  {
    hide Tiled, Span, Flatten, EntriesView, EntriesOf, Sequential;
  }

  /** What the dispatch loop keeps after some steps from the seed. */
  ghost predicate Dispatching(laid: seq<Addr>, k: nat, seed: nat, steps: nat, state: nat, places: seq<nat>,
                              out: seq<Addr>)
    requires k <= 64
  {
    && seed < Pow2(k) && |laid| <= Pow2(k) && steps <= Pow2(k)
    && state == Iter(LCG_A, LCG_C, Pow2(k), seed, steps)
    && places == HitsUpTo(k, seed, |laid|, steps)
    && Distinct(places) && |places| <= |laid| && (forall i :: 0 <= i < |places| ==> places[i] < |laid|)
    && (steps == Pow2(k) ==> |places| == |laid|)
    && out == Select(laid, places)
  }

  lemma DispatchStart(laid: seq<Addr>, k: nat, seed: nat)
    requires k <= 64 && seed < Pow2(k) && 0 < |laid| <= Pow2(k)
    ensures Dispatching(laid, k, seed, 0, seed, [], [])
  {
    HitsBefore(k, seed, |laid|, 0);
    assert Walk(LCG_A, LCG_C, Pow2(k), seed, 0) == [];
  }

  /** One step either rejects its state or appends that state's address. */
  lemma DispatchStep(laid: seq<Addr>, k: nat, seed: nat, steps: nat, state: nat, places: seq<nat>, out: seq<Addr>)
    requires k <= 64 && Dispatching(laid, k, seed, steps, state, places, out) && |places| < |laid|
    ensures steps < Pow2(k)
    ensures var x := Next(LCG_A, LCG_C, Pow2(k), state);
            if x < |laid| then Dispatching(laid, k, seed, steps + 1, x, places + [x], out + [laid[x]])
            else Dispatching(laid, k, seed, steps + 1, x, places, out)
  {
    hide HitsUpTo, Next, Pow2, Distinct;
    HitsStep(k, seed, |laid|, steps);
    HitsBefore(k, seed, |laid|, steps + 1);
  }

  lemma DispatchEnd(rows: seq<Row>, mi: MasterIndexer, k: nat, seed: nat, steps: nat, state: nat,
                    places: seq<nat>, out: seq<Addr>, limit: nat, cancel: Option<nat>)
    requires Indexes(rows, mi) && k <= 64 && Dispatching(Laid(rows, mi), k, seed, steps, state, places, out)
    requires |Laid(rows, mi)| == mi.grandTotal as nat && |places| == Stop(mi.grandTotal as nat, limit, cancel)
    ensures Streamed(rows, mi, limit, cancel, places, out)
  {
    hide Indexes, Laid, Stop, HitsUpTo, Iter, Pow2;
  }

  lemma DispatchedHits(laid: seq<Addr>, k: nat, seed: nat, steps: nat, state: nat, places: seq<nat>, out: seq<Addr>)
    requires k <= 64 && Dispatching(laid, k, seed, steps, state, places, out)
    ensures places == HitsUpTo(k, seed, |laid|, steps)
  {
  }

  /** When the loop may leave, and how much it has sent then. */
  lemma LeaveStop(n: nat, total: nat, limit: nat, cancel: Option<nat>)
    requires n <= total && n == Stop(n, limit, cancel)
    ensures (limit > 0 && n >= limit) || cancel == Some(n) || n == total ==> n == Stop(total, limit, cancel)
    ensures !(limit > 0 && n >= limit) && cancel != Some(n) ==> n + 1 == Stop(n + 1, limit, cancel)
  {
  }

  lemma StopAtZero(limit: nat, cancel: Option<nat>)
    ensures Stop(0, limit, cancel) == 0
  {
  }

  lemma StreamedNothing(rows: seq<Row>, mi: MasterIndexer, limit: nat, cancel: Option<nat>)
    requires Indexes(rows, mi) && mi.grandTotal == 0
    ensures Streamed(rows, mi, limit, cancel, [], [])
  {
    hide Indexes, Laid, Stop;
    StopAtZero(limit, cancel);
  }

  /** Sets the ring and the first state from a random word. */
  method ChooseRing(grandTotal: uint64, seed: uint64) returns (full: bool, mSize: uint64, state: uint64)
    requires grandTotal > 0
    ensures var k := RingBits(grandTotal as nat);
            && k <= 64 && grandTotal as nat <= Pow2(k) < 2 * grandTotal as nat
            && (if full then k == 64 else mSize as nat == Pow2(k))
            && state as nat == seed as nat % Pow2(k)
  {
    hide Len64, BitAnd, Pow2;
    RingFits(grandTotal as nat);
    Pow2Values();
    full := grandTotal as nat > TWO_63;
    if full {
      mSize, state := 0, seed;
    } else {
      var mBits := Len64(grandTotal as nat);
      if BitAnd(grandTotal as nat, grandTotal as nat - 1) == 0 {
        mBits := mBits - 1;
      }
      mSize := Pow2(mBits) as uint64;
      state := seed % mSize;
    }
  }

  /** When the total fits and nothing cuts the run, the shuffled stream is a
      permutation of the indexed addresses. */
  lemma ShuffleIsPermutation(rows: seq<Row>, mi: MasterIndexer, limit: nat, cancel: Option<nat>, places: seq<nat>,
                             out: seq<Addr>)
    requires Indexes(rows, mi) && Streamed(rows, mi, limit, cancel, places, out)
    requires |out| == |Sequential(rows)| <= MAX_UINT64
    ensures multiset(out) == multiset(EntriesView(EntriesOf(rows)))
  {
    IndexShape(rows, mi);
    hide Laid, Distinct;
    SelectPermutation(Laid(rows, mi), places);
  }

  lemma ShuffledCount(rows: seq<Row>, mi: MasterIndexer, limit: nat, cancel: Option<nat>, places: seq<nat>,
                      out: seq<Addr>)
    requires Indexes(rows, mi) && Streamed(rows, mi, limit, cancel, places, out)
    ensures |out| == Stop(mi.grandTotal as nat, limit, cancel) && mi.grandTotal as nat == Offered(rows)
  {
    hide Laid, WellFormed;
  }

  /** The addresses a shuffled run has to give: all of them, or in overflow
      mode every range's share. */
  function Offered(rows: seq<Row>): nat {
    var total := |Sequential(rows)|;
    if total <= MAX_UINT64 then total else Quotas(EntriesOf(rows), total)
  }

  lemma Delivered(rows: seq<Row>, mi: MasterIndexer, limit: nat, cancel: Option<nat>, places: seq<nat>, out: seq<Addr>)
    requires Indexes(rows, mi) && Streamed(rows, mi, limit, cancel, places, out)
    ensures mi.grandTotal as nat == Offered(rows) && |out| == Stop(Offered(rows), limit, cancel)
    ensures multiset(out) <= multiset(EntriesView(EntriesOf(rows)))
    ensures |out| == |Sequential(rows)| <= MAX_UINT64 ==> multiset(out) == multiset(EntriesView(EntriesOf(rows)))
  {
    ShuffledCount(rows, mi, limit, cancel, places, out);
    LaidContained(rows, mi);
    SelectContained(Laid(rows, mi), places);
    hide Indexes, Streamed, Sequential, EntriesOf, EntriesView, Stop, Laid, Select;
    if |out| == |Sequential(rows)| <= MAX_UINT64 {
      ShuffleIsPermutation(rows, mi, limit, cancel, places, out);
    }
  }

  /** The address an index stands for: in a block, or read from the list. */
  method AddressAt(rows: seq<Row>, mi: MasterIndexer, state: uint64) returns (ip: Option<Addr>)
    requires Indexes(rows, mi) && state < mi.grandTotal
    ensures |Laid(rows, mi)| == mi.grandTotal as nat && ip == Some(Laid(rows, mi)[state as nat])
  {
    IndexAt(rows, mi, state as nat);
    hide Indexes, Laid, Flatten, ReadIPAt, WellFormed, SinglesReadable;
    var cidrs := mi.totalCIDRIPs;
    if state < cidrs {
      var inBlock := GetIPFromCIDRBlocks(mi, state);
      return Some(inBlock);
    }
    var singleIdx := state - cidrs;
    return ReadIPAt(rows, mi.singleOffsets[singleIdx as nat]);
  }

  /** The shuffled stream ends within one turn of the ring; the places it
      visits are the in-range states of the walk from the seed, each distinct,
      and what it sends is what the index holds there. */
  method StreamActiveShuffled(rows: seq<Row>, limit: nat, seed: uint64, cancel: Option<nat>)
    returns (out: seq<Addr>, ghost mi: MasterIndexer, ghost places: seq<nat>, ghost steps: nat)
    ensures Indexes(rows, mi) && Streamed(rows, mi, limit, cancel, places, out)
    ensures var gt, k := mi.grandTotal as nat, RingBits(mi.grandTotal as nat);
            steps <= Pow2(k) && (gt > 0 ==> places == HitsUpTo(k, seed as nat % Pow2(k), gt, steps))
    ensures |out| == Stop(Offered(rows), limit, cancel) && multiset(out) <= multiset(EntriesView(EntriesOf(rows)))
    ensures |out| == |Sequential(rows)| <= MAX_UINT64 ==> multiset(out) == multiset(EntriesView(EntriesOf(rows)))
  {
    hide Sequential, EntriesOf, EntriesView, Indexes, Laid, Flatten, ReadIPAt, StepState, Dispatching, Stop, WellFormed,
         Pow2, RingBits, Len64, BitAnd, Offered, HitsUpTo;
    var indexer := NewMasterIndexer(rows);
    mi := indexer;
    IndexShape(rows, mi);
    ghost var laid := Laid(rows, mi);
    out, places, steps := [], [], 0;
    var grandTotal := indexer.grandTotal;
    if grandTotal == 0 {
      StreamedNothing(rows, mi, limit, cancel);
      Delivered(rows, mi, limit, cancel, places, out);
      return;
    }
    var useFull, mSize, state := ChooseRing(grandTotal, seed);
    ghost var k := RingBits(grandTotal as nat);
    ghost var start := state as nat;
    DispatchStart(laid, k, start);
    var dispatched, count := 0, 0;
    StopAtZero(limit, cancel);
    while dispatched < grandTotal as nat
      invariant Dispatching(laid, k, start, steps, state as nat, places, out)
      invariant dispatched == count == |places| == |out| <= |laid|
      invariant |places| == Stop(|places|, limit, cancel)
      invariant steps <= Pow2(k)
      decreases Pow2(k) - steps
    {
      LeaveStop(|places|, |laid|, limit, cancel);
      if limit > 0 && count >= limit {
        break;
      }
      if cancel == Some(count) {
        break;
      }
      DispatchStep(laid, k, start, steps, state as nat, places, out);
      StepIsNext(state, useFull, mSize, k);
      state := StepState(state, useFull, mSize);
      steps := steps + 1;
      if state >= grandTotal {
        continue;
      }
      var ip := AddressAt(rows, indexer, state);
      if ip.None? {
        dispatched := dispatched + 1; // never reached: indexed rows stay readable
        continue;
      }
      out := out + [ip.value];
      places := places + [state as nat];
      count := count + 1;
      dispatched := dispatched + 1;
    }
    LeaveStop(|places|, |laid|, limit, cancel);
    DispatchEnd(rows, mi, k, start, steps, state as nat, places, out, limit, cancel);
    DispatchedHits(laid, k, start, steps, state as nat, places, out);
    Delivered(rows, mi, limit, cancel, places, out);
  }

  // ----- what a run delivers -----

  /** A run without cancellation visits every index if and only if the limit
      does not cut it. */
  lemma CoversIffUncut(rows: seq<Row>, mi: MasterIndexer, limit: nat, places: seq<nat>, out: seq<Addr>)
    requires Indexes(rows, mi) && Streamed(rows, mi, limit, None, places, out)
    ensures Elements(places) == Below(mi.grandTotal as nat) <==> limit == 0 || mi.grandTotal as nat <= limit
  {
    var gt := mi.grandTotal as nat;
    hide Laid, Indexes;
    if |places| == gt {
      AllPlaces(places, gt);
    }
    if Elements(places) == Below(gt) {
      DistinctSize(places);
      BelowSize(gt);
    }
  }

  /** In overflow mode every block hands out a stretch of one active range. */
  lemma OverflowWindow(rows: seq<Row>, mi: MasterIndexer, source: seq<nat>, offset: seq<nat>, k: nat)
    requires |Sequential(rows)| > MAX_UINT64 && k < |mi.blocks|
    requires Windows(EntriesOf(rows), |Sequential(rows)|, mi.blocks, source, offset)
    ensures var e, n := EntriesOf(rows)[source[k]], mi.blocks[k].totalIPs as nat;
            && e.offset < |rows| && Active(rows[e.offset]) && 0 < n
            && offset[k] + n <= |RowView(rows[e.offset])|
            && CidrAddrs(mi.blocks[k].startIP, n) == RowView(rows[e.offset])[offset[k]..offset[k] + n]
  {
    var e := EntriesOf(rows)[source[k]];
    EntriesFromRows(rows, source[k]);
    PrefixInterval(rows[e.offset].ip);
    WindowInside(mi.blocks[k], e, offset[k], |Sequential(rows)|);
  }

  /** The entry point. Both modes send as many addresses as they have to offer,
      cut at the limit and the cancellation, and off the embedding block none
      more often than the file holds it; an uncut shuffled run whose total fits
      is a permutation of the file exactly off that block. A limit of 0 stands
      for 2^64 - 2, so without a limit all addresses go out exactly if there
      are fewer than 2^64 - 1. */
  method StreamActiveIPs(rows: seq<Row>, limit: nat, shuffled: bool, seed: uint64, cancel: Option<nat>)
    returns (out: seq<Addr>)
    requires limit <= MAX_UINT64
    ensures var total := |Sequential(rows)|;
            |out| == Stop(if shuffled then Offered(rows) else total, EffectiveLimit(limit), cancel)
    ensures !shuffled ==> out <= Sequential(rows)
    ensures (forall i :: 0 <= i < |rows| ==> !Crosses(rows[i])) ==>
              multiset(out) <= multiset(Sequential(rows)) &&
              (|out| == |Sequential(rows)| ==> multiset(out) == multiset(Sequential(rows)))
    ensures shuffled && |out| == |Sequential(rows)| <= MAX_UINT64 ==>
              (multiset(out) == multiset(Sequential(rows)) <==> forall i :: 0 <= i < |rows| ==> !Crosses(rows[i]))
    ensures EndsInTime(|out|, if shuffled then Offered(rows) else |Sequential(rows)|,
                       if limit == 0 then 0xffff_ffff_ffff_fffe else limit, cancel)
    ensures (forall i :: 0 <= i < |rows| ==> Off(rows[i])) ==> out == []
    ensures !shuffled || (forall i :: 0 <= i < |rows| ==> !Crosses(rows[i])) ==>
              && (forall a :: a in out ==> Asked(rows, a))
              && (|out| == |Sequential(rows)| ==> forall a :: Asked(rows, a) ==> a in out)
    ensures limit == 0 && cancel == None ==> (|out| == |Sequential(rows)| <==> |Sequential(rows)| < MAX_UINT64)
  {
    var cap := EffectiveLimit(limit);
    hide Asked, Off, EndsInTime;
    StopEndsInTime(if shuffled then Offered(rows) else |Sequential(rows)|, cap, cancel);
    NothingOffered(rows);
    if shuffled {
      ghost var mi, places, steps;
      hide Indexes, Streamed, Sequential, EntriesOf, EntriesView, Crosses, HitsUpTo, Pow2, RingBits;
      out, mi, places, steps := StreamActiveShuffled(rows, cap, seed, cancel);
      IndexedIsSequential(rows);
    } else {
      hide Sequential, Crosses;
      out := StreamActiveSequential(rows, cap, cancel);
      PrefixContained(out, Sequential(rows));
    }
    if multiset(out) <= multiset(Sequential(rows)) && |out| == |Sequential(rows)| {
      ContainedAll(multiset(out), multiset(Sequential(rows)));
    }
    ContainedAsked(rows, out);
  }

  lemma NothingOffered(rows: seq<Row>)
    ensures (forall i :: 0 <= i < |rows| ==> Off(rows[i])) ==> |Sequential(rows)| == 0 == Offered(rows)
  {
    if forall i :: 0 <= i < |rows| ==> Off(rows[i]) {
      AllOff(rows);
    }
  }

  lemma ContainedAsked(rows: seq<Row>, out: seq<Addr>)
    ensures multiset(out) <= multiset(Sequential(rows)) ==> forall a :: a in out ==> Asked(rows, a)
    ensures multiset(out) == multiset(Sequential(rows)) ==> forall a :: Asked(rows, a) ==> a in out
  {
    hide Sequential, Asked;
    forall a: Addr
      ensures a in Sequential(rows) <==> Asked(rows, a)
      ensures a in Sequential(rows) <==> a in multiset(Sequential(rows))
      ensures a in out <==> a in multiset(out)
    {
      SequentialMeaning(rows, a);
    }
  }

  function EffectiveLimit(limit: nat): nat {
    if limit == 0 then MAX_UINT64 - 1 else limit
  }

  // ----- a list that the default limit cuts -----

  lemma PowerPrefix(h: nat)
    requires h <= 64
    ensures Pow2(h) < TWO_128
    ensures var p := Prefix(V6(Pow2(h)), 128 - h); ValidPrefix(p) && Masked(p) == p && Size(p) == Pow2(h)
  {
    hide Pow2, RoundDown;
    Pow2Values();
    Pow2Monotone(h, 64);
    RoundDownSelf(Pow2(h));
  }

  lemma RoundDownSelf(m: nat)
    requires m > 0
    ensures RoundDown(m, m) == m
  {
    QuotientUnique(m, m, 1, 0);
  }

  /** The addresses from 2^h up to 2^(h+1), as a network. */
  function PowerRange(h: nat): (p: Network)
    requires h <= 64
    ensures Size(p) == Pow2(h)
  {
    PowerPrefix(h);
    Prefix(V6(Pow2(h)), 128 - h)
  }

  /** The addresses ::1, ::2, ... below 2^n, one range for every bit. */
  function RangesBelow(n: nat): seq<Row>
    requires n <= 64
  {
    if n == 0 then [] else RangesBelow(n - 1) + [Entry(PowerRange(n - 1), true)]
  }

  lemma {:induction false} RangesTotal(n: nat)
    requires n <= 64
    ensures |Sequential(RangesBelow(n))| == Pow2(n) - 1
  {
    if n > 0 {
      RangesTotal(n - 1);
      var rows := RangesBelow(n);
      assert rows[..|rows| - 1] == RangesBelow(n - 1);
    }
  }

  lemma RangesUpTo(n: nat) returns (rows: seq<Row>)
    requires n <= 64
    ensures |Sequential(rows)| == Pow2(n) - 1
  {
    rows := RangesBelow(n);
    RangesTotal(n);
  }

  /** A list of exactly 2^64 - 1 addresses loses one of them to the limit 0. */
  lemma DefaultLimitCuts() returns (rows: seq<Row>)
    ensures |Sequential(rows)| == MAX_UINT64
    ensures Stop(|Sequential(rows)|, EffectiveLimit(0), None) == MAX_UINT64 - 1
  {
    rows := RangesUpTo(64);
    Pow2Values();
    hide Sequential, Pow2;
  }
}
