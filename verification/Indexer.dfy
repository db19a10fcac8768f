/** The index behind the shuffled stream: every active address of a list laid
    onto [0, GrandTotal), CIDR ranges first, single hosts after them. */
module Indexer {
  import opened Arith
  import opened Lcg
  import opened Netip
  import opened IpList
  import opened Options

  datatype CIDRBlock = CIDRBlock(startIP: Addr, totalIPs: uint64, globalIdx: uint64)

  datatype MasterIndexer = MasterIndexer(
    blocks: seq<CIDRBlock>,
    singleOffsets: seq<nat>,
    totalCIDRIPs: uint64,
    totalSingles: uint64,
    grandTotal: uint64)

  /** What the first pass keeps of an active row; offset is the row's place. */
  datatype RawEntry = RawEntry(startIP: Addr, offset: nat, size: nat, isCIDR: bool)

  // ----- what the index stands for -----

  /** The addresses start, start + 1, ... read through the 16-byte form. */
  function CidrAddrs(start: Addr, n: nat): (s: seq<Addr>)
    ensures |s| == n
  {
    seq(n, j requires 0 <= j < n => Plus(start, j))
  }

  function Span(blocks: seq<CIDRBlock>): nat {
    if blocks == [] then 0 else Span(blocks[..|blocks| - 1]) + blocks[|blocks| - 1].totalIPs as nat
  }

  /** Nonempty blocks whose index intervals follow one another from 0. */
  ghost predicate Tiled(blocks: seq<CIDRBlock>) {
    forall k :: 0 <= k < |blocks| ==> blocks[k].totalIPs > 0 && blocks[k].globalIdx as nat == Span(blocks[..k])
  }

  function Flatten(blocks: seq<CIDRBlock>): (s: seq<Addr>)
    ensures |s| == Span(blocks)
  {
    if blocks == [] then []
    else
      var b := blocks[|blocks| - 1];
      Flatten(blocks[..|blocks| - 1]) + CidrAddrs(b.startIP, b.totalIPs as nat)
  }

  ghost predicate WellFormed(mi: MasterIndexer) {
    && Tiled(mi.blocks)
    && mi.totalCIDRIPs as nat == Span(mi.blocks)
    && mi.totalSingles as nat == |mi.singleOffsets|
    && mi.grandTotal as nat == mi.totalCIDRIPs as nat + mi.totalSingles as nat
  }

  /** Re-reads the row a single host was indexed at. */
  function ReadIPAt(rows: seq<Row>, offset: nat): Option<Addr> {
    if offset < |rows| && rows[offset].Entry? then Some(rows[offset].ip.addr) else None
  }

  ghost predicate SinglesReadable(rows: seq<Row>, offsets: seq<nat>) {
    forall k :: 0 <= k < |offsets| ==> ReadIPAt(rows, offsets[k]).Some?
  }

  function Singles(rows: seq<Row>, offsets: seq<nat>): (s: seq<Addr>)
    requires SinglesReadable(rows, offsets)
    ensures |s| == |offsets|
  {
    seq(|offsets|, k requires 0 <= k < |offsets| => ReadIPAt(rows, offsets[k]).value)
  }

  /** The address each global index stands for. */
  ghost function Laid(rows: seq<Row>, mi: MasterIndexer): seq<Addr>
    requires SinglesReadable(rows, mi.singleOffsets)
  {
    Flatten(mi.blocks) + Singles(rows, mi.singleOffsets)
  }

  lemma {:induction false} SpanPrefix(blocks: seq<CIDRBlock>, k: nat)
    requires k <= |blocks|
    ensures Span(blocks[..k]) <= Span(blocks) && Flatten(blocks[..k]) <= Flatten(blocks)
    decreases |blocks|
  {
    if k < |blocks| {
      SpanPrefix(blocks[..|blocks| - 1], k);
      assert blocks[..|blocks| - 1][..k] == blocks[..k];
    } else {
      assert blocks[..k] == blocks;
    }
  }

  /** Global indices inside a block stand for consecutive addresses. */
  lemma {:induction false} FlattenAt(blocks: seq<CIDRBlock>, k: nat, g: nat)
    requires Tiled(blocks) && k < |blocks|
    requires blocks[k].globalIdx as nat <= g < blocks[k].globalIdx as nat + blocks[k].totalIPs as nat
    ensures g < Span(blocks) && Flatten(blocks)[g] == Plus(blocks[k].startIP, g - blocks[k].globalIdx as nat)
  {
    var b := blocks[k];
    SpanPrefix(blocks, k + 1);
    assert blocks[..k + 1] == blocks[..k] + [b];
    assert blocks[..k + 1][..k] == blocks[..k];
    assert Flatten(blocks[..k + 1]) == Flatten(blocks[..k]) + CidrAddrs(b.startIP, b.totalIPs as nat);
    hide Flatten, Span, Plus;
    assert Flatten(blocks[..k + 1])[g] == Flatten(blocks)[g];
  }

  lemma {:induction false} BlockOrder(blocks: seq<CIDRBlock>, i: nat, j: nat)
    requires Tiled(blocks) && i < j < |blocks|
    ensures blocks[i].globalIdx as nat + blocks[i].totalIPs as nat <= blocks[j].globalIdx as nat
  {
    assert blocks[..i + 1][..i] == blocks[..i];
    assert blocks[..j][..i + 1] == blocks[..i + 1];
    SpanPrefix(blocks[..j], i + 1);
  }

  /** Every global CIDR index has exactly one owning block. */
  lemma {:induction false} UniqueOwner(blocks: seq<CIDRBlock>, g: nat, i: nat, j: nat)
    requires Tiled(blocks) && i < |blocks| && j < |blocks|
    requires blocks[i].globalIdx as nat <= g < blocks[i].globalIdx as nat + blocks[i].totalIPs as nat
    requires blocks[j].globalIdx as nat <= g < blocks[j].globalIdx as nat + blocks[j].totalIPs as nat
    ensures i == j
  {
    if i < j {
      BlockOrder(blocks, i, j);
    } else if j < i {
      BlockOrder(blocks, j, i);
    }
  }

  lemma FirstBlock(blocks: seq<CIDRBlock>)
    requires Tiled(blocks) && Span(blocks) > 0
    ensures blocks != [] && blocks[0].globalIdx == 0
  {
    assert blocks[..0] == [];
  }

  /** The last block starting at or before g owns it. */
  lemma {:induction false} OwnerFound(blocks: seq<CIDRBlock>, k: nat, g: nat)
    requires Tiled(blocks) && k < |blocks| && g < Span(blocks)
    requires blocks[k].globalIdx as nat <= g
    requires k + 1 < |blocks| ==> g < blocks[k + 1].globalIdx as nat
    ensures Flatten(blocks)[g] == Plus(blocks[k].startIP, g - blocks[k].globalIdx as nat)
  {
    assert blocks[..k + 1][..k] == blocks[..k];
    assert k + 1 == |blocks| ==> blocks[..k + 1] == blocks;
    FlattenAt(blocks, k, g);
  }

  /** Binary search for the owning block; the result is the address the
      layout gives this index. */
  method GetIPFromCIDRBlocks(mi: MasterIndexer, globalIdx: uint64) returns (r: Addr)
    requires WellFormed(mi) && globalIdx < mi.totalCIDRIPs
    ensures r == Flatten(mi.blocks)[globalIdx as nat]
  {
    hide Flatten, Span, Plus;
    var blocks := mi.blocks;
    var low, high := 0, |blocks| - 1;
    FirstBlock(blocks);
    var target := blocks[0];
    while low <= high
      invariant 0 <= low <= high + 1 <= |blocks|
      invariant low > 0 ==> target == blocks[low - 1] && target.globalIdx <= globalIdx
      invariant high + 1 < |blocks| ==> globalIdx < blocks[high + 1].globalIdx
      invariant low == 0 ==> high >= 0
    {
      var mid := (low + high) / 2;
      if blocks[mid].globalIdx <= globalIdx {
        target := blocks[mid];
        low := mid + 1;
      } else {
        high := mid - 1;
      }
    }
    OwnerFound(blocks, low - 1, globalIdx as nat);
    r := AddOffsetToAddr(target.startIP, globalIdx - target.globalIdx);
  }

  // ----- building it -----

  function EntriesOf(rows: seq<Row>): seq<RawEntry> {
    if rows == [] then []
    else
      var n := |rows| - 1;
      EntriesOf(rows[..n]) +
      (if Active(rows[n]) then [RawEntry(rows[n].ip.addr, n, Size(rows[n].ip), !IsSingle(rows[n].ip))] else [])
  }

  function TotalSize(entries: seq<RawEntry>): nat {
    if entries == [] then 0 else TotalSize(entries[..|entries| - 1]) + entries[|entries| - 1].size
  }

  lemma TotalSizeAppend(entries: seq<RawEntry>, e: RawEntry)
    ensures TotalSize(entries + [e]) == TotalSize(entries) + e.size
  {
    assert (entries + [e])[..|entries|] == entries;
  }

  lemma {:induction false} TotalSizePrefix(entries: seq<RawEntry>, i: nat)
    requires i <= |entries|
    ensures TotalSize(entries[..i]) <= TotalSize(entries)
    decreases |entries|
  {
    if i < |entries| {
      TotalSizePrefix(entries[..|entries| - 1], i);
      assert entries[..|entries| - 1][..i] == entries[..i];
    } else {
      assert entries[..i] == entries;
    }
  }

  lemma EntriesStep(rows: seq<Row>, i: nat)
    requires i < |rows|
    ensures EntriesOf(rows[..i + 1]) == EntriesOf(rows[..i]) +
              (if Active(rows[i]) then [RawEntry(rows[i].ip.addr, i, Size(rows[i].ip), !IsSingle(rows[i].ip))] else [])
    ensures |RowAddrs(rows[i])| == if Active(rows[i]) then Size(rows[i].ip) else 0
  {
    assert rows[..i + 1][..i] == rows[..i];
  }

  lemma NoEntries(rows: seq<Row>)
    ensures EntriesOf(rows[..0]) == [] && TotalSize([]) == 0 && Sequential(rows[..0]) == []
  {
  }

  ghost predicate FromRow(rows: seq<Row>, e: RawEntry) {
    && e.offset < |rows| && rows[e.offset].Entry? && rows[e.offset].enable
    && e.startIP == rows[e.offset].ip.addr
    && e.size == Size(rows[e.offset].ip)
    && (e.isCIDR <==> rows[e.offset].ip.bits < if e.startIP.V4? then 32 else 128)
  }

  lemma {:induction false} EntriesFromRows(rows: seq<Row>, i: nat)
    requires i < |EntriesOf(rows)|
    ensures FromRow(rows, EntriesOf(rows)[i])
  {
    var n := |rows| - 1;
    var before := EntriesOf(rows[..n]);
    if i < |before| {
      EntriesFromRows(rows[..n], i);
    }
  }

  /** Every row that is switched on has an entry. */
  lemma {:induction false} EntriesComplete(rows: seq<Row>, i: nat) returns (k: nat)
    requires i < |rows| && !Off(rows[i])
    ensures k < |EntriesOf(rows)| && EntriesOf(rows)[k].offset == i
  {
    var n := |rows| - 1;
    if i < n {
      k := EntriesComplete(rows[..n], i);
    } else {
      k := |EntriesOf(rows[..n])|;
    }
  }

  /** Exactly the rows that are switched on have entries. */
  lemma EntriesExact(rows: seq<Row>)
    ensures var e := EntriesOf(rows);
            && (forall k :: 0 <= k < |e| ==> FromRow(rows, e[k]))
            && forall i :: 0 <= i < |rows| && !Off(rows[i]) ==> exists k :: 0 <= k < |e| && e[k].offset == i
  {
    hide EntriesOf;
    var e := EntriesOf(rows);
    forall k | 0 <= k < |e| ensures FromRow(rows, e[k]) {
      EntriesFromRows(rows, k);
    }
    forall i | 0 <= i < |rows| && !Off(rows[i]) ensures exists k :: 0 <= k < |e| && e[k].offset == i {
      var k := EntriesComplete(rows, i);
      assert e[k].offset == i;
    }
  }

  /** The first pass: active rows in file order, and their exact total. */
  method ReadEntries(rows: seq<Row>) returns (entries: seq<RawEntry>, total: nat)
    ensures entries == EntriesOf(rows)
    ensures total == TotalSize(entries) == |Sequential(rows)|
    ensures forall k :: 0 <= k < |entries| ==> FromRow(rows, entries[k])
    ensures forall i :: 0 <= i < |rows| && !Off(rows[i]) ==> exists k :: 0 <= k < |entries| && entries[k].offset == i
  {
    hide EntriesOf, TotalSize, Sequential, Size, IsSingle, RowAddrs, Off, FromRow;
    entries, total := [], 0;
    NoEntries(rows);
    var i := 0;
    while i < |rows|
      invariant i <= |rows|
      invariant entries == EntriesOf(rows[..i])
      invariant total == TotalSize(entries) == |Sequential(rows[..i])|
    {
      SequentialStep(rows, i);
      EntriesStep(rows, i);
      if Active(rows[i]) {
        var p := rows[i].ip;
        var e := RawEntry(p.addr, i, Size(p), !IsSingle(p));
        TotalSizeAppend(entries, e);
        entries := entries + [e];
        total := total + e.size;
      }
      i := i + 1;
    }
    assert rows[..i] == rows;
    EntriesExact(rows);
  }

  /** An entry's addresses, as the index hands them out. */
  function EntryView(e: RawEntry): (s: seq<Addr>)
    ensures e.size == 1 || e.isCIDR ==> |s| == e.size
  {
    if e.isCIDR then CidrAddrs(e.startIP, e.size) else [e.startIP]
  }

  function EntriesView(entries: seq<RawEntry>): seq<Addr> {
    if entries == [] then [] else EntriesView(entries[..|entries| - 1]) + EntryView(entries[|entries| - 1])
  }

  lemma EntriesViewAppend(entries: seq<RawEntry>, e: RawEntry)
    ensures EntriesView(entries + [e]) == EntriesView(entries) + EntryView(e)
  {
    assert (entries + [e])[..|entries|] == entries;
  }

  lemma TiledAppend(blocks: seq<CIDRBlock>, b: CIDRBlock)
    requires Tiled(blocks) && b.totalIPs > 0 && b.globalIdx as nat == Span(blocks)
    ensures Tiled(blocks + [b])
    ensures Span(blocks + [b]) == Span(blocks) + b.totalIPs as nat
    ensures Flatten(blocks + [b]) == Flatten(blocks) + CidrAddrs(b.startIP, b.totalIPs as nat)
  {
    var c := blocks + [b];
    assert c[..|blocks|] == blocks;
    forall k | 0 <= k < |c| ensures c[k].totalIPs > 0 && c[k].globalIdx as nat == Span(c[..k]) {
      if k < |blocks| {
        assert c[..k] == blocks[..k];
      }
    }
  }

  lemma SinglesAppend(rows: seq<Row>, offsets: seq<nat>, offset: nat)
    requires SinglesReadable(rows, offsets) && ReadIPAt(rows, offset).Some?
    ensures SinglesReadable(rows, offsets + [offset])
    ensures Singles(rows, offsets + [offset]) == Singles(rows, offsets) + [ReadIPAt(rows, offset).value]
  {
  }

  lemma MixAppend(f: seq<Addr>, s: seq<Addr>, v: seq<Addr>, x: seq<Addr>)
    requires multiset(f + s) == multiset(v)
    ensures multiset((f + x) + s) == multiset(v + x)
    ensures multiset(f + (s + x)) == multiset(v + x)
  {
  }

  /** The blocks and offsets built from some entries hold their addresses. */
  ghost predicate HoldsEntries(rows: seq<Row>, entries: seq<RawEntry>, blocks: seq<CIDRBlock>, offsets: seq<nat>) {
    && Tiled(blocks) && SinglesReadable(rows, offsets)
    && Span(blocks) + |offsets| == TotalSize(entries)
    && multiset(Flatten(blocks) + Singles(rows, offsets)) == multiset(EntriesView(entries))
  }

  lemma HoldsNothing(rows: seq<Row>)
    ensures HoldsEntries(rows, [], [], [])
  {
  }

  lemma HoldsSingle(rows: seq<Row>, entries: seq<RawEntry>, blocks: seq<CIDRBlock>, offsets: seq<nat>, e: RawEntry)
    requires HoldsEntries(rows, entries, blocks, offsets) && FromRow(rows, e) && !e.isCIDR
    ensures HoldsEntries(rows, entries + [e], blocks, offsets + [e.offset])
  {
    SinglesAppend(rows, offsets, e.offset);
    TotalSizeAppend(entries, e);
    EntriesViewAppend(entries, e);
    MixAppend(Flatten(blocks), Singles(rows, offsets), EntriesView(entries), EntryView(e));
  }

  lemma HoldsBlock(rows: seq<Row>, entries: seq<RawEntry>, blocks: seq<CIDRBlock>, offsets: seq<nat>, e: RawEntry,
                   b: CIDRBlock)
    requires HoldsEntries(rows, entries, blocks, offsets) && FromRow(rows, e) && e.isCIDR
    requires b.startIP == e.startIP && b.totalIPs as nat == e.size && b.globalIdx as nat == Span(blocks)
    ensures HoldsEntries(rows, entries + [e], blocks + [b], offsets)
    ensures Span(blocks + [b]) == Span(blocks) + e.size
  {
    TiledAppend(blocks, b);
    TotalSizeAppend(entries, e);
    EntriesViewAppend(entries, e);
    MixAppend(Flatten(blocks), Singles(rows, offsets), EntriesView(entries), EntryView(e));
  }

  lemma HoldsTotal(rows: seq<Row>, entries: seq<RawEntry>, blocks: seq<CIDRBlock>, offsets: seq<nat>)
    requires HoldsEntries(rows, entries, blocks, offsets)
    ensures Span(blocks) + |offsets| == TotalSize(entries) && SinglesReadable(rows, offsets)
  {
  }

  /** An index over such blocks and offsets, with their totals. */
  lemma HoldsAll(rows: seq<Row>, entries: seq<RawEntry>, mi: MasterIndexer)
    requires HoldsEntries(rows, entries, mi.blocks, mi.singleOffsets)
    requires mi.totalCIDRIPs as nat == Span(mi.blocks) && mi.totalSingles as nat == |mi.singleOffsets|
    requires mi.grandTotal as nat == TotalSize(entries)
    ensures WellFormed(mi) && SinglesReadable(rows, mi.singleOffsets)
    ensures multiset(Laid(rows, mi)) == multiset(EntriesView(entries))
  {
  }

  /** The exact index: used when the total fits in 64 bits. It lays out
      every active address once. */
  method BuildDirect(ghost rows: seq<Row>, entries: seq<RawEntry>) returns (mi: MasterIndexer)
    requires TotalSize(entries) <= MAX_UINT64
    requires forall i :: 0 <= i < |entries| ==> FromRow(rows, entries[i])
    ensures WellFormed(mi) && SinglesReadable(rows, mi.singleOffsets)
    ensures mi.grandTotal as nat == TotalSize(entries)
    ensures multiset(Laid(rows, mi)) == multiset(EntriesView(entries))
  {
    hide Flatten, CidrAddrs, Singles, EntriesView, EntryView, ReadIPAt, HoldsEntries, WellFormed, Laid, TotalSize,
         SinglesReadable;
    var blocks: seq<CIDRBlock>, offsets: seq<nat> := [], [];
    var globalIdx: uint64, totalCIDR: uint64, singles: uint64 := 0, 0, 0;
    HoldsNothing(rows);
    assert Span(blocks) == 0;
    hide Span, FromRow;
    var i := 0;
    while i < |entries|
      invariant i <= |entries|
      invariant HoldsEntries(rows, entries[..i], blocks, offsets)
      invariant globalIdx == totalCIDR && globalIdx as nat == Span(blocks) && singles as nat == |offsets|
    {
      var e := entries[i];
      assert entries[..i + 1] == entries[..i] + [e];
      TotalSizePrefix(entries, i + 1);
      TotalSizeAppend(entries[..i], e);
      HoldsTotal(rows, entries[..i], blocks, offsets);
      if !e.isCIDR {
        HoldsSingle(rows, entries[..i], blocks, offsets, e);
        offsets := offsets + [e.offset];
        singles := singles + 1;
      } else {
        var b := CIDRBlock(e.startIP, e.size as uint64, globalIdx);
        HoldsBlock(rows, entries[..i], blocks, offsets, e, b);
        blocks := blocks + [b];
        globalIdx := SaturatingAdd(globalIdx, e.size as uint64);
        totalCIDR := globalIdx;
      }
      i := i + 1;
    }
    assert entries[..i] == entries;
    HoldsTotal(rows, entries, blocks, offsets);
    mi := MasterIndexer(blocks, offsets, totalCIDR, singles, SaturatingAdd(globalIdx, singles));
    HoldsAll(rows, entries, mi);
  }

  // ----- overflow mode -----

  /** A range's share of the 2^64 - 1 indices. */
  function Quota(size: nat, total: nat): nat
    requires total > 0
  {
    (size * MAX_UINT64) / total
  }

  /** The shares of all ranges together. */
  function Quotas(entries: seq<RawEntry>, total: nat): nat
    requires total > 0
  {
    if entries == [] then 0
    else Quotas(entries[..|entries| - 1], total) + Quota(entries[|entries| - 1].size, total)
  }

  lemma QuotasAppend(entries: seq<RawEntry>, e: RawEntry, total: nat)
    requires total > 0
    ensures Quotas(entries + [e], total) == Quotas(entries, total) + Quota(e.size, total)
  {
    assert (entries + [e])[..|entries|] == entries;
  }

  /** The largest number of indices within the exact share. */
  lemma QuotaExact(size: nat, total: nat)
    requires total > 0
    ensures Quota(size, total) * total <= size * MAX_UINT64 < (Quota(size, total) + 1) * total
  {
    Quotient(size * MAX_UINT64, total);
  }

  lemma QuotaBelowSize(size: nat, total: nat)
    requires total > MAX_UINT64 && size > 0
    ensures Quota(size, total) < size
  {
    Quotient(size * MAX_UINT64, total);
    MulMonotone(MAX_UINT64 + 1, total, size);
    MulCancel(Quota(size, total), size, total);
  }

  lemma MulCancel(x: int, y: int, m: int)
    requires m > 0 && m * x < m * y
    ensures x < y
  {
    if y <= x {
      MulMonotone(y, x, m);
    }
  }

  /** The indices used so far are at most the exact share of what is done. */
  ghost predicate WithinShare(used: nat, done: nat, total: nat) {
    used * total <= done * MAX_UINT64
  }

  lemma QuotaSum(used: nat, done: nat, size: nat, total: nat)
    requires total > 0 && WithinShare(used, done, total)
    ensures WithinShare(used + Quota(size, total), done + size, total)
  {
    var q := Quota(size, total);
    Quotient(size * MAX_UINT64, total);
    assert (used + q) * total == used * total + total * q;
  }

  lemma ShareStart(total: nat)
    ensures WithinShare(0, 0, total) && TotalSize([]) == 0
  {
  }

  lemma QuotaCap(used: nat, done: nat, total: nat)
    requires total > 0 && WithinShare(used, done, total) && done <= total
    ensures used <= MAX_UINT64
  {
    MulMonotone(done, total, MAX_UINT64);
    assert total * used < total * (MAX_UINT64 + 1);
    MulCancel(used, MAX_UINT64 + 1, total);
  }

  /** Block b is a nonempty window of entry e, offset places into it, and its
      length is the entry's exact share. */
  ghost predicate WindowOf(b: CIDRBlock, e: RawEntry, offset: nat, total: nat)
    requires total > 0
  {
    && e.isCIDR && b.totalIPs > 0
    && b.totalIPs as nat == Quota(e.size, total)
    && offset + b.totalIPs as nat <= e.size
    && b.startIP == Plus(e.startIP, offset)
  }

  method RandBelow(max: nat) returns (n: nat)
    requires max > 0
    ensures n < max
  {
    n :| 0 <= n < max;
  }

  /** The proportional index: used when the total does not fit. Every block is
      a window of one range, the windows tile the index space, and no single
      host is kept; source and offset say which range and where. */
  method BuildProportional(entries: seq<RawEntry>, total: nat)
    returns (mi: MasterIndexer, ghost source: seq<nat>, ghost offset: seq<nat>)
    requires total == TotalSize(entries) && total > MAX_UINT64
    requires forall i :: 0 <= i < |entries| ==> entries[i].size > 0 && (!entries[i].isCIDR ==> entries[i].size == 1)
    ensures WellFormed(mi) && mi.singleOffsets == []
    ensures Windows(entries, total, mi.blocks, source, offset) && mi.grandTotal as nat == Quotas(entries, total)
  {
    hide Quota, Quotas, WithinShare, TotalSize, Flatten, CidrAddrs, Plus, Windows, Tiled, Span;
    var blocks: seq<CIDRBlock>, offsets: seq<nat> := [], [];
    var globalIdx: uint64, totalCIDR: uint64, singles: int := 0, 0, 0;
    source, offset := [], [];
    ShareStart(total);
    WindowsNone(total);
    var i := 0;
    while i < |entries|
      invariant i <= |entries|
      invariant globalIdx == totalCIDR && globalIdx as nat == Span(blocks) == Quotas(entries[..i], total)
      invariant offsets == [] && singles == 0
      invariant Tiled(blocks) && Windows(entries[..i], total, blocks, source, offset)
      invariant WithinShare(globalIdx as nat, TotalSize(entries[..i]), total)
    {
      var e := entries[i];
      assert entries[..i + 1] == entries[..i] + [e];
      ShareFits(entries, i, globalIdx as nat);
      QuotasAppend(entries[..i], e, total);
      var quota := Quota(e.size, total);
      if quota == 0 {
        WindowsSkip(entries[..i], total, blocks, source, offset, e);
      } else if !e.isCIDR {
        offsets := offsets + [e.offset];
        singles := singles + 1; // never reached: a single host's share is 0
      } else {
        var maxOffset := e.size - quota;
        var off := 0;
        if maxOffset > 0 {
          off := RandBelow(maxOffset);
        }
        var start := AddBigOffsetToAddr(e.startIP, off);
        var b := CIDRBlock(start, quota as uint64, globalIdx);
        TiledAppend(blocks, b);
        WindowsAppend(entries[..i], total, blocks, source, offset, e, b, off);
        blocks := blocks + [b];
        source, offset := source + [i], offset + [off];
        globalIdx := SaturatingAdd(globalIdx, quota as uint64);
        totalCIDR := globalIdx;
      }
      i := i + 1;
    }
    assert entries[..i] == entries;
    mi := MasterIndexer(blocks, offsets, totalCIDR, singles as uint64, SaturatingAdd(globalIdx, singles as uint64));
  }

  /** The blocks are windows of increasing entries, one for every entry whose
      share is at least one index. */
  ghost predicate Windows(entries: seq<RawEntry>, total: nat, blocks: seq<CIDRBlock>, source: seq<nat>,
                          offset: seq<nat>)
    requires total > 0
  {
    && |source| == |offset| == |blocks|
    && (forall k :: 0 <= k < |source| ==>
          source[k] < |entries| && WindowOf(blocks[k], entries[source[k]], offset[k], total))
    && (forall j, k :: 0 <= j < k < |source| ==> source[j] < source[k])
    && (forall i :: 0 <= i < |entries| ==> (i in source <==> entries[i].size * MAX_UINT64 >= total))
  }

  lemma WindowsNone(total: nat)
    requires total > 0
    ensures Windows([], total, [], [], []) && Tiled([]) && Span([]) == 0 == Quotas([], total)
  {
  }

  lemma WindowsSkip(entries: seq<RawEntry>, total: nat, blocks: seq<CIDRBlock>, source: seq<nat>, offset: seq<nat>,
                    e: RawEntry)
    requires total > 0 && Windows(entries, total, blocks, source, offset) && Quota(e.size, total) == 0
    ensures Windows(entries + [e], total, blocks, source, offset)
  {
    QuotaZero(e.size, total);
    forall i | 0 <= i < |entries| + 1
      ensures i in source <==> (entries + [e])[i].size * MAX_UINT64 >= total
    {
    }
  }

  lemma WindowsAppend(entries: seq<RawEntry>, total: nat, blocks: seq<CIDRBlock>, source: seq<nat>, offset: seq<nat>,
                      e: RawEntry, b: CIDRBlock, off: nat)
    requires total > 0 && Windows(entries, total, blocks, source, offset) && WindowOf(b, e, off, total)
    ensures Windows(entries + [e], total, blocks + [b], source + [|entries|], offset + [off])
  {
    QuotaZero(e.size, total);
    var s, all := source + [|entries|], entries + [e];
    forall i | 0 <= i < |all| ensures i in s <==> all[i].size * MAX_UINT64 >= total {
      if i < |entries| {
        assert i in s <==> i in source;
      } else {
        assert s[|source|] == i;
      }
    }
  }

  /** Before each entry there is room for its share, and the running sum stays
      below the exact share of the entries done. */
  lemma ShareFits(entries: seq<RawEntry>, i: nat, used: nat)
    requires i < |entries| && TotalSize(entries) > MAX_UINT64 && entries[i].size > 0
    requires WithinShare(used, TotalSize(entries[..i]), TotalSize(entries))
    ensures var total, e := TotalSize(entries), entries[i];
            && Quota(e.size, total) < e.size
            && (e.size == 1 ==> Quota(e.size, total) == 0)
            && used + Quota(e.size, total) <= MAX_UINT64
            && WithinShare(used + Quota(e.size, total), TotalSize(entries[..i + 1]), total)
  {
    hide Quota, WithinShare, TotalSize;
    var total, e := TotalSize(entries), entries[i];
    assert entries[..i + 1] == entries[..i] + [e];
    TotalSizePrefix(entries, i + 1);
    TotalSizeAppend(entries[..i], e);
    QuotaBelowSize(e.size, total);
    QuotaSum(used, TotalSize(entries[..i]), e.size, total);
    QuotaCap(used + Quota(e.size, total), TotalSize(entries[..i + 1]), total);
  }

  lemma QuotaZero(size: nat, total: nat)
    requires total > 0
    ensures Quota(size, total) == 0 <==> size * MAX_UINT64 < total
  {
    Quotient(size * MAX_UINT64, total);
    if size * MAX_UINT64 < total {
      QuotientUnique(size * MAX_UINT64, total, 0, size * MAX_UINT64);
    }
  }

  /** A window's addresses are the corresponding stretch of its range. */
  lemma WindowInside(b: CIDRBlock, e: RawEntry, offset: nat, total: nat)
    requires total > 0 && WindowOf(b, e, offset, total) && As16(e.startIP) + e.size <= TWO_128
    ensures CidrAddrs(b.startIP, b.totalIPs as nat) == CidrAddrs(e.startIP, e.size)[offset..offset + b.totalIPs as nat]
  {
    var n := b.totalIPs as nat;
    assert b.startIP == Plus(e.startIP, offset) && offset + n <= e.size;
    hide WindowOf, Quota, Plus, As16;
    var all := CidrAddrs(e.startIP, e.size);
    forall j | 0 <= j < n ensures CidrAddrs(b.startIP, n)[j] == all[offset..offset + n][j] {
      PlusPlus(e.startIP, offset, j);
    }
    hide CidrAddrs;
  }

  /** mi is an index of the file: exact when the total fits in 64 bits, made
      of proportional windows otherwise. */
  ghost predicate Indexes(rows: seq<Row>, mi: MasterIndexer) {
    && WellFormed(mi) && SinglesReadable(rows, mi.singleOffsets)
    && var entries, total := EntriesOf(rows), |Sequential(rows)|;
       if total <= MAX_UINT64 then
         mi.grandTotal as nat == total && multiset(Laid(rows, mi)) == multiset(EntriesView(entries))
       else
         && mi.singleOffsets == [] && mi.grandTotal as nat == Quotas(entries, total)
         && exists source, offset :: Windows(entries, total, mi.blocks, source, offset)
  }

  lemma {:induction false} EntriesViewPrefix(entries: seq<RawEntry>, i: nat)
    requires i <= |entries|
    ensures EntriesView(entries[..i]) <= EntriesView(entries)
    decreases |entries|
  {
    hide EntryView;
    if i < |entries| {
      EntriesViewPrefix(entries[..|entries| - 1], i);
      assert entries[..|entries| - 1][..i] == entries[..i];
    } else {
      assert entries[..i] == entries;
    }
  }

  lemma StretchContained(all: seq<Addr>, from: nat, to: nat)
    requires from <= to <= |all|
    ensures multiset(all[from..to]) <= multiset(all)
  {
    assert all == all[..from] + all[from..to] + all[to..];
  }

  lemma PrefixContained(a: seq<Addr>, b: seq<Addr>)
    requires a <= b
    ensures multiset(a) <= multiset(b)
  {
    assert b == a + b[|a|..];
  }

  lemma BothContained(a: seq<Addr>, b: seq<Addr>, c: seq<Addr>, d: seq<Addr>, all: seq<Addr>)
    requires multiset(a) <= multiset(c) && multiset(b) <= multiset(d) && c + d <= all
    ensures multiset(a + b) <= multiset(all)
  {
    PrefixContained(c + d, all);
  }

  /** Windows of increasing entries hold no address more often than the
      entries themselves. */
  lemma {:induction false} WindowsContained(entries: seq<RawEntry>, total: nat, blocks: seq<CIDRBlock>,
                                            source: seq<nat>, offset: seq<nat>, n: nat)
    requires total > 0 && n <= |entries| && |source| == |offset| == |blocks|
    requires forall i :: 0 <= i < n ==> As16(entries[i].startIP) + entries[i].size <= TWO_128
    requires forall k :: 0 <= k < |source| ==>
               source[k] < n && WindowOf(blocks[k], entries[source[k]], offset[k], total)
    requires forall j, k :: 0 <= j < k < |source| ==> source[j] < source[k]
    ensures multiset(Flatten(blocks)) <= multiset(EntriesView(entries[..n]))
    decreases |blocks|
  {
    hide WindowOf, EntriesView, EntryView, CidrAddrs, Quota, As16;
    if blocks != [] {
      var m := |blocks| - 1;
      var b, i := blocks[m], source[m];
      var e := entries[i];
      WindowsContained(entries, total, blocks[..m], source[..m], offset[..m], i);
      WindowEntry(b, e, offset[m], total);
      assert entries[..n][..i + 1] == entries[..i] + [e];
      EntriesViewPrefix(entries[..n], i + 1);
      EntriesViewAppend(entries[..i], e);
      assert Flatten(blocks) == Flatten(blocks[..m]) + CidrAddrs(b.startIP, b.totalIPs as nat);
      hide Flatten, Windows;
      BothContained(Flatten(blocks[..m]), CidrAddrs(b.startIP, b.totalIPs as nat), EntriesView(entries[..i]),
                    EntryView(e), EntriesView(entries[..n]));
    }
  }

  lemma WindowEntry(b: CIDRBlock, e: RawEntry, offset: nat, total: nat)
    requires total > 0 && WindowOf(b, e, offset, total) && As16(e.startIP) + e.size <= TWO_128
    ensures multiset(CidrAddrs(b.startIP, b.totalIPs as nat)) <= multiset(EntryView(e))
  {
    WindowInside(b, e, offset, total);
    StretchContained(EntryView(e), offset, offset + b.totalIPs as nat);
  }

  lemma EntryFits(rows: seq<Row>, i: nat)
    requires i < |EntriesOf(rows)|
    ensures As16(EntriesOf(rows)[i].startIP) + EntriesOf(rows)[i].size <= TWO_128
  {
    EntriesFromRows(rows, i);
    PrefixInterval(rows[EntriesOf(rows)[i].offset].ip);
  }

  lemma WindowsInFile(rows: seq<Row>, total: nat, blocks: seq<CIDRBlock>, source: seq<nat>, offset: seq<nat>)
    requires total > 0 && Windows(EntriesOf(rows), total, blocks, source, offset)
    ensures multiset(Flatten(blocks)) <= multiset(EntriesView(EntriesOf(rows)))
  {
    hide EntriesOf, EntriesView, Flatten, As16, WindowOf;
    var entries := EntriesOf(rows);
    forall i | 0 <= i < |entries| ensures As16(entries[i].startIP) + entries[i].size <= TWO_128 {
      EntryFits(rows, i);
    }
    WindowsContained(entries, total, blocks, source, offset, |entries|);
    assert entries[..|entries|] == entries;
  }

  lemma LaidBlocks(rows: seq<Row>, mi: MasterIndexer)
    requires mi.singleOffsets == []
    ensures SinglesReadable(rows, mi.singleOffsets) && Laid(rows, mi) == Flatten(mi.blocks)
  {
    hide Flatten;
  }

  /** The index never stands for an address more often than the file does. */
  lemma LaidContained(rows: seq<Row>, mi: MasterIndexer)
    requires Indexes(rows, mi)
    ensures multiset(Laid(rows, mi)) <= multiset(EntriesView(EntriesOf(rows)))
  {
    hide Laid, EntriesOf, EntriesView, Flatten, Sequential, Quotas, WellFormed, Windows, SinglesReadable;
    if |Sequential(rows)| > MAX_UINT64 {
      var source, offset :| Windows(EntriesOf(rows), |Sequential(rows)|, mi.blocks, source, offset);
      WindowsInFile(rows, |Sequential(rows)|, mi.blocks, source, offset);
      LaidBlocks(rows, mi);
    }
  }

  method NewMasterIndexer(rows: seq<Row>) returns (mi: MasterIndexer)
    ensures Indexes(rows, mi)
  {
    var entries, total := ReadEntries(rows);
    if total <= MAX_UINT64 {
      mi := BuildDirect(rows, entries);
    } else {
      ghost var source, offset;
      mi, source, offset := BuildProportional(entries, total);
    }
  }

  // ----- the index against the sequential stream -----

  /** Some active range reaches into ::ffff:0:0/96. */
  ghost predicate Crosses(r: Row) {
    && r.Entry? && r.enable && r.ip.addr.V6? && r.ip.bits < 128
    && r.ip.addr.value < MAPPED_BASE + TWO_32 && MAPPED_BASE < r.ip.addr.value + Size(r.ip)
  }

  function RowView(r: Row): seq<Addr> {
    if !Active(r) then [] else if IsSingle(r.ip) then [r.ip.addr] else CidrAddrs(r.ip.addr, Size(r.ip))
  }

  lemma ViewStep(rows: seq<Row>, i: nat)
    requires i < |rows|
    ensures EntriesView(EntriesOf(rows[..i + 1])) == EntriesView(EntriesOf(rows[..i])) + RowView(rows[i])
  {
    EntriesStep(rows, i);
    var before := EntriesOf(rows[..i]);
    assert before + [] == before;
    if Active(rows[i]) {
      EntriesViewAppend(EntriesOf(rows[..i]), RawEntry(rows[i].ip.addr, i, Size(rows[i].ip), !IsSingle(rows[i].ip)));
    }
  }

  lemma PlusPlain(p: Network, j: nat)
    requires j < Size(p)
    requires p.addr.V4? || !Mapped(p.addr.value + j)
    ensures Plus(p.addr, j) == AddrAt(p, j)
  {
    PrefixInterval(p);
    var v := As16(p.addr) + j;
    assert v < TWO_128 && AddrAt(p, j) == WithValue(p.addr, p.addr.value + j);
    hide Size, Masked;
    QuotientUnique(v, TWO_128, 0, v);
  }

  lemma PlainRow(r: Row)
    requires !Crosses(r)
    ensures RowView(r) == RowAddrs(r)
  {
    if Active(r) {
      var p := r.ip;
      if IsSingle(p) {
        assert Expand(p) == [AddrAt(p, 0)];
      } else {
        forall j | 0 <= j < Size(p) ensures Plus(p.addr, j) == AddrAt(p, j) {
          PlusPlain(p, j);
        }
        hide Plus, AddrAt, Size, Mapped, Masked, ValidPrefix;
        assert CidrAddrs(p.addr, Size(p)) == Expand(p);
      }
    }
  }

  lemma NoMappedView(start: Addr, n: nat, x: Addr)
    requires x.V6? && Mapped(x.value)
    ensures x !in CidrAddrs(start, n)
  {
    forall j | 0 <= j < n ensures CidrAddrs(start, n)[j] != x {
    }
  }

  /** The index never hands out an embedded IPv6 address more often than the
      file holds it, and less often once a range crosses the block. */
  lemma MappedCounts(r: Row, x: Addr)
    requires x.V6? && Mapped(x.value)
    ensures multiset(RowView(r))[x] <= multiset(RowAddrs(r))[x]
    ensures Crosses(r) && x in RowAddrs(r) ==> multiset(RowView(r))[x] < multiset(RowAddrs(r))[x]
  {
    if Active(r) && !IsSingle(r.ip) {
      NoMappedView(r.ip.addr, Size(r.ip), x);
    } else if Active(r) {
      PlainRow(r);
    }
  }

  lemma CrossingAddress(r: Row) returns (x: Addr)
    requires Crosses(r)
    ensures x.V6? && Mapped(x.value) && x in RowAddrs(r)
  {
    var p := r.ip;
    var v := if p.addr.value < MAPPED_BASE then MAPPED_BASE else p.addr.value;
    PrefixInterval(p);
    x := V6(v);
    assert Expand(p)[v - p.addr.value] == x;
  }

  lemma NothingAtZero(rows: seq<Row>)
    ensures EntriesView(EntriesOf(rows[..0])) == [] && Sequential(rows[..0]) == []
  {
  }

  lemma {:induction false} MappedTotals(rows: seq<Row>, n: nat, x: Addr, i: nat)
    requires n <= |rows| && x.V6? && Mapped(x.value)
    ensures var v, s := multiset(EntriesView(EntriesOf(rows[..n]))), multiset(Sequential(rows[..n]));
            v[x] <= s[x] && (i < n && Crosses(rows[i]) && x in RowAddrs(rows[i]) ==> v[x] < s[x])
  {
    hide EntriesView, EntriesOf, Sequential, RowView, RowAddrs, Crosses;
    if n > 0 {
      MappedTotals(rows, n - 1, x, i);
      ViewStep(rows, n - 1);
      SequentialStep(rows, n - 1);
      MappedCounts(rows[n - 1], x);
    } else {
      NothingAtZero(rows);
    }
  }

  lemma {:induction false} PlainViews(rows: seq<Row>, n: nat)
    requires n <= |rows| && forall i :: 0 <= i < n ==> !Crosses(rows[i])
    ensures EntriesView(EntriesOf(rows[..n])) == Sequential(rows[..n])
  {
    if n > 0 {
      PlainViews(rows, n - 1);
      ViewStep(rows, n - 1);
      SequentialStep(rows, n - 1);
      PlainRow(rows[n - 1]);
    }
  }

  /** The index holds exactly the file's addresses if and only if no active
      IPv6 range reaches into the IPv4 embedding block. */
  lemma IndexedIsSequential(rows: seq<Row>)
    ensures multiset(EntriesView(EntriesOf(rows))) == multiset(Sequential(rows))
            <==> forall i :: 0 <= i < |rows| ==> !Crosses(rows[i])
  {
    assert rows[..|rows|] == rows;
    if i :| 0 <= i < |rows| && Crosses(rows[i]) {
      var x := CrossingAddress(rows[i]);
      MappedTotals(rows, |rows|, x, i);
    } else {
      PlainViews(rows, |rows|);
    }
  }

  lemma ZeroRange(h: nat)
    requires h <= 128
    ensures var p := Prefix(V6(0), 128 - h); ValidPrefix(p) && Masked(p) == p && Size(p) == Pow2(h)
  {
    hide Pow2, RoundDown;
    SmallMod(Pow2(h));
  }

  lemma SmallMod(m: nat)
    requires m > 0
    ensures RoundDown(0, m) == 0
  {
  }

  /** Such a range can fit the index: ::/65 is one. */
  lemma SmallCrossingRange() returns (r: Row)
    ensures Crosses(r) && |Sequential([r])| <= MAX_UINT64
    ensures multiset(EntriesView(EntriesOf([r]))) != multiset(Sequential([r]))
  {
    ZeroRange(63);
    Pow2Values();
    var p: Network := Prefix(V6(0), 65);
    r := Entry(p, true);
    hide Pow2, Size, EntriesView, EntriesOf;
    assert Crosses(r) && |RowAddrs(r)| == Pow2(63);
    hide Sequential, RowAddrs, Crosses;
    SequentialStep([r], 0);
    NothingAtZero([r]);
    assert [r][..1] == [r];
    IndexedIsSequential([r]);
    assert [r][0] == r;
  }
}
