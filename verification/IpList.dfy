/** IP-list files: parsed rows, the sequential enumerator and the counters. */
module IpList {
  import opened Arith
  import opened Lcg
  import opened Netip
  import opened Options

  const MAX_UINT64: nat := 0xffff_ffff_ffff_ffff

  /** A parsed prefix: its host bits are clear. */
  type Network = p: Prefix | ValidPrefix(p) && Masked(p) == p witness Prefix(V4(0), 32)

  /** One line of the file: a record that parses, or one every reader skips. */
  datatype Row = Ignored | Entry(ip: Network, enable: bool)

  predicate IsSingle(p: Network) {
    p.bits == BitLen(p.addr)
  }

  predicate Active(r: Row) {
    r.Entry? && r.enable
  }

  /** The i-th address of a network. */
  function AddrAt(p: Network, i: nat): Addr
    requires i < Size(p)
  {
    PrefixInterval(p);
    WithValue(p.addr, p.addr.value + i)
  }

  function Expand(p: Network): (s: seq<Addr>)
    ensures |s| == Size(p)
  {
    seq(Size(p), i requires 0 <= i < Size(p) => AddrAt(p, i))
  }

  function RowAddrs(r: Row): seq<Addr> {
    if Active(r) then Expand(r.ip) else []
  }

  /** Every active address of the file, in file order. */
  function Sequential(rows: seq<Row>): seq<Addr> {
    if rows == [] then [] else Sequential(rows[..|rows| - 1]) + RowAddrs(rows[|rows| - 1])
  }

  /** How many of total addresses go out before the limit (0 means none) or
      the cancellation, which is noticed once that many were accepted. */
  function Stop(total: nat, limit: nat, cancel: Option<nat>): nat {
    var n := if limit > 0 then Min(total, limit) else total;
    if cancel.Some? then Min(n, cancel.value) else n
  }

  /** A row that asks for nothing: it does not parse, or is switched off. */
  predicate Off(r: Row) {
    r.Ignored? || !r.enable
  }

  /** Some row that is switched on holds the address. */
  ghost predicate Asked(rows: seq<Row>, a: Addr) {
    exists i :: 0 <= i < |rows| && rows[i].Entry? && rows[i].enable && Contains(rows[i].ip, a)
  }

  /** Exactly the addresses that a network contains, in ascending order from
      its own. */
  lemma ExpandMeaning(p: Network, a: Addr)
    ensures a in Expand(p) <==> Contains(p, a)
    ensures |Expand(p)| == Size(p) && Expand(p)[0] == p.addr
    ensures forall i :: 0 <= i < Size(p) ==> Expand(p)[i].value == p.addr.value + i
  {
    PrefixInterval(p);
    hide Size, Contains, Masked, Limit;
    if Contains(p, a) {
      assert Expand(p)[a.value - p.addr.value] == a;
    }
  }

  lemma {:induction false} SequentialConcat(a: seq<Row>, b: seq<Row>)
    ensures Sequential(a + b) == Sequential(a) + Sequential(b)
  {
    hide RowAddrs;
    if b == [] {
      assert a + b == a;
    } else {
      var n := |b| - 1;
      assert (a + b)[..|a| + n] == a + b[..n];
      SequentialConcat(a, b[..n]);
    }
  }

  lemma OneRow(r: Row)
    ensures Sequential([r]) == if Off(r) then [] else Expand(r.ip)
  {
    assert [r][..0] == [];
    hide Expand;
  }

  /** Taking such a row out of a file changes nothing. */
  lemma OffChangesNothing(before: seq<Row>, r: Row, after: seq<Row>)
    requires Off(r)
    ensures Sequential(before + [r] + after) == Sequential(before + after)
  {
    OneRow(r);
    SequentialConcat(before + [r], after);
    SequentialConcat(before, [r]);
    SequentialConcat(before, after);
    hide Sequential;
  }

  /** A row that is switched on adds its network's addresses behind the rest. */
  lemma OnAddsItsNetwork(rows: seq<Row>, p: Network)
    ensures Sequential(rows + [Entry(p, true)]) == Sequential(rows) + Expand(p)
  {
    OneRow(Entry(p, true));
    SequentialConcat(rows, [Entry(p, true)]);
    hide Sequential, Expand;
  }

  lemma {:induction false} AllOff(rows: seq<Row>)
    requires forall i :: 0 <= i < |rows| ==> Off(rows[i])
    ensures Sequential(rows) == []
  {
    if rows != [] {
      AllOff(rows[..|rows| - 1]);
    }
  }

  /** The file asks for exactly the addresses of its sequence. */
  lemma {:induction false} SequentialMeaning(rows: seq<Row>, a: Addr)
    ensures a in Sequential(rows) <==> Asked(rows, a)
  {
    if rows != [] {
      var n := |rows| - 1;
      var r := rows[n];
      SequentialMeaning(rows[..n], a);
      assert rows == rows[..n] + [r];
      SequentialConcat(rows[..n], [r]);
      OneRow(r);
      if r.Entry? {
        ExpandMeaning(r.ip, a);
      }
      hide Sequential, Expand, Contains;
      AskedMore(rows[..n], r, a);
    }
  }

  lemma AskedMore(rows: seq<Row>, r: Row, a: Addr)
    ensures Asked(rows + [r], a) <==> Asked(rows, a) || (r.Entry? && r.enable && Contains(r.ip, a))
  {
    hide Contains;
    var all := rows + [r];
    assert all[|rows|] == r;
    if i :| 0 <= i < |rows| && rows[i].Entry? && rows[i].enable && Contains(rows[i].ip, a) {
      assert all[i] == rows[i];
    }
  }

  /** A stream of n out of total addresses ends at the limit, at the
      cancellation or at its end, and never later. */
  ghost predicate EndsInTime(n: nat, total: nat, limit: nat, cancel: Option<nat>) {
    && n <= total && (limit > 0 ==> n <= limit) && (cancel.Some? ==> n <= cancel.value)
    && (n == total || (limit > 0 && n == limit) || cancel == Some(n))
  }

  lemma StopEndsInTime(total: nat, limit: nat, cancel: Option<nat>)
    ensures EndsInTime(Stop(total, limit, cancel), total, limit, cancel)
  {
  }

  lemma {:induction false} SequentialPrefix(rows: seq<Row>, i: nat)
    requires i <= |rows|
    ensures Sequential(rows[..i]) <= Sequential(rows)
    decreases |rows|
  {
    hide RowAddrs;
    if i < |rows| {
      SequentialPrefix(rows[..|rows| - 1], i);
      assert rows[..|rows| - 1][..i] == rows[..i];
    } else {
      assert rows[..i] == rows;
    }
  }

  lemma SequentialAppend(rows: seq<Row>, row: Row)
    ensures Sequential(rows + [row]) == Sequential(rows) + RowAddrs(row)
  {
    hide RowAddrs;
    assert (rows + [row])[..|rows|] == rows;
  }

  lemma SequentialStep(rows: seq<Row>, i: nat)
    requires i < |rows|
    ensures Sequential(rows[..i + 1]) == Sequential(rows[..i]) + RowAddrs(rows[i])
    ensures Sequential(rows[..i]) + RowAddrs(rows[i]) <= Sequential(rows)
  {
    hide RowAddrs, Sequential;
    var upTo := rows[..i + 1];
    assert upTo == rows[..i] + [rows[i]];
    SequentialAppend(rows[..i], rows[i]);
    assert Sequential(upTo) == Sequential(rows[..i]) + RowAddrs(rows[i]);
    SequentialPrefix(rows, i + 1);
  }

  /** Streams one network, stepping from address to address until the prefix
      no longer contains the current one or there is no next one. */
  method StreamCIDR(p: Network, limit: nat, count: nat, cancel: Option<nat>) returns (sent: seq<Addr>, cancelled: bool)
    requires count == Stop(count, limit, cancel)
    ensures sent <= Expand(p)
    ensures count + |sent| == Stop(count + Size(p), limit, cancel)
    ensures cancelled ==> |sent| < Size(p)
    ensures !cancelled && |sent| < Size(p) ==> limit > 0 && count + |sent| >= limit
  {
    var prefix := Masked(p);
    var curr: Address := prefix.addr;
    sent, cancelled := [], false;
    PrefixInterval(p);
    ghost var all := Expand(p);
    var n := count;
    while curr.value < Limit(prefix.addr) && Contains(prefix, curr)
      invariant |sent| <= Size(p) && sent == all[..|sent|]
      invariant n == count + |sent|
      invariant curr.V4? == p.addr.V4? && curr.value == p.addr.value + |sent|
      invariant n == Stop(n, limit, cancel)
      decreases Size(p) - |sent|
    {
      if limit > 0 && n >= limit {
        return;
      }
      if cancel == Some(n) {
        cancelled := true;
        return;
      }
      assert all[|sent|] == AddrAt(p, |sent|) == curr;
      sent := sent + [curr];
      n := n + 1;
      curr := NextAddr(curr);
    }
  }

  /** The handler run on each row; stop ends the reading of the file. */
  method StreamRow(row: Row, limit: nat, count: nat, cancel: Option<nat>) returns (sent: seq<Addr>, stop: bool)
    requires count == Stop(count, limit, cancel)
    ensures sent <= RowAddrs(row)
    ensures count + |sent| == Stop(count + |RowAddrs(row)|, limit, cancel)
    ensures stop ==> |sent| < |RowAddrs(row)|
    ensures if Off(row) then sent == [] else sent <= Expand(row.ip)
  {
    sent, stop := [], false;
    if Active(row) {
      if limit > 0 && count >= limit {
        stop := true;
      } else if !IsSingle(row.ip) {
        sent, stop := StreamCIDR(row.ip, limit, count, cancel);
      } else if cancel == Some(count) {
        stop := true;
      } else {
        assert Expand(row.ip) == [AddrAt(row.ip, 0)];
        sent := [row.ip.addr];
      }
    }
  }

  /** The sequential stream is the file's address sequence, cut at the limit
      and at the cancellation. */
  method StreamActiveSequential(rows: seq<Row>, limit: nat, cancel: Option<nat>) returns (out: seq<Addr>)
    ensures out <= Sequential(rows)
    ensures |out| == Stop(|Sequential(rows)|, limit, cancel)
    ensures EndsInTime(|out|, |Sequential(rows)|, limit, cancel)
    ensures forall a :: a in out ==> Asked(rows, a)
    ensures |out| == |Sequential(rows)| ==> forall a :: Asked(rows, a) ==> a in out
    ensures (forall i :: 0 <= i < |rows| ==> Off(rows[i])) ==> out == []
  {
    hide Sequential, RowAddrs, Stop, Asked, Off, EndsInTime;
    out := [];
    NothingYet(rows, limit, cancel);
    var i, stop := 0, false;
    while i < |rows| && !stop
      invariant i <= |rows|
      invariant out <= Sequential(rows[..i])
      invariant |out| == Stop(|Sequential(rows[..i])|, limit, cancel)
      invariant stop ==> |out| < |Sequential(rows[..i])|
    {
      SequentialStep(rows, i);
      StopAgain(|out|, |Sequential(rows[..i])|, |out|, limit, cancel);
      var sent: seq<Addr>;
      sent, stop := StreamRow(rows[i], limit, |out|, cancel);
      AppendCut(Sequential(rows[..i]), RowAddrs(rows[i]), out, sent, limit, cancel);
      out := out + sent;
      i := i + 1;
    }
    SequentialPrefix(rows, i);
    if stop {
      StopAgain(|out|, |Sequential(rows[..i])|, |Sequential(rows)|, limit, cancel);
    } else {
      assert rows[..i] == rows;
    }
    StreamMeaning(rows, out);
    StopEndsInTime(|Sequential(rows)|, limit, cancel);
  }

  /** What a part of the address sequence says about the rows. */
  lemma StreamMeaning(rows: seq<Row>, out: seq<Addr>)
    requires out <= Sequential(rows)
    ensures forall a :: a in out ==> Asked(rows, a)
    ensures |out| == |Sequential(rows)| ==> forall a :: Asked(rows, a) ==> a in out
    ensures (forall i :: 0 <= i < |rows| ==> Off(rows[i])) ==> out == []
  {
    hide Sequential, Asked;
    forall a ensures a in Sequential(rows) <==> Asked(rows, a) {
      SequentialMeaning(rows, a);
    }
    if forall i :: 0 <= i < |rows| ==> Off(rows[i]) {
      AllOff(rows);
    }
  }

  lemma NothingYet(rows: seq<Row>, limit: nat, cancel: Option<nat>)
    ensures Sequential(rows[..0]) == [] && Stop(0, limit, cancel) == 0
  {
  }

  /** A stream that was cut stays cut however much more there is. */
  lemma StopAgain(n: nat, total: nat, other: nat, limit: nat, cancel: Option<nat>)
    requires n == Stop(total, limit, cancel)
    ensures (n < total && other >= n) || other == n ==> Stop(other, limit, cancel) == n
  {
  }

  /** Cutting an extended sequence is extending the cut one. */
  lemma AppendCut(s: seq<Addr>, row: seq<Addr>, out: seq<Addr>, sent: seq<Addr>, limit: nat, cancel: Option<nat>)
    requires out <= s && |out| == Stop(|s|, limit, cancel)
    requires sent <= row && |out| + |sent| == Stop(|out| + |row|, limit, cancel)
    ensures out + sent <= s + row && |out + sent| == Stop(|s + row|, limit, cancel)
  {
    if |out| == |s| {
      assert out == s;
    } else {
      assert sent == [];
      assert out + sent == out;
    }
  }

  // ----- counting -----

  /** Adds with wrap-around, then clamps when the sum wrapped. */
  function SaturatingAdd(a: uint64, b: uint64): (r: uint64)
    ensures r as nat == Min(a as nat + b as nat, MAX_UINT64)
  {
    var result := ((a as nat + b as nat) % TWO_64) as uint64;
    if result < a then MAX_UINT64 as uint64 else result
  }

  /** The number of addresses in a network, clamped to 64 bits. */
  function CountEntry(p: Network): (n: uint64)
    ensures n as nat == Min(Size(p), MAX_UINT64)
  {
    if HostBits(p) >= 64 then
      Pow2Values();
      Pow2Monotone(64, HostBits(p));
      MAX_UINT64 as uint64
    else
      Pow2Values();
      Pow2Monotone(HostBits(p), 63);
      assert Pow2(64) == 2 * Pow2(63);
      Pow2(HostBits(p)) as uint64
  }

  /** The reported total is the length of the sequential stream, clamped. */
  method CountActiveIPs(rows: seq<Row>) returns (total: uint64)
    ensures total as nat == Min(|Sequential(rows)|, MAX_UINT64)
    ensures (forall i :: 0 <= i < |rows| ==> Off(rows[i])) ==> total == 0
  {
    total := 0;
    var i := 0;
    while i < |rows|
      invariant i <= |rows|
      invariant total as nat == Min(|Sequential(rows[..i])|, MAX_UINT64)
    {
      assert rows[..i + 1][..i] == rows[..i];
      if Active(rows[i]) && total as nat != MAX_UINT64 {
        total := SaturatingAdd(total, CountEntry(rows[i].ip));
      }
      i := i + 1;
    }
    assert rows[..i] == rows;
    if forall k :: 0 <= k < |rows| ==> Off(rows[k]) {
      AllOff(rows);
    }
  }
}
