/** The latency columns: what a record's text keeps of its score. */
module LatencyFormat {
  import opened Options
  import opened Ordering
  import opened Seqs
  import opened Results
  import opened ResultMerge
  import opened ResultFile
  import opened ResultRuns

  const MICROSECOND: nat := 1_000
  const MILLISECOND: nat := 1_000_000

  /** The nearest multiple of d, in units of d; up decides an exact half. */
  function RoundDiv(n: nat, d: nat, up: bool): nat
    requires d > 0
  {
    if 2 * (n % d) < d || (2 * (n % d) == d && !up) then n / d else n / d + 1
  }

  /** The duration that the text of a latency denotes: whole microseconds, or
      two decimals of a millisecond or of a second. The text is printed from a
      floating-point number, so an exact half may go either way. */
  function Printed(latency: nat, up: bool): nat {
    var us := latency / MICROSECOND;
    if us >= 1_000_000 then 10_000_000 * RoundDiv(us, 10_000, up)
    else if us >= 1_000 then 10_000 * RoundDiv(us, 10, up)
    else us * MICROSECOND
  }

  /** The latency read back: rounded to whole milliseconds, at least one. */
  function Stored(latency: nat, up: bool): nat {
    var ms := RoundDiv(Printed(latency, up), MILLISECOND, true);
    if ms == 0 then MILLISECOND else ms * MILLISECOND
  }

  /** Whole milliseconds, at least one. */
  function Millis(latency: nat): (ms: nat)
    ensures ms > 0
  {
    if latency / MILLISECOND == 0 then 1 else latency / MILLISECOND
  }

  function LatencyScore(latency: nat): real {
    1000.0 / (Millis(latency) as real)
  }

  /** A result as measured: its score is that of its latency. */
  function Measured(key: string, latency: nat): Result {
    Result(key, LatencyScore(latency), latency, "")
  }

  function Restored(up: nat -> bool, r: Result): Result {
    var latency := Stored(r.latency, up(r.latency));
    r.(score := LatencyScore(latency), latency := latency)
  }

  /** Formatting and parsing, for every way the halves may go. */
  function Reread(up: nat -> bool): Result -> Result {
    (r: Result) => Restored(up, r)
  }

  /** The nearest multiple, an exact half as told. */
  lemma RoundDivMeaning(n: nat, d: nat, up: bool)
    requires d > 0
    ensures var m := d * RoundDiv(n, d, up);
            (if up then 2 * n - d < 2 * m <= 2 * n + d else 2 * n - d <= 2 * m < 2 * n + d)
  {
    assert n == d * (n / d) + n % d;
    assert d * (n / d + 1) == d * (n / d) + d;
  }

  /** What prints: below a millisecond every whole microsecond; below a second
      the nearest hundredth of a millisecond; from a second on the nearest
      hundredth of a second. */
  lemma PrintedMeaning(latency: nat, up: bool)
    ensures var p, us := Printed(latency, up), latency / 1_000 * 1_000;
            && (latency < 1_000_000 ==> p == us)
            && (1_000_000 <= latency < 1_000_000_000 ==> p % 10_000 == 0 && us <= p + 5_000 && p <= us + 5_000)
            && (1_000_000_000 <= latency ==> p % 10_000_000 == 0 && us <= p + 5_000_000 && p <= us + 5_000_000)
  {
    var us := latency / 1_000;
    RoundDivMeaning(us, 10, up);
    RoundDivMeaning(us, 10_000, up);
    hide RoundDiv;
  }

  /** What reads back: the nearest millisecond of the text, halves up, and no
      less than one. */
  lemma StoredMeaning(latency: nat, up: bool)
    ensures var p, s := Printed(latency, up), Stored(latency, up);
            && s > 0 && s % 1_000_000 == 0
            && (p < 500_000 ==> s == 1_000_000)
            && (p >= 500_000 ==> p < s + 500_000 && s <= p + 500_000)
  {
    var p := Printed(latency, up);
    RoundDivMeaning(p, MILLISECOND, true);
    MillisWhole(RoundDiv(p, MILLISECOND, true));
    hide RoundDiv, Printed;
  }

  lemma MillisWhole(ms: nat)
    ensures (ms * MILLISECOND) % MILLISECOND == 0
  {
  }

  /** The score is 1000 over the whole milliseconds, of which there is at least
      one. */
  lemma ScoreMeaning(latency: nat)
    ensures latency < 2_000_000 ==> LatencyScore(latency) == 1000.0
    ensures latency >= 1_000_000 ==> LatencyScore(latency) * (latency / 1_000_000) as real == 1000.0
  {
  }

  // ----- which latencies keep their score -----

  /** Below a millisecond every latency does; then the fraction of a
      millisecond must print below a half; and from a second on, where only
      hundredths of a second print, no millisecond may be left above them. */
  predicate KeepsScore(latency: nat, up: bool) {
    var us := latency / MICROSECOND;
    us < 1_000 ||
    (us < 1_000_000 && (us % 1_000 < 495 || (us % 1_000 == 495 && !up))) ||
    (us >= 1_000_000 && us % 10_000 < 1_000)
  }

  lemma MillisOfMicros(latency: nat)
    ensures latency / MILLISECOND == latency / MICROSECOND / 1_000
  {
  }

  /** In whole milliseconds, what is stored of a latency of so many
      microseconds. */
  function StoredMillis(us: nat, up: bool): nat {
    if us >= 1_000_000 then 10 * RoundDiv(us, 10_000, up)
    else if us >= 1_000 then RoundDiv(RoundDiv(us, 10, up), 100, true)
    else 1
  }

  lemma StoredIsMillis(latency: nat, up: bool)
    ensures Stored(latency, up) == StoredMillis(latency / MICROSECOND, up) * MILLISECOND
    ensures StoredMillis(latency / MICROSECOND, up) > 0
  {
    var us := latency / MICROSECOND;
    if us >= 1_000_000 {
      assert RoundDiv(us, 10_000, up) >= 100;
      WholeMillis(10 * RoundDiv(us, 10_000, up));
    } else if us >= 1_000 {
      HundredthsToMillis(RoundDiv(us, 10, up));
    } else {
      MicrosToMillis(us);
    }
  }

  lemma WholeMillis(ms: nat)
    ensures RoundDiv(ms * MILLISECOND, MILLISECOND, true) == ms
  {
  }

  lemma HundredthsToMillis(h: nat)
    requires h >= 100
    ensures RoundDiv(10_000 * h, MILLISECOND, true) == RoundDiv(h, 100, true) > 0
  {
    assert 10_000 * h == MILLISECOND * (h / 100) + 10_000 * (h % 100);
  }

  lemma MicrosToMillis(us: nat)
    requires us < 1_000
    ensures RoundDiv(us * MICROSECOND, MILLISECOND, true) <= 1
  {
  }

  lemma SubSecond(us: nat, up: bool)
    requires 1_000 <= us < 1_000_000
    ensures StoredMillis(us, up) == us / 1_000 <==> us % 1_000 < 495 || (us % 1_000 == 495 && !up)
  {
    var m, f := us / 1_000, us % 1_000;
    assert us == 1_000 * m + f;
    var h := RoundDiv(us, 10, up);
    assert us % 10 == f % 10 && us / 10 == 100 * m + f / 10;
    assert h == 100 * m + RoundDiv(f, 10, up);
  }

  lemma FromSecond(us: nat, up: bool)
    requires us >= 1_000_000
    ensures StoredMillis(us, up) == us / 1_000 <==> us % 10_000 < 1_000
  {
    var k, f := us / 10_000, us % 10_000;
    assert us == 10_000 * k + f;
    assert us / 1_000 == 10 * k + f / 1_000;
  }

  lemma SameScore(a: nat, b: nat)
    ensures LatencyScore(a) == LatencyScore(b) <==> Millis(a) == Millis(b)
    ensures LatencyScore(a) > LatencyScore(b) <==> Millis(a) < Millis(b)
  {
    var x, y := Millis(a) as real, Millis(b) as real;
    Reciprocal(x, y);
  }

  lemma Reciprocal(x: real, y: real)
    requires x > 0.0 && y > 0.0
    ensures 1000.0 / x == 1000.0 / y <==> x == y
    ensures 1000.0 / x > 1000.0 / y <==> x < y
  {
    var p, q := 1000.0 / x, 1000.0 / y;
    assert p * x == 1000.0 && q * y == 1000.0;
    if x < y {
      LargerFactor(p, x, y);
      LargerQuotient(p, q, y);
    } else if y < x {
      LargerFactor(q, y, x);
      LargerQuotient(q, p, x);
    }
  }

  lemma LargerFactor(p: real, x: real, y: real)
    requires p > 0.0 && x < y
    ensures p * x < p * y
  {
    assert p * (y - x) > 0.0;
  }

  lemma LargerQuotient(p: real, q: real, y: real)
    requires y > 0.0
    ensures q >= p ==> q * y >= p * y
  {
    if q >= p {
      assert (q - p) * y >= 0.0;
    }
  }

  /** Exactly these latencies read back with their score. */
  lemma ScoreKept(latency: nat, up: bool)
    ensures LatencyScore(Stored(latency, up)) == LatencyScore(latency) <==> KeepsScore(latency, up)
  {
    var us := latency / MICROSECOND;
    MillisOfMicros(latency);
    StoredIsMillis(latency, up);
    var ms := StoredMillis(us, up);
    assert Stored(latency, up) / MILLISECOND == ms;
    SameScore(Stored(latency, up), latency);
    hide Stored, LatencyScore;
    if us >= 1_000_000 {
      FromSecond(us, up);
    } else if us >= 1_000 {
      SubSecond(us, up);
    }
  }

  /** Whole milliseconds below a second, and hundredths of a second, keep
      their score. */
  lemma WholeKept(ms: nat, again: bool)
    requires 0 < ms && (ms < 1_000 || ms % 10 == 0)
    ensures KeepsScore(ms * MILLISECOND, again)
  {
    assert ms * MILLISECOND / MICROSECOND == 1_000 * ms;
    if ms < 1_000 {
      assert 1_000 * ms % 1_000 == 0;
    } else {
      assert 1_000 * ms == 10_000 * (ms / 10);
      assert 1_000 * ms % 10_000 == 0;
    }
  }

  /** What was read back once reads back unchanged. */
  lemma StoredAgain(latency: nat, up: bool, again: bool)
    ensures KeepsScore(Stored(latency, up), again)
  {
    var us := latency / MICROSECOND;
    StoredIsMillis(latency, up);
    hide Stored, KeepsScore;
    if 1_000 <= us < 1_000_000 {
      StoredBelow(us, up);
    }
    WholeKept(StoredMillis(us, up), again);
  }

  lemma StoredBelow(us: nat, up: bool)
    requires 1_000 <= us < 1_000_000
    ensures StoredMillis(us, up) <= 1_000
  {
  }

  /** Parsing what was parsed before changes no score any more. */
  ghost predicate Settles(reread: Result -> Result) {
    forall r :: reread(reread(r)).score == reread(r).score
  }

  /** The latency formats keep the key, and settle after one reading. */
  lemma LatencySettles(up: nat -> bool)
    ensures KeepsKeys(Reread(up)) && Settles(Reread(up))
  {
    forall r: Result ensures Reread(up)(Reread(up)(r)).score == Reread(up)(r).score {
      var l := Stored(r.latency, up(r.latency));
      StoredAgain(r.latency, up(r.latency), up(l));
      ScoreKept(l, up(l));
    }
  }

  /** A measured record reads back with its score exactly if its latency keeps
      it. */
  lemma MeasuredHeld(up: nat -> bool, key: string, latency: nat)
    ensures Reread(up)(Measured(key, latency)).score == Measured(key, latency).score <==>
            KeepsScore(latency, up(latency))
  {
    ScoreKept(latency, up(latency));
  }

  // ----- streams of measured latencies -----

  /** The results that can be measured with these latencies. */
  ghost function MeasuredWith(latencies: iset<nat>): iset<Result> {
    iset r: Result | r == Measured(r.key, r.latency) && r.latency in latencies
  }

  /** Reading back leads to latencies of the set. */
  ghost predicate StoredIn(up: nat -> bool, latencies: iset<nat>) {
    forall l :: l in latencies ==> Stored(l, up(l)) in latencies
  }

  lemma MeasuredSet(up: nat -> bool, latencies: iset<nat>)
    ensures HasLower(MeasuredWith(latencies))
    ensures StoredIn(up, latencies) ==> Closed(Reread(up), MeasuredWith(latencies))
  {
    hide Stored, LatencyScore;
    var among := MeasuredWith(latencies);
    forall r, s | Pair(among, r, s) ensures exists d :: Lower(among, r, s, d) {
      var l := if r.score < s.score then r.latency else s.latency;
      assert Lower(among, r, s, Measured(r.key + s.key + "x", l));
    }
  }

  /** A smaller latency, in whole milliseconds, never reads back as a larger
      one. */
  ghost predicate RoundsInOrder(up: nat -> bool, latencies: iset<nat>) {
    forall a, b :: a in latencies && b in latencies && Millis(a) <= Millis(b) ==> Stored(a, up(a)) <= Stored(b, up(b))
  }

  lemma StoredOrder(a: nat, upA: bool, b: nat, upB: bool)
    ensures Stored(a, upA) <= Stored(b, upB) <==> LatencyScore(Stored(a, upA)) >= LatencyScore(Stored(b, upB))
  {
    var x, y := Stored(a, upA), Stored(b, upB);
    StoredIsMillis(a, upA);
    StoredIsMillis(b, upB);
    var i, j := StoredMillis(a / MICROSECOND, upA), StoredMillis(b / MICROSECOND, upB);
    assert x / MILLISECOND == i && y / MILLISECOND == j;
    SameScore(x, y);
    hide Stored, StoredMillis, LatencyScore;
  }

  /** On streams of results measured with such latencies the file stays ranked,
      however they are cut, if and only if rounding keeps their order. */
  lemma RankedIffInOrder(up: nat -> bool, latencies: iset<nat>)
    requires StoredIn(up, latencies)
    ensures StaysRanked(Reread(up), MeasuredWith(latencies)) <==> RoundsInOrder(up, latencies)
  {
    LatencySettles(up);
    MeasuredSet(up, latencies);
    hide StaysRanked, HasLower, Closed, KeepsKeys, Settles, StoredIn;
    RankedIffOrderKept(Reread(up), MeasuredWith(latencies));
    if RoundsInOrder(up, latencies) {
      OrderFromRounding(up, latencies);
    } else {
      var a, b :| a in latencies && b in latencies && Millis(a) <= Millis(b) && Stored(a, up(a)) > Stored(b, up(b));
      SwappedLatencies(up, latencies, a, b);
    }
  }

  lemma OrderFromRounding(up: nat -> bool, latencies: iset<nat>)
    requires RoundsInOrder(up, latencies)
    ensures OrderKept(Reread(up), MeasuredWith(latencies))
  {
    var among := MeasuredWith(latencies);
    hide Stored, LatencyScore, Millis;
    forall r: Result, s: Result | r in among && s in among && r.score >= s.score
      ensures Reread(up)(r).score >= Reread(up)(s).score
    {
      SameScore(r.latency, s.latency);
      StoredOrder(r.latency, up(r.latency), s.latency, up(s.latency));
    }
  }

  lemma SwappedLatencies(up: nat -> bool, latencies: iset<nat>, a: nat, b: nat)
    requires a in latencies && b in latencies && Millis(a) <= Millis(b) && Stored(a, up(a)) > Stored(b, up(b))
    ensures !OrderKept(Reread(up), MeasuredWith(latencies))
  {
    var among := MeasuredWith(latencies);
    var r, s := Measured("a", a), Measured("b", b);
    SameScore(a, b);
    StoredOrder(a, up(a), b, up(b));
    hide Stored, LatencyScore, Millis;
    assert StrCmp(r.key, s.key) < 0;
    assert r in among && s in among && Precedes(Reread(up), among, r, s);
    assert Reread(up)(r).score < Reread(up)(s).score;
  }

  /** And every cutting keeps the best scores, if and only if each of the
      latencies keeps its score. */
  lemma BestIffKept(up: nat -> bool, latencies: iset<nat>)
    requires StoredIn(up, latencies)
    ensures BatchingFree(Reread(up), MeasuredWith(latencies)) <==> forall l :: l in latencies ==> KeepsScore(l, up(l))
  {
    var among := MeasuredWith(latencies);
    LatencySettles(up);
    MeasuredSet(up, latencies);
    hide BatchingFree, HasLower, Closed, KeepsKeys, Settles, StoredIn, KeepsScore;
    BatchingIrrelevant(Reread(up), among);
    forall l | l in latencies
      ensures Reread(up)(Measured("", l)).score == Measured("", l).score <==> KeepsScore(l, up(l))
      ensures Measured("", l) in among
    {
      MeasuredHeld(up, "", l);
    }
    forall r | r in among ensures Reread(up)(r).score == r.score <==> KeepsScore(r.latency, up(r.latency)) {
      MeasuredHeld(up, r.key, r.latency);
    }
    hide Reread, Measured;
  }

  // ----- and what happens with the others -----

  /** The measured latencies of the witnesses, and what is read back. */
  lemma Witnesses(up: bool)
    ensures Stored(1_400_000, up) == 1_000_000 && Stored(1_500_000, up) == 2_000_000 &&
            Stored(1_600_000, up) == 2_000_000
    ensures LatencyScore(1_400_000) == LatencyScore(1_500_000) == LatencyScore(1_600_000) ==
            LatencyScore(1_700_000) == 1000.0
    ensures LatencyScore(1_000_000) == 1000.0 && LatencyScore(2_000_000) == 500.0
  {
  }

  ghost function EveryLatency(): iset<nat> {
    iset l: nat | Millis(l) > 0
  }

  /** The formats separate a tie: 1.6 ms and 1.4 ms score alike, and read back
      as 2 ms and 1 ms. So on measured results all three conditions fail, and
      the file does not stay ranked. */
  lemma LatencySeparatesTies(up: nat -> bool)
    ensures var among := MeasuredWith(EveryLatency());
            && !OrderKept(Reread(up), among) && !KeepsScores(Reread(up), among) && !NeverLowers(Reread(up), among)
            && !StaysRanked(Reread(up), among)
  {
    var among := MeasuredWith(EveryLatency());
    var a := Measured("a", 1_600_000);
    Witnesses(up(1_600_000));
    Witnesses(up(1_400_000));
    MeasuredSet(up, EveryLatency());
    LatencySettles(up);
    hide Stored, LatencyScore, HasLower, Settles, KeepsKeys, Closed, StaysRanked;
    assert StoredIn(up, EveryLatency());
    assert a in among && Reread(up)(a).score == 500.0 && a.score == 1000.0;
    SwappedLatencies(up, EveryLatency(), 1_600_000, 1_400_000);
    hide OrderKept;
    RankedIffOrderKept(Reread(up), among);
  }

  /** The first flush of both failing runs: a and b tie, a comes first by key. */
  lemma FirstFlush(up: nat -> bool)
    ensures var a, b := Measured("a", 1_600_000), Measured("b", 1_400_000);
            && Flushed(Reread(up), None, [a, b], Some([a, b]))
            && ReadBack(Reread(up), Some([a, b])) ==
               [Result("a", 500.0, 2_000_000, ""), Result("b", 1000.0, 1_000_000, "")]
  {
    var a, b := Measured("a", 1_600_000), Measured("b", 1_400_000);
    Witnesses(up(1_600_000));
    Witnesses(up(1_400_000));
    hide Stored, LatencyScore;
    assert StrCmp(a.key, b.key) < 0;
    FlushTwo(Reread(up), a, b);
    hide Flushed;
    assert ReadBack(Reread(up), Some([a, b])) == [Restored(up, a), Restored(up, b)];
  }

  /** A record between the two read-back scores goes to the front. */
  lemma SecondFlush(up: nat -> bool, d: Result)
    requires d.score == 1000.0 && d.key != "a"
    ensures var a, b := Measured("a", 1_600_000), Measured("b", 1_400_000);
            var a2, b2 := Result("a", 500.0, 2_000_000, ""), Result("b", 1000.0, 1_000_000, "");
            Flushed(Reread(up), Some([a, b]), [d], Some([d, a2, b2]))
  {
    var a2, b2 := Result("a", 500.0, 2_000_000, ""), Result("b", 1000.0, 1_000_000, "");
    FirstFlush(up);
    FrontMerge(a2, b2, d);
    DedupTwo(d, d);
    hide Merge, Dedup, ReadBack, LatencyScore;
    assert IsSortOf([d], [d]);
  }

  lemma FrontMerge(a: Result, b: Result, d: Result)
    requires a.score < d.score == b.score && a.key != b.key && a.key != d.key
    ensures Merge([a, b], [d]) == [d, a, b]
  {
    assert [a, b][..1] == [a] && [a][..0] == [];
    assert Start([d]) == State(0, [false], []);
    FrontFirst(a, d);
    FrontSecond(a, b, d);
    assert AbsorbAll([a], [d]) == Absorb([d], AbsorbAll([], [d]), a);
    assert AbsorbAll([a, b], [d]) == Absorb([d], AbsorbAll([a], [d]), b);
    hide Absorb;
  }

  lemma FrontFirst(a: Result, d: Result)
    requires a.score < d.score && a.key != d.key
    ensures Absorb([d], State(0, [false], []), a) == State(1, [true], [d, a])
  {
    var s0, s1 := State(0, [false], []), State(1, [true], [d]);
    assert EmitDelta([d], s0, 0).(cursor := 1) == s1;
    assert DrainAbove([d], s1, a.score) == s1;
    assert [d][..0] == [];
    assert Find([d], a.key) == None;
  }

  lemma FrontSecond(a: Result, b: Result, d: Result)
    requires d.score == b.score
    ensures Absorb([d], State(1, [true], [d, a]), b) == State(1, [true], [d, a, b])
  {
    assert [d][..0] == [];
    assert Find([d], b.key) == if d.key == b.key then Some(0) else None;
  }

  /** A run of the program: a at 1.6 ms and b at 1.4 ms, then b again at
      1.7 ms. The second file holds b twice, around a lower score. */
  lemma RepeatedAddressDuplicates(up: nat -> bool) returns (batches: seq<seq<Result>>, files: seq<Option<seq<Result>>>)
    ensures batches == [[Measured("a", 1_600_000), Measured("b", 1_400_000)], [Measured("b", 1_700_000)]]
    ensures FlushRun(Reread(up), batches, files)
    ensures !KeyUnique(Contents(files[2])) && !ScoreDescending(Contents(files[2]))
  {
    batches, files := FailingRun(up, Measured("b", 1_700_000));
    hide FlushRun, LatencyScore, Reread;
    AroundALower(Contents(files[2]));
  }

  /** Without a repeated address the order is lost all the same: c at 1.5 ms. */
  lemma FreshAddressUnranks(up: nat -> bool) returns (batches: seq<seq<Result>>, files: seq<Option<seq<Result>>>)
    ensures batches == [[Measured("a", 1_600_000), Measured("b", 1_400_000)], [Measured("c", 1_500_000)]]
    ensures FlushRun(Reread(up), batches, files)
    ensures KeyUnique(Contents(files[2])) && !ScoreDescending(Contents(files[2]))
  {
    batches, files := FailingRun(up, Measured("c", 1_500_000));
    hide FlushRun, LatencyScore, Reread;
    AroundALower(Contents(files[2]));
  }

  lemma FailingRun(up: nat -> bool, d: Result) returns (batches: seq<seq<Result>>, files: seq<Option<seq<Result>>>)
    requires d == Measured(d.key, d.latency) && (d.latency == 1_500_000 || d.latency == 1_700_000) && d.key != "a"
    ensures batches == [[Measured("a", 1_600_000), Measured("b", 1_400_000)], [d]]
    ensures FlushRun(Reread(up), batches, files)
    ensures |files| == 3 &&
            Contents(files[2]) == [d, Result("a", 500.0, 2_000_000, ""), Result("b", 1000.0, 1_000_000, "")]
  {
    var a, b := Measured("a", 1_600_000), Measured("b", 1_400_000);
    assert d.score == 1000.0 by {
      Witnesses(true);
    }
    hide Flushed, FlushRun, ReadBack, LatencyScore, Stored, Reread, Measured;
    FirstFlush(up);
    OneFlush(Reread(up), [a, b], Some([a, b]));
    SecondFlush(up, d);
    var last := [d, Result("a", 500.0, 2_000_000, ""), Result("b", 1000.0, 1_000_000, "")];
    RunExtends(Reread(up), [[a, b]], [None, Some([a, b])], [d], Some(last));
    assert [[a, b]] + [[d]] == [[a, b], [d]];
    batches, files := [[a, b], [d]], [None, Some([a, b])] + [Some(last)];
  }

  lemma AroundALower(s: seq<Result>)
    requires |s| == 3 && s[1].score < s[2].score && s[1].key == "a" && s[2].key == "b"
    ensures s[0].key == "b" ==> !KeyUnique(s)
    ensures s[0].key == "c" ==> KeyUnique(s)
    ensures !ScoreDescending(s)
  {
  }

  /** For every measured result that is flushed alone: once any other addresses
      are flushed after it, its score is still on file if and only if its
      latency keeps it. */
  lemma SurvivesIffKept(up: nat -> bool, key: string, latency: nat, first: Option<seq<Result>>, others: seq<Result>,
                        last: Option<seq<Result>>)
    requires others != [] && forall s :: s in others ==> s.key != key
    requires Flushed(Reread(up), None, [Measured(key, latency)], first) && Flushed(Reread(up), first, others, last)
    ensures key in Best(Contents(last))
    ensures Best(Contents(last))[key] == Measured(key, latency).score <==> KeepsScore(latency, up(latency))
  {
    LatencySettles(up);
    MeasuredHeld(up, key, latency);
    AloneThenOthers(Reread(up), Measured(key, latency), first, others, last);
  }

  ghost function KeptLatencies(up: nat -> bool): iset<nat> {
    iset l: nat | KeepsScore(l, up(l))
  }

  lemma KeptSet(up: nat -> bool)
    ensures var among := MeasuredWith(KeptLatencies(up)); Closed(Reread(up), among) && KeepsScores(Reread(up), among)
  {
    var among := MeasuredWith(KeptLatencies(up));
    hide KeepsScore, Stored, LatencyScore;
    forall l | l in KeptLatencies(up) ensures Stored(l, up(l)) in KeptLatencies(up) {
      StoredAgain(l, up(l), up(Stored(l, up(l))));
    }
    MeasuredSet(up, KeptLatencies(up));
    forall r | r in among ensures Reread(up)(r).score == r.score {
      MeasuredHeld(up, r.key, r.latency);
    }
  }

  /** On a stream of measured results whose latencies keep their scores, the
      file is ranked and holds the best score of every key after each flush. */
  lemma KeptStream(up: nat -> bool, batches: seq<seq<Result>>, files: seq<Option<seq<Result>>>, i: nat)
    requires FlushRun(Reread(up), batches, files) && i <= |batches|
    requires Fed(MeasuredWith(KeptLatencies(up)), batches)
    ensures Ranked(Contents(files[i])) && Best(Contents(files[i])) == Best(Concat(batches[..i]))
  {
    LatencySettles(up);
    KeptSet(up);
    hide FlushRun, MeasuredWith, Ranked, Best, Reread, Fed, Closed, KeepsScores;
    FoldedBest(Reread(up), MeasuredWith(KeptLatencies(up)), batches, files, i);
  }

  /** The best score of a key is lost: 1.6 ms scores 1000, and 500 once
      another address is flushed after it. */
  lemma RoundingLoses(up: nat -> bool) returns (batches: seq<seq<Result>>, files: seq<Option<seq<Result>>>)
    ensures |batches| == 2 && batches[0] == [Measured("a", 1_600_000)] && batches[1] == [Measured("b", 9_000_000)]
    ensures FlushRun(Reread(up), batches, files)
    ensures Best(batches[0]) == map["a" := 1000.0]
    ensures "a" in Best(Contents(files[2])) && Best(Contents(files[2]))["a"] == 500.0
  {
    var a, b := Measured("a", 1_600_000), Measured("b", 9_000_000);
    var a2 := Reread(up)(a);
    assert a.score == 1000.0 && a2.score == 500.0 && a2.key == "a" && b.score <= 500.0 by {
      Witnesses(up(1_600_000));
      SameScore(2_000_000, 9_000_000);
    }
    LatencySettles(up);
    hide Reread, Measured, FlushRun, KeepsKeys, Settles, Best;
    TwoFlushes(Reread(up), a, b);
    BestTwo(a2, b);
    BestOne(a);
    batches, files := [[a], [b]], [None, Some([a]), Some([a2, b])];
  }

  // ----- how far a score can fall -----

  /** The most whole milliseconds that a latency of ms can be on file with. */
  function Ceiling(ms: nat): nat {
    if ms < 1_000 then ms + 1 else if ms % 10 < 5 then ms else 10 * (ms / 10) + 10
  }

  /** No latency reads back above its ceiling, or above that of a latency that
      it does not exceed, or stays below. */
  lemma StoredBelowCeiling(latency: nat, up: bool, ms: nat)
    requires ms > 0 && (Millis(latency) <= ms || Millis(latency) < Ceiling(ms))
    ensures Millis(latency) <= Ceiling(ms) && Millis(Stored(latency, up)) <= Ceiling(ms)
  {
    var us := latency / MICROSECOND;
    MillisOfMicros(latency);
    StoredIsMillis(latency, up);
    var stored := StoredMillis(us, up);
    assert Stored(latency, up) / MILLISECOND == stored;
    assert us < 1_000 ==> stored == 1;
    hide Stored, StoredMillis, Ceiling;
    CeilingMonotone(Millis(latency), ms);
    if us >= 1_000_000 {
      LongCeiling(us, up);
    } else if us >= 1_000 {
      ShortCeiling(us, up);
    }
  }

  lemma CeilingMonotone(m: nat, ms: nat)
    requires 0 < m && 0 < ms && (m <= ms || m < Ceiling(ms))
    ensures 0 < m <= Ceiling(ms) && Ceiling(m) <= Ceiling(ms)
  {
  }

  lemma LongCeiling(us: nat, up: bool)
    requires us >= 1_000_000
    ensures StoredMillis(us, up) <= Ceiling(us / 1_000)
  {
    var k, f := us / 10_000, us % 10_000;
    assert us == 10_000 * k + f;
    assert us / 1_000 == 10 * k + f / 1_000;
    assert us / 1_000 % 10 == f / 1_000 && us / 1_000 / 10 == k;
  }

  lemma ShortCeiling(us: nat, up: bool)
    requires 1_000 <= us < 1_000_000
    ensures StoredMillis(us, up) <= us / 1_000 + 1 == Ceiling(us / 1_000)
  {
    var m, f := us / 1_000, us % 1_000;
    assert us == 1_000 * m + f;
    var h := RoundDiv(us, 10, up);
    assert us % 10 == f % 10 && us / 10 == 100 * m + f / 10;
    assert h == 100 * m + RoundDiv(f, 10, up);
  }

  function CeilingScore(): Result -> real {
    (r: Result) => LatencyScore(Ceiling(Millis(r.latency)) * MILLISECOND)
  }

  lemma CeilingMillis(ms: nat)
    ensures Millis(Ceiling(ms) * MILLISECOND) == Ceiling(ms)
  {
  }

  /** The score of the ceiling is a lower bound for every measured result. */
  lemma CeilingBounds(up: nat -> bool)
    ensures Bounds(Reread(up), MeasuredWith(EveryLatency()), CeilingScore())
    ensures Closed(Reread(up), MeasuredWith(EveryLatency()))
  {
    var among := MeasuredWith(EveryLatency());
    MeasuredSet(up, EveryLatency());
    LatencySettles(up);
    hide Stored, LatencyScore, Millis, Ceiling, Closed;
    forall r: Result, d: Result | r in among && d in among
      ensures d.score >= r.score || d.score > CeilingScore()(r) ==>
                d.score >= CeilingScore()(r) && Reread(up)(d).score >= CeilingScore()(r)
    {
      CeilingMillis(Millis(r.latency));
      var c := Ceiling(Millis(r.latency)) * MILLISECOND;
      SameScore(d.latency, r.latency);
      SameScore(d.latency, c);
      SameScore(Stored(d.latency, up(d.latency)), c);
      if d.score >= r.score || d.score > CeilingScore()(r) {
        StoredBelowCeiling(d.latency, up(d.latency), Millis(r.latency));
      }
    }
  }

  /** On every stream of measured results, however it is cut, each flushed
      result stays on file with at most the ceiling of its milliseconds. */
  lemma NeverPastCeiling(up: nat -> bool, batches: seq<seq<Result>>, files: seq<Option<seq<Result>>>, r: Result)
    requires Fed(MeasuredWith(EveryLatency()), batches) && FlushRun(Reread(up), batches, files) && r in Concat(batches)
    ensures AtLeast(files[|batches|], r.key, LatencyScore(Ceiling(Millis(r.latency)) * MILLISECOND))
  {
    LatencySettles(up);
    CeilingBounds(up);
    assert batches[..|batches|] == batches;
    assert CeilingScore()(r) == LatencyScore(Ceiling(Millis(r.latency)) * MILLISECOND);
    hide MeasuredWith, FlushRun, Fed, Closed, Bounds, KeepsKeys, Settles, Lasts, AtLeast, Concat, CeilingScore;
    StaysAbove(Reread(up), MeasuredWith(EveryLatency()), CeilingScore(), batches, files, |batches|, r);
    LastsAtLeast(Reread(up), files[|batches|], r.key, CeilingScore()(r));
  }

  /** The bound is reached: there is no smaller one. */
  lemma CeilingReached(ms: nat, up: bool) returns (latency: nat)
    requires ms > 0
    ensures Millis(latency) == ms
    ensures Ceiling(ms) == if Millis(Stored(latency, up)) > ms then Millis(Stored(latency, up)) else ms
  {
    var us := 1_000 * ms + if ms < 1_000 then 600 else 500;
    latency := us * MICROSECOND;
    assert latency / MICROSECOND == us;
    MillisOfMicros(latency);
    StoredIsMillis(latency, up);
    assert Stored(latency, up) / MILLISECOND == StoredMillis(us, up);
    hide Stored, Ceiling;
    ReachedMillis(ms, us, up);
  }

  lemma ReachedMillis(ms: nat, us: nat, up: bool)
    requires ms > 0 && us == 1_000 * ms + if ms < 1_000 then 600 else 500
    ensures us / 1_000 == ms
    ensures Ceiling(ms) == if StoredMillis(us, up) > ms then StoredMillis(us, up) else ms
  {
    if ms < 1_000 {
      assert us % 10 == 0 && us / 10 == 100 * ms + 60;
      assert RoundDiv(us, 10, up) == 100 * ms + 60;
      assert (100 * ms + 60) / 100 == ms && (100 * ms + 60) % 100 == 60;
    } else {
      var k, d := ms / 10, ms % 10;
      assert us == 10_000 * k + (1_000 * d + 500);
      assert us / 10_000 == k && us % 10_000 == 1_000 * d + 500;
      assert RoundDiv(us, 10_000, up) == if d < 5 then k else k + 1;
    }
  }
}
