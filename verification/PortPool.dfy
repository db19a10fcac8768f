/** The pool of local ports as interleaved steps of any number of callers. */
module PortPool {
  import opened Seqs

  const MIN_PORT: nat := 20000
  const EPHEMERAL_PORT: nat := 49152

  /** 16-bit wrap-around. */
  function Word(n: int): (r: nat)
    ensures r < 0x1_0000 && (0 <= n < 0x1_0000 ==> r == n)
  {
    n % 0x1_0000
  }

  /** What a caller of Get holds: a port from the pool, or its replacement. */
  datatype Hand = Testing(port: nat) | Fresh(port: nat)

  /** replaced and dropped only count: replacements drawn, and pushes that
      found the pool full. */
  datatype State = State(
    start: nat,
    count: nat,
    pool: seq<nat>,
    hands: seq<Hand>,
    leased: seq<nat>,
    last: nat,
    closed: bool,
    replaced: nat,
    dropped: nat)

  datatype Step = Take | Lease(h: nat) | Replace(h: nat) | Push(h: nat) | Release(k: nat) | Close

  function InitialPorts(start: nat, count: nat): (r: seq<nat>)
    ensures |r| == count && forall i :: 0 <= i < count ==> r[i] == Word(start + i)
  {
    seq<nat>(count, i => Word(start + i))
  }

  function Opened(start: nat, count: nat): State {
    State(start, count, InitialPorts(start, count), [], [], Word(start + count - 1), false, 0, 0)
  }

  /** The constructor refuses an empty pool. */
  predicate Accepts(start: nat, count: nat) {
    start < 0x1_0000 && 0 < count < 0x1_0000
  }

  function NextPort(s: State): nat {
    if Word(s.last + 1) >= EPHEMERAL_PORT then s.start else Word(s.last + 1)
  }

  ghost predicate Enabled(s: State, t: Step) {
    match t
    case Take => s.pool != []
    case Lease(h) => h < |s.hands| && s.hands[h].Testing?
    case Replace(h) => h < |s.hands| && s.hands[h].Testing?
    case Push(h) => h < |s.hands| && s.hands[h].Fresh?
    case Release(k) => k < |s.leased|
    case Close => true
  }

  /** A send that does not wait: a full pool drops the port. */
  function Offer(s: State, port: nat): State {
    if |s.pool| < s.count then s.(pool := s.pool + [port]) else s.(dropped := s.dropped + 1)
  }

  /** A Release that saw the pool open may still push after it closed, and one
      that sees it closed does nothing; the port is then gone, as is one that
      Get receives after the close. */
  ghost predicate Next(s: State, t: Step, r: State) {
    Enabled(s, t) &&
    match t
    case Take =>
      var port := s.pool[0];
      var p := s.(pool := s.pool[1..]);
      r == p.(hands := s.hands + [Testing(port)]) || (s.closed && r == p)
    case Lease(h) => r == s.(hands := Without(s.hands, h), leased := s.leased + [s.hands[h].port])
    case Replace(h) =>
      r == s.(hands := Without(s.hands, h) + [Fresh(NextPort(s))], last := NextPort(s), replaced := s.replaced + 1)
    case Push(h) => r == Offer(s.(hands := Without(s.hands, h)), s.hands[h].port)
    case Release(k) =>
      var p := s.(leased := Without(s.leased, k));
      r == Offer(p, s.leased[k]) || (s.closed && r == p)
    case Close => r == s.(closed := true)
  }

  ghost predicate Runs(s: State, trace: seq<(Step, State)>, t: State)
    decreases |trace|
  {
    if trace == [] then t == s
    else Next(s, trace[0].0, trace[0].1) && Runs(trace[0].1, trace[1..], t)
  }

  // ----- conservation -----

  function HandPorts(hands: seq<Hand>): (r: seq<nat>)
    ensures |r| == |hands|
  {
    seq(|hands|, i requires 0 <= i < |hands| => hands[i].port)
  }

  /** Every port the manager has given out or still owns. */
  function Ports(s: State): (r: multiset<nat>)
    ensures |r| == |s.pool| + |s.hands| + |s.leased|
  {
    multiset(s.pool) + multiset(HandPorts(s.hands)) + multiset(s.leased)
  }

  /** No port appears or vanishes while the pool is open, no push was dropped,
      and until the range is used up all ports differ and lie inside it. */
  ghost predicate Inv(s: State) {
    && 0 < s.count && |Ports(s)| <= s.count && (!s.closed ==> |Ports(s)| == s.count) && s.dropped == 0
    && (s.start + s.count + s.replaced <= EPHEMERAL_PORT ==> InRange(s))
  }

  ghost predicate InRange(s: State) {
    && s.last == s.start + s.count - 1 + s.replaced
    && (forall p :: p in Ports(s) ==> s.start <= p <= s.last && Ports(s)[p] == 1)
  }

  lemma {:induction false} ConsecutivePorts(start: nat, n: nat)
    requires start + n <= EPHEMERAL_PORT
    ensures forall p: nat :: multiset(InitialPorts(start, n))[p] == if start <= p < start + n then 1 else 0
  {
    if n > 0 {
      ConsecutivePorts(start, n - 1);
      assert InitialPorts(start, n) == InitialPorts(start, n - 1) + [start + n - 1];
    }
  }

  lemma OpenedInv(start: nat, count: nat)
    requires Accepts(start, count)
    ensures Inv(Opened(start, count))
  {
    var s := Opened(start, count);
    if start + count <= EPHEMERAL_PORT {
      ConsecutivePorts(start, count);
      assert Ports(s) == multiset(s.pool);
    }
  }

  lemma WithoutSplit<T>(s: seq<T>, i: nat)
    requires i < |s|
    ensures multiset(s) == multiset(Without(s, i)) + multiset{s[i]}
  {
    assert s == s[..i] + [s[i]] + s[i + 1..];
  }

  lemma HandsWithout(hands: seq<Hand>, h: nat)
    requires h < |hands|
    ensures multiset(HandPorts(hands)) == multiset(HandPorts(Without(hands, h))) + multiset{hands[h].port}
  {
    assert HandPorts(Without(hands, h)) == Without(HandPorts(hands), h);
    WithoutSplit(HandPorts(hands), h);
  }

  lemma HandsWith(hands: seq<Hand>, h: Hand)
    ensures multiset(HandPorts(hands + [h])) == multiset(HandPorts(hands)) + multiset{h.port}
  {
    assert HandPorts(hands + [h]) == HandPorts(hands) + [h.port];
  }

  /** What a step does to the ports: it moves them between pool, hands and
      leases; only Replace puts a new port in the place of one in hand. */
  ghost predicate Moved(s: State, t: Step, r: State)
    requires t.Replace? ==> t.h < |s.hands|
  {
    && r.start == s.start && r.count == s.count && (s.closed ==> r.closed) && r.dropped == s.dropped
    && if t.Replace? then
         r.last == NextPort(s) && r.replaced == s.replaced + 1 &&
         Ports(r) + multiset{s.hands[t.h].port} == Ports(s) + multiset{NextPort(s)}
       else
         r.last == s.last && r.replaced == s.replaced && Ports(r) <= Ports(s) && (!r.closed ==> Ports(r) == Ports(s))
  }

  lemma StepPorts(s: State, t: Step, r: State)
    requires Next(s, t, r) && |Ports(s)| <= s.count
    ensures Moved(s, t, r)
  {
    match t {
      case Take => TakePorts(s, r);
      case Lease(h) => LeasePorts(s, h, r);
      case Replace(h) => ReplacePorts(s, h, r);
      case Push(h) => PushPorts(s, h, r);
      case Release(k) => ReleasePorts(s, k, r);
      case Close =>
    }
    hide Moved, Ports, Offer;
  }

  lemma TakePorts(s: State, r: State)
    requires Next(s, Take, r)
    ensures Moved(s, Take, r)
  {
    assert s.pool == [s.pool[0]] + s.pool[1..];
    HandsWith(s.hands, Testing(s.pool[0]));
    hide HandPorts, NextPort;
  }

  lemma LeasePorts(s: State, h: nat, r: State)
    requires Next(s, Lease(h), r)
    ensures Moved(s, Lease(h), r)
  {
    HandsWithout(s.hands, h);
    hide HandPorts, NextPort, Without;
  }

  lemma ReplacePorts(s: State, h: nat, r: State)
    requires Next(s, Replace(h), r)
    ensures Moved(s, Replace(h), r)
  {
    HandsWithout(s.hands, h);
    HandsWith(Without(s.hands, h), Fresh(NextPort(s)));
    hide HandPorts, NextPort, Without;
  }

  lemma PushPorts(s: State, h: nat, r: State)
    requires Next(s, Push(h), r) && |Ports(s)| <= s.count
    ensures Moved(s, Push(h), r)
  {
    HandsWithout(s.hands, h);
    hide HandPorts, NextPort, Without;
  }

  lemma ReleasePorts(s: State, k: nat, r: State)
    requires Next(s, Release(k), r) && |Ports(s)| <= s.count
    ensures Moved(s, Release(k), r)
  {
    WithoutSplit(s.leased, k);
    hide HandPorts, NextPort, Without;
  }

  lemma ReplaceSize(a: multiset<nat>, b: multiset<nat>, x: nat, y: nat)
    requires a + multiset{x} == b + multiset{y}
    ensures |a| == |b|
  {
    assert |a + multiset{x}| == |a| + 1 && |b + multiset{y}| == |b| + 1;
  }

  lemma SwapIn(a: multiset<nat>, b: multiset<nat>, x: nat, y: nat)
    requires a + multiset{x} == b + multiset{y} && y !in b && forall p :: p in b ==> b[p] == 1
    ensures forall p :: p in a ==> a[p] == 1 && (p in b || p == y)
  {
    forall p | p in a ensures a[p] == 1 && (p in b || p == y) {
      assert (a + multiset{x})[p] == (b + multiset{y})[p];
    }
  }

  lemma SubSize(a: multiset<nat>, b: multiset<nat>)
    requires a <= b
    ensures |a| <= |b|
  {
    assert b == a + (b - a);
  }

  lemma MoveInv(s: State, r: State)
    requires Inv(s) && r.start == s.start && r.count == s.count && r.last == s.last && r.replaced == s.replaced
    requires (s.closed ==> r.closed) && r.dropped == s.dropped
    requires Ports(r) <= Ports(s) && (!r.closed ==> Ports(r) == Ports(s))
    ensures Inv(r)
  {
    hide Ports;
    SubSize(Ports(r), Ports(s));
  }

  lemma ReplaceInv(s: State, r: State, x: nat)
    requires Inv(s) && r.start == s.start && r.count == s.count && r.last == NextPort(s) && r.replaced == s.replaced + 1
    requires (s.closed ==> r.closed) && r.dropped == s.dropped
    requires Ports(r) + multiset{x} == Ports(s) + multiset{NextPort(s)}
    ensures Inv(r)
  {
    hide Ports, NextPort;
    ReplaceSize(Ports(r), Ports(s), x, NextPort(s));
    if r.start + r.count + r.replaced <= EPHEMERAL_PORT {
      ReplaceInRange(s, r, x);
    }
    hide InRange;
  }

  lemma StepInv(s: State, t: Step, r: State)
    requires Next(s, t, r) && Inv(s)
    ensures Inv(r)
  {
    StepPorts(s, t, r);
    assert t.Replace? ==> t.h < |s.hands|;
    hide Next, Ports, NextPort;
    if t.Replace? {
      ReplaceInv(s, r, s.hands[t.h].port);
    } else {
      MoveInv(s, r);
    }
    hide Inv;
  }

  lemma ReplaceInRange(s: State, r: State, x: nat)
    requires InRange(s) && r.start == s.start && r.count == s.count && r.last == NextPort(s)
    requires r.replaced == s.replaced + 1
    requires r.start + r.count + r.replaced <= EPHEMERAL_PORT && s.count > 0
    requires Ports(r) + multiset{x} == Ports(s) + multiset{NextPort(s)}
    ensures InRange(r)
  {
    hide Ports;
    assert NextPort(s) == s.last + 1 && s.last + 1 !in Ports(s);
    hide NextPort;
    SwapIn(Ports(r), Ports(s), x, s.last + 1);
  }

  lemma {:induction false} RunInv(s: State, trace: seq<(Step, State)>, t: State)
    requires Inv(s) && Runs(s, trace, t)
    ensures Inv(t) && t.start == s.start && t.count == s.count
    decreases |trace|
  {
    hide Inv, Next;
    if trace != [] {
      StepInv(s, trace[0].0, trace[0].1);
      StepFrame(s, trace[0].0, trace[0].1);
      RunInv(trace[0].1, trace[1..], t);
    }
  }

  lemma StepFrame(s: State, t: Step, r: State)
    requires Next(s, t, r)
    ensures r.start == s.start && r.count == s.count
  {
  }

  /** In every interleaving in which each lease is released at most once: pooled,
      in-hand and leased ports number count while the pool is open, never more
      after, and no replacement or release ever finds the pool full. */
  lemma PortsConserved(start: nat, count: nat, trace: seq<(Step, State)>, t: State)
    requires Accepts(start, count) && Runs(Opened(start, count), trace, t)
    ensures |t.pool| + |t.hands| + |t.leased| <= count
    ensures !t.closed ==> |t.pool| + |t.hands| + |t.leased| == count
    ensures t.dropped == 0
  {
    OpenedInv(start, count);
    hide Runs;
    RunInv(Opened(start, count), trace, t);
  }

  lemma OnceEach(s: seq<nat>)
    requires forall p :: p in multiset(s) ==> multiset(s)[p] <= 1
    ensures Distinct(s)
  {
    forall i, j | 0 <= i < j < |s| ensures s[i] != s[j] {
      assert s == s[..j] + [s[j]] + s[j + 1..];
      assert s[..j][i] == s[i];
      assert s[i] in multiset(s[..j]);
      assert s[j] in multiset(s);
    }
  }

  /** Until EPHEMERAL_PORT - (start + count) replacements have been drawn no
      port is leased twice at once, and none leaves [start, EPHEMERAL_PORT). */
  lemma NoDoubleLease(start: nat, count: nat, trace: seq<(Step, State)>, t: State)
    requires Accepts(start, count) && Runs(Opened(start, count), trace, t)
    requires start + count + t.replaced <= EPHEMERAL_PORT
    ensures Distinct(t.leased)
    ensures forall p :: p in t.leased ==> start <= p < EPHEMERAL_PORT && p !in t.pool && p !in HandPorts(t.hands)
  {
    OpenedInv(start, count);
    hide Runs;
    RunInv(Opened(start, count), trace, t);
    forall p | p in t.leased ensures start <= p < EPHEMERAL_PORT && p !in t.pool && p !in HandPorts(t.hands) {
      assert p in multiset(t.leased);
      assert p in Ports(t);
    }
    forall p | p in multiset(t.leased) ensures multiset(t.leased)[p] <= 1 {
      assert p in Ports(t);
    }
    OnceEach(t.leased);
  }

  // ----- the bound is sharp -----

  ghost predicate Reaches(s: State, t: State) {
    exists trace :: Runs(s, trace, t)
  }

  lemma {:induction false} RunsJoin(s: State, a: seq<(Step, State)>, t: State, b: seq<(Step, State)>, u: State)
    requires Runs(s, a, t) && Runs(t, b, u)
    ensures Runs(s, a + b, u)
    decreases |a|
  {
    hide Next;
    if a == [] {
      assert a + b == b;
    } else {
      assert (a + b)[0] == a[0] && (a + b)[1..] == a[1..] + b;
      RunsJoin(a[0].1, a[1..], t, b, u);
    }
  }

  lemma Then(s: State, t: State, u: State)
    requires Reaches(s, t) && Reaches(t, u)
    ensures Reaches(s, u)
  {
    var a :| Runs(s, a, t);
    var b :| Runs(t, b, u);
    RunsJoin(s, a, t, b, u);
  }

  lemma OneStep(s: State, t: Step, r: State)
    requires Next(s, t, r)
    ensures Reaches(s, r)
  {
    var trace := [(t, r)];
    assert Runs(r, trace[1..], r);
    assert Runs(s, trace, r);
  }

  /** An open pool, nobody in the middle of a Get. */
  ghost predicate Quiet(s: State) {
    s.hands == [] && s.pool != [] && !s.closed && |s.pool| <= s.count
  }

  /** After a Get that finds the first port busy: the next one is at the end. */
  function Spun(s: State): State
    requires s.pool != []
  {
    s.(pool := s.pool[1..] + [NextPort(s)], last := NextPort(s), replaced := s.replaced + 1)
  }

  lemma Spin(s: State)
    requires Quiet(s)
    ensures Reaches(s, Spun(s))
  {
    var a := s.(pool := s.pool[1..], hands := [Testing(s.pool[0])]);
    var b := a.(hands := [Fresh(NextPort(s))], last := NextPort(s), replaced := s.replaced + 1);
    assert s.hands + [Testing(s.pool[0])] == [Testing(s.pool[0])];
    OneStep(s, Take, a);
    assert Without(a.hands, 0) + [Fresh(NextPort(s))] == [Fresh(NextPort(s))];
    OneStep(a, Replace(0), b);
    assert Without(b.hands, 0) == [];
    OneStep(b, Push(0), Spun(s));
    hide Next, Reaches;
    Then(s, a, b);
    Then(s, b, Spun(s));
  }

  /** Before the range is used up the counter only goes up. */
  lemma {:induction false} SpinTimes(s: State, n: nat) returns (t: State)
    requires Quiet(s) && s.last + n < EPHEMERAL_PORT
    ensures Reaches(s, t)
    ensures t == s.(pool := t.pool, last := s.last + n, replaced := s.replaced + n) && |t.pool| == |s.pool|
    decreases n
  {
    if n == 0 {
      t := s;
      assert Runs(s, [], s);
    } else {
      Spin(s);
      t := SpinTimes(Spun(s), n - 1);
      hide Reaches;
      Then(s, Spun(s), t);
    }
  }

  /** Get finds the first port free. */
  lemma TakeLease(s: State)
    requires Quiet(s)
    ensures Reaches(s, s.(pool := s.pool[1..], leased := s.leased + [s.pool[0]]))
  {
    var a := s.(pool := s.pool[1..], hands := [Testing(s.pool[0])]);
    var t := s.(pool := s.pool[1..], leased := s.leased + [s.pool[0]]);
    assert s.hands + [Testing(s.pool[0])] == [Testing(s.pool[0])];
    OneStep(s, Take, a);
    assert Without(a.hands, 0) == [];
    OneStep(a, Lease(0), t);
    Then(s, a, t);
  }

  lemma {:induction false} LeaseAll(s: State)
    requires s.hands == [] && !s.closed && |s.pool| <= s.count
    ensures Reaches(s, s.(pool := [], leased := s.leased + s.pool))
    decreases |s.pool|
  {
    if s.pool == [] {
      assert s.leased + s.pool == s.leased;
      assert Runs(s, [], s);
    } else {
      var m := s.(pool := s.pool[1..], leased := s.leased + [s.pool[0]]);
      TakeLease(s);
      LeaseAll(m);
      hide Reaches;
      assert s.leased + [s.pool[0]] + s.pool[1..] == s.leased + s.pool;
      Then(s, m, s.(pool := [], leased := s.leased + s.pool));
    }
  }

  /** One replacement later, whatever the range, a port can be leased to two
      callers at once: the counter is back at the first port. */
  lemma OneMoreLeasesTwice(start: nat, count: nat) returns (t: State)
    requires Accepts(start, count) && count > 1 && start + count <= EPHEMERAL_PORT
    ensures Reaches(Opened(start, count), t) && start + count + t.replaced == EPHEMERAL_PORT + 1 && !Distinct(t.leased)
  {
    var s := Opened(start, count);
    assert s.pool[0] == start;
    TakeLease(s);
    var s1 := s.(pool := s.pool[1..], leased := s.leased + [s.pool[0]]);
    var s2 := SpinTimes(s1, EPHEMERAL_PORT - (start + count));
    Spin(s2);
    var s3 := Spun(s2);
    LeaseAll(s3);
    t := s3.(pool := [], leased := s3.leased + s3.pool);
    assert s3.pool[|s3.pool| - 1] == start;
    assert t.leased[0] == start && t.leased[|t.leased| - 1] == start;
    hide Reaches;
    Then(s, s1, s2);
    Then(s, s2, s3);
    Then(s, s3, t);
  }

  /** The constructor checks no range: its own ports stay below the ephemeral
      ones only if the caller saw to it. */
  lemma InitialPortsInRange(start: nat, count: nat)
    requires Accepts(start, count)
    ensures (forall p :: p in Opened(start, count).pool ==> start <= p < EPHEMERAL_PORT) <==>
            start + count <= EPHEMERAL_PORT
  {
    var pool := InitialPorts(start, count);
    forall i: nat | i < count ensures pool[i] == Word(start + i) {
    }
    if start + count > EPHEMERAL_PORT {
      var i := if start < EPHEMERAL_PORT then EPHEMERAL_PORT - start else 0;
      assert pool[i] == start + i >= EPHEMERAL_PORT;
      assert start + i in Opened(start, count).pool;
    }
  }

  // ----- choosing the range -----

  /** The range handed to the random draw; drawing from 0 panics. */
  function Draws(size: nat): nat {
    Word(Word(EPHEMERAL_PORT - size) - MIN_PORT)
  }

  function RandomBase(size: nat, draw: nat): nat {
    Word(MIN_PORT + draw)
  }

  /** Exactly the sizes below 29152 can be drawn for, and every draw then gives
      a pool that a run can keep below the ephemeral ports. */
  lemma RandomBaseFits(size: nat)
    requires size < 0x1_0000
    ensures (Draws(size) > 0 &&
             forall d: nat :: d < Draws(size) ==>
               MIN_PORT <= RandomBase(size, d) && RandomBase(size, d) + size < EPHEMERAL_PORT)
            <==> size < EPHEMERAL_PORT - MIN_PORT
  {
    if Draws(size) > 0 {
      assert RandomBase(size, 0) == MIN_PORT;
    }
  }

  /** For those sizes distinct draws give distinct pools, each at its distance
      from the lowest port. */
  lemma DrawsDistinct(size: nat, d: nat, e: nat)
    requires size < EPHEMERAL_PORT - MIN_PORT && d < Draws(size) && e < Draws(size)
    ensures Draws(size) == 29152 - size && RandomBase(size, d) == 20000 + d
    ensures RandomBase(size, d) == RandomBase(size, e) <==> d == e
  {
  }
}
