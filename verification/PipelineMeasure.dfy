/** Every run of the pipeline is finite: a measure over the hops still to go
    drops with every step. A claim pays for the loads it makes stale. */
module PipelineMeasure {
  import opened Netip
  import opened Sums
  import opened Pipeline
  import opened PipelineSafety
  import opened PipelineFlow

  // ----- the measure -----

  /** The cost of one claim, high enough to pay for every load it makes stale. */
  function ClaimCost(cfg: Config): nat {
    2 * |cfg.stageOf|
  }

  function HopCost(cfg: Config): nat {
    ClaimCost(cfg) + 9
  }

  /** What an address in front of stage i may still cost. */
  function Ahead(cfg: Config, i: nat): nat
    decreases cfg.stages - i
  {
    if i >= cfg.stages then 0 else Ahead(cfg, i + 1) + HopCost(cfg)
  }

  function PcCost(cfg: Config, succeeded: nat, i: nat, pc: Pc): nat {
    var rest, c := Ahead(cfg, i + 1), ClaimCost(cfg);
    match pc
    case Exited => 0
    case Idle => 1
    case Forwarding(_) => rest + 2
    case Reporting(_, _) => rest + 3
    case Loaded(_, cur) => rest + c + (if cur == succeeded then 5 else 7)
    case Claiming(_) => rest + c + 6
    case Probing(_) => rest + c + 8
    case Checking(_) => rest + c + 9
  }

  function WorkerCosts(cfg: Config, succeeded: seq<nat>, ws: seq<Pc>): (v: seq<nat>)
    requires |ws| == |cfg.stageOf| && forall w :: 0 <= w < |ws| ==> cfg.stageOf[w] < |succeeded|
    ensures |v| == |ws|
  {
    seq(|ws|, w requires 0 <= w < |ws| => PcCost(cfg, succeeded[cfg.stageOf[w]], cfg.stageOf[w], ws[w]))
  }

  function Weighted(n: nat, a: nat): nat {
    n * a
  }

  lemma OneMore(n: nat, a: nat)
    ensures Weighted(n + 1, a) == Weighted(n, a) + a
  {
  }

  function QueueCosts(cfg: Config, queues: seq<seq<Addr>>): (v: seq<nat>)
    ensures |v| == |queues|
  {
    seq(|queues|, i requires 0 <= i < |queues| => Weighted(|queues[i]|, Ahead(cfg, i)))
  }

  function OpenCosts(closed: seq<bool>): (v: seq<nat>)
    ensures |v| == |closed|
  {
    seq(|closed|, i requires 0 <= i < |closed| => if closed[i] then 0 else 1)
  }

  /** Remaining hops, weighted, plus the doors still to be closed. */
  function Measure(cfg: Config, s: State): nat
    requires ValidConfigShape(cfg, s)
  {
    Weighted(|s.remaining|, Ahead(cfg, 0) + 1) + Sum(QueueCosts(cfg, s.queues)) +
    Sum(WorkerCosts(cfg, s.succeeded, s.workers)) + Sum(OpenCosts(s.closed)) + Once(!s.cancelled)
  }

  predicate ValidConfigShape(cfg: Config, s: State) {
    && |s.workers| == |cfg.stageOf| && |s.succeeded| == cfg.stages
    && forall w :: 0 <= w < |cfg.stageOf| ==> cfg.stageOf[w] < cfg.stages
  }

  lemma QueueCostUpdate(cfg: Config, queues: seq<seq<Addr>>, i: nat, q: seq<Addr>)
    requires i < |queues|
    ensures Sum(QueueCosts(cfg, queues[i := q])) + Weighted(|queues[i]|, Ahead(cfg, i))
         == Sum(QueueCosts(cfg, queues)) + Weighted(|q|, Ahead(cfg, i))
  {
    hide Weighted, Ahead;
    assert QueueCosts(cfg, queues[i := q]) == QueueCosts(cfg, queues)[i := Weighted(|q|, Ahead(cfg, i))];
    SumUpdate(QueueCosts(cfg, queues), i, Weighted(|q|, Ahead(cfg, i)));
  }

  lemma PushCost(cfg: Config, queues: seq<seq<Addr>>, i: nat, y: Addr)
    requires i < |queues|
    ensures Sum(QueueCosts(cfg, queues[i := queues[i] + [y]])) == Sum(QueueCosts(cfg, queues)) + Ahead(cfg, i)
  {
    hide Weighted, Ahead, QueueCosts;
    QueueCostUpdate(cfg, queues, i, queues[i] + [y]);
    OneMore(|queues[i]|, Ahead(cfg, i));
  }

  lemma PopCost(cfg: Config, queues: seq<seq<Addr>>, i: nat)
    requires i < |queues| && queues[i] != []
    ensures Sum(QueueCosts(cfg, queues[i := queues[i][1..]])) + Ahead(cfg, i) == Sum(QueueCosts(cfg, queues))
  {
    hide Weighted, Ahead, QueueCosts;
    QueueCostUpdate(cfg, queues, i, queues[i][1..]);
    OneMore(|queues[i]| - 1, Ahead(cfg, i));
  }

  /** Moving one worker, with its stage's counter unchanged. */
  lemma WorkerCostUpdate(cfg: Config, succeeded: seq<nat>, ws: seq<Pc>, w: nat, pc: Pc)
    requires |ws| == |cfg.stageOf| && w < |ws| && forall k :: 0 <= k < |ws| ==> cfg.stageOf[k] < |succeeded|
    ensures var i := cfg.stageOf[w];
            Sum(WorkerCosts(cfg, succeeded, ws[w := pc])) + PcCost(cfg, succeeded[i], i, ws[w]) ==
            Sum(WorkerCosts(cfg, succeeded, ws)) + PcCost(cfg, succeeded[i], i, pc)
  {
    var v := PcCost(cfg, succeeded[cfg.stageOf[w]], cfg.stageOf[w], pc);
    assert WorkerCosts(cfg, succeeded, ws[w := pc]) == WorkerCosts(cfg, succeeded, ws)[w := v];
    SumUpdate(WorkerCosts(cfg, succeeded, ws), w, v);
  }

  /** A claim makes other loads stale, at two units each. */
  lemma CounterCost(cfg: Config, succeeded: seq<nat>, ws: seq<Pc>, i: nat, n: nat)
    requires |ws| == |cfg.stageOf| && i < |succeeded| && forall k :: 0 <= k < |ws| ==> cfg.stageOf[k] < |succeeded|
    ensures Sum(WorkerCosts(cfg, succeeded[i := n], ws)) <= Sum(WorkerCosts(cfg, succeeded, ws)) + ClaimCost(cfg)
  {
    var a, b := WorkerCosts(cfg, succeeded, ws), WorkerCosts(cfg, succeeded[i := n], ws);
    forall w | 0 <= w < |ws| ensures b[w] <= a[w] + 2 {
    }
    SumRaised(a, b, 2);
  }

  lemma OpenCostUpdate(closed: seq<bool>, i: nat)
    requires i < |closed| && !closed[i]
    ensures Sum(OpenCosts(closed[i := true])) + 1 == Sum(OpenCosts(closed))
  {
    assert OpenCosts(closed[i := true]) == OpenCosts(closed)[i := 0];
    SumUpdate(OpenCosts(closed), i, 0);
  }

  // ----- every step lowers it -----

  lemma ReceiveDrops(cfg: Config, s: State, w: nat)
    requires ValidConfig(cfg) && Shape(cfg, s) && WorkEnabled(cfg, s, w, Receive)
    ensures ValidConfigShape(cfg, s) && ValidConfigShape(cfg, ApplyWork(cfg, s, w, Receive))
    ensures Measure(cfg, ApplyWork(cfg, s, w, Receive)) < Measure(cfg, s)
  {
    var i := cfg.stageOf[w];
    assert Ahead(cfg, i) == Ahead(cfg, i + 1) + HopCost(cfg);
    hide Ahead, QueueCosts, WorkerCosts, OpenCosts, Weighted;
    PopCost(cfg, s.queues, i);
    WorkerCostUpdate(cfg, s.succeeded, s.workers, w, Checking(s.queues[i][0]));
  }

  /** What a claim saves pays for the loads it makes stale. */
  lemma ClaimPays(cfg: Config, succeeded: seq<nat>, ws: seq<Pc>, w: nat, ip: Addr, n: nat)
    requires |ws| == |cfg.stageOf| && w < |ws| && forall k :: 0 <= k < |ws| ==> cfg.stageOf[k] < |succeeded|
    requires ws[w] == Claiming(ip) || ws[w] == Loaded(ip, succeeded[cfg.stageOf[w]])
    ensures Sum(WorkerCosts(cfg, succeeded[cfg.stageOf[w] := n], ws[w := Reporting(ip, n)]))
          < Sum(WorkerCosts(cfg, succeeded, ws))
  {
    hide Ahead, WorkerCosts, ClaimCost;
    var i := cfg.stageOf[w];
    assert PcCost(cfg, succeeded[i], i, Reporting(ip, n)) + ClaimCost(cfg) + 2 <= PcCost(cfg, succeeded[i], i, ws[w]);
    hide PcCost;
    WorkerCostUpdate(cfg, succeeded, ws, w, Reporting(ip, n));
    CounterCost(cfg, succeeded, ws[w := Reporting(ip, n)], i, n);
  }

  lemma ClaimDrops(cfg: Config, s: State, w: nat, ip: Addr)
    requires ValidConfig(cfg) && Shape(cfg, s) && w < |s.workers|
    requires s.workers[w] == Claiming(ip) || s.workers[w] == Loaded(ip, s.succeeded[cfg.stageOf[w]])
    ensures var r := Claim(s, w, cfg.stageOf[w], ip);
            ValidConfigShape(cfg, s) && ValidConfigShape(cfg, r) && Measure(cfg, r) < Measure(cfg, s)
  {
    hide Ahead, QueueCosts, WorkerCosts, OpenCosts, Weighted, PcCost, Sum;
    ClaimPays(cfg, s.succeeded, s.workers, w, ip, s.succeeded[cfg.stageOf[w]] + 1);
  }

  /** Steps that only move the worker to a cheaper place; they may report,
      and may cancel the run. */
  lemma MoveDrops(cfg: Config, s: State, w: nat, pc: Pc, r: State)
    requires ValidConfig(cfg) && Shape(cfg, s) && w < |s.workers|
    requires r.workers == s.workers[w := pc] && r.remaining == s.remaining && r.queues == s.queues
    requires r.succeeded == s.succeeded && r.closed == s.closed && (s.cancelled ==> r.cancelled)
    requires var i := cfg.stageOf[w]; PcCost(cfg, s.succeeded[i], i, pc) < PcCost(cfg, s.succeeded[i], i, s.workers[w])
    ensures ValidConfigShape(cfg, s) && ValidConfigShape(cfg, r) && Measure(cfg, r) < Measure(cfg, s)
  {
    hide PcCost, QueueCosts, WorkerCosts, OpenCosts, Weighted;
    WorkerCostUpdate(cfg, s.succeeded, s.workers, w, pc);
  }

  lemma ForwardDrops(cfg: Config, s: State, w: nat)
    requires ValidConfig(cfg) && Shape(cfg, s) && WorkEnabled(cfg, s, w, Forward)
    requires !ApplyWork(cfg, s, w, Forward).panicked
    ensures ValidConfigShape(cfg, s) && ValidConfigShape(cfg, ApplyWork(cfg, s, w, Forward))
    ensures Measure(cfg, ApplyWork(cfg, s, w, Forward)) < Measure(cfg, s)
  {
    var i, ip := cfg.stageOf[w], s.workers[w].ip;
    var r := ApplyWork(cfg, s, w, Forward);
    ForwardShape(cfg, s, w);
    hide Ahead, PcCost, QueueCosts, WorkerCosts, OpenCosts, Weighted, ApplyWork, WorkEnabled, Sum;
    WorkerCostUpdate(cfg, s.succeeded, s.workers, w, Idle);
    if i + 1 < cfg.stages {
      PushCost(cfg, s.queues, i + 1, ip);
    }
  }

  /** A forwarded address moves from its worker to the next queue, if any. */
  lemma ForwardShape(cfg: Config, s: State, w: nat)
    requires ValidConfig(cfg) && Shape(cfg, s) && WorkEnabled(cfg, s, w, Forward)
    requires !ApplyWork(cfg, s, w, Forward).panicked
    ensures var r, i := ApplyWork(cfg, s, w, Forward), cfg.stageOf[w];
            && s.workers[w].Forwarding? && r.workers == s.workers[w := Idle] && r.remaining == s.remaining
            && r.succeeded == s.succeeded && r.closed == s.closed && r.cancelled == s.cancelled
            && r.queues == if i + 1 < cfg.stages then s.queues[i + 1 := s.queues[i + 1] + [s.workers[w].ip]]
                           else s.queues
    ensures var i, n := cfg.stageOf[w], s.succeeded[cfg.stageOf[w]];
            PcCost(cfg, n, i, s.workers[w]) == Ahead(cfg, i + 1) + PcCost(cfg, n, i, Idle) + 1
  {
    hide Ahead;
  }

  lemma WorkDrops(cfg: Config, s: State, w: nat, a: WorkStep)
    requires ValidConfig(cfg) && Shape(cfg, s) && WorkEnabled(cfg, s, w, a) && !ApplyWork(cfg, s, w, a).panicked
    ensures ValidConfigShape(cfg, s) && ValidConfigShape(cfg, ApplyWork(cfg, s, w, a))
    ensures Measure(cfg, ApplyWork(cfg, s, w, a)) < Measure(cfg, s)
  {
    hide Measure, Ahead;
    var r := ApplyWork(cfg, s, w, a);
    if a.Receive? {
      ReceiveDrops(cfg, s, w);
    } else if a.Forward? {
      ForwardDrops(cfg, s, w);
    } else if Claims(cfg, s, w, a) {
      ClaimDrops(cfg, s, w, s.workers[w].ip);
    } else {
      PlainMove(cfg, s, w, a);
      MoveDrops(cfg, s, w, r.workers[w], r);
    }
  }

  lemma PlainMove(cfg: Config, s: State, w: nat, a: WorkStep)
    requires ValidConfig(cfg) && Shape(cfg, s) && WorkEnabled(cfg, s, w, a)
    requires !a.Receive? && !a.Forward? && !Claims(cfg, s, w, a)
    ensures var r, i := ApplyWork(cfg, s, w, a), cfg.stageOf[w];
            && |r.workers| == |s.workers| && r.workers == s.workers[w := r.workers[w]]
            && r.remaining == s.remaining && r.queues == s.queues
            && r.succeeded == s.succeeded && r.closed == s.closed && (s.cancelled ==> r.cancelled)
            && PcCost(cfg, s.succeeded[i], i, r.workers[w]) < PcCost(cfg, s.succeeded[i], i, s.workers[w])
  {
    assert cfg.stageOf[w] < cfg.stages;
    hide ValidConfig;
    hide Ahead;
    match a {
      case Report =>
      case Swap =>
      case Load =>
      case CheckLimit =>
      case _ =>
    }
  }

  lemma FeedDrops(cfg: Config, s: State)
    requires ValidConfig(cfg) && Shape(cfg, s) && Enabled(cfg, s, Feed)
    ensures ValidConfigShape(cfg, s) && ValidConfigShape(cfg, Apply(cfg, s, Feed))
    ensures Measure(cfg, Apply(cfg, s, Feed)) < Measure(cfg, s)
  {
    PushCost(cfg, s.queues, 0, s.remaining[0]);
    OneMore(|s.remaining| - 1, Ahead(cfg, 0) + 1);
    hide Ahead, WorkerCosts, QueueCosts, OpenCosts, Weighted;
  }

  lemma StepDrops(cfg: Config, s: State, step: Step)
    requires ValidConfig(cfg) && Shape(cfg, s) && Enabled(cfg, s, step) && Channels(cfg, s)
    ensures ValidConfigShape(cfg, s) && ValidConfigShape(cfg, Apply(cfg, s, step))
    ensures Measure(cfg, Apply(cfg, s, step)) < Measure(cfg, s)
  {
    StepChannels(cfg, s, step);
    hide Channels, Ahead, WorkerCosts, QueueCosts, OpenCosts, WorkEnabled, ApplyWork, Weighted;
    match step {
      case Work(w, a) => WorkDrops(cfg, s, w, a);
      case Feed => FeedDrops(cfg, s);
      case FeederDone => OpenFeeder(cfg, s);
      case CloseStage(i) => OpenCostUpdate(s.closed, i + 1);
      case Cancel =>
    }
  }

  lemma OpenFeeder(cfg: Config, s: State)
    requires ValidConfig(cfg) && Shape(cfg, s) && Channels(cfg, s) && !s.feederDone
    ensures Sum(OpenCosts(s.closed[0 := true])) + 1 == Sum(OpenCosts(s.closed))
  {
    OpenCostUpdate(s.closed, 0);
  }

  /** Every run, under any scheduling and cancellation, has a bounded length. */
  lemma {:induction false} RunsAreFinite(cfg: Config, s: State, steps: seq<Step>, t: State)
    requires ValidConfig(cfg) && Shape(cfg, s) && Channels(cfg, s) && Runs(cfg, s, steps, t)
    ensures ValidConfigShape(cfg, s) && |steps| <= Measure(cfg, s)
    decreases |steps|
  {
    if steps != [] {
      hide Channels, Enabled, Apply, Measure;
      StepChannels(cfg, s, steps[0]);
      StepDrops(cfg, s, steps[0]);
      RunsAreFinite(cfg, Apply(cfg, s, steps[0]), steps[1..], t);
    }
  }
}
