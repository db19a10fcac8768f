/** Where every address is: none is lost or duplicated without cause. */
module PipelineFlow {
  import opened Netip
  import opened Sums
  import opened Pipeline
  import opened PipelineSafety

  /** y passes stages i..t. */
  predicate Passes(cfg: Config, y: Addr, i: nat, t: nat)
    decreases t + 1 - i
  {
    i > t || (cfg.pred(i, y) && Passes(cfg, y, i + 1, t))
  }

  /** The input addresses that pass stages 0..t, in input order. */
  function Survivors(cfg: Config, input: seq<Addr>, t: nat): seq<Addr> {
    if input == [] then []
    else Survivors(cfg, input[..|input| - 1], t) +
         (if Passes(cfg, input[|input| - 1], 0, t) then [input[|input| - 1]] else [])
  }

  // ----- how often x will still succeed at stage t -----

  function Once(b: bool): nat {
    if b then 1 else 0
  }

  /** For one copy of y in front of stage i. */
  function Owed(cfg: Config, x: Addr, t: nat, i: nat, y: Addr): nat {
    Once(y == x && i <= t && Passes(cfg, x, i, t))
  }

  /** For a list in front of stage i. */
  function SeqOwed(cfg: Config, x: Addr, t: nat, i: nat, ys: seq<Addr>): nat {
    if i <= t && Passes(cfg, x, i, t) then multiset(ys)[x] else 0
  }

  function PcOwed(cfg: Config, x: Addr, t: nat, i: nat, pc: Pc): nat {
    match pc
    case Idle => 0
    case Exited => 0
    case Forwarding(ip) => Owed(cfg, x, t, i + 1, ip)
    case _ => Owed(cfg, x, t, i, pc.ip)
  }

  function QueuesOwed(cfg: Config, x: Addr, t: nat, queues: seq<seq<Addr>>): (v: seq<nat>)
    ensures |v| == |queues|
  {
    seq(|queues|, i requires 0 <= i < |queues| => SeqOwed(cfg, x, t, i, queues[i]))
  }

  function WorkersOwed(cfg: Config, x: Addr, t: nat, ws: seq<Pc>): (v: seq<nat>)
    requires |ws| == |cfg.stageOf|
    ensures |v| == |ws|
  {
    seq(|ws|, w requires 0 <= w < |ws| => PcOwed(cfg, x, t, cfg.stageOf[w], ws[w]))
  }

  /** Successes of x at stage t, past and still owed. */
  function Total(cfg: Config, s: State, x: Addr, t: nat): nat
    requires Shape(cfg, s) && t < cfg.stages
  {
    SeqOwed(cfg, x, t, 0, s.remaining) + Sum(QueuesOwed(cfg, x, t, s.queues)) +
    Sum(WorkersOwed(cfg, x, t, s.workers)) + multiset(s.reported[t])[x]
  }

  /** A worker past its probe holds an address its stage accepts. */
  ghost predicate Probed(cfg: Config, i: nat, pc: Pc) {
    pc.Claiming? || pc.Loaded? || pc.Reporting? || pc.Forwarding? ==> cfg.pred(i, pc.ip)
  }

  ghost predicate AllProbed(cfg: Config, s: State)
    requires Shape(cfg, s)
  {
    forall w :: 0 <= w < |s.workers| ==> Probed(cfg, cfg.stageOf[w], s.workers[w])
  }

  /** The last stage has handed out all its result slots. */
  ghost predicate Full(cfg: Config, s: State)
    requires ValidConfig(cfg) && Shape(cfg, s)
  {
    0 < cfg.limit <= s.succeeded[cfg.stages - 1]
  }

  /** Nothing has been dropped: no cancellation, and no worker left over the
      result limit. */
  ghost predicate Lossless(cfg: Config, s: State)
    requires ValidConfig(cfg) && Shape(cfg, s)
  {
    !s.cancelled && (cfg.exitOnLimit ==> !Full(cfg, s))
  }

  /** The writer failed for good. */
  predicate Fatal(t: Step) {
    t.Work? && t.a.FatalWrite?
  }

  lemma QueueUpdate(cfg: Config, x: Addr, t: nat, queues: seq<seq<Addr>>, i: nat, q: seq<Addr>)
    requires i < |queues|
    ensures Sum(QueuesOwed(cfg, x, t, queues[i := q])) + SeqOwed(cfg, x, t, i, queues[i])
         == Sum(QueuesOwed(cfg, x, t, queues)) + SeqOwed(cfg, x, t, i, q)
  {
    assert QueuesOwed(cfg, x, t, queues[i := q]) == QueuesOwed(cfg, x, t, queues)[i := SeqOwed(cfg, x, t, i, q)];
    SumUpdate(QueuesOwed(cfg, x, t, queues), i, SeqOwed(cfg, x, t, i, q));
  }

  lemma WorkerUpdate(cfg: Config, x: Addr, t: nat, ws: seq<Pc>, w: nat, pc: Pc)
    requires |ws| == |cfg.stageOf| && w < |ws|
    ensures Sum(WorkersOwed(cfg, x, t, ws[w := pc])) + PcOwed(cfg, x, t, cfg.stageOf[w], ws[w])
         == Sum(WorkersOwed(cfg, x, t, ws)) + PcOwed(cfg, x, t, cfg.stageOf[w], pc)
  {
    var v := PcOwed(cfg, x, t, cfg.stageOf[w], pc);
    assert WorkersOwed(cfg, x, t, ws[w := pc]) == WorkersOwed(cfg, x, t, ws)[w := v];
    SumUpdate(WorkersOwed(cfg, x, t, ws), w, v);
  }

  lemma SeqOwedHead(cfg: Config, x: Addr, t: nat, i: nat, ys: seq<Addr>)
    requires ys != []
    ensures SeqOwed(cfg, x, t, i, ys) == Owed(cfg, x, t, i, ys[0]) + SeqOwed(cfg, x, t, i, ys[1..])
  {
    assert ys == [ys[0]] + ys[1..];
  }

  lemma SeqOwedAppend(cfg: Config, x: Addr, t: nat, i: nat, ys: seq<Addr>, y: Addr)
    ensures SeqOwed(cfg, x, t, i, ys + [y]) == SeqOwed(cfg, x, t, i, ys) + Owed(cfg, x, t, i, y)
  {
  }

  /** Reporting at stage i settles what is owed there. */
  lemma OwedReport(cfg: Config, x: Addr, t: nat, i: nat, y: Addr)
    requires cfg.pred(i, y)
    ensures Owed(cfg, x, t, i, y) == Owed(cfg, x, t, i + 1, y) + Once(i == t && y == x)
  {
    if y == x && i <= t {
      assert Passes(cfg, x, i, t) == Passes(cfg, x, i + 1, t);
    }
  }

  lemma OwedPast(cfg: Config, x: Addr, t: nat, i: nat, y: Addr)
    requires i > t
    ensures Owed(cfg, x, t, i, y) == 0
  {
  }

  lemma OwedReject(cfg: Config, x: Addr, t: nat, i: nat, y: Addr)
    requires !cfg.pred(i, y)
    ensures Owed(cfg, x, t, i, y) == 0
  {
  }

  lemma ReportedUpdate(x: Addr, t: nat, reported: seq<seq<Addr>>, i: nat, y: Addr)
    requires i < |reported| && t < |reported|
    ensures multiset(reported[i := reported[i] + [y]][t])[x] == multiset(reported[t])[x] + Once(i == t && y == x)
  {
  }

  // ----- one step -----

  /** Steps that can lose an address also cancel the run, or need a limit. */
  predicate KeepsAddress(a: WorkStep) {
    a.CheckLimit? || a.Probe? || a.Add? || a.Load? || a.Swap? || a.Report? || a.Forward? || a.Receive? || a.SeeClosed?
  }

  ghost predicate LosslessWork(cfg: Config, s: State, w: nat, a: WorkStep)
    requires ValidConfig(cfg) && Shape(cfg, s) && WorkEnabled(cfg, s, w, a)
  {
    WorkShape(cfg, s, w, a);
    Lossless(cfg, s) && Lossless(cfg, ApplyWork(cfg, s, w, a))
  }

  ghost predicate LosslessStep(cfg: Config, s: State, step: Step)
    requires ValidConfig(cfg) && Shape(cfg, s) && Enabled(cfg, s, step)
  {
    ShapeKept(cfg, s, step);
    Lossless(cfg, s) && Lossless(cfg, Apply(cfg, s, step))
  }

  lemma LosslessSteps(cfg: Config, s: State, w: nat, a: WorkStep)
    requires ValidConfig(cfg) && Shape(cfg, s) && WorkEnabled(cfg, s, w, a)
    requires !a.FatalWrite? && SlotsCounted(cfg, s) && LosslessWork(cfg, s, w, a)
    ensures KeepsAddress(a)
    ensures a.CheckLimit? ==> ApplyWork(cfg, s, w, a) == SetPc(s, w, Probing(s.workers[w].ip))
    ensures a.Load? ==> ApplyWork(cfg, s, w, a) == SetPc(s, w, Loaded(s.workers[w].ip, s.succeeded[cfg.stageOf[w]]))
    ensures a.Report? ==>
              ApplyWork(cfg, s, w, a) ==
                SetPc(Reported(s, cfg.stageOf[w], s.workers[w].ip), w, Forwarding(s.workers[w].ip))
  {
    match a {
      case Report =>
      case Load =>
      case CheckLimit =>
      case _ =>
    }
  }

  /** The next position of the worker, and what it moves. */
  lemma WorkTotal(cfg: Config, s: State, w: nat, a: WorkStep, x: Addr, t: nat)
    requires ValidConfig(cfg) && Shape(cfg, s) && WorkEnabled(cfg, s, w, a) && t < cfg.stages
    requires !a.FatalWrite? && SlotsCounted(cfg, s) && LosslessWork(cfg, s, w, a) && !ApplyWork(cfg, s, w, a).panicked
    requires Probed(cfg, cfg.stageOf[w], s.workers[w])
    ensures Shape(cfg, ApplyWork(cfg, s, w, a))
    ensures Total(cfg, ApplyWork(cfg, s, w, a), x, t) == Total(cfg, s, x, t)
  {
    WorkShape(cfg, s, w, a);
    LosslessSteps(cfg, s, w, a);
    match a {
      case Receive => ReceiveTotal(cfg, s, w, x, t);
      case Report => ReportTotal(cfg, s, w, x, t);
      case Forward => ForwardTotal(cfg, s, w, x, t);
      case _ => StayTotal(cfg, s, w, a, x, t);
    }
  }

  lemma ReceiveTotal(cfg: Config, s: State, w: nat, x: Addr, t: nat)
    requires ValidConfig(cfg) && Shape(cfg, s) && WorkEnabled(cfg, s, w, Receive) && t < cfg.stages
    ensures Shape(cfg, ApplyWork(cfg, s, w, Receive))
    ensures Total(cfg, ApplyWork(cfg, s, w, Receive), x, t) == Total(cfg, s, x, t)
  {
    var i := cfg.stageOf[w];
    var q := s.queues[i];
    SeqOwedHead(cfg, x, t, i, q);
    QueueUpdate(cfg, x, t, s.queues, i, q[1..]);
    WorkerUpdate(cfg, x, t, s.workers, w, Checking(q[0]));
    hide SeqOwed, Owed, QueuesOwed, WorkersOwed;
  }

  lemma ReportTotal(cfg: Config, s: State, w: nat, x: Addr, t: nat)
    requires ValidConfig(cfg) && Shape(cfg, s) && w < |s.workers| && s.workers[w].Reporting? && t < cfg.stages
    requires cfg.pred(cfg.stageOf[w], s.workers[w].ip)
    ensures var ip := s.workers[w].ip;
            var r := SetPc(Reported(s, cfg.stageOf[w], ip), w, Forwarding(ip));
            Shape(cfg, r) && Total(cfg, r, x, t) == Total(cfg, s, x, t)
  {
    var i, ip := cfg.stageOf[w], s.workers[w].ip;
    OwedReport(cfg, x, t, i, ip);
    WorkerUpdate(cfg, x, t, s.workers, w, Forwarding(ip));
    ReportedUpdate(x, t, s.reported, i, ip);
    hide SeqOwed, Owed, QueuesOwed, WorkersOwed;
  }

  lemma ForwardTotal(cfg: Config, s: State, w: nat, x: Addr, t: nat)
    requires ValidConfig(cfg) && Shape(cfg, s) && WorkEnabled(cfg, s, w, Forward) && t < cfg.stages
    requires !ApplyWork(cfg, s, w, Forward).panicked
    ensures Shape(cfg, ApplyWork(cfg, s, w, Forward))
    ensures Total(cfg, ApplyWork(cfg, s, w, Forward), x, t) == Total(cfg, s, x, t)
  {
    hide SeqOwed, Owed, QueuesOwed, WorkersOwed;
    var i, ip := cfg.stageOf[w], s.workers[w].ip;
    WorkShape(cfg, s, w, Forward);
    WorkerUpdate(cfg, x, t, s.workers, w, Idle);
    if i + 1 < cfg.stages {
      SeqOwedAppend(cfg, x, t, i + 1, s.queues[i + 1], ip);
      QueueUpdate(cfg, x, t, s.queues, i + 1, s.queues[i + 1] + [ip]);
    } else {
      OwedPast(cfg, x, t, i + 1, ip);
    }
  }

  /** The remaining steps keep the address with the worker, or reject it. */
  lemma StayTotal(cfg: Config, s: State, w: nat, a: WorkStep, x: Addr, t: nat)
    requires ValidConfig(cfg) && Shape(cfg, s) && WorkEnabled(cfg, s, w, a) && t < cfg.stages
    requires KeepsAddress(a) && !a.Receive? && !a.Report? && !a.Forward?
    requires a.CheckLimit? ==> ApplyWork(cfg, s, w, a) == SetPc(s, w, Probing(s.workers[w].ip))
    requires a.Load? ==> ApplyWork(cfg, s, w, a) == SetPc(s, w, Loaded(s.workers[w].ip, s.succeeded[cfg.stageOf[w]]))
    ensures Shape(cfg, ApplyWork(cfg, s, w, a))
    ensures Total(cfg, ApplyWork(cfg, s, w, a), x, t) == Total(cfg, s, x, t)
  {
    WorkShape(cfg, s, w, a);
    var r := ApplyWork(cfg, s, w, a);
    StayFrame(cfg, s, w, a, x, t);
    hide ApplyWork, SeqOwed, Owed, QueuesOwed, WorkersOwed, PcOwed;
    WorkerUpdate(cfg, x, t, s.workers, w, r.workers[w]);
  }

  lemma StayFrame(cfg: Config, s: State, w: nat, a: WorkStep, x: Addr, t: nat)
    requires ValidConfig(cfg) && Shape(cfg, s) && WorkEnabled(cfg, s, w, a) && t < cfg.stages
    requires KeepsAddress(a) && !a.Receive? && !a.Report? && !a.Forward?
    requires a.CheckLimit? ==> ApplyWork(cfg, s, w, a) == SetPc(s, w, Probing(s.workers[w].ip))
    requires a.Load? ==> ApplyWork(cfg, s, w, a) == SetPc(s, w, Loaded(s.workers[w].ip, s.succeeded[cfg.stageOf[w]]))
    ensures var r := ApplyWork(cfg, s, w, a);
            && r.remaining == s.remaining && r.queues == s.queues && r.reported == s.reported
            && |r.workers| == |s.workers| && r.workers == s.workers[w := r.workers[w]]
            && PcOwed(cfg, x, t, cfg.stageOf[w], r.workers[w]) == PcOwed(cfg, x, t, cfg.stageOf[w], s.workers[w])
  {
    assert cfg.stageOf[w] < cfg.stages;
    hide ValidConfig;
    match a {
      case Probe =>
        if !cfg.pred(cfg.stageOf[w], s.workers[w].ip) {
          OwedReject(cfg, x, t, cfg.stageOf[w], s.workers[w].ip);
        }
      case Swap =>
      case CheckLimit =>
      case Load =>
      case Add =>
      case SeeClosed =>
      case _ =>
    }
  }

  lemma WorkProbed(cfg: Config, s: State, w: nat, a: WorkStep)
    requires ValidConfig(cfg) && Shape(cfg, s) && WorkEnabled(cfg, s, w, a) && Probed(cfg, cfg.stageOf[w], s.workers[w])
    ensures |ApplyWork(cfg, s, w, a).workers| == |s.workers|
    ensures Probed(cfg, cfg.stageOf[w], ApplyWork(cfg, s, w, a).workers[w])
  {
    assert cfg.stageOf[w] < cfg.stages;
    hide ValidConfig;
    match a {
      case Report =>
      case Receive =>
      case Swap =>
      case Load =>
      case CheckLimit =>
      case Forward =>
      case _ =>
    }
  }

  lemma StepProbed(cfg: Config, s: State, t: Step)
    requires ValidConfig(cfg) && Shape(cfg, s) && Enabled(cfg, s, t) && AllProbed(cfg, s)
    ensures Shape(cfg, Apply(cfg, s, t)) && AllProbed(cfg, Apply(cfg, s, t))
  {
    ShapeKept(cfg, s, t);
    match t {
      case Work(w, a) =>
        WorkProbed(cfg, s, w, a);
        WorkFrame(cfg, s, w, a);
        hide ApplyWork, WorkEnabled, Probed;
      case _ =>
    }
  }

  lemma StepTotal(cfg: Config, s: State, step: Step, x: Addr, t: nat)
    requires ValidConfig(cfg) && Shape(cfg, s) && Enabled(cfg, s, step) && t < cfg.stages
    requires !Fatal(step) && SlotsCounted(cfg, s) && LosslessStep(cfg, s, step) && !Apply(cfg, s, step).panicked
    requires AllProbed(cfg, s)
    ensures Shape(cfg, Apply(cfg, s, step))
    ensures Total(cfg, Apply(cfg, s, step), x, t) == Total(cfg, s, x, t)
  {
    match step {
      case Work(w, a) => WorkTotal(cfg, s, w, a, x, t);
      case Feed => FeedTotal(cfg, s, x, t);
      case _ =>
        hide SeqOwed, Owed, QueuesOwed, WorkersOwed;
    }
  }

  // ----- what a lossy step may do -----

  /** Reporting and then standing anywhere behind the report. */
  lemma ReportNoGain(cfg: Config, s: State, w: nat, a: WorkStep, x: Addr, t: nat)
    requires ValidConfig(cfg) && Shape(cfg, s) && WorkEnabled(cfg, s, w, a) && t < cfg.stages
    requires Reports(a) && cfg.pred(cfg.stageOf[w], s.workers[w].ip)
    ensures Shape(cfg, ApplyWork(cfg, s, w, a))
    ensures Total(cfg, ApplyWork(cfg, s, w, a), x, t) <= Total(cfg, s, x, t)
  {
    var i, ip, r := cfg.stageOf[w], s.workers[w].ip, ApplyWork(cfg, s, w, a);
    WorkShape(cfg, s, w, a);
    WorkFrame(cfg, s, w, a);
    WorkSlotFrame(cfg, s, w, a);
    ReportLeaves(cfg, s, w, a, x, t);
    OwedReport(cfg, x, t, i, ip);
    assert PcOwed(cfg, x, t, i, s.workers[w]) == Owed(cfg, x, t, i, ip);
    hide ApplyWork, WorkEnabled, SeqOwed, Owed, QueuesOwed, WorkersOwed, PcOwed;
    WorkerUpdate(cfg, x, t, s.workers, w, r.workers[w]);
    ReportedUpdate(x, t, s.reported, i, ip);
  }

  lemma ReportLeaves(cfg: Config, s: State, w: nat, a: WorkStep, x: Addr, t: nat)
    requires ValidConfig(cfg) && Shape(cfg, s) && WorkEnabled(cfg, s, w, a) && Reports(a)
    ensures var r := ApplyWork(cfg, s, w, a);
            && r.queues == s.queues && |r.workers| == |s.workers|
            && PcOwed(cfg, x, t, cfg.stageOf[w], r.workers[w]) <= Owed(cfg, x, t, cfg.stageOf[w] + 1, s.workers[w].ip)
  {
    hide Owed;
    match a {
      case Report =>
      case _ =>
    }
  }

  /** The steps that neither read, report nor forward. */
  lemma OtherNoGain(cfg: Config, s: State, w: nat, a: WorkStep, x: Addr, t: nat)
    requires ValidConfig(cfg) && Shape(cfg, s) && WorkEnabled(cfg, s, w, a) && t < cfg.stages
    requires !a.Receive? && !a.Forward? && !Reports(a)
    ensures Shape(cfg, ApplyWork(cfg, s, w, a))
    ensures Total(cfg, ApplyWork(cfg, s, w, a), x, t) <= Total(cfg, s, x, t)
  {
    var r := ApplyWork(cfg, s, w, a);
    WorkShape(cfg, s, w, a);
    WorkFrame(cfg, s, w, a);
    WorkSlotFrame(cfg, s, w, a);
    OtherFrame(cfg, s, w, a, x, t);
    hide ApplyWork, WorkEnabled, SeqOwed, Owed, QueuesOwed, WorkersOwed, PcOwed;
    WorkerUpdate(cfg, x, t, s.workers, w, r.workers[w]);
  }

  lemma OtherFrame(cfg: Config, s: State, w: nat, a: WorkStep, x: Addr, t: nat)
    requires ValidConfig(cfg) && Shape(cfg, s) && WorkEnabled(cfg, s, w, a) && t < cfg.stages
    requires !a.Receive? && !a.Forward? && !Reports(a)
    ensures var r := ApplyWork(cfg, s, w, a);
            && r.queues == s.queues && |r.workers| == |s.workers|
            && PcOwed(cfg, x, t, cfg.stageOf[w], r.workers[w]) <= PcOwed(cfg, x, t, cfg.stageOf[w], s.workers[w])
  {
    assert cfg.stageOf[w] < cfg.stages;
    hide ValidConfig;
    hide Owed;
    match a {
      case Swap =>
      case CheckLimit =>
      case Load =>
      case Add =>
      case _ =>
    }
  }

  /** Whatever happens, no step makes an address owed, or reported, anew. */
  lemma StepNoGain(cfg: Config, s: State, step: Step, x: Addr, t: nat)
    requires ValidConfig(cfg) && Shape(cfg, s) && Enabled(cfg, s, step) && Channels(cfg, s) && t < cfg.stages
    requires AllProbed(cfg, s)
    ensures Shape(cfg, Apply(cfg, s, step))
    ensures Total(cfg, Apply(cfg, s, step), x, t) <= Total(cfg, s, x, t)
  {
    StepChannels(cfg, s, step);
    match step {
      case Work(w, a) =>
        assert Probed(cfg, cfg.stageOf[w], s.workers[w]);
        hide Total, Channels, ValidConfig;
        match a {
          case Receive => ReceiveTotal(cfg, s, w, x, t);
          case Forward => ForwardTotal(cfg, s, w, x, t);
          case Report => ReportNoGain(cfg, s, w, a, x, t);
          case FatalWrite => ReportNoGain(cfg, s, w, a, x, t);
          case _ => OtherNoGain(cfg, s, w, a, x, t);
        }
      case Feed => FeedTotal(cfg, s, x, t);
      case _ =>
        hide SeqOwed, Owed, QueuesOwed, WorkersOwed;
    }
  }

  lemma FeedTotal(cfg: Config, s: State, x: Addr, t: nat)
    requires ValidConfig(cfg) && Shape(cfg, s) && Enabled(cfg, s, Feed) && t < cfg.stages
    ensures Shape(cfg, Apply(cfg, s, Feed)) && Total(cfg, Apply(cfg, s, Feed), x, t) == Total(cfg, s, x, t)
  {
    SeqOwedHead(cfg, x, t, 0, s.remaining);
    SeqOwedAppend(cfg, x, t, 0, s.queues[0], s.remaining[0]);
    QueueUpdate(cfg, x, t, s.queues, 0, s.queues[0] + [s.remaining[0]]);
    hide SeqOwed, Owed, QueuesOwed, WorkersOwed;
  }

  // ----- when losses begin -----

  lemma WorkFills(cfg: Config, s: State, w: nat, a: WorkStep)
    requires ValidConfig(cfg) && Shape(cfg, s) && WorkEnabled(cfg, s, w, a) && SlotsCounted(cfg, s)
    requires !a.FatalWrite? && !s.cancelled && ApplyWork(cfg, s, w, a).cancelled
    ensures Full(cfg, s)
  {
    match a {
      case Report =>
      case Load =>
      case CheckLimit =>
      case Swap =>
      case _ =>
    }
  }

  lemma FullSticks(cfg: Config, s: State, step: Step)
    requires ValidConfig(cfg) && Shape(cfg, s) && Enabled(cfg, s, step) && Full(cfg, s)
    ensures Shape(cfg, Apply(cfg, s, step)) && Full(cfg, Apply(cfg, s, step))
  {
    ShapeKept(cfg, s, step);
    match step {
      case Work(w, a) => WorkSlotFrame(cfg, s, w, a);
      case _ =>
    }
  }

  /** An outside cancellation, or a fatal write, before the last slot is gone. */
  ghost predicate Disturbs(cfg: Config, s: State, step: Step)
    requires ValidConfig(cfg) && Shape(cfg, s)
  {
    Fatal(step) || (step.Cancel? && !Full(cfg, s))
  }

  /** Only a full result list makes an undisturbed run drop anything. */
  lemma LossesNeedFull(cfg: Config, s: State, step: Step)
    requires ValidConfig(cfg) && Shape(cfg, s) && Enabled(cfg, s, step) && SlotsCounted(cfg, s)
    requires Lossless(cfg, s) && !Disturbs(cfg, s, step)
    ensures Shape(cfg, Apply(cfg, s, step))
    ensures Lossless(cfg, Apply(cfg, s, step)) || Full(cfg, Apply(cfg, s, step))
  {
    ShapeKept(cfg, s, step);
    match step {
      case Work(w, a) =>
        if ApplyWork(cfg, s, w, a).cancelled {
          WorkFills(cfg, s, w, a);
          FullSticks(cfg, s, step);
        }
      case _ =>
    }
  }

  // ----- the end of a run -----

  /** While nothing is lost, whoever has left had nothing more to read. */
  ghost predicate Drained(cfg: Config, s: State)
    requires ValidConfig(cfg) && Shape(cfg, s)
  {
    && (s.feederDone ==> s.remaining == [])
    && forall w :: 0 <= w < |s.workers| && s.workers[w].Exited? ==>
         s.closed[cfg.stageOf[w]] && s.queues[cfg.stageOf[w]] == []
  }

  lemma WorkDrained(cfg: Config, s: State, w: nat, a: WorkStep)
    requires ValidConfig(cfg) && Shape(cfg, s) && WorkEnabled(cfg, s, w, a)
    requires Drained(cfg, s)
    requires !a.FatalWrite? && SlotsCounted(cfg, s) && LosslessWork(cfg, s, w, a) && !ApplyWork(cfg, s, w, a).panicked
    ensures Shape(cfg, ApplyWork(cfg, s, w, a)) && Drained(cfg, ApplyWork(cfg, s, w, a))
  {
    WorkShape(cfg, s, w, a);
    WorkFrame(cfg, s, w, a);
    QueueFrame(cfg, s, w, a);
    hide ApplyWork, WorkEnabled;
  }

  /** A queue that is closed and empty stays so; only a reader of one leaves. */
  lemma QueueFrame(cfg: Config, s: State, w: nat, a: WorkStep)
    requires ValidConfig(cfg) && Shape(cfg, s) && WorkEnabled(cfg, s, w, a)
    requires !a.FatalWrite? && SlotsCounted(cfg, s) && LosslessWork(cfg, s, w, a) && !ApplyWork(cfg, s, w, a).panicked
    ensures Shape(cfg, ApplyWork(cfg, s, w, a))
    ensures forall i :: 0 <= i < cfg.stages && s.closed[i] && s.queues[i] == [] ==>
            ApplyWork(cfg, s, w, a).queues[i] == []
    ensures ApplyWork(cfg, s, w, a).workers[w].Exited? ==> s.closed[cfg.stageOf[w]] && s.queues[cfg.stageOf[w]] == []
  {
    WorkShape(cfg, s, w, a);
    LosslessSteps(cfg, s, w, a);
    match a {
      case Report =>
      case Receive =>
      case Swap =>
      case Load =>
      case CheckLimit =>
      case Forward =>
      case _ =>
    }
  }

  lemma StepDrained(cfg: Config, s: State, step: Step)
    requires ValidConfig(cfg) && Shape(cfg, s) && Enabled(cfg, s, step) && Channels(cfg, s) && Drained(cfg, s)
    requires !Fatal(step) && SlotsCounted(cfg, s) && LosslessStep(cfg, s, step)
    ensures Shape(cfg, Apply(cfg, s, step)) && Drained(cfg, Apply(cfg, s, step))
  {
    ShapeKept(cfg, s, step);
    StepChannels(cfg, s, step);
    match step {
      case Work(w, a) => WorkDrained(cfg, s, w, a);
      case _ =>
    }
  }
}
