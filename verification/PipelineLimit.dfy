/** What the result limit does to a run: it ends it, and nothing more is
    probed; and the channels hold no more than their capacity. */
module PipelineLimit {
  import opened Netip
  import opened Sums
  import opened Pipeline
  import opened PipelineSafety
  import opened PipelineFlow
  import opened PipelineRuns

  /** Worker w reports the last result slot. */
  ghost predicate HoldsLast(cfg: Config, s: State, w: nat)
    requires Shape(cfg, s) && w < |s.workers|
  {
    cfg.stageOf[w] + 1 == cfg.stages && s.workers[w].Reporting? && s.workers[w].slot >= cfg.limit
  }

  /** The limit has ended the run, or in batch mode the worker that met it. */
  ghost predicate Ended(cfg: Config, s: State)
    requires Shape(cfg, s)
  {
    if cfg.exitOnLimit then
      exists w :: 0 <= w < |s.workers| && cfg.stageOf[w] + 1 == cfg.stages && s.workers[w].Exited?
    else s.cancelled
  }

  /** Whoever holds the last slot ends the run when it has reported. */
  ghost predicate Answered(cfg: Config, s: State)
    requires ValidConfig(cfg) && Shape(cfg, s)
  {
    Full(cfg, s) ==> Ended(cfg, s) || exists w :: 0 <= w < |s.workers| && HoldsLast(cfg, s, w)
  }

  lemma LastReport(cfg: Config, s: State, w: nat, a: WorkStep)
    requires ValidConfig(cfg) && Shape(cfg, s) && WorkEnabled(cfg, s, w, a)
    requires cfg.limit > 0 && HoldsLast(cfg, s, w)
    ensures Shape(cfg, ApplyWork(cfg, s, w, a)) && Ended(cfg, ApplyWork(cfg, s, w, a))
  {
    WorkShape(cfg, s, w, a);
    hide ValidConfig;
    match a {
      case Report =>
        assert cfg.exitOnLimit ==> ApplyWork(cfg, s, w, a).workers[w].Exited?;
      case FatalWrite =>
        assert cfg.exitOnLimit ==> ApplyWork(cfg, s, w, a).workers[w].Exited?;
      case _ =>
    }
  }

  lemma EndedSticks(cfg: Config, s: State, w: nat, a: WorkStep, r: State)
    requires ValidConfig(cfg) && Shape(cfg, s) && Shape(cfg, r) && w < |s.workers| && Framed(cfg, s, w, a, r)
    requires Ended(cfg, s)
    ensures Ended(cfg, r)
  {
    if cfg.exitOnLimit {
      var v :| 0 <= v < |s.workers| && cfg.stageOf[v] + 1 == cfg.stages && s.workers[v].Exited?;
      assert r.workers[v] == s.workers[v];
    }
  }

  lemma OtherHolds(cfg: Config, s: State, w: nat, a: WorkStep, r: State, v: nat)
    requires ValidConfig(cfg) && Shape(cfg, s) && Shape(cfg, r) && w < |s.workers| && Framed(cfg, s, w, a, r)
    requires v < |s.workers| && v != w && HoldsLast(cfg, s, v)
    ensures HoldsLast(cfg, r, v)
  {
    assert r.workers[v] == s.workers[v];
  }

  lemma WorkAnswered(cfg: Config, s: State, w: nat, a: WorkStep)
    requires ValidConfig(cfg) && Shape(cfg, s) && WorkEnabled(cfg, s, w, a) && Answered(cfg, s)
    ensures Shape(cfg, ApplyWork(cfg, s, w, a)) && Answered(cfg, ApplyWork(cfg, s, w, a))
  {
    var r := ApplyWork(cfg, s, w, a);
    WorkShape(cfg, s, w, a);
    WorkFrame(cfg, s, w, a);
    WorkSlotFrame(cfg, s, w, a);
    if Full(cfg, r) {
      if !Full(cfg, s) {
        WorkCounts(cfg, s, w, a);
        assert HoldsLast(cfg, r, w);
      } else if Ended(cfg, s) {
        EndedSticks(cfg, s, w, a, r);
      } else {
        var v :| 0 <= v < |s.workers| && HoldsLast(cfg, s, v);
        if v == w {
          LastReport(cfg, s, w, a);
        } else {
          OtherHolds(cfg, s, w, a, r, v);
        }
      }
    }
  }

  lemma StepAnswered(cfg: Config, s: State, step: Step)
    requires ValidConfig(cfg) && Shape(cfg, s) && Enabled(cfg, s, step) && Answered(cfg, s)
    ensures Shape(cfg, Apply(cfg, s, step)) && Answered(cfg, Apply(cfg, s, step))
  {
    ShapeKept(cfg, s, step);
    match step {
      case Work(w, a) =>
        WorkAnswered(cfg, s, w, a);
        hide WorkEnabled, ApplyWork, ValidConfig;
      case _ =>
        QuietAnswered(cfg, s, step);
    }
  }

  lemma QuietAnswered(cfg: Config, s: State, step: Step)
    requires ValidConfig(cfg) && Shape(cfg, s) && Enabled(cfg, s, step) && !step.Work? && Answered(cfg, s)
    ensures Shape(cfg, Apply(cfg, s, step)) && Answered(cfg, Apply(cfg, s, step))
  {
    var r := Apply(cfg, s, step);
    assert r.workers == s.workers && r.succeeded == s.succeeded && (s.cancelled ==> r.cancelled);
    hide Apply, Enabled;
    if v :| 0 <= v < |s.workers| && HoldsLast(cfg, s, v) {
      assert HoldsLast(cfg, r, v);
    }
  }

  lemma {:induction false} RunAnswered(cfg: Config, s: State, steps: seq<Step>, t: State)
    requires ValidConfig(cfg) && Shape(cfg, s) && Answered(cfg, s) && Runs(cfg, s, steps, t)
    ensures Shape(cfg, t) && Answered(cfg, t)
    decreases |steps|
  {
    hide Answered, Enabled, Apply, ValidConfig;
    if steps != [] {
      StepAnswered(cfg, s, steps[0]);
      RunAnswered(cfg, Apply(cfg, s, steps[0]), steps[1..], t);
    }
  }

  /** In every interleaving that starts with slots left, once the result of the
      last slot has been reported, the scan is cancelled; in batch mode a worker
      of the last stage has left. */
  lemma LimitEndsRun(cfg: Config, input: seq<Addr>, before: seq<nat>, steps: seq<Step>, t: State)
    requires ValidConfig(cfg) && |before| == cfg.stages && before[cfg.stages - 1] < cfg.limit
    requires Shape(cfg, Start(cfg, input, before)) && Runs(cfg, Start(cfg, input, before), steps, t)
    requires Shape(cfg, t) && before[cfg.stages - 1] + |t.reported[cfg.stages - 1]| == cfg.limit
    ensures !cfg.exitOnLimit ==> t.cancelled
    ensures cfg.exitOnLimit ==>
              exists w :: 0 <= w < |t.workers| && cfg.stageOf[w] + 1 == cfg.stages && t.workers[w].Exited?
  {
    var last := cfg.stages - 1;
    StartInv(cfg, input, before);
    RunInv(cfg, Start(cfg, input, before), steps, t, before);
    RunAnswered(cfg, Start(cfg, input, before), steps, t);
    LimitHonoured(cfg, input, before, steps, t, last);
    assert SlotsAt(cfg, t, before, last);
    hide Runs, Inv, ValidConfig;
    if w :| 0 <= w < |t.workers| && HoldsLast(cfg, t, w) {
      assert HoldingAt(cfg, t.workers, last)[w] == 1;
      SumAtLeast(HoldingAt(cfg, t.workers, last), w);
      assert false;
    }
  }

  lemma SumAtLeast(v: seq<nat>, i: nat)
    requires i < |v|
    ensures Sum(v) >= v[i]
  {
    SumUpdate(v, i, 0);
  }

  // ----- nothing more is probed -----

  /** No worker of the last stage, save those in the set, is probing. */
  ghost predicate OnlyProbing(cfg: Config, s: State, among: set<nat>)
    requires Shape(cfg, s)
  {
    forall w :: 0 <= w < |s.workers| && cfg.stageOf[w] + 1 == cfg.stages && s.workers[w].Probing? ==> w in among
  }

  lemma StepProbing(cfg: Config, s: State, step: Step, among: set<nat>)
    requires ValidConfig(cfg) && Shape(cfg, s) && Enabled(cfg, s, step) && Full(cfg, s) && OnlyProbing(cfg, s, among)
    ensures Shape(cfg, Apply(cfg, s, step)) && OnlyProbing(cfg, Apply(cfg, s, step), among)
  {
    ShapeKept(cfg, s, step);
    match step {
      case Work(w, a) =>
        WorkFrame(cfg, s, w, a);
        NoProbe(cfg, s, w, a);
        hide WorkEnabled, ApplyWork, ValidConfig;
      case _ =>
    }
  }

  lemma NoProbe(cfg: Config, s: State, w: nat, a: WorkStep)
    requires ValidConfig(cfg) && Shape(cfg, s) && WorkEnabled(cfg, s, w, a) && Full(cfg, s)
    ensures |ApplyWork(cfg, s, w, a).workers| == |s.workers|
    ensures cfg.stageOf[w] + 1 == cfg.stages && ApplyWork(cfg, s, w, a).workers[w].Probing? ==> s.workers[w].Probing?
  {
    assert cfg.stageOf[w] < cfg.stages;
    hide ValidConfig;
    match a {
      case Report =>
      case Receive =>
      case Swap =>
      case Load =>
      case CheckLimit =>
      case Forward =>
      case _ =>
    }
  }

  /** Once the slots are gone, for the rest of the run no worker of the last
      stage begins to probe: those probing then are all that ever will be. */
  lemma {:induction false} NoNewProbes(cfg: Config, s: State, steps: seq<Step>, t: State, among: set<nat>)
    requires ValidConfig(cfg) && Shape(cfg, s) && Full(cfg, s) && Runs(cfg, s, steps, t)
    requires forall w :: 0 <= w < |s.workers| && cfg.stageOf[w] + 1 == cfg.stages && s.workers[w].Probing? ==>
               w in among
    ensures Shape(cfg, t)
    ensures forall w :: 0 <= w < |t.workers| && cfg.stageOf[w] + 1 == cfg.stages && t.workers[w].Probing? ==>
              w in among
    decreases |steps|
  {
    hide Full, Enabled, Apply, ValidConfig;
    assert OnlyProbing(cfg, s, among);
    if steps != [] {
      FullSticks(cfg, s, steps[0]);
      StepProbing(cfg, s, steps[0], among);
      NoNewProbes(cfg, Apply(cfg, s, steps[0]), steps[1..], t, among);
    }
  }

  // ----- who cancels -----

  lemma StepCancels(cfg: Config, s: State, step: Step)
    requires ValidConfig(cfg) && Shape(cfg, s) && Enabled(cfg, s, step)
    requires cfg.exitOnLimit && !s.cancelled && !step.Cancel?
    ensures !Apply(cfg, s, step).cancelled
  {
    match step {
      case Work(w, a) => WorkCancels(cfg, s, w, a);
      case _ =>
    }
  }

  lemma WorkCancels(cfg: Config, s: State, w: nat, a: WorkStep)
    requires ValidConfig(cfg) && Shape(cfg, s) && WorkEnabled(cfg, s, w, a) && cfg.exitOnLimit
    ensures ApplyWork(cfg, s, w, a).cancelled == s.cancelled
  {
    assert cfg.stageOf[w] < cfg.stages;
    hide ValidConfig;
    match a {
      case Report =>
      case Receive =>
      case Swap =>
      case Load =>
      case CheckLimit =>
      case Forward =>
      case _ =>
    }
  }

  /** In batch mode no worker cancels the scan, whatever happens to it: only a
      Cancel step does. */
  lemma {:induction false} OnlyCancelCancels(cfg: Config, s: State, steps: seq<Step>, t: State)
    requires ValidConfig(cfg) && Shape(cfg, s) && cfg.exitOnLimit && !s.cancelled && Runs(cfg, s, steps, t)
    requires Cancel !in steps
    ensures !t.cancelled
    decreases |steps|
  {
    hide Enabled, Apply, ValidConfig;
    if steps != [] {
      ShapeKept(cfg, s, steps[0]);
      StepCancels(cfg, s, steps[0]);
      OnlyCancelCancels(cfg, Apply(cfg, s, steps[0]), steps[1..], t);
    }
  }

  // ----- bounded channels -----

  ghost predicate Bounded(cfg: Config, s: State)
    requires ValidConfig(cfg) && Shape(cfg, s)
  {
    forall i :: 0 <= i < cfg.stages ==> |s.queues[i]| <= cfg.caps[i]
  }

  lemma WorkBounded(cfg: Config, s: State, w: nat, a: WorkStep)
    requires ValidConfig(cfg) && Shape(cfg, s) && WorkEnabled(cfg, s, w, a) && Bounded(cfg, s)
    ensures Shape(cfg, ApplyWork(cfg, s, w, a)) && Bounded(cfg, ApplyWork(cfg, s, w, a))
  {
    WorkShape(cfg, s, w, a);
    match a {
      case Report =>
      case Receive =>
      case Swap =>
      case Load =>
      case CheckLimit =>
      case Forward =>
      case _ =>
    }
  }

  /** A channel loses its first address to a worker, which then holds it, or
      gains one at its end, or stays. */
  ghost predicate InOrder(s: State, r: State, i: nat)
    requires i < |s.queues| == |r.queues| && |s.workers| == |r.workers|
  {
    || r.queues[i] == s.queues[i]
    || (exists x :: r.queues[i] == s.queues[i] + [x])
    || (exists w :: 0 <= w < |s.workers| && s.workers[w].Idle? && r.workers[w].Checking? &&
                    s.queues[i] == [r.workers[w].ip] + r.queues[i])
  }

  /** Channels are first in, first out. */
  lemma WorkInOrder(cfg: Config, s: State, w: nat, a: WorkStep, i: nat)
    requires ValidConfig(cfg) && Shape(cfg, s) && WorkEnabled(cfg, s, w, a) && i < cfg.stages
    ensures Shape(cfg, ApplyWork(cfg, s, w, a)) && InOrder(s, ApplyWork(cfg, s, w, a), i)
  {
    WorkShape(cfg, s, w, a);
    var r := ApplyWork(cfg, s, w, a);
    if a.Receive? {
      assert s.queues[cfg.stageOf[w]] == [r.workers[w].ip] + r.queues[cfg.stageOf[w]];
    } else if a.Forward? {
      assert r.queues[i] == s.queues[i] || r.queues[i] == s.queues[i] + [s.workers[w].ip];
    } else {
      SameQueues(cfg, s, w, a);
    }
  }

  lemma SameQueues(cfg: Config, s: State, w: nat, a: WorkStep)
    requires ValidConfig(cfg) && Shape(cfg, s) && WorkEnabled(cfg, s, w, a) && !a.Receive? && !a.Forward?
    ensures ApplyWork(cfg, s, w, a).queues == s.queues
  {
    assert cfg.stageOf[w] < cfg.stages;
    hide ValidConfig;
    match a {
      case Report =>
      case Swap =>
      case Load =>
      case CheckLimit =>
      case _ =>
    }
  }

  lemma StepInOrder(cfg: Config, s: State, step: Step, i: nat)
    requires ValidConfig(cfg) && Shape(cfg, s) && Enabled(cfg, s, step) && i < cfg.stages
    ensures Shape(cfg, Apply(cfg, s, step)) && InOrder(s, Apply(cfg, s, step), i)
  {
    ShapeKept(cfg, s, step);
    match step {
      case Work(w, a) =>
        WorkInOrder(cfg, s, w, a, i);
        hide WorkEnabled, ApplyWork;
      case _ =>
    }
  }

  lemma StepBounded(cfg: Config, s: State, step: Step)
    requires ValidConfig(cfg) && Shape(cfg, s) && Enabled(cfg, s, step) && Bounded(cfg, s)
    ensures Shape(cfg, Apply(cfg, s, step)) && Bounded(cfg, Apply(cfg, s, step))
  {
    ShapeKept(cfg, s, step);
    match step {
      case Work(w, a) =>
        WorkBounded(cfg, s, w, a);
        hide WorkEnabled, ApplyWork;
      case _ =>
    }
  }

  lemma {:induction false} RunBounded(cfg: Config, s: State, steps: seq<Step>, t: State)
    requires ValidConfig(cfg) && Shape(cfg, s) && Bounded(cfg, s) && Runs(cfg, s, steps, t)
    ensures Shape(cfg, t) && Bounded(cfg, t)
    decreases |steps|
  {
    hide Bounded, Enabled, Apply, ValidConfig;
    if steps != [] {
      StepBounded(cfg, s, steps[0]);
      RunBounded(cfg, Apply(cfg, s, steps[0]), steps[1..], t);
    }
  }

  /** In every interleaving no channel holds more than its capacity. */
  lemma ChannelsBounded(cfg: Config, input: seq<Addr>, before: seq<nat>, steps: seq<Step>, t: State, i: nat)
    requires ValidConfig(cfg) && |before| == cfg.stages && i < cfg.stages
    requires Shape(cfg, Start(cfg, input, before)) && Runs(cfg, Start(cfg, input, before), steps, t)
    ensures Shape(cfg, t) && |t.queues[i]| <= cfg.caps[i]
  {
    RunBounded(cfg, Start(cfg, input, before), steps, t);
  }
}
