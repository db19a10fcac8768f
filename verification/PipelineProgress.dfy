/** The pipeline never deadlocks. */
module PipelineProgress {
  import opened Netip
  import opened Pipeline
  import opened PipelineSafety
  import opened PipelineFlow
  import opened PipelineRuns
  import opened PipelineMeasure

  // ----- no deadlock -----

  /** While streaming is uncancelled, whoever left had nothing more to read. */
  ghost predicate ExitsInOrder(cfg: Config, s: State)
    requires ValidConfig(cfg) && Shape(cfg, s)
  {
    !cfg.exitOnLimit && !s.cancelled ==> Drained(cfg, s)
  }

  lemma StepExits(cfg: Config, s: State, step: Step)
    requires ValidConfig(cfg) && Shape(cfg, s) && Enabled(cfg, s, step) && Channels(cfg, s) && ExitsInOrder(cfg, s)
    requires SlotsCounted(cfg, s)
    ensures Shape(cfg, Apply(cfg, s, step)) && ExitsInOrder(cfg, Apply(cfg, s, step))
  {
    hide Channels, Drained, SlotsCounted;
    ShapeKept(cfg, s, step);
    CancelSticks(cfg, s, step);
    if !cfg.exitOnLimit && !Apply(cfg, s, step).cancelled {
      StepDrained(cfg, s, step);
    }
  }

  /** Some step other than an outside cancellation is enabled. */
  ghost predicate CanMove(cfg: Config, s: State)
    requires ValidConfig(cfg) && Shape(cfg, s)
  {
    exists t :: Enabled(cfg, s, t) && !t.Cancel?
  }

  lemma Moves(cfg: Config, s: State, t: Step)
    requires ValidConfig(cfg) && Shape(cfg, s) && Enabled(cfg, s, t) && !t.Cancel?
    ensures CanMove(cfg, s)
  {
  }

  /** A worker that holds an address and need not wait. */
  lemma OwnStep(cfg: Config, s: State, w: nat)
    requires ValidConfig(cfg) && Shape(cfg, s) && !s.panicked && w < |s.workers|
    requires !s.workers[w].Idle? && !s.workers[w].Exited? && !s.workers[w].Forwarding?
    ensures CanMove(cfg, s)
  {
    match s.workers[w] {
      case Checking(_) => Moves(cfg, s, Work(w, CheckLimit));
      case Probing(_) => Moves(cfg, s, Work(w, Probe));
      case Claiming(_) => Moves(cfg, s, Work(w, if LimitFor(cfg, cfg.stageOf[w]) == 0 then Add else Load));
      case Loaded(_, _) => Moves(cfg, s, Work(w, Swap));
      case _ => Moves(cfg, s, Work(w, Report));
    }
  }

  lemma WorkerOf(cfg: Config, i: nat) returns (w: nat)
    requires ValidConfig(cfg) && i < cfg.stages
    ensures w < |cfg.stageOf| && cfg.stageOf[w] == i
  {
    assert i in cfg.stageOf;
    w :| w < |cfg.stageOf| && cfg.stageOf[w] == i;
  }

  /** A worker with something to do moves, or the stage it waits for does. */
  lemma {:induction false} BusyMoves(cfg: Config, s: State, w: nat)
    requires ValidConfig(cfg) && Shape(cfg, s) && !s.panicked && Drained(cfg, s)
    requires w < |s.workers| && !s.workers[w].Exited? && (s.workers[w].Idle? ==> s.queues[cfg.stageOf[w]] != [])
    ensures CanMove(cfg, s)
    decreases cfg.stages - cfg.stageOf[w]
  {
    var i := cfg.stageOf[w];
    if s.workers[w].Idle? {
      Moves(cfg, s, Work(w, Receive));
    } else if s.workers[w].Forwarding? {
      if WorkEnabled(cfg, s, w, Forward) {
        Moves(cfg, s, Work(w, Forward));
      } else {
        var v := WorkerOf(cfg, i + 1);
        BusyMoves(cfg, s, v);
      }
    } else {
      OwnStep(cfg, s, w);
    }
  }

  /** After cancellation a worker never waits. */
  lemma CancelledMoves(cfg: Config, s: State, w: nat)
    requires ValidConfig(cfg) && Shape(cfg, s) && !s.panicked && s.cancelled && w < |s.workers| && !s.workers[w].Exited?
    ensures CanMove(cfg, s)
  {
    if s.workers[w].Idle? {
      Moves(cfg, s, Work(w, SeeCancel));
    } else if s.workers[w].Forwarding? {
      Moves(cfg, s, Work(w, if cfg.stageOf[w] + 1 == cfg.stages then Forward else DropForward));
    } else {
      OwnStep(cfg, s, w);
    }
  }

  lemma FirstOpen(closed: seq<bool>) returns (i: nat)
    requires false in closed
    ensures i < |closed| && !closed[i] && forall k :: 0 <= k < i ==> closed[k]
  {
    i := 0;
    while closed[i]
      invariant i < |closed| && forall k :: 0 <= k < i ==> closed[k]
      invariant false in closed[i..]
      decreases |closed| - i
    {
      i := i + 1;
    }
  }

  /** Once the workers of all closed stages have left, the next one closes. */
  lemma DoorMoves(cfg: Config, s: State)
    requires ValidConfig(cfg) && Shape(cfg, s) && Channels(cfg, s) && s.feederDone && !AllDone(s)
    requires forall w :: 0 <= w < |s.workers| && s.closed[cfg.stageOf[w]] ==> s.workers[w].Exited?
    ensures CanMove(cfg, s)
  {
    if false in s.closed {
      var i := FirstOpen(s.closed);
      Moves(cfg, s, CloseStage(i - 1));
    } else {
      assert forall i :: 0 <= i < |s.closed| ==> s.closed[i];
      assert false;
    }
  }

  /** The end the caller waits for: everything closed in a streaming run, all
      workers gone in a batch pool. */
  ghost predicate Finished(cfg: Config, s: State) {
    if cfg.exitOnLimit then AllExited(s) else AllDone(s)
  }

  lemma StreamMoves(cfg: Config, s: State)
    requires ValidConfig(cfg) && Shape(cfg, s) && Channels(cfg, s) && Drained(cfg, s) && !AllDone(s)
    ensures CanMove(cfg, s)
  {
    if w :| 0 <= w < |s.workers| && !s.workers[w].Exited? && (s.workers[w].Idle? ==> s.queues[cfg.stageOf[w]] != []) {
      BusyMoves(cfg, s, w);
    } else if !s.feederDone {
      var v := WorkerOf(cfg, 0);
      Moves(cfg, s, if s.remaining == [] then FeederDone else Feed);
    } else if w :| 0 <= w < |s.workers| && s.workers[w].Idle? && s.closed[cfg.stageOf[w]] {
      Moves(cfg, s, Work(w, SeeClosed));
    } else {
      DoorMoves(cfg, s);
    }
  }

  lemma StoppedMoves(cfg: Config, s: State)
    requires ValidConfig(cfg) && Shape(cfg, s) && Channels(cfg, s) && s.cancelled && !AllDone(s)
    ensures CanMove(cfg, s)
  {
    if w :| 0 <= w < |s.workers| && !s.workers[w].Exited? {
      CancelledMoves(cfg, s, w);
    } else if !s.feederDone {
      Moves(cfg, s, FeederDone);
    } else {
      DoorMoves(cfg, s);
    }
  }

  lemma PoolMoves(cfg: Config, s: State, w: nat)
    requires ValidConfig(cfg) && Shape(cfg, s) && Channels(cfg, s) && cfg.stages == 1
    requires w < |s.workers| && !s.workers[w].Exited?
    ensures CanMove(cfg, s)
  {
    if s.workers[w].Forwarding? {
      Moves(cfg, s, Work(w, Forward));
    } else if !s.workers[w].Idle? {
      OwnStep(cfg, s, w);
    } else if s.queues[0] != [] {
      Moves(cfg, s, Work(w, Receive));
    } else {
      Moves(cfg, s, if s.feederDone then Work(w, SeeClosed) else if s.remaining == [] then FeederDone else Feed);
    }
  }

  lemma {:induction false} RunExits(cfg: Config, s: State, steps: seq<Step>, t: State, before: seq<nat>)
    requires ValidConfig(cfg) && Shape(cfg, s) && |before| == cfg.stages && Inv(cfg, s, before)
    requires ExitsInOrder(cfg, s) && Runs(cfg, s, steps, t)
    ensures Shape(cfg, t) && Inv(cfg, t, before) && ExitsInOrder(cfg, t)
    decreases |steps|
  {
    if steps != [] {
      hide Channels, SlotsCounted, LoadsBelowLimit, SlotsAt, AllProbed, Enabled, Apply, ExitsInOrder;
      StepInv(cfg, s, steps[0], before);
      StepExits(cfg, s, steps[0]);
      RunExits(cfg, Apply(cfg, s, steps[0]), steps[1..], t, before);
    }
  }

  /** In every interleaving, with any worker counts, any capacities, any
      limit and any cancellation point: short of the end some step other than
      an outside cancellation is enabled. */
  lemma NeverStuck(cfg: Config, input: seq<Addr>, before: seq<nat>, steps: seq<Step>, t: State)
    requires ValidConfig(cfg) && |before| == cfg.stages && (cfg.exitOnLimit ==> cfg.stages == 1)
    requires Shape(cfg, Start(cfg, input, before)) && Runs(cfg, Start(cfg, input, before), steps, t)
    requires !Finished(cfg, t)
    ensures Shape(cfg, t) && exists next :: Enabled(cfg, t, next) && !next.Cancel?
  {
    StartInv(cfg, input, before);
    RunExits(cfg, Start(cfg, input, before), steps, t, before);
    hide Channels, Slots, AllProbed, Runs, Start, Enabled, Drained;
    if cfg.exitOnLimit {
      var w :| 0 <= w < |t.workers| && !t.workers[w].Exited?;
      PoolMoves(cfg, t, w);
    } else if t.cancelled {
      StoppedMoves(cfg, t);
    } else {
      StreamMoves(cfg, t);
    }
  }

  /** So a run that cannot be continued has ended, within the measure of its
      start; and every run does stop being continuable. */
  lemma EveryMaximalRunFinishes(cfg: Config, input: seq<Addr>, before: seq<nat>, steps: seq<Step>, t: State)
    requires ValidConfig(cfg) && |before| == cfg.stages && (cfg.exitOnLimit ==> cfg.stages == 1)
    requires Shape(cfg, Start(cfg, input, before)) && Runs(cfg, Start(cfg, input, before), steps, t)
    ensures ValidConfigShape(cfg, Start(cfg, input, before)) && |steps| <= Measure(cfg, Start(cfg, input, before))
    ensures Shape(cfg, t)
    ensures (forall next :: Enabled(cfg, t, next) ==> next.Cancel?) ==> Finished(cfg, t)
  {
    StartInv(cfg, input, before);
    RunsAreFinite(cfg, Start(cfg, input, before), steps, t);
    RunInv(cfg, Start(cfg, input, before), steps, t, before);
    hide Inv, Channels, Runs, Enabled, Start, Measure, Drained, Finished;
    if !Finished(cfg, t) {
      NeverStuck(cfg, input, before, steps, t);
    }
  }
}
