/** What every interleaving of the pipeline keeps: channels, result slots and
    the addresses themselves. */
module PipelineSafety {
  import opened Netip
  import opened Sums
  import opened Pipeline

  // ----- channels -----

  /** A stage's output channel is closed only after all its workers left. */
  ghost predicate Channels(cfg: Config, s: State)
    requires ValidConfig(cfg) && Shape(cfg, s)
  {
    && !s.panicked
    && (s.closed[0] <==> s.feederDone)
    && forall w :: 0 <= w < |s.workers| && cfg.stageOf[w] + 1 < cfg.stages && s.closed[cfg.stageOf[w] + 1] ==>
         s.workers[w].Exited?
  }

  lemma StartChannels(cfg: Config, input: seq<Addr>, before: seq<nat>)
    requires ValidConfig(cfg) && |before| == cfg.stages
    ensures Shape(cfg, Start(cfg, input, before)) && Channels(cfg, Start(cfg, input, before))
  {
  }

  /** A worker step changes one worker, never a left one, and closes nothing. */
  ghost predicate Framed(cfg: Config, s: State, w: nat, a: WorkStep, r: State)
    requires ValidConfig(cfg) && Shape(cfg, s) && w < |s.workers|
  {
    && r.closed == s.closed && r.feederDone == s.feederDone && r.remaining == s.remaining
    && |r.workers| == |s.workers| && r.workers == s.workers[w := r.workers[w]]
    && !s.workers[w].Exited?
    && (s.cancelled ==> r.cancelled)
    && (a.FatalWrite? ==> r.cancelled || cfg.exitOnLimit)
    && (r.panicked ==> s.panicked || (a.Forward? && cfg.stageOf[w] + 1 < cfg.stages && s.closed[cfg.stageOf[w] + 1]))
  }

  /** Steps before the success is known. */
  predicate Early(a: WorkStep) {
    a.Receive? || a.SeeClosed? || a.SeeCancel? || a.CheckLimit? || a.Probe? || a.AbortProbe?
  }

  lemma EarlyFrame(cfg: Config, s: State, w: nat, a: WorkStep)
    requires ValidConfig(cfg) && Shape(cfg, s) && WorkEnabled(cfg, s, w, a) && Early(a)
    ensures Framed(cfg, s, w, a, ApplyWork(cfg, s, w, a))
  {
    match a {
      case Receive =>
      case CheckLimit =>
      case _ =>
    }
  }

  lemma ClaimFrame(cfg: Config, s: State, w: nat, a: WorkStep)
    requires ValidConfig(cfg) && Shape(cfg, s) && WorkEnabled(cfg, s, w, a) && (a.Add? || a.Load? || a.Swap?)
    ensures Framed(cfg, s, w, a, ApplyWork(cfg, s, w, a))
  {
    match a {
      case Swap =>
      case Load =>
      case _ =>
    }
  }

  lemma LateFrame(cfg: Config, s: State, w: nat, a: WorkStep)
    requires ValidConfig(cfg) && Shape(cfg, s) && WorkEnabled(cfg, s, w, a)
    requires a.Report? || a.FatalWrite? || a.Forward? || a.DropForward?
    ensures Framed(cfg, s, w, a, ApplyWork(cfg, s, w, a))
  {
    match a {
      case Report =>
      case Forward =>
      case _ =>
    }
  }

  lemma WorkFrame(cfg: Config, s: State, w: nat, a: WorkStep)
    requires ValidConfig(cfg) && Shape(cfg, s) && WorkEnabled(cfg, s, w, a)
    ensures Framed(cfg, s, w, a, ApplyWork(cfg, s, w, a))
  {
    hide WorkEnabled, ApplyWork, Framed;
    if Early(a) {
      EarlyFrame(cfg, s, w, a);
    } else if a.Add? || a.Load? || a.Swap? {
      ClaimFrame(cfg, s, w, a);
    } else {
      LateFrame(cfg, s, w, a);
    }
  }

  lemma StepChannels(cfg: Config, s: State, t: Step)
    requires ValidConfig(cfg) && Shape(cfg, s) && Enabled(cfg, s, t) && Channels(cfg, s)
    ensures Shape(cfg, Apply(cfg, s, t)) && Channels(cfg, Apply(cfg, s, t))
  {
    ShapeKept(cfg, s, t);
    match t {
      case Work(w, a) =>
        WorkFrame(cfg, s, w, a);
        hide WorkEnabled, ApplyWork, ValidConfig;
      case _ =>
    }
  }

  // ----- result slots -----

  /** Per worker, one if it holds a slot it has not reported yet. */
  function HoldingAt(cfg: Config, ws: seq<Pc>, i: nat): (v: seq<nat>)
    requires |ws| == |cfg.stageOf|
    ensures |v| == |ws|
  {
    seq(|ws|, w requires 0 <= w < |ws| => if cfg.stageOf[w] == i && ws[w].Reporting? then 1 else 0)
  }

  /** The slots claimed at stage i are before + 1, before + 2, ... in order,
      each once; each is reported or about to be. */
  ghost predicate SlotsAt(cfg: Config, s: State, before: seq<nat>, i: nat)
    requires Shape(cfg, s) && |before| == cfg.stages && i < cfg.stages
  {
    && s.succeeded[i] == before[i] + |s.claimed[i]|
    && (forall k :: 0 <= k < |s.claimed[i]| ==> s.claimed[i][k] == before[i] + 1 + k)
    && (LimitFor(cfg, i) > 0 && before[i] <= LimitFor(cfg, i) ==> s.succeeded[i] <= LimitFor(cfg, i))
    && |s.reported[i]| + Sum(HoldingAt(cfg, s.workers, i)) == |s.claimed[i]|
  }

  ghost predicate LoadsBelowLimit(cfg: Config, s: State)
    requires Shape(cfg, s)
  {
    forall w :: 0 <= w < |s.workers| && s.workers[w].Loaded? ==> s.workers[w].cur < LimitFor(cfg, cfg.stageOf[w])
  }

  /** A held slot has been counted. */
  ghost predicate SlotsCounted(cfg: Config, s: State)
    requires ValidConfig(cfg) && Shape(cfg, s)
  {
    forall w :: 0 <= w < |s.workers| && s.workers[w].Reporting? ==> s.workers[w].slot <= s.succeeded[cfg.stageOf[w]]
  }

  ghost predicate Slots(cfg: Config, s: State, before: seq<nat>)
    requires ValidConfig(cfg) && Shape(cfg, s) && |before| == cfg.stages
  {
    LoadsBelowLimit(cfg, s) && SlotsCounted(cfg, s) && forall i :: 0 <= i < cfg.stages ==> SlotsAt(cfg, s, before, i)
  }

  lemma StartSlots(cfg: Config, input: seq<Addr>, before: seq<nat>)
    requires ValidConfig(cfg) && |before| == cfg.stages
    ensures Shape(cfg, Start(cfg, input, before)) && Slots(cfg, Start(cfg, input, before), before)
  {
    forall i | 0 <= i < cfg.stages ensures SlotsAt(cfg, Start(cfg, input, before), before, i) {
      SumZero(HoldingAt(cfg, Start(cfg, input, before).workers, i));
    }
  }

  lemma HoldingUpdate(cfg: Config, ws: seq<Pc>, w: nat, pc: Pc, i: nat)
    requires |ws| == |cfg.stageOf| && w < |ws|
    ensures Sum(HoldingAt(cfg, ws[w := pc], i)) + (if cfg.stageOf[w] == i && ws[w].Reporting? then 1 else 0)
         == Sum(HoldingAt(cfg, ws, i)) + (if cfg.stageOf[w] == i && pc.Reporting? then 1 else 0)
  {
    var v := if cfg.stageOf[w] == i && pc.Reporting? then 1 else 0;
    assert HoldingAt(cfg, ws[w := pc], i) == HoldingAt(cfg, ws, i)[w := v];
    SumUpdate(HoldingAt(cfg, ws, i), w, v);
  }

  predicate Reports(a: WorkStep) {
    a.Report? || a.FatalWrite?
  }

  /** Whether worker w's step claims a slot. */
  ghost predicate Claims(cfg: Config, s: State, w: nat, a: WorkStep)
    requires Shape(cfg, s) && w < |s.workers| && cfg.stageOf[w] < cfg.stages
  {
    a.Add? || (a.Swap? && s.workers[w].Loaded? && s.succeeded[cfg.stageOf[w]] == s.workers[w].cur)
  }

  /** What one worker step does to the slots of its own stage. */
  lemma WorkSlotFrame(cfg: Config, s: State, w: nat, a: WorkStep)
    requires ValidConfig(cfg) && Shape(cfg, s) && WorkEnabled(cfg, s, w, a)
    ensures var r, i := ApplyWork(cfg, s, w, a), cfg.stageOf[w];
            && r.succeeded == (if Claims(cfg, s, w, a) then s.succeeded[i := s.succeeded[i] + 1] else s.succeeded)
            && r.claimed ==
               (if Claims(cfg, s, w, a) then s.claimed[i := s.claimed[i] + [s.succeeded[i] + 1]] else s.claimed)
            && r.reported == (if Reports(a) then s.reported[i := s.reported[i] + [s.workers[w].ip]] else s.reported)
  {
    assert cfg.stageOf[w] < cfg.stages;
    hide ValidConfig;
    match a {
      case Report =>
      case Receive =>
      case Swap =>
      case Load =>
      case CheckLimit =>
      case Forward =>
      case _ =>
    }
  }

  /** A worker holds a slot exactly from its claim to its report. */
  lemma WorkHolds(cfg: Config, s: State, w: nat, a: WorkStep)
    requires ValidConfig(cfg) && Shape(cfg, s) && WorkEnabled(cfg, s, w, a) && !ApplyWork(cfg, s, w, a).panicked
    ensures |ApplyWork(cfg, s, w, a).workers| == |s.workers|
    ensures ApplyWork(cfg, s, w, a).workers[w].Reporting? <==> Claims(cfg, s, w, a)
    ensures s.workers[w].Reporting? <==> Reports(a)
  {
    assert cfg.stageOf[w] < cfg.stages;
    hide ValidConfig;
    match a {
      case Report =>
      case Receive =>
      case Swap =>
      case Load =>
      case CheckLimit =>
      case Forward =>
      case _ =>
    }
  }

  /** Only values below the limit are loaded, so no claim passes it. */
  lemma WorkLoads(cfg: Config, s: State, w: nat, a: WorkStep)
    requires ValidConfig(cfg) && Shape(cfg, s) && WorkEnabled(cfg, s, w, a)
    requires s.workers[w].Loaded? ==> s.workers[w].cur < LimitFor(cfg, cfg.stageOf[w])
    requires !ApplyWork(cfg, s, w, a).panicked
    ensures |ApplyWork(cfg, s, w, a).workers| == |s.workers|
    ensures var pc := ApplyWork(cfg, s, w, a).workers[w]; pc.Loaded? ==> pc.cur < LimitFor(cfg, cfg.stageOf[w])
    ensures Claims(cfg, s, w, a) ==>
              LimitFor(cfg, cfg.stageOf[w]) == 0 || s.succeeded[cfg.stageOf[w]] < LimitFor(cfg, cfg.stageOf[w])
  {
    assert cfg.stageOf[w] < cfg.stages;
    hide ValidConfig;
    match a {
      case Report =>
      case Receive =>
      case Swap =>
      case Load =>
      case CheckLimit =>
      case Forward =>
      case _ =>
    }
  }

  lemma WorkCounts(cfg: Config, s: State, w: nat, a: WorkStep)
    requires ValidConfig(cfg) && Shape(cfg, s) && WorkEnabled(cfg, s, w, a) && Claims(cfg, s, w, a)
    ensures |ApplyWork(cfg, s, w, a).workers| == |s.workers| && ApplyWork(cfg, s, w, a).workers[w].Reporting?
    ensures ApplyWork(cfg, s, w, a).workers[w].slot == s.succeeded[cfg.stageOf[w]] + 1
  {
  }

  lemma WorkSlots(cfg: Config, s: State, w: nat, a: WorkStep, before: seq<nat>)
    requires ValidConfig(cfg) && Shape(cfg, s) && WorkEnabled(cfg, s, w, a)
    requires |before| == cfg.stages && Slots(cfg, s, before)
    requires !ApplyWork(cfg, s, w, a).panicked
    ensures Shape(cfg, ApplyWork(cfg, s, w, a)) && Slots(cfg, ApplyWork(cfg, s, w, a), before)
  {
    WorkShape(cfg, s, w, a);
    WorkFrame(cfg, s, w, a);
    WorkSlotFrame(cfg, s, w, a);
    WorkHolds(cfg, s, w, a);
    WorkLoads(cfg, s, w, a);
    if Claims(cfg, s, w, a) {
      WorkCounts(cfg, s, w, a);
    }
    var r := ApplyWork(cfg, s, w, a);
    hide ApplyWork, WorkEnabled, Claims, Reports;
    forall i | 0 <= i < cfg.stages ensures SlotsAt(cfg, r, before, i) {
      assert SlotsAt(cfg, s, before, i);
      HoldingUpdate(cfg, s.workers, w, r.workers[w], i);
    }
  }

  lemma StepSlots(cfg: Config, s: State, t: Step, before: seq<nat>)
    requires ValidConfig(cfg) && Shape(cfg, s) && Enabled(cfg, s, t) && Channels(cfg, s)
    requires |before| == cfg.stages && Slots(cfg, s, before)
    ensures Shape(cfg, Apply(cfg, s, t)) && Slots(cfg, Apply(cfg, s, t), before)
  {
    ShapeKept(cfg, s, t);
    StepChannels(cfg, s, t);
    match t {
      case Work(w, a) =>
        WorkSlots(cfg, s, w, a, before);
      case _ =>
        var r := Apply(cfg, s, t);
        hide Apply, Enabled;
        forall i | 0 <= i < cfg.stages ensures SlotsAt(cfg, r, before, i) {
          assert SlotsAt(cfg, s, before, i);
        }
    }
  }
}
