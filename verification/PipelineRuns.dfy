/** The pipeline's guarantees over whole runs. */
module PipelineRuns {
  import opened Arith
  import opened Netip
  import opened Sums
  import opened Pipeline
  import opened PipelineSafety
  import opened PipelineFlow

  ghost predicate Inv(cfg: Config, s: State, before: seq<nat>)
    requires ValidConfig(cfg) && Shape(cfg, s) && |before| == cfg.stages
  {
    Channels(cfg, s) && Slots(cfg, s, before) && AllProbed(cfg, s)
  }

  lemma StartInv(cfg: Config, input: seq<Addr>, before: seq<nat>)
    requires ValidConfig(cfg) && |before| == cfg.stages
    ensures Shape(cfg, Start(cfg, input, before)) && Inv(cfg, Start(cfg, input, before), before)
  {
    StartChannels(cfg, input, before);
    StartSlots(cfg, input, before);
    hide Slots, Channels;
  }

  lemma StepInv(cfg: Config, s: State, step: Step, before: seq<nat>)
    requires ValidConfig(cfg) && Shape(cfg, s) && Enabled(cfg, s, step) && |before| == cfg.stages && Inv(cfg, s, before)
    ensures Shape(cfg, Apply(cfg, s, step)) && Inv(cfg, Apply(cfg, s, step), before)
  {
    hide Channels, Slots, AllProbed, Enabled, Apply;
    StepChannels(cfg, s, step);
    StepSlots(cfg, s, step, before);
    StepProbed(cfg, s, step);
  }

  lemma {:induction false} RunInv(cfg: Config, s: State, steps: seq<Step>, t: State, before: seq<nat>)
    requires ValidConfig(cfg) && Shape(cfg, s) && |before| == cfg.stages && Inv(cfg, s, before)
    requires Runs(cfg, s, steps, t)
    ensures Shape(cfg, t) && Inv(cfg, t, before)
    decreases |steps|
  {
    hide Inv, Enabled, Apply, ValidConfig;
    if steps != [] {
      StepInv(cfg, s, steps[0], before);
      RunInv(cfg, Apply(cfg, s, steps[0]), steps[1..], t, before);
    }
  }

  /** In every interleaving nothing is sent on a closed stage channel. */
  lemma NoSendAfterClose(cfg: Config, input: seq<Addr>, before: seq<nat>, steps: seq<Step>, t: State)
    requires ValidConfig(cfg) && |before| == cfg.stages
    requires Shape(cfg, Start(cfg, input, before)) && Runs(cfg, Start(cfg, input, before), steps, t)
    ensures !t.panicked && Shape(cfg, t) && Channels(cfg, t)
  {
    StartInv(cfg, input, before);
    hide Runs, Slots, AllProbed;
    RunInv(cfg, Start(cfg, input, before), steps, t, before);
  }

  /** In every interleaving, with any cancellation and any number of workers,
      a stage hands out slot numbers before + 1, before + 2, ... once each,
      and with a limit never reports more than the slots left. */
  lemma LimitHonoured(cfg: Config, input: seq<Addr>, before: seq<nat>, steps: seq<Step>, t: State, i: nat)
    requires ValidConfig(cfg) && |before| == cfg.stages && i < cfg.stages
    requires Shape(cfg, Start(cfg, input, before)) && Runs(cfg, Start(cfg, input, before), steps, t)
    ensures Shape(cfg, t)
    ensures t.succeeded[i] == before[i] + |t.claimed[i]|
    ensures forall k :: 0 <= k < |t.claimed[i]| ==> t.claimed[i][k] == before[i] + 1 + k
    ensures before[i] + |t.reported[i]| <= t.succeeded[i]
    ensures LimitFor(cfg, i) > 0 && before[i] <= LimitFor(cfg, i) ==> t.succeeded[i] <= LimitFor(cfg, i)
  {
    StartInv(cfg, input, before);
    hide Runs, Channels, AllProbed, LoadsBelowLimit;
    RunInv(cfg, Start(cfg, input, before), steps, t, before);
    assert SlotsAt(cfg, t, before, i);
  }

  // ----- nothing lost, nothing duplicated -----

  lemma CancelSticks(cfg: Config, s: State, step: Step)
    requires ValidConfig(cfg) && Shape(cfg, s) && Enabled(cfg, s, step)
    ensures s.cancelled ==> Apply(cfg, s, step).cancelled
    ensures Fatal(step) ==> Apply(cfg, s, step).cancelled || cfg.exitOnLimit
  {
    match step {
      case Work(w, a) =>
        WorkFrame(cfg, s, w, a);
      case _ =>
    }
  }

  /** One lossless step keeps every count and the drained exits. */
  lemma StepFlow(cfg: Config, s: State, step: Step, before: seq<nat>, x: Addr, k: nat)
    requires ValidConfig(cfg) && Shape(cfg, s) && Enabled(cfg, s, step) && |before| == cfg.stages && Inv(cfg, s, before)
    requires !Fatal(step) && LosslessStep(cfg, s, step) && Drained(cfg, s) && k < cfg.stages
    ensures Shape(cfg, Apply(cfg, s, step)) && Drained(cfg, Apply(cfg, s, step))
    ensures Total(cfg, Apply(cfg, s, step), x, k) == Total(cfg, s, x, k)
  {
    hide Enabled, Apply, Drained, SlotsAt, SlotsCounted, LoadsBelowLimit, AllProbed, Total, LosslessStep;
    StepInv(cfg, s, step, before);
    StepDrained(cfg, s, step);
    StepTotal(cfg, s, step, x, k);
  }

  /** Of n copies due at stage k, none is lost unless the result list is full. */
  ghost predicate Accounted(cfg: Config, s: State, x: Addr, k: nat, n: nat)
    requires ValidConfig(cfg) && Shape(cfg, s) && k < cfg.stages
  {
    Full(cfg, s) || (Lossless(cfg, s) && Drained(cfg, s) && Total(cfg, s, x, k) == n)
  }

  lemma StepAccounted(cfg: Config, s: State, step: Step, before: seq<nat>, x: Addr, k: nat, n: nat)
    requires ValidConfig(cfg) && Shape(cfg, s) && Enabled(cfg, s, step) && |before| == cfg.stages && Inv(cfg, s, before)
    requires k < cfg.stages && Accounted(cfg, s, x, k, n) && !Disturbs(cfg, s, step)
    ensures Shape(cfg, Apply(cfg, s, step)) && Accounted(cfg, Apply(cfg, s, step), x, k, n)
  {
    hide Enabled, Apply, Drained, SlotsAt, SlotsCounted, LoadsBelowLimit, AllProbed, Channels, Total, Full;
    ShapeKept(cfg, s, step);
    if Full(cfg, s) {
      FullSticks(cfg, s, step);
    } else {
      LossesNeedFull(cfg, s, step);
      if Lossless(cfg, Apply(cfg, s, step)) {
        StepFlow(cfg, s, step, before, x, k);
      }
    }
  }

  /** A run from s that nothing disturbs. */
  ghost predicate Undisturbed(cfg: Config, s: State, steps: seq<Step>)
    requires ValidConfig(cfg) && Shape(cfg, s)
    decreases |steps|
  {
    steps == [] ||
    (Enabled(cfg, s, steps[0]) && !Disturbs(cfg, s, steps[0]) &&
     (ShapeKept(cfg, s, steps[0]);
      Undisturbed(cfg, Apply(cfg, s, steps[0]), steps[1..])))
  }

  lemma {:induction false} RunAccounted(cfg: Config, s: State, steps: seq<Step>, t: State, before: seq<nat>, x: Addr,
                                        k: nat, n: nat)
    requires ValidConfig(cfg) && Shape(cfg, s) && |before| == cfg.stages && Inv(cfg, s, before)
    requires Runs(cfg, s, steps, t)
    requires Undisturbed(cfg, s, steps) && k < cfg.stages && Accounted(cfg, s, x, k, n)
    ensures Shape(cfg, t) && Accounted(cfg, t, x, k, n)
    decreases |steps|
  {
    hide Inv, Enabled, Apply, Accounted, ValidConfig, Disturbs;
    if steps != [] {
      StepInv(cfg, s, steps[0], before);
      StepAccounted(cfg, s, steps[0], before, x, k, n);
      RunAccounted(cfg, Apply(cfg, s, steps[0]), steps[1..], t, before, x, k, n);
    }
  }

  lemma {:induction false} RunNoGain(cfg: Config, s: State, steps: seq<Step>, t: State, before: seq<nat>, x: Addr,
                                     k: nat)
    requires ValidConfig(cfg) && Shape(cfg, s) && |before| == cfg.stages && Inv(cfg, s, before)
    requires Runs(cfg, s, steps, t)
    requires k < cfg.stages
    ensures Shape(cfg, t) && Total(cfg, t, x, k) <= Total(cfg, s, x, k)
    decreases |steps|
  {
    hide Slots, Channels, AllProbed, Enabled, Apply, Total, ValidConfig;
    if steps != [] {
      StepInv(cfg, s, steps[0], before);
      StepNoGain(cfg, s, steps[0], x, k);
      RunNoGain(cfg, Apply(cfg, s, steps[0]), steps[1..], t, before, x, k);
    }
  }

  lemma StartFlow(cfg: Config, input: seq<Addr>, before: seq<nat>, x: Addr, k: nat)
    requires ValidConfig(cfg) && |before| == cfg.stages && k < cfg.stages
    ensures var s := Start(cfg, input, before);
            Shape(cfg, s) && Drained(cfg, s) && Total(cfg, s, x, k) == SeqOwed(cfg, x, k, 0, input)
  {
    var s := Start(cfg, input, before);
    SumZero(QueuesOwed(cfg, x, k, s.queues));
    SumZero(WorkersOwed(cfg, x, k, s.workers));
  }

  /** At the end nothing is owed any more. */
  lemma EndFlow(cfg: Config, t: State, x: Addr, k: nat)
    requires ValidConfig(cfg) && Shape(cfg, t) && Channels(cfg, t) && Drained(cfg, t) && AllExited(t) && k < cfg.stages
    ensures Total(cfg, t, x, k) == multiset(t.reported[k])[x]
  {
    forall i | 0 <= i < cfg.stages ensures t.queues[i] == [] && t.closed[i] {
      assert i in cfg.stageOf;
      var w :| 0 <= w < |cfg.stageOf| && cfg.stageOf[w] == i;
      assert t.workers[w].Exited?;
    }
    SumZero(QueuesOwed(cfg, x, k, t.queues));
    SumZero(WorkersOwed(cfg, x, k, t.workers));
  }

  lemma CountAppend(s: seq<Addr>, y: Addr, x: Addr)
    ensures multiset(s + [y])[x] == multiset(s)[x] + if y == x then 1 else 0
  {
  }

  lemma {:induction false} SurvivorsPass(cfg: Config, input: seq<Addr>, k: nat, x: Addr)
    ensures multiset(Survivors(cfg, input, k))[x] == if Passes(cfg, x, 0, k) then multiset(input)[x] else 0
  {
    hide Passes;
    if input != [] {
      var rest, y := input[..|input| - 1], input[|input| - 1];
      SurvivorsPass(cfg, rest, k, x);
      assert input == rest + [y];
      CountAppend(rest, y, x);
      CountAppend(Survivors(cfg, rest, k), y, x);
      assert Survivors(cfg, input, k) == if Passes(cfg, y, 0, k) then Survivors(cfg, rest, k) + [y]
                                         else Survivors(cfg, rest, k);
    }
  }

  lemma SurvivorCount(cfg: Config, input: seq<Addr>, k: nat, x: Addr)
    ensures multiset(Survivors(cfg, input, k))[x] == SeqOwed(cfg, x, k, 0, input)
  {
    SurvivorsPass(cfg, input, k, x);
    hide Passes, Survivors;
  }

  lemma {:induction false} PassesMeaning(cfg: Config, x: Addr, i: nat, k: nat)
    ensures Passes(cfg, x, i, k) <==> forall j :: i <= j <= k ==> cfg.pred(j, x)
    decreases k + 1 - i
  {
    if i <= k {
      PassesMeaning(cfg, x, i + 1, k);
    }
  }

  /** The survivors are the input's addresses, as often as it holds them, that
      all predicates up to the stage accept. */
  lemma SurvivorsMeaning(cfg: Config, input: seq<Addr>, k: nat, x: Addr)
    ensures multiset(Survivors(cfg, input, k))[x] ==
            if forall j :: 0 <= j <= k ==> cfg.pred(j, x) then multiset(input)[x] else 0
  {
    PassesMeaning(cfg, x, 0, k);
    SurvivorsPass(cfg, input, k, x);
    hide Passes, Survivors;
  }

  /** In every interleaving, whatever is cancelled or fails, a stage never
      succeeds on an address more often than the input holds it, and never on
      one that its predicate or an earlier one rejects. */
  lemma OnlySurvivors(cfg: Config, input: seq<Addr>, before: seq<nat>, steps: seq<Step>, t: State, k: nat)
    requires ValidConfig(cfg) && |before| == cfg.stages && k < cfg.stages
    requires Shape(cfg, Start(cfg, input, before)) && Runs(cfg, Start(cfg, input, before), steps, t)
    ensures Shape(cfg, t) && multiset(t.reported[k]) <= multiset(Survivors(cfg, input, k))
  {
    var s := Start(cfg, input, before);
    StartInv(cfg, input, before);
    RunInv(cfg, s, steps, t, before);
    hide Inv, Runs, SeqOwed, Survivors, QueuesOwed, WorkersOwed, Sum, ValidConfig;
    forall x: Addr ensures multiset(t.reported[k])[x] <= multiset(Survivors(cfg, input, k))[x] {
      StartFlow(cfg, input, before, x, k);
      RunNoGain(cfg, s, steps, t, before, x, k);
      SurvivorCount(cfg, input, k, x);
    }
  }

  /** In every undisturbed interleaving whose workers have all left, each
      stage's successes are exactly the input filtered by its predicate and
      those of all stages before it, none lost and none duplicated, unless the
      last stage has handed out all its result slots. */
  lemma ExactSuccesses(cfg: Config, input: seq<Addr>, before: seq<nat>, steps: seq<Step>, t: State, k: nat)
    requires ValidConfig(cfg) && |before| == cfg.stages && k < cfg.stages
    requires Shape(cfg, Start(cfg, input, before)) && Runs(cfg, Start(cfg, input, before), steps, t)
    requires Undisturbed(cfg, Start(cfg, input, before), steps)
    requires Shape(cfg, t) && AllExited(t) && !Full(cfg, t)
    ensures multiset(t.reported[k]) == multiset(Survivors(cfg, input, k))
  {
    var s := Start(cfg, input, before);
    StartInv(cfg, input, before);
    RunInv(cfg, s, steps, t, before);
    hide Undisturbed, Slots, AllProbed, Channels, Runs, AllExited, Full, Drained, Total, SeqOwed, Survivors;
    forall x: Addr ensures multiset(t.reported[k])[x] == multiset(Survivors(cfg, input, k))[x] {
      StartFlow(cfg, input, before, x, k);
      RunAccounted(cfg, s, steps, t, before, x, k, Total(cfg, s, x, k));
      EndFlow(cfg, t, x, k);
      SurvivorCount(cfg, input, k, x);
    }
  }

  /** Once everybody has left, every claimed slot has been reported. */
  lemma ClaimsReported(cfg: Config, t: State, before: seq<nat>, i: nat)
    requires ValidConfig(cfg) && Shape(cfg, t) && |before| == cfg.stages && Slots(cfg, t, before) && AllExited(t)
    requires i < cfg.stages
    ensures before[i] + |t.reported[i]| == t.succeeded[i]
  {
    assert SlotsAt(cfg, t, before, i);
    SumZero(HoldingAt(cfg, t.workers, i));
  }

  /** With a limit, an undisturbed run ends with exactly as many results as
      there are slots, or as there are addresses that pass every stage. */
  lemma ResultCount(cfg: Config, input: seq<Addr>, before: seq<nat>, steps: seq<Step>, t: State)
    requires ValidConfig(cfg) && |before| == cfg.stages
    requires Shape(cfg, Start(cfg, input, before)) && Runs(cfg, Start(cfg, input, before), steps, t)
    requires Undisturbed(cfg, Start(cfg, input, before), steps)
    requires Shape(cfg, t) && AllExited(t) && before[cfg.stages - 1] <= cfg.limit && cfg.limit > 0
    ensures |t.reported[cfg.stages - 1]| ==
            Min(cfg.limit - before[cfg.stages - 1], |Survivors(cfg, input, cfg.stages - 1)|)
  {
    var last := cfg.stages - 1;
    StartInv(cfg, input, before);
    RunInv(cfg, Start(cfg, input, before), steps, t, before);
    assert SlotsAt(cfg, t, before, last);
    ClaimsReported(cfg, t, before, last);
    OnlySurvivors(cfg, input, before, steps, t, last);
    FewerWhenContained(t.reported[last], Survivors(cfg, input, last));
    hide Runs, Undisturbed, AllExited, Slots, SlotsAt, Survivors;
    if !Full(cfg, t) {
      ExactSuccesses(cfg, input, before, steps, t, last);
      FewerWhenContained(Survivors(cfg, input, last), t.reported[last]);
    }
  }

  lemma FewerWhenContained<T>(a: seq<T>, b: seq<T>)
    requires multiset(a) <= multiset(b)
    ensures |a| <= |b|
  {
    var m := multiset(b) - multiset(a);
    assert multiset(a) + m == multiset(b);
    assert |multiset(a)| == |a| && |multiset(b)| == |b|;
  }
}
