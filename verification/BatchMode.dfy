/** The batch mode: batches go through one worker pool after another. */
module BatchMode {
  import opened Arith
  import opened Netip
  import opened Seqs
  import opened Pipeline
  import opened PipelineSafety
  import opened PipelineFlow
  import opened PipelineRuns
  import opened PipelineLimit

  // ----- cutting the input -----

  method StreamBatches(input: seq<Addr>, size: nat) returns (out: seq<seq<Addr>>)
    requires size > 0
    ensures Concat(out) == input && Sized(out, size)
  {
    hide Concat;
    ConcatNothing<Addr>();
    out := [];
    var batch: seq<Addr> := [];
    for i := 0 to |input|
      invariant Concat(out) + batch == input[..i]
      invariant |batch| < size && forall b :: 0 <= b < |out| ==> |out[b]| == size
    {
      batch := batch + [input[i]];
      assert input[..i + 1] == input[..i] + [input[i]];
      if |batch| == size {
        ConcatMore(out, batch);
        out := out + [batch];
        batch := [];
      }
    }
    assert input[..|input|] == input;
    if |batch| > 0 {
      ConcatMore(out, batch);
      out := out + [batch];
    }
  }

  // ----- one batch -----

  /** A scan plan: the stages of a streaming configuration, one pool each. */
  function Pool(cfg: Config, j: nat): Config
    requires j < cfg.stages
  {
    var crew := Crew(cfg.stageOf, j);
    Config(1, crew, [2 * |crew|], (i: nat, ip: Addr) => cfg.pred(j, ip), LimitFor(cfg, j), true)
  }

  /** The workers of one stage, as the workers of a single pool. */
  function Crew(stageOf: seq<nat>, j: nat): (r: seq<nat>)
    ensures forall w :: 0 <= w < |r| ==> r[w] == 0
    ensures j in stageOf ==> 0 in r
  {
    if stageOf == [] then []
    else Crew(stageOf[1..], j) + (if stageOf[0] == j then [0] else [])
  }

  /** One pool worker for each of the stage's workers. */
  lemma {:induction false} CrewSize(stageOf: seq<nat>, j: nat)
    ensures |Crew(stageOf, j)| == multiset(stageOf)[j]
  {
    if stageOf != [] {
      CrewSize(stageOf[1..], j);
      assert stageOf == [stageOf[0]] + stageOf[1..];
    }
  }

  lemma PoolValid(cfg: Config, j: nat)
    requires ValidConfig(cfg) && j < cfg.stages
    ensures ValidConfig(Pool(cfg, j))
  {
  }

  /** A pool is never cancelled by its own workers. */
  lemma PoolNeverCancels(cfg: Config, j: nat, input: seq<Addr>, used: nat, steps: seq<Step>, t: State)
    requires ValidConfig(cfg) && j < cfg.stages && ValidConfig(Pool(cfg, j))
    requires Shape(Pool(cfg, j), Start(Pool(cfg, j), input, [used]))
    requires Runs(Pool(cfg, j), Start(Pool(cfg, j), input, [used]), steps, t) && Cancel !in steps
    ensures !t.cancelled
  {
    OnlyCancelCancels(Pool(cfg, j), Start(Pool(cfg, j), input, [used]), steps, t);
  }

  /** The last stage has no slots left, so the scan may be stopping. */
  predicate NoSlots(cfg: Config, used: nat) {
    0 < cfg.limit <= used
  }

  /** A calm scan is disturbed only once it has no slots left; another one may
      be cancelled, or end in a fatal write, at any time. */
  predicate Loose(cfg: Config, calm: bool, used: nat) {
    !calm || NoSlots(cfg, used)
  }

  /** One pool run over a batch by the executor that already handed out used
      slots. */
  ghost predicate PoolRun(cfg: Config, input: seq<Addr>, used: nat, loose: bool, steps: seq<Step>, t: State)
    requires ValidConfig(cfg) && cfg.stages == 1
  {
    var s := Start(cfg, input, [used]);
    Runs(cfg, s, steps, t) && Shape(cfg, t) && AllExited(t) && (loose || Undisturbed(cfg, s, steps))
  }

  /** The pool's successes, in any order, and its slot counter afterwards. */
  ghost predicate StageBatch(cfg: Config, j: nat, input: seq<Addr>, used: nat, loose: bool, out: seq<Addr>, after: nat)
    requires ValidConfig(cfg) && j < cfg.stages
  {
    PoolValid(cfg, j);
    exists steps: seq<Step>, t: State :: PoolRun(Pool(cfg, j), input, used, loose, steps, t) &&
      multiset(out) == multiset(t.reported[0]) && after == t.succeeded[0]
  }

  /** What a stage hands on, whatever its counter says; a disturbed pool may
      lose successes on the way. */
  ghost predicate StageOut(cfg: Config, j: nat, input: seq<Addr>, loose: bool, out: seq<Addr>)
    requires ValidConfig(cfg) && j < cfg.stages
  {
    exists used: nat, after: nat, all: seq<Addr> :: StageBatch(cfg, j, input, used, loose, all, after) &&
      multiset(out) <= multiset(all) && (!loose ==> multiset(out) == multiset(all))
  }

  /** A batch from stage j to the end: found is what the last stage reports,
      used and after its slot counter. A disturbed scan may stop before any
      stage. */
  ghost predicate BatchRun(cfg: Config, calm: bool, j: nat, batch: seq<Addr>, used: nat, found: seq<Addr>, after: nat)
    requires ValidConfig(cfg) && j < cfg.stages
    decreases cfg.stages - j
  {
    if batch == [] then found == [] && after == used
    else
      || (Loose(cfg, calm, used) && found == [] && after == used)
      || (if j + 1 == cfg.stages then StageBatch(cfg, j, batch, used, Loose(cfg, calm, used), found, after)
          else
            exists out: seq<Addr> ::
              StageOut(cfg, j, batch, Loose(cfg, calm, used), out) &&
              BatchRun(cfg, calm, j + 1, out, used, found, after))
  }

  /** One batch after those that found f. */
  ghost predicate Followed(cfg: Config, calm: bool, f: seq<Addr>, mid: nat, batch: seq<Addr>, found: seq<Addr>,
                           after: nat)
    requires ValidConfig(cfg)
  {
    exists g: seq<Addr> :: found == f + g && BatchRun(cfg, calm, 0, batch, mid, g, after)
  }

  /** All batches in turn; a disturbed scan finds nothing in those that it does
      not begin. */
  ghost predicate BatchesRun(cfg: Config, calm: bool, batches: seq<seq<Addr>>, used: nat, found: seq<Addr>, after: nat)
    requires ValidConfig(cfg)
  {
    if batches == [] then found == [] && after == used
    else
      var last := batches[|batches| - 1];
      exists mid: nat, f: seq<Addr> :: Followed(cfg, calm, f, mid, last, found, after) &&
        BatchesRun(cfg, calm, batches[..|batches| - 1], used, f, mid)
  }

  // ----- what a batch finds -----

  /** The addresses that pass stages j to the last, in order. */
  function FilterFrom(cfg: Config, j: nat, ys: seq<Addr>): seq<Addr>
    requires cfg.stages > 0
  {
    if ys == [] then []
    else FilterFrom(cfg, j, ys[..|ys| - 1]) +
         (if Passes(cfg, ys[|ys| - 1], j, cfg.stages - 1) then [ys[|ys| - 1]] else [])
  }

  lemma FilterStep(cfg: Config, j: nat, ys: seq<Addr>, y: Addr)
    requires cfg.stages > 0
    ensures FilterFrom(cfg, j, ys + [y])
         == FilterFrom(cfg, j, ys) + (if Passes(cfg, y, j, cfg.stages - 1) then [y] else [])
  {
    hide Passes;
    assert (ys + [y])[..|ys|] == ys;
  }

  lemma {:induction false} FilterCount(cfg: Config, j: nat, ys: seq<Addr>, x: Addr)
    requires j < cfg.stages
    ensures multiset(FilterFrom(cfg, j, ys))[x] == SeqOwed(cfg, x, cfg.stages - 1, j, ys)
  {
    hide Passes, FilterFrom, SeqOwed;
    if ys == [] {
      FilterNone(cfg, j, x);
    } else {
      var n := |ys| - 1;
      FilterCount(cfg, j, ys[..n], x);
      assert ys == ys[..n] + [ys[n]];
      FilterStep(cfg, j, ys[..n], ys[n]);
      SeqOwedAppend(cfg, x, cfg.stages - 1, j, ys[..n], ys[n]);
      CountAppend(FilterFrom(cfg, j, ys[..n]), ys[n], x);
    }
  }

  lemma FilterNone(cfg: Config, j: nat, x: Addr)
    requires j < cfg.stages
    ensures multiset(FilterFrom(cfg, j, []))[x] == 0 == SeqOwed(cfg, x, cfg.stages - 1, j, [])
  {
    hide Passes;
  }

  lemma CountAppend(ys: seq<Addr>, y: Addr, x: Addr)
    ensures multiset(ys + [y])[x] == multiset(ys)[x] + Once(y == x) && multiset(ys + [])[x] == multiset(ys)[x]
  {
    assert ys + [] == ys;
  }

  lemma {:induction false} FilterSurvivors(cfg: Config, ys: seq<Addr>)
    requires cfg.stages > 0
    ensures FilterFrom(cfg, 0, ys) == Survivors(cfg, ys, cfg.stages - 1)
  {
    hide Passes;
    if ys != [] {
      FilterSurvivors(cfg, ys[..|ys| - 1]);
    }
  }

  lemma {:induction false} FilterAppend(cfg: Config, j: nat, a: seq<Addr>, b: seq<Addr>)
    requires cfg.stages > 0
    ensures FilterFrom(cfg, j, a + b) == FilterFrom(cfg, j, a) + FilterFrom(cfg, j, b)
  {
    hide Passes;
    if b == [] {
      assert a + b == a;
    } else {
      var n := |b| - 1;
      assert (a + b)[..|a| + n] == a + b[..n];
      FilterAppend(cfg, j, a, b[..n]);
    }
  }

  /** The pool passes on exactly what its predicate accepts. */
  lemma CalmStage(cfg: Config, j: nat, input: seq<Addr>, used: nat, out: seq<Addr>, after: nat, x: Addr)
    requires ValidConfig(cfg) && j + 1 < cfg.stages && StageBatch(cfg, j, input, used, false, out, after)
    ensures multiset(out)[x] == if cfg.pred(j, x) then multiset(input)[x] else 0
  {
    PoolValid(cfg, j);
    var pool := Pool(cfg, j);
    var steps: seq<Step>, t: State :| PoolRun(pool, input, used, false, steps, t) &&
      multiset(out) == multiset(t.reported[0]) && after == t.succeeded[0];
    hide Runs, Undisturbed, AllExited, ValidConfig;
    ExactSuccesses(pool, input, [used], steps, t, 0);
    SurvivorCount(pool, input, 0, x);
    assert Passes(pool, x, 0, 0) == cfg.pred(j, x);
  }

  lemma PassOn(cfg: Config, j: nat, input: seq<Addr>, out: seq<Addr>)
    requires j + 1 < cfg.stages
    requires forall x: Addr :: multiset(out)[x] == if cfg.pred(j, x) then multiset(input)[x] else 0
    ensures multiset(FilterFrom(cfg, j + 1, out)) == multiset(FilterFrom(cfg, j, input))
  {
    hide FilterFrom;
    forall x: Addr ensures multiset(FilterFrom(cfg, j + 1, out))[x] == multiset(FilterFrom(cfg, j, input))[x] {
      PassOnCount(cfg, j, input, out, x);
    }
  }

  lemma PassOnCount(cfg: Config, j: nat, input: seq<Addr>, out: seq<Addr>, x: Addr)
    requires j + 1 < cfg.stages
    requires multiset(out)[x] == if cfg.pred(j, x) then multiset(input)[x] else 0
    ensures multiset(FilterFrom(cfg, j + 1, out))[x] == multiset(FilterFrom(cfg, j, input))[x]
  {
    hide FilterFrom;
    FilterCount(cfg, j + 1, out, x);
    FilterCount(cfg, j, input, x);
  }

  lemma {:induction false} LastFilter(cfg: Config, pool: Config, ys: seq<Addr>)
    requires cfg.stages > 0 && forall y: Addr :: pool.pred(0, y) == cfg.pred(cfg.stages - 1, y)
    ensures Survivors(pool, ys, 0) == FilterFrom(cfg, cfg.stages - 1, ys)
  {
    if ys != [] {
      LastFilter(cfg, pool, ys[..|ys| - 1]);
      assert Passes(pool, ys[|ys| - 1], 0, 0) == Passes(cfg, ys[|ys| - 1], cfg.stages - 1, cfg.stages - 1);
    }
  }

  /** What a batch must find: of its survivors as many as there are slots, and
      all of them without a limit. */
  ghost predicate Found(cfg: Config, survivors: seq<Addr>, used: nat, found: seq<Addr>, after: nat) {
    && multiset(found) <= multiset(survivors) && after == used + |found|
    && (cfg.limit == 0 ==> multiset(found) == multiset(survivors))
    && (cfg.limit > 0 && used <= cfg.limit ==> |found| == Min(cfg.limit - used, |survivors|))
  }

  lemma SameLength<T>(a: seq<T>, b: seq<T>)
    requires multiset(a) == multiset(b)
    ensures |a| == |b|
  {
    FewerWhenContained(a, b);
    FewerWhenContained(b, a);
  }

  /** Whatever happens: only survivors, each in a slot of its own. */
  ghost predicate Within(cfg: Config, survivors: seq<Addr>, used: nat, found: seq<Addr>, after: nat) {
    multiset(found) <= multiset(survivors) && after == used + |found| && (cfg.limit > 0 ==> after <= cfg.limit)
  }

  lemma LastStageWithin(cfg: Config, input: seq<Addr>, used: nat, loose: bool, found: seq<Addr>, after: nat)
    requires ValidConfig(cfg) && (cfg.limit > 0 ==> used <= cfg.limit)
    requires StageBatch(cfg, cfg.stages - 1, input, used, loose, found, after)
    ensures Within(cfg, FilterFrom(cfg, cfg.stages - 1, input), used, found, after)
  {
    var pool := Pool(cfg, cfg.stages - 1);
    PoolValid(cfg, cfg.stages - 1);
    var steps: seq<Step>, t: State :| PoolRun(pool, input, used, loose, steps, t) &&
      multiset(found) == multiset(t.reported[0]) && after == t.succeeded[0];
    LastFilter(cfg, pool, input);
    hide PoolRun, FilterFrom, Survivors, ValidConfig;
    PoolWithin(pool, input, used, loose, steps, t);
    SameLength(found, t.reported[0]);
  }

  /** A pool under any disturbance. */
  lemma PoolWithin(pool: Config, input: seq<Addr>, used: nat, loose: bool, steps: seq<Step>, t: State)
    requires ValidConfig(pool) && pool.stages == 1 && PoolRun(pool, input, used, loose, steps, t)
    requires pool.limit > 0 ==> used <= pool.limit
    ensures Shape(pool, t) && multiset(t.reported[0]) <= multiset(Survivors(pool, input, 0))
    ensures used + |t.reported[0]| == t.succeeded[0] && (pool.limit > 0 ==> t.succeeded[0] <= pool.limit)
  {
    PoolCounts(pool, input, used, steps, t);
    hide Undisturbed, AllExited, Survivors, Runs;
    OnlySurvivors(pool, input, [used], steps, t, 0);
    LimitHonoured(pool, input, [used], steps, t, 0);
  }

  lemma LastStage(cfg: Config, input: seq<Addr>, used: nat, found: seq<Addr>, after: nat)
    requires ValidConfig(cfg) && (cfg.limit > 0 ==> used < cfg.limit)
    requires StageBatch(cfg, cfg.stages - 1, input, used, false, found, after)
    ensures Found(cfg, FilterFrom(cfg, cfg.stages - 1, input), used, found, after)
  {
    LastStageWithin(cfg, input, used, false, found, after);
    var pool := Pool(cfg, cfg.stages - 1);
    PoolValid(cfg, cfg.stages - 1);
    var steps: seq<Step>, t: State :| PoolRun(pool, input, used, false, steps, t) &&
      multiset(found) == multiset(t.reported[0]) && after == t.succeeded[0];
    LastFilter(cfg, pool, input);
    hide PoolRun, FilterFrom, Survivors, ValidConfig;
    PoolFinds(pool, input, used, steps, t);
    SameLength(found, t.reported[0]);
  }

  /** An undisturbed pool with slots left. */
  lemma PoolFinds(pool: Config, input: seq<Addr>, used: nat, steps: seq<Step>, t: State)
    requires ValidConfig(pool) && pool.stages == 1 && PoolRun(pool, input, used, false, steps, t)
    requires pool.limit > 0 ==> used < pool.limit
    ensures Shape(pool, t)
    ensures pool.limit == 0 ==> multiset(t.reported[0]) == multiset(Survivors(pool, input, 0))
    ensures pool.limit > 0 ==> |t.reported[0]| == Min(pool.limit - used, |Survivors(pool, input, 0)|)
  {
    hide Runs, Undisturbed, AllExited, Survivors;
    if pool.limit == 0 {
      ExactSuccesses(pool, input, [used], steps, t, 0);
    } else {
      ResultCount(pool, input, [used], steps, t);
    }
  }

  lemma PoolCounts(pool: Config, input: seq<Addr>, used: nat, steps: seq<Step>, t: State)
    requires ValidConfig(pool) && pool.stages == 1 && PoolRun(pool, input, used, true, steps, t)
    ensures used + |t.reported[0]| == t.succeeded[0]
  {
    hide Runs, Channels, AllProbed, Slots;
    StartInv(pool, input, [used]);
    RunInv(pool, Start(pool, input, [used]), steps, t, [used]);
    ClaimsReported(pool, t, [used], 0);
  }

  lemma FoundSame(cfg: Config, a: seq<Addr>, b: seq<Addr>, used: nat, found: seq<Addr>, after: nat)
    requires Found(cfg, a, used, found, after) && multiset(a) == multiset(b)
    ensures Found(cfg, b, used, found, after)
  {
    SameLength(a, b);
  }

  /** A stage before the last hands on what is still to be found. */
  lemma CalmPass(cfg: Config, j: nat, batch: seq<Addr>, out: seq<Addr>)
    requires ValidConfig(cfg) && j + 1 < cfg.stages && StageOut(cfg, j, batch, false, out)
    ensures multiset(FilterFrom(cfg, j + 1, out)) == multiset(FilterFrom(cfg, j, batch))
  {
    var used: nat, after: nat, all: seq<Addr> :| StageBatch(cfg, j, batch, used, false, all, after) &&
      multiset(out) == multiset(all);
    hide StageBatch, FilterFrom, ValidConfig;
    forall x: Addr ensures multiset(out)[x] == if cfg.pred(j, x) then multiset(batch)[x] else 0 {
      CalmStage(cfg, j, batch, used, all, after, x);
    }
    PassOn(cfg, j, batch, out);
  }

  /** And never more than that, even when it is disturbed. */
  lemma AnyPass(cfg: Config, j: nat, batch: seq<Addr>, loose: bool, out: seq<Addr>)
    requires ValidConfig(cfg) && j + 1 < cfg.stages && StageOut(cfg, j, batch, loose, out)
    ensures multiset(FilterFrom(cfg, j + 1, out)) <= multiset(FilterFrom(cfg, j, batch))
  {
    var used: nat, after: nat, all: seq<Addr> :| StageBatch(cfg, j, batch, used, loose, all, after) &&
      multiset(out) <= multiset(all);
    hide StageBatch, FilterFrom, ValidConfig;
    forall x: Addr ensures multiset(FilterFrom(cfg, j + 1, out))[x] <= multiset(FilterFrom(cfg, j, batch))[x] {
      AnyStage(cfg, j, batch, used, loose, all, after, x);
      assert multiset(out)[x] <= multiset(all)[x];
      AnyCount(cfg, j, batch, out, x);
    }
  }

  lemma AnyCount(cfg: Config, j: nat, input: seq<Addr>, out: seq<Addr>, x: Addr)
    requires j + 1 < cfg.stages
    requires multiset(out)[x] <= if cfg.pred(j, x) then multiset(input)[x] else 0
    ensures multiset(FilterFrom(cfg, j + 1, out))[x] <= multiset(FilterFrom(cfg, j, input))[x]
  {
    hide FilterFrom;
    FilterCount(cfg, j + 1, out, x);
    FilterCount(cfg, j, input, x);
  }

  lemma AnyStage(cfg: Config, j: nat, input: seq<Addr>, used: nat, loose: bool, out: seq<Addr>, after: nat, x: Addr)
    requires ValidConfig(cfg) && j < cfg.stages && StageBatch(cfg, j, input, used, loose, out, after)
    ensures multiset(out)[x] <= if cfg.pred(j, x) then multiset(input)[x] else 0
  {
    PoolValid(cfg, j);
    var pool := Pool(cfg, j);
    var steps: seq<Step>, t: State :| PoolRun(pool, input, used, loose, steps, t) &&
      multiset(out) == multiset(t.reported[0]) && after == t.succeeded[0];
    hide Runs, Undisturbed, AllExited, ValidConfig;
    OnlySurvivors(pool, input, [used], steps, t, 0);
    SurvivorCount(pool, input, 0, x);
    assert Passes(pool, x, 0, 0) == cfg.pred(j, x);
  }

  lemma EmptyFind(cfg: Config, j: nat, used: nat)
    requires cfg.stages > 0
    ensures Found(cfg, FilterFrom(cfg, j, []), used, [], used)
  {
  }

  lemma NothingLeft(cfg: Config, survivors: seq<Addr>, used: nat)
    requires used == cfg.limit > 0
    ensures Found(cfg, survivors, used, [], used)
  {
  }

  lemma NothingWithin(cfg: Config, survivors: seq<Addr>, used: nat)
    requires cfg.limit > 0 ==> used <= cfg.limit
    ensures Within(cfg, survivors, used, [], used)
  {
  }

  lemma WithinMore(cfg: Config, a: seq<Addr>, b: seq<Addr>, used: nat, found: seq<Addr>, after: nat)
    requires Within(cfg, a, used, found, after) && multiset(a) <= multiset(b)
    ensures Within(cfg, b, used, found, after)
  {
  }

  lemma {:induction false} BatchWithin(cfg: Config, calm: bool, j: nat, batch: seq<Addr>, used: nat, found: seq<Addr>,
                                       after: nat)
    requires ValidConfig(cfg) && j < cfg.stages && (cfg.limit > 0 ==> used <= cfg.limit)
    requires BatchRun(cfg, calm, j, batch, used, found, after)
    ensures Within(cfg, FilterFrom(cfg, j, batch), used, found, after)
    decreases cfg.stages - j
  {
    hide StageBatch, StageOut, FilterFrom, Within, ValidConfig, Loose;
    if found == [] && after == used {
      NothingWithin(cfg, FilterFrom(cfg, j, batch), used);
    } else if j + 1 == cfg.stages {
      LastStageWithin(cfg, batch, used, Loose(cfg, calm, used), found, after);
    } else {
      var out: seq<Addr> :| StageOut(cfg, j, batch, Loose(cfg, calm, used), out) &&
        BatchRun(cfg, calm, j + 1, out, used, found, after);
      AnyPass(cfg, j, batch, Loose(cfg, calm, used), out);
      BatchWithin(cfg, calm, j + 1, out, used, found, after);
      WithinMore(cfg, FilterFrom(cfg, j + 1, out), FilterFrom(cfg, j, batch), used, found, after);
    }
  }

  /** With no slots left a batch finds nothing more. */
  lemma FullBatch(cfg: Config, survivors: seq<Addr>, used: nat, found: seq<Addr>, after: nat)
    requires Within(cfg, survivors, used, found, after) && used == cfg.limit > 0
    ensures found == [] && after == used
  {
  }

  lemma {:induction false} BatchFinds(cfg: Config, j: nat, batch: seq<Addr>, used: nat, found: seq<Addr>, after: nat)
    requires ValidConfig(cfg) && j < cfg.stages && (cfg.limit > 0 ==> used <= cfg.limit)
    requires BatchRun(cfg, true, j, batch, used, found, after)
    ensures Found(cfg, FilterFrom(cfg, j, batch), used, found, after)
    decreases cfg.stages - j
  {
    hide StageBatch, StageOut, FilterFrom, Found, ValidConfig;
    if batch == [] {
      EmptyFind(cfg, j, used);
    } else if NoSlots(cfg, used) {
      BatchWithin(cfg, true, j, batch, used, found, after);
      FullBatch(cfg, FilterFrom(cfg, j, batch), used, found, after);
      NothingLeft(cfg, FilterFrom(cfg, j, batch), used);
    } else if j + 1 == cfg.stages {
      LastStage(cfg, batch, used, found, after);
    } else {
      var out: seq<Addr> :| StageOut(cfg, j, batch, false, out) && BatchRun(cfg, true, j + 1, out, used, found, after);
      CalmPass(cfg, j, batch, out);
      BatchFinds(cfg, j + 1, out, used, found, after);
      FoundSame(cfg, FilterFrom(cfg, j + 1, out), FilterFrom(cfg, j, batch), used, found, after);
    }
  }

  lemma FoundAppend(cfg: Config, a: seq<Addr>, b: seq<Addr>, used: nat, mid: nat, after: nat, f: seq<Addr>,
                    g: seq<Addr>)
    requires Found(cfg, a, used, f, mid) && (cfg.limit > 0 ==> used <= cfg.limit)
    requires Found(cfg, b, mid, g, after)
    ensures Found(cfg, a + b, used, f + g, after) && (cfg.limit > 0 ==> after <= cfg.limit)
  {
    assert multiset(f + g) == multiset(f) + multiset(g);
    assert multiset(a + b) == multiset(a) + multiset(b);
  }

  lemma {:induction false} BatchesFind(cfg: Config, batches: seq<seq<Addr>>, used: nat, found: seq<Addr>, after: nat)
    requires ValidConfig(cfg) && (cfg.limit > 0 ==> used <= cfg.limit)
    requires BatchesRun(cfg, true, batches, used, found, after)
    ensures cfg.stages > 0 && Found(cfg, FilterFrom(cfg, 0, Concat(batches)), used, found, after)
    ensures cfg.limit > 0 ==> after <= cfg.limit
  {
    assert cfg.stages > 0;
    hide BatchRun, ValidConfig, FilterFrom;
    if batches == [] {
      EmptyFind(cfg, 0, used);
    } else {
      hide Found;
      var n := |batches| - 1;
      var mid: nat, f: seq<Addr> :| Followed(cfg, true, f, mid, batches[n], found, after) &&
        BatchesRun(cfg, true, batches[..n], used, f, mid);
      var g: seq<Addr> :| found == f + g && BatchRun(cfg, true, 0, batches[n], mid, g, after);
      hide BatchesRun;
      BatchesFind(cfg, batches[..n], used, f, mid);
      BatchFinds(cfg, 0, batches[n], mid, g, after);
      FoundAppend(cfg, FilterFrom(cfg, 0, Concat(batches[..n])), FilterFrom(cfg, 0, batches[n]), used, mid, after,
                  f, g);
      FilterAppend(cfg, 0, Concat(batches[..n]), batches[n]);
    }
  }

  lemma WithinAppend(cfg: Config, a: seq<Addr>, b: seq<Addr>, used: nat, mid: nat, after: nat, f: seq<Addr>,
                     g: seq<Addr>)
    requires Within(cfg, a, used, f, mid) && Within(cfg, b, mid, g, after)
    ensures Within(cfg, a + b, used, f + g, after)
  {
    assert multiset(f + g) == multiset(f) + multiset(g);
    assert multiset(a + b) == multiset(a) + multiset(b);
  }

  lemma {:induction false} BatchesWithin(cfg: Config, calm: bool, batches: seq<seq<Addr>>, used: nat, found: seq<Addr>,
                                         after: nat)
    requires ValidConfig(cfg) && (cfg.limit > 0 ==> used <= cfg.limit)
    requires BatchesRun(cfg, calm, batches, used, found, after)
    ensures cfg.stages > 0 && Within(cfg, FilterFrom(cfg, 0, Concat(batches)), used, found, after)
  {
    assert cfg.stages > 0;
    hide BatchRun, ValidConfig, FilterFrom, Within;
    if batches == [] {
      NothingWithin(cfg, FilterFrom(cfg, 0, Concat(batches)), used);
    } else {
      var n := |batches| - 1;
      var mid: nat, f: seq<Addr> :| Followed(cfg, calm, f, mid, batches[n], found, after) &&
        BatchesRun(cfg, calm, batches[..n], used, f, mid);
      var g: seq<Addr> :| found == f + g && BatchRun(cfg, calm, 0, batches[n], mid, g, after);
      hide BatchesRun;
      BatchesWithin(cfg, calm, batches[..n], used, f, mid);
      SlotsLeft(cfg, FilterFrom(cfg, 0, Concat(batches[..n])), used, f, mid);
      BatchWithin(cfg, calm, 0, batches[n], mid, g, after);
      WithinAppend(cfg, FilterFrom(cfg, 0, Concat(batches[..n])), FilterFrom(cfg, 0, batches[n]), used, mid, after,
                   f, g);
      FilterAppend(cfg, 0, Concat(batches[..n]), batches[n]);
    }
  }

  lemma SlotsLeft(cfg: Config, survivors: seq<Addr>, used: nat, found: seq<Addr>, after: nat)
    requires Within(cfg, survivors, used, found, after)
    ensures cfg.limit > 0 ==> after <= cfg.limit
  {
  }

  /** For every batch size, every interleaving in the pools and every limit,
      the batch mode finds what the streaming mode finds: the addresses that
      pass all stages, as often as the input holds them; with a limit, as
      many of them as there are slots. */
  lemma BatchModeExact(cfg: Config, input: seq<Addr>, batches: seq<seq<Addr>>, found: seq<Addr>, after: nat)
    requires ValidConfig(cfg) && Concat(batches) == input && BatchesRun(cfg, true, batches, 0, found, after)
    ensures var survivors := Survivors(cfg, input, cfg.stages - 1);
            && multiset(found) <= multiset(survivors)
            && (cfg.limit == 0 ==> multiset(found) == multiset(survivors))
            && (cfg.limit > 0 ==> |found| == Min(cfg.limit, |survivors|))
  {
    BatchesFind(cfg, batches, 0, found, after);
    FilterSurvivors(cfg, input);
  }

  /** Whatever is cancelled or fails, and wherever the reading of the input
      stops: only survivors are found, none more often than the input holds it,
      and with a limit never more than that many. */
  lemma BatchModeWithin(cfg: Config, calm: bool, input: seq<Addr>, batches: seq<seq<Addr>>, found: seq<Addr>,
                        after: nat)
    requires ValidConfig(cfg) && Concat(batches) <= input && BatchesRun(cfg, calm, batches, 0, found, after)
    ensures multiset(found) <= multiset(Survivors(cfg, input, cfg.stages - 1))
    ensures cfg.limit > 0 ==> |found| <= cfg.limit
  {
    BatchesWithin(cfg, calm, batches, 0, found, after);
    hide FilterFrom, Survivors, BatchesRun, ValidConfig;
    FilterPrefix(cfg, Concat(batches), input);
    hide Concat;
    FilterSurvivors(cfg, input);
  }

  lemma FilterPrefix(cfg: Config, read: seq<Addr>, input: seq<Addr>)
    requires cfg.stages > 0 && read <= input
    ensures multiset(FilterFrom(cfg, 0, read)) <= multiset(FilterFrom(cfg, 0, input))
  {
    hide FilterFrom;
    assert input == read + input[|read|..];
    FilterAppend(cfg, 0, read, input[|read|..]);
  }
}
