/** The scan pipeline as interleaved steps: a feeder, pools of workers joined
    by bounded channels, cancellation, and result slots claimed by load and
    compare-and-swap. With one stage it is the pool that the sequential and
    the batch mode run. */
module Pipeline {
  import opened Netip

  /** stageOf gives each worker's stage, caps the capacity of each stage's
      input channel. Only the last stage has a result limit (0 means none).
      exitOnLimit is the batch mode's reaction to the limit and to a fatal
      write: the worker leaves with an error, and whether the pool's watcher
      then cancels the scan is left to a Cancel step; in the other modes the
      worker itself cancels the scan. */
  datatype Config = Config(
    stages: nat,
    stageOf: seq<nat>,
    caps: seq<nat>,
    pred: (nat, Addr) -> bool,
    limit: nat,
    exitOnLimit: bool)

  ghost predicate ValidConfig(cfg: Config) {
    && cfg.stages > 0 && |cfg.caps| == cfg.stages
    && (forall i :: 0 <= i < cfg.stages ==> cfg.caps[i] > 0)
    && (forall w :: 0 <= w < |cfg.stageOf| ==> cfg.stageOf[w] < cfg.stages)
    && (forall i :: 0 <= i < cfg.stages ==> i in cfg.stageOf)
  }

  function LimitFor(cfg: Config, i: nat): nat {
    if i + 1 == cfg.stages then cfg.limit else 0
  }

  /** Where one worker stands. */
  datatype Pc =
    | Idle
    | Checking(ip: Addr)
    | Probing(ip: Addr)
    | Claiming(ip: Addr)
    | Loaded(ip: Addr, cur: nat)
    | Reporting(ip: Addr, slot: nat)
    | Forwarding(ip: Addr)
    | Exited

  datatype State = State(
    remaining: seq<Addr>,
    feederDone: bool,
    queues: seq<seq<Addr>>,
    closed: seq<bool>,
    workers: seq<Pc>,
    succeeded: seq<nat>,
    claimed: seq<seq<nat>>,
    reported: seq<seq<Addr>>,
    cancelled: bool,
    panicked: bool)

  /** One atomic step of a worker. */
  datatype WorkStep =
    | Receive
    | SeeClosed
    | SeeCancel
    | CheckLimit
    | Probe
    | AbortProbe
    | Add
    | Load
    | Swap
    | Report
    | FatalWrite
    | Forward
    | DropForward

  datatype Step = Feed | FeederDone | CloseStage(i: nat) | Cancel | Work(w: nat, a: WorkStep)

  /** The start of a run; before says how many slots earlier runs of the same
      executors already claimed. */
  function Start(cfg: Config, input: seq<Addr>, before: seq<nat>): State {
    State(input, false, seq(cfg.stages, i => []), seq(cfg.stages, i => false), seq(|cfg.stageOf|, w => Idle),
          before, seq(cfg.stages, i => []), seq(cfg.stages, i => []), false, false)
  }

  /** One entry per stage and per worker. */
  ghost predicate Shape(cfg: Config, s: State) {
    && |s.queues| == |s.closed| == |s.succeeded| == |s.claimed| == |s.reported| == cfg.stages
    && |s.workers| == |cfg.stageOf|
  }

  ghost predicate WorkEnabled(cfg: Config, s: State, w: nat, a: WorkStep)
    requires ValidConfig(cfg) && Shape(cfg, s)
  {
    w < |s.workers| &&
    var i, pc := cfg.stageOf[w], s.workers[w];
    match a
    case Receive => pc.Idle? && s.queues[i] != []
    case SeeClosed => pc.Idle? && s.queues[i] == [] && s.closed[i]
    case SeeCancel => pc.Idle? && s.cancelled
    case CheckLimit => pc.Checking?
    case Probe => pc.Probing?
    case AbortProbe => pc.Probing? && s.cancelled
    case Add => pc.Claiming? && LimitFor(cfg, i) == 0
    case Load => pc.Claiming? && LimitFor(cfg, i) > 0
    case Swap => pc.Loaded?
    case Report => pc.Reporting?
    case FatalWrite => pc.Reporting?
    case Forward => pc.Forwarding? && (i + 1 == cfg.stages || s.closed[i + 1] || |s.queues[i + 1]| < cfg.caps[i + 1])
    case DropForward => pc.Forwarding? && i + 1 < cfg.stages && s.cancelled
  }

  ghost predicate Enabled(cfg: Config, s: State, t: Step)
    requires ValidConfig(cfg) && Shape(cfg, s)
  {
    !s.panicked &&
    match t
    case Feed => !s.feederDone && s.remaining != [] && |s.queues[0]| < cfg.caps[0]
    case FeederDone => !s.feederDone && (s.remaining == [] || s.cancelled)
    case CloseStage(i) =>
      && i + 1 < cfg.stages && !s.closed[i + 1] && (i == 0 ==> s.feederDone)
      && forall w :: 0 <= w < |s.workers| && cfg.stageOf[w] == i ==> s.workers[w].Exited?
    case Cancel => !s.cancelled
    case Work(w, a) => WorkEnabled(cfg, s, w, a)
  }

  function SetPc(s: State, w: nat, pc: Pc): State
    requires w < |s.workers|
  {
    s.(workers := s.workers[w := pc])
  }

  /** The result limit was met at worker w. */
  function LimitMet(cfg: Config, s: State, w: nat): State
    requires w < |s.workers|
  {
    if cfg.exitOnLimit then SetPc(s, w, Exited) else SetPc(s, w, Idle).(cancelled := true)
  }

  function Claim(s: State, w: nat, i: nat, ip: Addr): State
    requires w < |s.workers| && i < |s.succeeded| == |s.claimed|
  {
    var n := s.succeeded[i] + 1;
    SetPc(s, w, Reporting(ip, n)).(succeeded := s.succeeded[i := n], claimed := s.claimed[i := s.claimed[i] + [n]])
  }

  /** The success hook and the writer see the address once. */
  function Reported(s: State, i: nat, ip: Addr): State
    requires i < |s.reported|
  {
    s.(reported := s.reported[i := s.reported[i] + [ip]])
  }

  ghost function ApplyWork(cfg: Config, s: State, w: nat, a: WorkStep): State
    requires ValidConfig(cfg) && Shape(cfg, s) && WorkEnabled(cfg, s, w, a)
  {
    var i, pc := cfg.stageOf[w], s.workers[w];
    match a
    case Receive => SetPc(s, w, Checking(s.queues[i][0])).(queues := s.queues[i := s.queues[i][1..]])
    case SeeClosed => SetPc(s, w, Exited)
    case SeeCancel => SetPc(s, w, Exited)
    case CheckLimit =>
      if LimitFor(cfg, i) > 0 && s.succeeded[i] >= LimitFor(cfg, i) then LimitMet(cfg, s, w)
      else SetPc(s, w, Probing(pc.ip))
    case Probe => SetPc(s, w, if cfg.pred(i, pc.ip) then Claiming(pc.ip) else Idle)
    case AbortProbe => SetPc(s, w, Idle)
    case Add => Claim(s, w, i, pc.ip)
    case Load =>
      if s.succeeded[i] >= LimitFor(cfg, i) then LimitMet(cfg, s, w)
      else SetPc(s, w, Loaded(pc.ip, s.succeeded[i]))
    case Swap => if s.succeeded[i] == pc.cur then Claim(s, w, i, pc.ip) else SetPc(s, w, Claiming(pc.ip))
    case Report =>
      var r := Reported(s, i, pc.ip);
      if LimitFor(cfg, i) > 0 && pc.slot >= LimitFor(cfg, i) then LimitMet(cfg, r, w)
      else SetPc(r, w, Forwarding(pc.ip))
    case FatalWrite => SetPc(Reported(s, i, pc.ip), w, Exited).(cancelled := s.cancelled || !cfg.exitOnLimit)
    case Forward =>
      if i + 1 == cfg.stages then SetPc(s, w, Idle)
      else if s.closed[i + 1] then s.(panicked := true)
      else SetPc(s, w, Idle).(queues := s.queues[i + 1 := s.queues[i + 1] + [pc.ip]])
    case DropForward => SetPc(s, w, Idle)
  }

  /** The state one step leads to. */
  ghost function Apply(cfg: Config, s: State, t: Step): State
    requires ValidConfig(cfg) && Shape(cfg, s) && Enabled(cfg, s, t)
  {
    match t
    case Feed => s.(remaining := s.remaining[1..], queues := s.queues[0 := s.queues[0] + [s.remaining[0]]])
    case FeederDone => s.(feederDone := true, closed := s.closed[0 := true])
    case CloseStage(i) => s.(closed := s.closed[i + 1 := true])
    case Cancel => s.(cancelled := true)
    case Work(w, a) => ApplyWork(cfg, s, w, a)
  }

  lemma ShapeKept(cfg: Config, s: State, t: Step)
    requires ValidConfig(cfg) && Shape(cfg, s) && Enabled(cfg, s, t)
    ensures Shape(cfg, Apply(cfg, s, t))
  {
    match t {
      case Work(w, a) => WorkShape(cfg, s, w, a);
      case _ =>
    }
  }

  lemma WorkShape(cfg: Config, s: State, w: nat, a: WorkStep)
    requires ValidConfig(cfg) && Shape(cfg, s) && WorkEnabled(cfg, s, w, a)
    ensures Shape(cfg, ApplyWork(cfg, s, w, a))
  {
    assert cfg.stageOf[w] < cfg.stages;
    hide ValidConfig;
    match a {
      case Report =>
      case Receive =>
      case Swap =>
      case Load =>
      case CheckLimit =>
      case _ =>
    }
  }

  /** Every interleaving: a list of steps, each enabled where it is taken. */
  ghost predicate Runs(cfg: Config, s: State, steps: seq<Step>, t: State)
    requires ValidConfig(cfg) && Shape(cfg, s)
    decreases |steps|
  {
    if steps == [] then t == s
    else
      Enabled(cfg, s, steps[0]) &&
      (ShapeKept(cfg, s, steps[0]);
       Runs(cfg, Apply(cfg, s, steps[0]), steps[1..], t))
  }

  /** Every worker pool has been waited for. */
  ghost predicate AllExited(s: State) {
    forall w :: 0 <= w < |s.workers| ==> s.workers[w].Exited?
  }

  /** Everybody has left and every channel is closed. */
  ghost predicate AllDone(s: State) {
    && s.feederDone && AllExited(s)
    && (forall i :: 0 <= i < |s.closed| ==> s.closed[i])
  }
}
