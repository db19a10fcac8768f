/** The concurrent result writer: any number of Write calls, one Close and the
    writer goroutine, interleaved one atomic step at a time. */
module ResultWriter {
  import opened Options
  import opened Results
  import opened ResultFile
  import opened ResultRuns
  import opened LatencyFormat
  import opened Sums
  import opened Ordering
  import ResultMerge

  datatype Config = Config(chanSize: nat, batchSize: nat, ignoreErr: bool, reread: Result -> Result)

  /** Where one Write call stands. */
  datatype WritePc =
    | Idle
    | Checked(r: Result)  // the context was alive
    | Locked(r: Result)   // holds the read lock
    | Sending(r: Result)  // saw closed == false, in the select

  /** Where the writer goroutine stands. */
  datatype LoopPc = Selecting | Flushing | Draining | LastFlush | Leaving | Exited

  /** Where Close stands. */
  datatype ClosePc = NotClosing | WantsLock | HasLock | MarkedClosed | WaitsExit | Returned(failed: bool)

  datatype State = State(
    queue: seq<Result>,
    chanClosed: bool,
    panicked: bool,
    writers: seq<WritePc>,
    loop: LoopPc,
    batch: seq<Result>,
    file: Option<seq<Result>>,
    close: ClosePc,
    closed: bool,
    cancelled: bool,
    outside: bool,
    firstErr: bool,
    accepted: multiset<Result>,
    flushed: multiset<Result>,
    failed: multiset<Result>,
    dropped: multiset<Result>)

  /** One atomic step of a Write call. */
  datatype WriteStep = Begin(r: Result) | ReadLock | CheckClosed | Send | SendCancelled

  /** One atomic step of the writer goroutine. */
  datatype LoopStep =
    | Receive
    | Timer
    | Flush(ok: bool, next: Option<seq<Result>>)
    | SeeClosed
    | SeeCancelled
    | Drain
    | DrainEnd
    | FinalFlush(ok: bool, next: Option<seq<Result>>)
    | Leave

  /** One atomic step of Close. Beginning it announces the write lock, which
      keeps new readers out; CloseLock waits for those that hold it. */
  datatype CloseStep = BeginClose | CloseLock | CloseMark | CloseChannel | CloseReturn

  datatype Step = Writing(w: nat, write: WriteStep) | Looping(turn: LoopStep) | Closing(part: CloseStep) | OutsideCancel

  predicate HoldsRead(pc: WritePc) {
    pc.Locked? || pc.Sending?
  }

  predicate WriteLocked(pc: ClosePc) {
    pc.HasLock? || pc.MarkedClosed?
  }

  /** After a successful Start: no file, nothing queued, the loop selecting. */
  function Started(writers: nat): State {
    State([], false, false, seq(writers, i => Idle), Selecting, [], None, NotClosing, false, false, false, false,
          multiset{}, multiset{}, multiset{}, multiset{})
  }

  ghost predicate MayFlush(cfg: Config, s: State, ok: bool, next: Option<seq<Result>>) {
    if s.batch == [] then ok && next == s.file
    else if ok then Flushed(cfg.reread, s.file, s.batch, next)
    else next == s.file
  }

  /** The batch is written or lost; a failure is recorded unless ignored. */
  function AfterFlush(cfg: Config, s: State, ok: bool, next: Option<seq<Result>>): State {
    if ok then s.(file := next, flushed := s.flushed + multiset(s.batch), batch := [])
    else s.(failed := s.failed + multiset(s.batch), batch := [], firstErr := s.firstErr || !cfg.ignoreErr)
  }

  function SetWriter(s: State, w: nat, pc: WritePc): State
    requires w < |s.writers|
  {
    s.(writers := s.writers[w := pc])
  }

  ghost predicate WriteEnabled(cfg: Config, s: State, w: nat, t: WriteStep) {
    w < |s.writers| &&
    match t
    case Begin(r) => s.writers[w] == Idle
    case ReadLock => s.writers[w].Checked? && !WriteLocked(s.close) && !s.close.WantsLock?
    case CheckClosed => s.writers[w].Locked?
    case Send => s.writers[w].Sending? && (s.chanClosed || |s.queue| < cfg.chanSize)
    case SendCancelled => s.writers[w].Sending? && s.cancelled
  }

  ghost predicate LoopEnabled(cfg: Config, s: State, t: LoopStep) {
    match t
    case Receive => s.loop.Selecting? && s.queue != []
    case Timer => s.loop.Selecting?
    case Flush(ok, next) => s.loop.Flushing? && MayFlush(cfg, s, ok, next)
    case SeeClosed => s.loop.Selecting? && s.chanClosed && s.queue == []
    case SeeCancelled => s.loop.Selecting? && s.cancelled
    case Drain => s.loop.Draining? && s.queue != []
    case DrainEnd => s.loop.Draining? && s.queue == []
    case FinalFlush(ok, next) => s.loop.LastFlush? && MayFlush(cfg, s, ok, next)
    case Leave => s.loop.Leaving?
  }

  predicate CloseEnabled(s: State, t: CloseStep) {
    match t
    case BeginClose => s.close.NotClosing?
    case CloseLock => s.close.WantsLock? && forall w :: 0 <= w < |s.writers| ==> !HoldsRead(s.writers[w])
    case CloseMark => s.close.HasLock?
    case CloseChannel => s.close.MarkedClosed?
    case CloseReturn => s.close.WaitsExit? && s.loop.Exited?
  }

  ghost predicate Enabled(cfg: Config, s: State, t: Step) {
    !s.panicked &&
    match t
    case Writing(w, write) => WriteEnabled(cfg, s, w, write)
    case Looping(turn) => LoopEnabled(cfg, s, turn)
    case Closing(part) => CloseEnabled(s, part)
    case OutsideCancel => !s.cancelled
  }

  ghost function ApplyWrite(cfg: Config, s: State, w: nat, t: WriteStep): State
    requires WriteEnabled(cfg, s, w, t)
  {
    match t
    case Begin(r) =>
      if s.cancelled then s.(dropped := s.dropped + multiset{r}) else SetWriter(s, w, Checked(r))
    case ReadLock => SetWriter(s, w, Locked(s.writers[w].r))
    case CheckClosed =>
      if s.closed then SetWriter(s, w, Idle).(dropped := s.dropped + multiset{s.writers[w].r})
      else SetWriter(s, w, Sending(s.writers[w].r))
    case Send =>
      if s.chanClosed then s.(panicked := true)
      else
        var r := s.writers[w].r;
        SetWriter(s, w, Idle).(queue := s.queue + [r], accepted := s.accepted + multiset{r})
    case SendCancelled => SetWriter(s, w, Idle).(dropped := s.dropped + multiset{s.writers[w].r})
  }

  ghost function ApplyLoop(cfg: Config, s: State, t: LoopStep): State
    requires LoopEnabled(cfg, s, t)
  {
    match t
    case Receive =>
      var batch := s.batch + [s.queue[0]];
      s.(queue := s.queue[1..], batch := batch, loop := if |batch| >= cfg.batchSize then Flushing else Selecting)
    case Timer => s.(loop := Flushing)
    case Flush(ok, next) =>
      AfterFlush(cfg, s, ok, next).(loop := Selecting, cancelled := s.cancelled || (!ok && !cfg.ignoreErr))
    case SeeClosed => s.(loop := LastFlush)
    case SeeCancelled => s.(loop := Draining)
    case Drain => s.(queue := s.queue[1..], batch := s.batch + [s.queue[0]])
    case DrainEnd => s.(loop := LastFlush)
    case FinalFlush(ok, next) => AfterFlush(cfg, s, ok, next).(loop := Leaving)
    case Leave => s.(loop := Exited, cancelled := true)
  }

  function ApplyClose(s: State, t: CloseStep): State
    requires CloseEnabled(s, t)
  {
    match t
    case BeginClose => s.(close := WantsLock)
    case CloseLock => s.(close := HasLock)
    case CloseMark => s.(close := MarkedClosed, closed := true)
    case CloseChannel => s.(close := WaitsExit, chanClosed := true)
    case CloseReturn => s.(close := Returned(s.firstErr))
  }

  /** The state one step leads to. */
  ghost function Apply(cfg: Config, s: State, t: Step): State
    requires Enabled(cfg, s, t)
  {
    match t
    case Writing(w, write) => ApplyWrite(cfg, s, w, write)
    case Looping(turn) => ApplyLoop(cfg, s, turn)
    case Closing(part) => ApplyClose(s, part)
    case OutsideCancel => s.(cancelled := true, outside := true)
  }

  /** Every interleaving: a list of steps, each enabled where it is taken. */
  ghost predicate Runs(cfg: Config, s: State, steps: seq<Step>, t: State)
    decreases |steps|
  {
    if steps == [] then t == s
    else Enabled(cfg, s, steps[0]) && Runs(cfg, Apply(cfg, s, steps[0]), steps[1..], t)
  }

  // ----- what every step keeps -----

  ghost predicate Conserved(s: State) {
    s.accepted == (multiset(s.queue) + multiset(s.batch)) + (s.flushed + s.failed)
  }

  /** The lock keeps senders and the closing of the channel apart. */
  ghost predicate LockSafe(s: State) {
    && (WriteLocked(s.close) ==> forall w :: 0 <= w < |s.writers| ==> !HoldsRead(s.writers[w]))
    && (s.chanClosed ==> s.closed)
    && (s.closed <==> s.close.MarkedClosed? || s.close.WaitsExit? || s.close.Returned?)
    && (s.chanClosed <==> s.close.WaitsExit? || s.close.Returned?)
    && (s.closed ==> forall w :: 0 <= w < |s.writers| ==> !s.writers[w].Sending?)
    && !s.panicked
  }

  /** Without an outside cancellation only a recorded error, or the end of the
      loop after Close, cancels the writer. */
  ghost predicate EndsCleanly(cfg: Config, s: State) {
    && (s.failed != multiset{} && !cfg.ignoreErr ==> s.firstErr)
    && (s.cancelled ==> s.outside || s.firstErr || s.loop.Exited?)
    && (s.loop.Draining? || s.loop.Exited? ==> s.cancelled)
    && (s.loop.LastFlush? || s.loop.Leaving? || s.loop.Exited? ==>
          s.outside || s.firstErr || (s.chanClosed && s.queue == []))
    && (s.loop.Leaving? || s.loop.Exited? ==> s.batch == [])
    && (s.close.Returned? ==> s.loop.Exited? && s.close.failed == s.firstErr)
  }

  /** What was flushed is on file; above its bound, and the file is ranked, as
      far as formatting and parsing allow on these records. */
  ghost predicate HoldsFlushed(reread: Result -> Result, among: iset<Result>, floor: Result -> real,
                               file: Option<seq<Result>>, flushed: multiset<Result>)
  {
    && From(among, Contents(file))
    && (forall r :: r in flushed ==> KeyOnFile(file, r))
    && (Bounds(reread, among, floor) ==> forall r :: r in flushed ==> Lasts(reread, file, r.key, floor(r)))
    && (OrderKept(reread, among) ==> Standing(reread, among, Contents(file)))
  }

  ghost predicate FileSound(cfg: Config, among: iset<Result>, floor: Result -> real, s: State) {
    HoldsFlushed(cfg.reread, among, floor, s.file, s.flushed)
  }

  /** Every accepted result comes from the set. */
  ghost predicate AcceptedFrom(among: iset<Result>, s: State) {
    forall r :: r in s.accepted ==> r in among
  }

  ghost predicate Safe(cfg: Config, s: State) {
    Conserved(s) && LockSafe(s) && EndsCleanly(cfg, s)
  }

  lemma StartedSafe(cfg: Config, among: iset<Result>, floor: Result -> real, n: nat)
    ensures Safe(cfg, Started(n)) && FileSound(cfg, among, floor, Started(n))
  {
  }

  lemma FlushKeeps(cfg: Config, among: iset<Result>, floor: Result -> real, s: State, next: Option<seq<Result>>)
    requires KeepsKeys(cfg.reread) && Closed(cfg.reread, among) && Conserved(s) && AcceptedFrom(among, s)
    requires FileSound(cfg, among, floor, s) && MayFlush(cfg, s, true, next)
    ensures FileSound(cfg, among, floor, AfterFlush(cfg, s, true, next))
  {
    if s.batch != [] {
      BatchAccepted(among, s);
      hide Flushed, KeepsKeys, Closed, Bounds, Lasts, KeyOnFile, OrderKept, Standing, Contents, From, Conserved;
      FlushFrom(cfg.reread, among, s.file, s.batch, next);
      forall r | r in s.flushed + multiset(s.batch)
        ensures KeyOnFile(next, r)
        ensures Bounds(cfg.reread, among, floor) ==> Lasts(cfg.reread, next, r.key, floor(r))
      {
        assert r in s.batch || r in s.flushed;
        FlushKeepsKeys(cfg.reread, s.file, s.batch, next, r);
        if Bounds(cfg.reread, among, floor) {
          FlushLasts(cfg.reread, among, floor, s.file, s.batch, next, r);
        }
      }
      if OrderKept(cfg.reread, among) {
        FlushStands(cfg.reread, among, s.file, s.batch, next);
      }
    }
  }

  lemma BatchAccepted(among: iset<Result>, s: State)
    requires Conserved(s) && AcceptedFrom(among, s)
    ensures From(among, s.batch) && forall r :: r in s.flushed + multiset(s.batch) ==> r in among
  {
    forall r | r in s.flushed + multiset(s.batch) ensures r in among {
      assert r in s.accepted;
    }
    forall r | r in s.batch ensures r in among {
      assert r in multiset(s.batch);
    }
  }

  lemma WriteConserves(cfg: Config, s: State, w: nat, t: WriteStep)
    requires WriteEnabled(cfg, s, w, t) && Conserved(s)
    ensures Conserved(ApplyWrite(cfg, s, w, t))
  {
    if t.Send? {
      var r := s.writers[w].r;
      assert multiset(s.queue + [r]) == multiset(s.queue) + multiset{r};
    }
  }

  lemma WriteLockSafe(cfg: Config, s: State, w: nat, t: WriteStep)
    requires WriteEnabled(cfg, s, w, t) && LockSafe(s)
    ensures LockSafe(ApplyWrite(cfg, s, w, t))
  {
  }

  /** A call touches neither the loop's state nor, once the channel is closed,
      the queue. */
  lemma WriteFrame(cfg: Config, s: State, w: nat, t: WriteStep)
    requires WriteEnabled(cfg, s, w, t) && (t.Send? ==> !s.chanClosed)
    ensures var r := ApplyWrite(cfg, s, w, t);
            && r.loop == s.loop && r.batch == s.batch && r.file == s.file && r.close == s.close
            && r.cancelled == s.cancelled && r.outside == s.outside && r.firstErr == s.firstErr
            && r.flushed == s.flushed && r.failed == s.failed && r.chanClosed == s.chanClosed
            && (s.chanClosed ==> r.queue == s.queue)
  {
    match t {
      case Begin(_) =>
      case ReadLock =>
      case CheckClosed =>
      case Send =>
      case SendCancelled =>
    }
  }

  lemma WriteKeeps(cfg: Config, s: State, w: nat, t: WriteStep)
    requires WriteEnabled(cfg, s, w, t) && Safe(cfg, s)
    ensures Safe(cfg, ApplyWrite(cfg, s, w, t))
  {
    SenderOpen(s, w);
    WriteFrame(cfg, s, w, t);
    WriteConserves(cfg, s, w, t);
    WriteLockSafe(cfg, s, w, t);
    hide Conserved, LockSafe, ApplyWrite, WriteEnabled;
  }

  lemma SenderOpen(s: State, w: nat)
    requires LockSafe(s) && w < |s.writers|
    ensures s.writers[w].Sending? ==> !s.chanClosed
  {
  }

  lemma MoveHead(q: seq<Result>, b: seq<Result>)
    requires q != []
    ensures multiset(q[1..]) + multiset(b + [q[0]]) == multiset(q) + multiset(b)
  {
    assert q == [q[0]] + q[1..];
  }

  lemma LoopConserves(cfg: Config, s: State, t: LoopStep)
    requires LoopEnabled(cfg, s, t) && Conserved(s)
    ensures Conserved(ApplyLoop(cfg, s, t))
  {
    hide MayFlush;
    match t {
      case Receive => MoveHead(s.queue, s.batch);
      case Drain => MoveHead(s.queue, s.batch);
      case Flush(ok, next) => FlushConserves(cfg, s, ok, next);
      case FinalFlush(ok, next) => FlushConserves(cfg, s, ok, next);
      case _ =>
    }
  }

  lemma FlushConserves(cfg: Config, s: State, ok: bool, next: Option<seq<Result>>)
    requires Conserved(s)
    ensures Conserved(AfterFlush(cfg, s, ok, next))
  {
  }

  /** The loop touches neither the calls nor the channel's end. */
  ghost predicate LoopFramed(s: State, r: State) {
    && r.writers == s.writers && r.close == s.close && r.closed == s.closed
    && r.chanClosed == s.chanClosed && r.panicked == s.panicked && r.outside == s.outside
    && r.accepted == s.accepted && r.dropped == s.dropped
  }

  lemma LoopFrame(cfg: Config, s: State, t: LoopStep)
    requires LoopEnabled(cfg, s, t)
    ensures LoopFramed(s, ApplyLoop(cfg, s, t))
  {
    hide MayFlush;
    if t.Flush? || t.FinalFlush? {
      FlushFrame(cfg, s, t.ok, t.next);
      hide AfterFlush;
    } else {
      QuietFrame(cfg, s, t);
      hide LoopEnabled, ApplyLoop, LoopFramed;
    }
  }

  lemma QuietFrame(cfg: Config, s: State, t: LoopStep)
    requires LoopEnabled(cfg, s, t) && !t.Flush? && !t.FinalFlush?
    ensures LoopFramed(s, ApplyLoop(cfg, s, t))
  {
    hide MayFlush, AfterFlush;
  }

  lemma FlushFrame(cfg: Config, s: State, ok: bool, next: Option<seq<Result>>)
    ensures LoopFramed(s, AfterFlush(cfg, s, ok, next))
  {
  }

  lemma LoopLockSafe(cfg: Config, s: State, t: LoopStep)
    requires LoopEnabled(cfg, s, t) && LockSafe(s)
    ensures LockSafe(ApplyLoop(cfg, s, t))
  {
    LoopFrame(cfg, s, t);
    hide ApplyLoop, LoopEnabled, HoldsRead, WriteLocked;
  }

  lemma LoopEndsCleanly(cfg: Config, s: State, t: LoopStep)
    requires LoopEnabled(cfg, s, t) && EndsCleanly(cfg, s)
    ensures EndsCleanly(cfg, ApplyLoop(cfg, s, t))
  {
    if t.Flush? || t.FinalFlush? {
      FlushTurnEndsCleanly(cfg, s, t);
    } else {
      QuietTurnEndsCleanly(cfg, s, t);
    }
    hide LoopEnabled, ApplyLoop, EndsCleanly;
  }

  lemma QuietTurnEndsCleanly(cfg: Config, s: State, t: LoopStep)
    requires LoopEnabled(cfg, s, t) && EndsCleanly(cfg, s) && !t.Flush? && !t.FinalFlush?
    ensures EndsCleanly(cfg, ApplyLoop(cfg, s, t))
  {
    hide MayFlush, AfterFlush;
  }

  lemma FlushTurnEndsCleanly(cfg: Config, s: State, t: LoopStep)
    requires LoopEnabled(cfg, s, t) && EndsCleanly(cfg, s) && (t.Flush? || t.FinalFlush?)
    ensures EndsCleanly(cfg, ApplyLoop(cfg, s, t))
  {
    hide MayFlush, AfterFlush;
    LoopFrame(cfg, s, t);
    FlushEndsCleanly(cfg, s, t.ok, t.next);
  }

  /** A failed flush leaves an error behind, or is ignored. */
  lemma FlushEndsCleanly(cfg: Config, s: State, ok: bool, next: Option<seq<Result>>)
    requires EndsCleanly(cfg, s) && !s.loop.Exited? && MayFlush(cfg, s, ok, next)
    ensures var f := AfterFlush(cfg, s, ok, next);
            && (f.failed != multiset{} && !cfg.ignoreErr ==> f.firstErr)
            && (s.firstErr ==> f.firstErr) && (!ok && !cfg.ignoreErr ==> f.firstErr)
            && f.batch == [] && f.queue == s.queue && f.cancelled == s.cancelled && f.loop == s.loop
  {
  }

  lemma LoopKeeps(cfg: Config, s: State, t: LoopStep)
    requires LoopEnabled(cfg, s, t) && Safe(cfg, s)
    ensures Safe(cfg, ApplyLoop(cfg, s, t))
  {
    hide Conserved, LockSafe, EndsCleanly, ApplyLoop, LoopEnabled;
    LoopConserves(cfg, s, t);
    LoopLockSafe(cfg, s, t);
    LoopEndsCleanly(cfg, s, t);
  }

  lemma CloseKeeps(cfg: Config, s: State, t: CloseStep)
    requires CloseEnabled(s, t) && Safe(cfg, s)
    ensures Safe(cfg, ApplyClose(s, t))
  {
  }

  lemma StepKeeps(cfg: Config, s: State, t: Step)
    requires Enabled(cfg, s, t) && Safe(cfg, s)
    ensures Safe(cfg, Apply(cfg, s, t))
  {
    match t
    case Writing(w, write) => WriteKeeps(cfg, s, w, write);
    case Looping(turn) => LoopKeeps(cfg, s, turn);
    case Closing(part) => CloseKeeps(cfg, s, part);
    case OutsideCancel =>
  }

  lemma {:induction false} RunKeeps(cfg: Config, s: State, steps: seq<Step>, t: State)
    requires Safe(cfg, s) && Runs(cfg, s, steps, t)
    ensures Safe(cfg, t)
    decreases |steps|
  {
    hide Safe, Enabled, Apply;
    if steps != [] {
      StepKeeps(cfg, s, steps[0]);
      RunKeeps(cfg, Apply(cfg, s, steps[0]), steps[1..], t);
    }
  }

  lemma LoopFileSound(cfg: Config, among: iset<Result>, floor: Result -> real, s: State, t: LoopStep)
    requires KeepsKeys(cfg.reread) && Closed(cfg.reread, among) && Conserved(s) && AcceptedFrom(among, s)
    requires LoopEnabled(cfg, s, t) && FileSound(cfg, among, floor, s)
    ensures FileSound(cfg, among, floor, ApplyLoop(cfg, s, t))
  {
    if t.Flush? && t.ok {
      FlushKeeps(cfg, among, floor, s, t.next);
    }
    if t.FinalFlush? && t.ok {
      FlushKeeps(cfg, among, floor, s, t.next);
    }
    hide HoldsFlushed, KeepsKeys, Closed, MayFlush, Conserved, AcceptedFrom;
  }

  lemma WriteFile(cfg: Config, s: State, w: nat, t: WriteStep)
    requires WriteEnabled(cfg, s, w, t)
    ensures ApplyWrite(cfg, s, w, t).file == s.file && ApplyWrite(cfg, s, w, t).flushed == s.flushed
  {
    match t {
      case Begin(_) =>
      case ReadLock =>
      case CheckClosed =>
      case Send =>
      case SendCancelled =>
    }
  }

  /** The file only changes in a flush, and keeps what was flushed. */
  lemma StepFileSound(cfg: Config, among: iset<Result>, floor: Result -> real, s: State, t: Step)
    requires KeepsKeys(cfg.reread) && Closed(cfg.reread, among) && Conserved(s) && AcceptedFrom(among, s)
    requires Enabled(cfg, s, t) && FileSound(cfg, among, floor, s)
    ensures FileSound(cfg, among, floor, Apply(cfg, s, t))
  {
    hide HoldsFlushed, KeepsKeys, Closed, Conserved, AcceptedFrom, LoopEnabled, ApplyLoop, WriteEnabled, ApplyWrite;
    match t {
      case Writing(w, write) => WriteFile(cfg, s, w, write);
      case Looping(turn) => LoopFileSound(cfg, among, floor, s, turn);
      case Closing(part) =>
      case OutsideCancel =>
    }
  }

  /** No step takes back an accepted result. */
  lemma StepAccepts(cfg: Config, s: State, t: Step)
    requires Enabled(cfg, s, t)
    ensures s.accepted <= Apply(cfg, s, t).accepted
  {
    match t {
      case Writing(w, write) => WriteAccepts(cfg, s, w, write);
      case Looping(turn) =>
        LoopFrame(cfg, s, turn);
        hide ApplyLoop, LoopEnabled;
      case Closing(part) =>
      case OutsideCancel =>
    }
  }

  lemma WriteAccepts(cfg: Config, s: State, w: nat, t: WriteStep)
    requires WriteEnabled(cfg, s, w, t)
    ensures s.accepted <= ApplyWrite(cfg, s, w, t).accepted
  {
    match t {
      case Begin(_) =>
      case ReadLock =>
      case CheckClosed =>
      case Send =>
      case SendCancelled =>
    }
  }

  lemma {:induction false} RunAccepts(cfg: Config, s: State, steps: seq<Step>, t: State)
    requires Runs(cfg, s, steps, t)
    ensures s.accepted <= t.accepted
    decreases |steps|
  {
    hide Enabled, Apply;
    if steps != [] {
      StepAccepts(cfg, s, steps[0]);
      RunAccepts(cfg, Apply(cfg, s, steps[0]), steps[1..], t);
    }
  }

  lemma {:induction false} RunFileSound(cfg: Config, among: iset<Result>, floor: Result -> real, s: State,
                                        steps: seq<Step>, t: State)
    requires KeepsKeys(cfg.reread) && Closed(cfg.reread, among) && AcceptedFrom(among, t)
    requires Safe(cfg, s) && FileSound(cfg, among, floor, s) && Runs(cfg, s, steps, t)
    ensures FileSound(cfg, among, floor, t)
    decreases |steps|
  {
    RunAccepts(cfg, s, steps, t);
    assert AcceptedFrom(among, s);
    hide FileSound, KeepsKeys, Closed, Enabled, Apply, AcceptedFrom, Conserved, LockSafe, EndsCleanly;
    if steps != [] {
      StepFileSound(cfg, among, floor, s, steps[0]);
      StepKeeps(cfg, s, steps[0]);
      RunFileSound(cfg, among, floor, Apply(cfg, s, steps[0]), steps[1..], t);
    }
  }

  // ----- every written result is accounted for -----

  function Held(pc: WritePc): multiset<Result> {
    if pc.Idle? then multiset{} else multiset{pc.r}
  }

  /** The results of the calls under way. */
  function Pending(writers: seq<WritePc>): multiset<Result> {
    if writers == [] then multiset{} else Pending(writers[..|writers| - 1]) + Held(writers[|writers| - 1])
  }

  function Starts(t: Step): multiset<Result> {
    if t.Writing? && t.write.Begin? then multiset{t.write.r} else multiset{}
  }

  /** The results that Write was called with. */
  function Begun(steps: seq<Step>): multiset<Result> {
    if steps == [] then multiset{} else Starts(steps[0]) + Begun(steps[1..])
  }

  lemma AddBoth(a: multiset<Result>, b: multiset<Result>, c: multiset<Result>, d: multiset<Result>, e: multiset<Result>)
    requires a + b == c + d
    ensures (a + e) + b == (c + e) + d
  {
    assert (a + e) + b == (a + b) + e;
    assert (c + e) + d == (c + d) + e;
  }

  lemma {:induction false} PendingMoves(writers: seq<WritePc>, w: nat, pc: WritePc)
    requires w < |writers|
    ensures Pending(writers[w := pc]) + Held(writers[w]) == Pending(writers) + Held(pc)
  {
    hide Held;
    var n := |writers| - 1;
    var moved := writers[w := pc];
    assert Pending(moved) == Pending(moved[..n]) + Held(moved[n]);
    assert Pending(writers) == Pending(writers[..n]) + Held(writers[n]);
    if w == n {
      assert moved[..n] == writers[..n];
      AddBoth(Pending(writers[..n]), multiset{}, Pending(writers[..n]), multiset{}, Held(pc) + Held(writers[w]));
    } else {
      assert moved[..n] == writers[..n][w := pc];
      PendingMoves(writers[..n], w, pc);
      hide Pending;
      AddBoth(Pending(moved[..n]), Held(writers[w]), Pending(writers[..n]), Held(pc), Held(writers[n]));
    }
  }

  function Accounted(s: State): multiset<Result> {
    (s.accepted + s.dropped) + Pending(s.writers)
  }

  /** The result that a step of a call is about. */
  function Carried(pc: WritePc, t: WriteStep): multiset<Result> {
    if t.Begin? then multiset{t.r} else Held(pc)
  }

  /** A step of a call moves that call alone. */
  lemma CallShape(cfg: Config, s: State, w: nat, t: WriteStep)
    requires WriteEnabled(cfg, s, w, t) && (t.Send? ==> !s.chanClosed)
    ensures var r := ApplyWrite(cfg, s, w, t);
            && |r.writers| == |s.writers| && r.writers == s.writers[w := r.writers[w]]
            && r.cancelled == s.cancelled
            && (s.cancelled ==> r.writers[w].Idle? || Held(r.writers[w]) == Held(s.writers[w]))
            && (t.Begin? <==> s.writers[w].Idle?)
  {
    match t {
      case Begin(_) =>
      case ReadLock =>
      case CheckClosed =>
      case Send =>
      case SendCancelled =>
    }
  }

  /** It keeps its result, or has it accepted or dropped. */
  lemma CallEnds(cfg: Config, s: State, w: nat, t: WriteStep)
    requires WriteEnabled(cfg, s, w, t) && (t.Send? ==> !s.chanClosed)
    ensures var r := ApplyWrite(cfg, s, w, t);
            && |r.writers| == |s.writers|
            && Moved(s.accepted, s.dropped, r.accepted, r.dropped, Carried(s.writers[w], t), Held(r.writers[w]))
  {
    match t {
      case Begin(_) =>
      case ReadLock =>
      case CheckClosed =>
      case Send =>
      case SendCancelled =>
    }
  }

  predicate Moved(a: multiset<Result>, d: multiset<Result>, a': multiset<Result>, d': multiset<Result>,
                  g: multiset<Result>, h: multiset<Result>)
  {
    || (h == g && a' == a && d' == d)
    || (h == multiset{} && a' == a + g && d' == d)
    || (h == multiset{} && a' == a && d' == d + g)
  }

  /** What a step of a call accepts or drops, against what it still holds. */
  lemma CallAccounts(cfg: Config, s: State, w: nat, t: WriteStep)
    requires WriteEnabled(cfg, s, w, t) && (t.Send? ==> !s.chanClosed)
    ensures var r := ApplyWrite(cfg, s, w, t);
            && |r.writers| == |s.writers|
            && (r.accepted + r.dropped) + Held(r.writers[w]) ==
               (s.accepted + s.dropped) + (Held(s.writers[w]) + Starts(Writing(w, t)))
  {
    CallShape(cfg, s, w, t);
    CallEnds(cfg, s, w, t);
    hide ApplyWrite, WriteEnabled, Moved;
    assert Carried(s.writers[w], t) == Held(s.writers[w]) + Starts(Writing(w, t));
    var r := ApplyWrite(cfg, s, w, t);
    MoveOne(s.accepted, s.dropped, r.accepted, r.dropped, Carried(s.writers[w], t), Held(r.writers[w]));
  }

  lemma MoveOne(a: multiset<Result>, d: multiset<Result>, a': multiset<Result>, d': multiset<Result>,
                g: multiset<Result>, h: multiset<Result>)
    requires Moved(a, d, a', d', g, h)
    ensures (a' + d') + h == (a + d) + g
  {
  }

  lemma Settle(a: multiset<Result>, h: multiset<Result>, b: multiset<Result>, g: multiset<Result>, x: multiset<Result>,
               p: multiset<Result>, q: multiset<Result>)
    requires a + h == b + (g + x) && p + g == q + h
    ensures a + p == (b + q) + x
  {
    forall e: Result ensures (a + p)[e] == ((b + q) + x)[e] {
      assert (a + h)[e] == (b + (g + x))[e] && (p + g)[e] == (q + h)[e];
    }
  }

  lemma WriteAccounts(cfg: Config, s: State, w: nat, t: WriteStep)
    requires LockSafe(s) && WriteEnabled(cfg, s, w, t)
    ensures Accounted(ApplyWrite(cfg, s, w, t)) == Accounted(s) + Starts(Writing(w, t))
  {
    SenderOpen(s, w);
    CallShape(cfg, s, w, t);
    CallAccounts(cfg, s, w, t);
    var r := ApplyWrite(cfg, s, w, t);
    hide LockSafe, Pending, Held, Starts, ApplyWrite, WriteEnabled;
    PendingMoves(s.writers, w, r.writers[w]);
    Settle(r.accepted + r.dropped, Held(r.writers[w]), s.accepted + s.dropped, Held(s.writers[w]),
           Starts(Writing(w, t)), Pending(r.writers), Pending(s.writers));
  }

  lemma StepAccounts(cfg: Config, s: State, t: Step)
    requires LockSafe(s) && Enabled(cfg, s, t)
    ensures Accounted(Apply(cfg, s, t)) == Accounted(s) + Starts(t)
  {
    hide LockSafe, Accounted, WriteEnabled, ApplyWrite, LoopEnabled, ApplyLoop, CloseEnabled, ApplyClose;
    match t {
      case Writing(w, write) =>
        WriteAccounts(cfg, s, w, write);
        hide Starts;
      case Looping(turn) =>
        LoopFrame(cfg, s, turn);
        SameAccounts(s, ApplyLoop(cfg, s, turn));
      case Closing(part) =>
        CloseFrame(s, part);
        SameAccounts(s, ApplyClose(s, part));
      case OutsideCancel =>
        SameAccounts(s, Apply(cfg, s, t));
    }
  }

  lemma SameAccounts(s: State, r: State)
    requires r.accepted == s.accepted && r.dropped == s.dropped && r.writers == s.writers
    ensures Accounted(r) == Accounted(s) + multiset{}
  {
    hide Pending;
  }

  lemma CloseFrame(s: State, t: CloseStep)
    requires CloseEnabled(s, t)
    ensures var r := ApplyClose(s, t);
            r.accepted == s.accepted && r.dropped == s.dropped && r.writers == s.writers && r.cancelled == s.cancelled
  {
    match t {
      case BeginClose =>
      case CloseLock =>
      case CloseMark =>
      case CloseChannel =>
      case CloseReturn =>
    }
  }

  lemma {:induction false} RunAccounts(cfg: Config, s: State, steps: seq<Step>, t: State)
    requires Safe(cfg, s) && Runs(cfg, s, steps, t)
    ensures Accounted(t) == Accounted(s) + Begun(steps)
    decreases |steps|
  {
    hide Enabled, Apply, Accounted, Conserved, LockSafe, EndsCleanly;
    if steps != [] {
      StepKeeps(cfg, s, steps[0]);
      StepAccounts(cfg, s, steps[0]);
      RunAccounts(cfg, Apply(cfg, s, steps[0]), steps[1..], t);
    }
  }

  /** Results are dropped only by a closed or cancelled writer; an error needs a
      flush that failed and was not ignored, and stops the writer; the queue
      and the batch stay within their sizes. */
  ghost predicate Honest(cfg: Config, s: State) {
    && (s.dropped != multiset{} ==> s.closed || s.cancelled)
    && (s.firstErr ==> s.failed != multiset{} && !cfg.ignoreErr && (s.cancelled || s.loop.Leaving?))
    && |s.queue| <= cfg.chanSize
    && (s.loop.Selecting? ==> |s.batch| == 0 || |s.batch| < cfg.batchSize)
    && (s.loop.Flushing? ==> |s.batch| <= 1 || |s.batch| <= cfg.batchSize)
  }

  lemma WriteHonest(cfg: Config, s: State, w: nat, t: WriteStep)
    requires LockSafe(s) && Honest(cfg, s) && WriteEnabled(cfg, s, w, t)
    ensures Honest(cfg, ApplyWrite(cfg, s, w, t))
  {
    SenderOpen(s, w);
    hide LockSafe;
    match t {
      case Begin(_) =>
      case ReadLock =>
      case CheckClosed =>
      case Send =>
      case SendCancelled =>
    }
  }

  lemma LoopHonest(cfg: Config, s: State, t: LoopStep)
    requires Honest(cfg, s) && LoopEnabled(cfg, s, t)
    ensures Honest(cfg, ApplyLoop(cfg, s, t))
  {
    if t.Flush? || t.FinalFlush? {
      FlushTurnHonest(cfg, s, t);
    } else {
      QuietTurnHonest(cfg, s, t);
    }
    hide LoopEnabled, ApplyLoop, Honest;
  }

  lemma QuietTurnHonest(cfg: Config, s: State, t: LoopStep)
    requires Honest(cfg, s) && LoopEnabled(cfg, s, t) && !t.Flush? && !t.FinalFlush?
    ensures Honest(cfg, ApplyLoop(cfg, s, t))
  {
    hide MayFlush, AfterFlush;
  }

  /** What a flush does besides the file. */
  lemma FlushFacts(cfg: Config, s: State, ok: bool, next: Option<seq<Result>>)
    requires MayFlush(cfg, s, ok, next)
    ensures var f := AfterFlush(cfg, s, ok, next);
            && (!ok || s.failed != multiset{} ==> f.failed != multiset{})
            && f.firstErr == (s.firstErr || (!ok && !cfg.ignoreErr))
            && f.batch == [] && f.queue == s.queue && f.dropped == s.dropped && f.closed == s.closed
            && f.cancelled == s.cancelled
  {
    hide Flushed;
    if !ok {
      assert s.batch[0] in multiset(s.batch);
      assert s.batch[0] in s.failed + multiset(s.batch);
    }
  }

  lemma FlushTurnHonest(cfg: Config, s: State, t: LoopStep)
    requires Honest(cfg, s) && LoopEnabled(cfg, s, t) && (t.Flush? || t.FinalFlush?)
    ensures Honest(cfg, ApplyLoop(cfg, s, t))
  {
    FlushFacts(cfg, s, t.ok, t.next);
    hide MayFlush, AfterFlush;
  }

  lemma StepHonest(cfg: Config, s: State, t: Step)
    requires LockSafe(s) && Honest(cfg, s) && Enabled(cfg, s, t)
    ensures Honest(cfg, Apply(cfg, s, t))
  {
    hide WriteEnabled, ApplyWrite, LoopEnabled, ApplyLoop;
    match t {
      case Writing(w, write) =>
        WriteHonest(cfg, s, w, write);
        hide LockSafe, Honest;
      case Looping(turn) =>
        LoopHonest(cfg, s, turn);
        hide LockSafe, Honest;
      case Closing(part) =>
        CloseHonest(cfg, s, part);
        hide LockSafe, Honest;
      case OutsideCancel =>
        hide LockSafe;
    }
  }

  lemma CloseHonest(cfg: Config, s: State, t: CloseStep)
    requires LockSafe(s) && Honest(cfg, s) && CloseEnabled(s, t)
    ensures Honest(cfg, ApplyClose(s, t))
  {
  }

  lemma {:induction false} RunHonest(cfg: Config, s: State, steps: seq<Step>, t: State)
    requires Safe(cfg, s) && Honest(cfg, s) && Runs(cfg, s, steps, t)
    ensures Honest(cfg, t)
    decreases |steps|
  {
    hide Enabled, Apply, Honest, Conserved, LockSafe, EndsCleanly;
    if steps != [] {
      StepKeeps(cfg, s, steps[0]);
      StepHonest(cfg, s, steps[0]);
      RunHonest(cfg, Apply(cfg, s, steps[0]), steps[1..], t);
    }
  }

  lemma {:induction false} NothingPending(n: nat)
    ensures Pending(Started(n).writers) == multiset{}
  {
    if n > 0 {
      NothingPending(n - 1);
      assert Started(n).writers[..n - 1] == Started(n - 1).writers;
    }
  }

  /** In every interleaving nothing is sent on the closed channel; every result
      that Write was called with is accepted, dropped, or in a call still under
      way; and every accepted one is queued, batched, flushed or counted as
      failed. */
  lemma NothingLostOrPanics(cfg: Config, n: nat, steps: seq<Step>, t: State)
    requires Runs(cfg, Started(n), steps, t)
    ensures !t.panicked
    ensures t.accepted == multiset(t.queue) + multiset(t.batch) + t.flushed + t.failed
    ensures Begun(steps) == t.accepted + t.dropped + Pending(t.writers)
  {
    StartedSafe(cfg, AllResults(), ItsScore(), n);
    RunKeeps(cfg, Started(n), steps, t);
    RunAccounts(cfg, Started(n), steps, t);
    NothingPending(n);
    hide Runs, Pending;
  }

  /** An open writer that was not cancelled drops nothing: every call that has
      returned was accepted. And results wait in a queue and a batch of bounded
      size, and an error is an actual one. */
  lemma OpenWriterAccepts(cfg: Config, n: nat, steps: seq<Step>, t: State)
    requires Runs(cfg, Started(n), steps, t)
    ensures Honest(cfg, t)
    ensures !t.closed && !t.cancelled ==> Begun(steps) == t.accepted + Pending(t.writers)
  {
    StartedSafe(cfg, AllResults(), ItsScore(), n);
    RunHonest(cfg, Started(n), steps, t);
    NothingLostOrPanics(cfg, n, steps, t);
    hide Runs, Pending, Begun;
  }

  lemma {:induction false} RunsAppend(cfg: Config, s: State, a: seq<Step>, m: State, b: seq<Step>, t: State)
    requires Runs(cfg, s, a, m) && Runs(cfg, m, b, t)
    ensures Runs(cfg, s, a + b, t)
    decreases |a|
  {
    hide Enabled, Apply;
    if a == [] {
      assert a + b == b;
    } else {
      RunsAppend(cfg, Apply(cfg, s, a[0]), a[1..], m, b, t);
      assert (a + b)[1..] == a[1..] + b;
    }
  }

  /** Once cancelled, a writer takes no new call. */
  lemma {:induction false} NoNewCalls(cfg: Config, s: State, steps: seq<Step>, t: State)
    requires Safe(cfg, s) && s.cancelled && Runs(cfg, s, steps, t)
    ensures t.cancelled && Pending(t.writers) <= Pending(s.writers)
    decreases |steps|
  {
    hide Enabled, Apply, Pending, Conserved, LockSafe, EndsCleanly;
    if steps != [] {
      StepKeeps(cfg, s, steps[0]);
      StepNoNewCall(cfg, s, steps[0]);
      NoNewCalls(cfg, Apply(cfg, s, steps[0]), steps[1..], t);
    }
  }

  /** An outside cancellation stops a writer for good. */
  lemma {:induction false} CancelReaches(cfg: Config, s: State, steps: seq<Step>, t: State)
    requires Safe(cfg, s) && Runs(cfg, s, steps, t) && OutsideCancel in steps
    ensures t.cancelled && t.outside
    decreases |steps|
  {
    hide Enabled, Conserved, LockSafe, EndsCleanly, ApplyWrite, ApplyLoop, ApplyClose;
    StepKeeps(cfg, s, steps[0]);
    var r := Apply(cfg, s, steps[0]);
    if steps[0] == OutsideCancel {
      NoNewCalls(cfg, r, steps[1..], t);
      StaysOutside(cfg, r, steps[1..], t);
    } else {
      CancelReaches(cfg, r, steps[1..], t);
    }
  }

  lemma {:induction false} StaysOutside(cfg: Config, s: State, steps: seq<Step>, t: State)
    requires Safe(cfg, s) && s.outside && Runs(cfg, s, steps, t)
    ensures t.outside
    decreases |steps|
  {
    hide Enabled, Conserved, LockSafe, EndsCleanly, Apply;
    if steps != [] {
      StepKeeps(cfg, s, steps[0]);
      StepOutside(cfg, s, steps[0]);
      StaysOutside(cfg, Apply(cfg, s, steps[0]), steps[1..], t);
    }
  }

  lemma StepOutside(cfg: Config, s: State, t: Step)
    requires LockSafe(s) && s.outside && Enabled(cfg, s, t)
    ensures Apply(cfg, s, t).outside
  {
    hide WriteEnabled, ApplyWrite, LoopEnabled, ApplyLoop;
    match t {
      case Writing(w, write) =>
        SendNeedsOpen(cfg, s, w, write);
        WriteFrame(cfg, s, w, write);
      case Looping(turn) => LoopFrame(cfg, s, turn);
      case Closing(part) =>
      case OutsideCancel =>
    }
  }

  lemma SendNeedsOpen(cfg: Config, s: State, w: nat, t: WriteStep)
    requires LockSafe(s) && WriteEnabled(cfg, s, w, t)
    ensures t.Send? ==> !s.chanClosed
  {
  }

  lemma StepNoNewCall(cfg: Config, s: State, t: Step)
    requires LockSafe(s) && s.cancelled && Enabled(cfg, s, t)
    ensures Apply(cfg, s, t).cancelled && Pending(Apply(cfg, s, t).writers) <= Pending(s.writers)
  {
    hide LockSafe, WriteEnabled, ApplyWrite, LoopEnabled, ApplyLoop, Pending;
    match t {
      case Writing(w, write) => WriteNoNewCall(cfg, s, w, write);
      case Looping(turn) =>
        LoopFrame(cfg, s, turn);
        LoopStaysCancelled(cfg, s, turn);
      case Closing(part) =>
      case OutsideCancel =>
    }
  }

  lemma LoopStaysCancelled(cfg: Config, s: State, t: LoopStep)
    requires LoopEnabled(cfg, s, t)
    ensures s.cancelled ==> ApplyLoop(cfg, s, t).cancelled
  {
    hide MayFlush;
    match t {
      case Flush(ok, next) => FlushCancels(cfg, s, ok, next);
      case FinalFlush(ok, next) => FlushCancels(cfg, s, ok, next);
      case _ =>
    }
  }

  lemma FlushCancels(cfg: Config, s: State, ok: bool, next: Option<seq<Result>>)
    ensures AfterFlush(cfg, s, ok, next).cancelled == s.cancelled
  {
  }

  lemma Fewer(p: multiset<Result>, g: multiset<Result>, q: multiset<Result>, h: multiset<Result>)
    requires p + g == q + h && h <= g
    ensures p <= q
  {
    forall e: Result ensures p[e] <= q[e] {
      assert (p + g)[e] == (q + h)[e];
    }
  }

  lemma WriteNoNewCall(cfg: Config, s: State, w: nat, t: WriteStep)
    requires LockSafe(s) && s.cancelled && WriteEnabled(cfg, s, w, t)
    ensures ApplyWrite(cfg, s, w, t).cancelled && Pending(ApplyWrite(cfg, s, w, t).writers) <= Pending(s.writers)
  {
    SenderOpen(s, w);
    CallShape(cfg, s, w, t);
    var r := ApplyWrite(cfg, s, w, t);
    assert Held(r.writers[w]) <= Held(s.writers[w]);
    hide LockSafe, Pending, Held, Starts, ApplyWrite, WriteEnabled;
    PendingMoves(s.writers, w, r.writers[w]);
    Fewer(Pending(r.writers), Held(s.writers[w]), Pending(s.writers), Held(r.writers[w]));
  }

  /** The last flush begins over an empty queue, and flushing or draining takes
      results from it in order. */
  lemma QueueDrained(cfg: Config, s: State, t: LoopStep)
    requires LoopEnabled(cfg, s, t)
    ensures var r := ApplyLoop(cfg, s, t);
            && (r.loop.LastFlush? ==> r.queue == [])
            && (t.Receive? || t.Drain? ==> s.queue == [s.queue[0]] + r.queue && r.batch == s.batch + [s.queue[0]])
            && (!t.Receive? && !t.Drain? ==> r.queue == s.queue)
  {
    hide MayFlush;
    match t {
      case Receive =>
      case Flush(ok, next) => FlushQueue(cfg, s, ok, next);
      case FinalFlush(ok, next) => FlushQueue(cfg, s, ok, next);
      case _ =>
    }
  }

  /** The timer flushes what has been batched, however little: the flush may
      succeed, and then the batch counts as flushed and nothing else moves. */
  lemma TimerFlushes(cfg: Config, s: State) returns (next: Option<seq<Result>>)
    requires s.loop.Selecting?
    ensures LoopEnabled(cfg, s, Timer)
    ensures var f := ApplyLoop(cfg, s, Timer);
            && LoopEnabled(cfg, f, Flush(true, next))
            && ApplyLoop(cfg, f, Flush(true, next)) ==
               s.(batch := [], file := next, flushed := s.flushed + multiset(s.batch))
    ensures Flushed(cfg.reread, s.file, s.batch, next)
  {
    next := FlushOutcome(cfg.reread, s.file, s.batch);
    hide Flushed;
  }

  lemma FlushOutcome(reread: Result -> Result, file: Option<seq<Result>>, batch: seq<Result>)
    returns (next: Option<seq<Result>>)
    ensures Flushed(reread, file, batch, next)
  {
    CmpResultOrders();
    StableSortIsStable(CmpResult, batch);
    var sorted := StableSort(CmpResult, batch);
    assert IsSortOf(sorted, batch);
    next := if batch == [] then file else Some(ResultMerge.Merge(ReadBack(reread, file), Dedup(sorted)));
  }

  /** If Close returns without an error, flush errors are not ignored and
      nobody else cancelled, everything accepted was flushed; its keys are on
      file, above every bound that formatting and parsing respect on the
      accepted results, and the file is ranked if they keep the order. */
  lemma CloseKeepsBounds(cfg: Config, among: iset<Result>, floor: Result -> real, n: nat, steps: seq<Step>, t: State)
    requires KeepsKeys(cfg.reread) && Closed(cfg.reread, among) && AcceptedFrom(among, t)
    requires Runs(cfg, Started(n), steps, t)
    requires t.close == Returned(false) && !t.outside && !cfg.ignoreErr
    ensures t.accepted == t.flushed
    ensures forall r :: r in t.accepted ==> KeyOnFile(t.file, r)
    ensures Bounds(cfg.reread, among, floor) ==> forall r :: r in t.accepted ==> AtLeast(t.file, r.key, floor(r))
    ensures OrderKept(cfg.reread, among) ==> Ranked(Contents(t.file))
  {
    StartedSafe(cfg, among, floor, n);
    RunKeeps(cfg, Started(n), steps, t);
    RunFileSound(cfg, among, floor, Started(n), steps, t);
    EverythingFlushed(cfg, t);
    hide Runs, Safe, AcceptedFrom, FileSound, KeepsKeys, Closed, Bounds, OrderKept, Ranked, Contents, AtLeast,
         KeyOnFile;
    SoundFile(cfg, among, floor, t);
  }

  lemma EverythingFlushed(cfg: Config, s: State)
    requires Safe(cfg, s) && s.close == Returned(false) && !s.outside && !cfg.ignoreErr
    ensures s.accepted == s.flushed
  {
    assert s.queue == [] && s.batch == [] && s.failed == multiset{};
  }

  /** What a sound file says of the flushed results. */
  lemma SoundFile(cfg: Config, among: iset<Result>, floor: Result -> real, s: State)
    requires KeepsKeys(cfg.reread) && FileSound(cfg, among, floor, s)
    ensures forall r :: r in s.flushed ==> KeyOnFile(s.file, r)
    ensures Bounds(cfg.reread, among, floor) ==> forall r :: r in s.flushed ==> AtLeast(s.file, r.key, floor(r))
    ensures OrderKept(cfg.reread, among) ==> Ranked(Contents(s.file))
  {
    hide AtLeast, Lasts, KeyOnFile, Bounds, Ranked, Standing, KeepsKeys, OrderKept, From, Contents;
    if Bounds(cfg.reread, among, floor) {
      forall r | r in s.flushed ensures AtLeast(s.file, r.key, floor(r)) {
        LastsAtLeast(cfg.reread, s.file, r.key, floor(r));
      }
    }
    if OrderKept(cfg.reread, among) {
      StandingReadsBack(cfg.reread, among, s.file);
    }
  }

  /** So every accepted result's key is on file; with a score at least as high
      if formatting and parsing lower none. */
  lemma CloseMeansPersisted(cfg: Config, n: nat, steps: seq<Step>, t: State)
    requires KeepsKeys(cfg.reread) && Runs(cfg, Started(n), steps, t)
    requires t.close == Returned(false) && !t.outside && !cfg.ignoreErr
    ensures t.accepted == t.flushed
    ensures forall r :: r in t.accepted ==> KeyOnFile(t.file, r)
    ensures NeverLowers(cfg.reread, AllResults()) ==> forall r :: r in t.accepted ==> OnFile(t.file, r)
    ensures OrderKept(cfg.reread, AllResults()) ==> Ranked(Contents(t.file))
    ensures Begun(steps) == t.flushed + t.dropped + Pending(t.writers)
  {
    hide Runs, KeepsKeys, Closed, HasLower, NeverLowers, OrderKept, Ranked, AtLeast, KeyOnFile, Bounds, AllResults,
         AcceptedFrom, OnFile, Contents, Started, Begun, Pending;
    NothingLostOrPanics(cfg, n, steps, t);
    AllResultsFit(cfg.reread);
    AllAccepted(t);
    CloseKeepsBounds(cfg, AllResults(), ItsScore(), n, steps, t);
    if NeverLowers(cfg.reread, AllResults()) {
      ScoreBounds(cfg.reread, AllResults());
      ScoresOnFile(t.file, t.accepted);
    }
  }

  /** So whatever was written, by calls that had returned, to a writer neither
      closed nor cancelled, is on file after such a Close. */
  lemma WrittenIsPersisted(cfg: Config, n: nat, before: seq<Step>, s: State, steps: seq<Step>, t: State)
    requires KeepsKeys(cfg.reread) && Runs(cfg, Started(n), before, s) && !s.closed && !s.cancelled
    requires Runs(cfg, s, steps, t) && t.close == Returned(false) && !t.outside && !cfg.ignoreErr
    ensures Begun(before) - Pending(s.writers) <= t.flushed
    ensures forall r :: r in Begun(before) - Pending(s.writers) ==> KeyOnFile(t.file, r)
    ensures NeverLowers(cfg.reread, AllResults()) ==>
              forall r :: r in Begun(before) - Pending(s.writers) ==> OnFile(t.file, r)
  {
    OpenWriterAccepts(cfg, n, before, s);
    RunsAppend(cfg, Started(n), before, s, steps, t);
    RunAccepts(cfg, s, steps, t);
    hide Runs, Started, Begun, Pending, KeepsKeys, NeverLowers, OrderKept, AllResults, KeyOnFile, OnFile, Honest;
    CloseMeansPersisted(cfg, n, before + steps, t);
    assert Begun(before) - Pending(s.writers) == s.accepted;
  }

  lemma AllAccepted(s: State)
    ensures AcceptedFrom(AllResults(), s)
  {
  }

  lemma ScoresOnFile(file: Option<seq<Result>>, accepted: multiset<Result>)
    requires forall r :: r in accepted ==> AtLeast(file, r.key, ItsScore()(r))
    ensures forall r :: r in accepted ==> OnFile(file, r)
  {
    hide AtLeast;
  }

  /** With the latency formats: every accepted result that was measured is on
      file with at most the ceiling of its milliseconds, m + 1 below a second
      and at most the next ten above. */
  lemma CloseKeepsLatency(cfg: Config, up: nat -> bool, n: nat, steps: seq<Step>, t: State)
    requires cfg.reread == Reread(up) && Runs(cfg, Started(n), steps, t)
    requires t.close == Returned(false) && !t.outside && !cfg.ignoreErr
    requires forall r :: r in t.accepted ==> r == Measured(r.key, r.latency)
    ensures t.accepted == t.flushed
    ensures forall r :: r in t.accepted ==>
              AtLeast(t.file, r.key, LatencyScore(Ceiling(Millis(r.latency)) * MILLISECOND))
  {
    var among := MeasuredWith(EveryLatency());
    LatencySettles(up);
    CeilingBounds(up);
    forall r | r in t.accepted
      ensures r in among && CeilingScore()(r) == LatencyScore(Ceiling(Millis(r.latency)) * MILLISECOND)
    {
      assert r.latency in EveryLatency();
    }
    hide Runs, KeepsKeys, Settles, Closed, Bounds, AtLeast, KeyOnFile, MeasuredWith, CeilingScore, LatencyScore,
         Measured, Reread;
    CloseKeepsBounds(cfg, among, CeilingScore(), n, steps, t);
  }

  // ----- progress -----

  /** Some Write or Close is under way. */
  predicate Busy(s: State) {
    (exists w :: 0 <= w < |s.writers| && s.writers[w] != Idle) ||
    !(s.close.NotClosing? || s.close.Returned?)
  }

  /** Steps that take a call or the loop forward: no new call, no timer, no
      outside cancellation. */
  predicate Forward(t: Step) {
    match t
    case Writing(_, write) => !write.Begin?
    case Looping(turn) => !turn.Timer?
    case Closing(part) => !part.BeginClose?
    case OutsideCancel => false
  }

  /** While a call is under way some forward step is enabled: first that of a
      lock holder, then of whoever waits for the lock, then of the loop. */
  lemma NeverStuck(cfg: Config, s: State) returns (t: Step)
    requires cfg.chanSize > 0 && Safe(cfg, s) && Busy(s)
    ensures Forward(t) && Enabled(cfg, s, t)
  {
    hide Flushed, Conserved;
    if s.close.HasLock? {
      return Closing(CloseMark);
    }
    if s.close.MarkedClosed? {
      return Closing(CloseChannel);
    }
    if w :| 0 <= w < |s.writers| && s.writers[w].Locked? {
      return Writing(w, CheckClosed);
    }
    if w :| 0 <= w < |s.writers| && s.writers[w].Sending? {
      if s.cancelled {
        return Writing(w, SendCancelled);
      }
      if |s.queue| < cfg.chanSize {
        return Writing(w, Send);
      }
      t := LoopForward(cfg, s);
      return;
    }
    if s.close.WantsLock? {
      return Closing(CloseLock);
    }
    if w :| 0 <= w < |s.writers| && s.writers[w].Checked? {
      return Writing(w, ReadLock);
    }
    if s.loop.Exited? {
      return Closing(CloseReturn);
    }
    t := LoopForward(cfg, s);
  }

  lemma LoopForward(cfg: Config, s: State) returns (t: Step)
    requires Safe(cfg, s) && !s.loop.Exited?
    requires s.loop.Selecting? ==> s.queue != [] || s.chanClosed || s.cancelled
    ensures Forward(t) && Enabled(cfg, s, t)
  {
    hide Flushed, Conserved;
    match s.loop
    case Selecting =>
      t := Looping(if s.queue != [] then Receive else if s.chanClosed then SeeClosed else SeeCancelled);
    case Flushing =>
      t := Looping(Flush(s.batch == [], s.file));
    case Draining =>
      t := Looping(if s.queue != [] then Drain else DrainEnd);
    case LastFlush =>
      t := Looping(FinalFlush(s.batch == [], s.file));
    case Leaving =>
      t := Looping(Leave);
  }

  // ----- every call returns -----

  /** What a Write call may still cost, its result's way through the queue
      included. */
  function WriteCost(pc: WritePc): nat {
    match pc
    case Idle => 0
    case Checked(_) => 5
    case Locked(_) => 4
    case Sending(_) => 3
  }

  function WriteCosts(writers: seq<WritePc>): (v: seq<nat>)
    ensures |v| == |writers|
  {
    seq(|writers|, w requires 0 <= w < |writers| => WriteCost(writers[w]))
  }

  function LoopCost(pc: LoopPc): nat {
    match pc
    case Flushing => 5
    case Selecting => 4
    case Draining => 3
    case LastFlush => 2
    case Leaving => 1
    case Exited => 0
  }

  function CloseCost(pc: ClosePc): nat {
    match pc
    case NotClosing => 0
    case WantsLock => 4
    case HasLock => 3
    case MarkedClosed => 2
    case WaitsExit => 1
    case Returned(_) => 0
  }

  /** Forward steps still possible. */
  function Work(s: State): nat {
    Sum(WriteCosts(s.writers)) + 2 * |s.queue| + LoopCost(s.loop) + CloseCost(s.close)
  }

  lemma WriterMoves(writers: seq<WritePc>, w: nat, pc: WritePc)
    requires w < |writers|
    ensures Sum(WriteCosts(writers[w := pc])) + WriteCost(writers[w]) == Sum(WriteCosts(writers)) + WriteCost(pc)
  {
    assert WriteCosts(writers[w := pc]) == WriteCosts(writers)[w := WriteCost(pc)];
    SumUpdate(WriteCosts(writers), w, WriteCost(pc));
  }

  /** A step of a Write call, as it bears on the work left. */
  lemma WriteShape(cfg: Config, s: State, w: nat, t: WriteStep)
    requires WriteEnabled(cfg, s, w, t) && !s.chanClosed
    ensures var r := ApplyWrite(cfg, s, w, t);
            && r.loop == s.loop && r.close == s.close
            && |r.writers| == |s.writers| && r.writers == s.writers[w := r.writers[w]]
            && WriteCost(r.writers[w]) + 2 * |r.queue| + (if t.Begin? then 0 else 1)
               <= WriteCost(s.writers[w]) + 2 * |s.queue| + (if t.Begin? then 5 else 0)
  {
    match t {
      case Begin(_) =>
      case ReadLock =>
      case CheckClosed =>
      case Send =>
      case SendCancelled =>
    }
  }

  /** The same once the channel is closed, when nobody is sending. */
  lemma WriteShapeClosed(cfg: Config, s: State, w: nat, t: WriteStep)
    requires WriteEnabled(cfg, s, w, t) && !t.Send?
    ensures var r := ApplyWrite(cfg, s, w, t);
            && r.loop == s.loop && r.close == s.close
            && |r.writers| == |s.writers| && r.writers == s.writers[w := r.writers[w]]
            && WriteCost(r.writers[w]) + 2 * |r.queue| + (if t.Begin? then 0 else 1)
               <= WriteCost(s.writers[w]) + 2 * |s.queue| + (if t.Begin? then 5 else 0)
  {
    match t {
      case Begin(_) =>
      case ReadLock =>
      case CheckClosed =>
      case SendCancelled =>
      case _ =>
    }
  }

  lemma LoopShape(cfg: Config, s: State, t: LoopStep)
    requires LoopEnabled(cfg, s, t)
    ensures var r := ApplyLoop(cfg, s, t);
            LoopCost(r.loop) + 2 * |r.queue| + (if t.Timer? then 0 else 1)
            <= LoopCost(s.loop) + 2 * |s.queue| + (if t.Timer? then 1 else 0)
  {
    hide MayFlush;
    match t {
      case Receive =>
      case Drain =>
      case Flush(ok, next) => FlushQueue(cfg, s, ok, next);
      case FinalFlush(ok, next) => FlushQueue(cfg, s, ok, next);
      case _ =>
    }
  }

  lemma FlushQueue(cfg: Config, s: State, ok: bool, next: Option<seq<Result>>)
    ensures AfterFlush(cfg, s, ok, next).queue == s.queue
  {
  }

  lemma WriteWorks(cfg: Config, s: State, w: nat, t: WriteStep)
    requires LockSafe(s) && WriteEnabled(cfg, s, w, t)
    ensures Work(ApplyWrite(cfg, s, w, t)) + (if t.Begin? then 0 else 1) <= Work(s) + (if t.Begin? then 5 else 0)
  {
    SenderOpen(s, w);
    if t.Send? {
      WriteShape(cfg, s, w, t);
    } else {
      WriteShapeClosed(cfg, s, w, t);
    }
    WriterMoves(s.writers, w, ApplyWrite(cfg, s, w, t).writers[w]);
    hide WriteEnabled, ApplyWrite, WriteCost, WriteCosts, LockSafe;
  }

  lemma LoopWorks(cfg: Config, s: State, t: LoopStep)
    requires LoopEnabled(cfg, s, t)
    ensures Work(ApplyLoop(cfg, s, t)) + (if t.Timer? then 0 else 1) <= Work(s) + (if t.Timer? then 1 else 0)
  {
    LoopFrame(cfg, s, t);
    LoopShape(cfg, s, t);
    hide LoopEnabled, ApplyLoop, LoopCost, WriteCosts;
  }

  lemma CloseWorks(s: State, t: CloseStep)
    requires CloseEnabled(s, t)
    ensures Work(ApplyClose(s, t)) + (if t.BeginClose? then 0 else 1) <= Work(s) + (if t.BeginClose? then 4 else 0)
  {
    hide WriteCosts, LoopCost;
  }

  /** A forward step does one unit of work; any other step brings at most
      five. */
  lemma StepWorks(cfg: Config, s: State, t: Step)
    requires Safe(cfg, s) && Enabled(cfg, s, t)
    ensures Work(Apply(cfg, s, t)) + (if Forward(t) then 1 else 0) <= Work(s) + (if Forward(t) then 0 else 5)
  {
    hide Conserved, LockSafe, EndsCleanly, WriteEnabled, ApplyWrite, LoopEnabled, ApplyLoop, CloseEnabled, ApplyClose;
    match t {
      case Writing(w, write) =>
        WriteWorks(cfg, s, w, write);
        hide Work;
      case Looping(turn) =>
        LoopWorks(cfg, s, turn);
        hide Work;
      case Closing(part) =>
        CloseWorks(s, part);
        hide Work;
      case OutsideCancel =>
    }
  }

  function ForwardSteps(steps: seq<Step>): nat {
    if steps == [] then 0 else (if Forward(steps[0]) then 1 else 0) + ForwardSteps(steps[1..])
  }

  /** In every interleaving the forward steps are bounded by the work at the
      start and five for every new call, timer or cancellation. */
  lemma {:induction false} ForwardBounded(cfg: Config, s: State, steps: seq<Step>, t: State)
    requires Safe(cfg, s) && Runs(cfg, s, steps, t)
    ensures ForwardSteps(steps) <= |steps|
    ensures ForwardSteps(steps) + Work(t) <= Work(s) + 5 * (|steps| - ForwardSteps(steps))
    decreases |steps|
  {
    hide Safe, Enabled, Apply, Work, Forward;
    if steps != [] {
      StepKeeps(cfg, s, steps[0]);
      StepWorks(cfg, s, steps[0]);
      ForwardBounded(cfg, Apply(cfg, s, steps[0]), steps[1..], t);
    }
  }

  /** So every call returns: from any state of a run, forward steps alone are
      at most as many as the work left there, and when no further one is
      enabled no call is under way. */
  lemma CallsReturn(cfg: Config, n: nat, before: seq<Step>, s: State, steps: seq<Step>, t: State)
    requires cfg.chanSize > 0 && Runs(cfg, Started(n), before, s)
    requires Runs(cfg, s, steps, t) && ForwardSteps(steps) == |steps|
    ensures |steps| <= Work(s)
    ensures (forall next :: Forward(next) ==> !Enabled(cfg, t, next)) ==> !Busy(t)
  {
    StartedSafe(cfg, AllResults(), ItsScore(), n);
    RunKeeps(cfg, Started(n), before, s);
    RunKeeps(cfg, s, steps, t);
    ForwardBounded(cfg, s, steps, t);
    hide Runs, Safe, Enabled, Forward, Work, Busy, Started;
    if Busy(t) {
      var next := NeverStuck(cfg, t);
    }
  }
}
