/**
 * internal/record/queue.go as a step system.
 *
 * Any number of caller goroutines run Emit, Start and Close; one worker runs loop.
 * A step is one atomic action of one goroutine: taking emitMu, reading or storing
 * `closed`, the non-blocking send, closing the channel, a receive, a tick, one sink
 * call, one counter update. A step that is not possible in a state (a goroutine blocked
 * on a lock, on sync.Once, on the channel or on the WaitGroup) leaves the state as it is,
 * so a run over an arbitrary sequence of steps is an arbitrary interleaving.
 */
module QueueProtocol {
  import opened Common
  import opened Record

  datatype Options = Options(buffer: int, batchN: int, maxAttempts: int, hasSink: bool)

  type Params = o: Options | o.buffer > 0 && o.batchN > 0 && o.maxAttempts > 0
    witness Options(4096, 200, 3, true)

  type Tid = nat

  datatype Call = Emit(e: Event) | Start | Close

  /** sync.Once, with the goroutine that is inside its function. */
  datatype Once = Fresh | Running(owner: Tid) | Finished

  /** Where a caller goroutine stands; it owns emitMu exactly at the four `Holds` points. */
  datatype Pc =
    | Idle
    | EmitLock(e: Event) | EmitCheck(e: Event) | EmitSelect(e: Event)
    | StartOnce | StartLock | StartCheck | StartSpawn
    | CloseOnce | CloseLock | CloseFlag | CloseChan | CloseWait

  /** `last` marks the flush that the worker makes after it saw the channel closed. */
  datatype Worker =
    | NotStarted
    | Selecting
    | Writing(out: seq<Event>, attempt: int, last: bool)
    | Counting(out: seq<Event>, ok: bool, tries: int, last: bool)
    | Exited

  /** A batch whose fate has been added to a counter. */
  datatype Settled = Settled(events: seq<Event>, ok: bool, tries: int)

  datatype Step =
    | Invoke(t: Tid, call: Call)
    | Advance(t: Tid, now: int)
    | Receive
    | Tick
    | Attempt(ok: bool)
    | Count

  /** emitMu, the callers, the two Onces, the `closed` flag and whether the channel is closed. */
  datatype Control = Control(
    lock: Option<Tid>,
    pc: map<Tid, Pc>,
    startOnce: Once,
    stopOnce: Once,
    closed: bool,
    chClosed: bool)

  /**
   * Channel contents, WaitGroup, worker and counters. The last five fields are history: Emits that
   * saw the queue open, those sent, those that met a full channel, batches the sink took, and
   * batches whose fate reached a counter.
   */
  datatype Pipe = Pipe(
    ch: seq<Event>,
    wg: int,
    worker: Worker,
    batch: seq<Event>,
    written: int,
    dropped: int,
    accepted: seq<Event>,
    enqueued: seq<Event>,
    overflow: seq<Event>,
    sunk: seq<seq<Event>>,
    settled: seq<Settled>)

  datatype State = State(c: Control, w: Pipe, panicked: bool)

  const INIT := State(
    Control(None, map[], Fresh, Fresh, false, false),
    Pipe([], 0, NotStarted, [], 0, 0, [], [], [], [], []),
    false)

  function PcOf(c: Control, t: Tid): Pc {
    if t in c.pc then c.pc[t] else Idle
  }

  predicate Holds(pc: Pc) {
    pc.EmitCheck? || pc.EmitSelect? || pc.StartCheck? || pc.StartSpawn? || pc.CloseFlag? || pc.CloseChan?
  }

  predicate InStart(pc: Pc) {
    pc.StartLock? || pc.StartCheck? || pc.StartSpawn?
  }

  predicate InClose(pc: Pc) {
    pc.CloseLock? || pc.CloseFlag? || pc.CloseChan? || pc.CloseWait?
  }

  function InFlight(w: Worker): seq<Event> {
    if w.Writing? || w.Counting? then w.out else []
  }

  function Goto(c: Control, t: Tid, pc: Pc): Control {
    c.(pc := c.pc[t := pc])
  }

  function Acquire(c: Control, t: Tid, pc: Pc): Control {
    if c.lock.Some? then c else Goto(c, t, pc).(lock := Some(t))
  }

  function Release(c: Control, t: Tid, pc: Pc): Control {
    Goto(c, t, pc).(lock := None)
  }

  function Stamp(e: Event, now: int): Event {
    if e.ts.None? then e.(ts := Some(now)) else e
  }

  /** The select in Emit on an open channel: send if there is room, else count a drop. */
  function Select(p: Params, w: Pipe, e: Event): Pipe {
    var w1 := w.(accepted := w.accepted + [e]);
    if |w.ch| < p.buffer
    then w1.(ch := w.ch + [e], enqueued := w.enqueued + [e])
    else w1.(dropped := w.dropped + 1, overflow := w.overflow + [e])
  }

  /** Control effect of a caller's next action; the WaitGroup is only read. */
  function CallerControl(c: Control, wg: int, t: Tid, now: int): Control {
    match PcOf(c, t)
    case Idle => c
    case EmitLock(e) => Acquire(c, t, EmitCheck(e))
    case EmitCheck(e) => if c.closed then Release(c, t, Idle) else Goto(c, t, EmitSelect(Stamp(e, now)))
    case EmitSelect(e) => Release(c, t, Idle)
    case StartOnce =>
      if c.startOnce == Fresh then Goto(c, t, StartLock).(startOnce := Running(t))
      else if c.startOnce == Finished then Goto(c, t, Idle)
      else c
    case StartLock => Acquire(c, t, StartCheck)
    case StartCheck => if c.closed then Release(c, t, Idle).(startOnce := Finished) else Goto(c, t, StartSpawn)
    case StartSpawn => Release(c, t, Idle).(startOnce := Finished)
    case CloseOnce =>
      if c.stopOnce == Fresh then Goto(c, t, CloseLock).(stopOnce := Running(t))
      else if c.stopOnce == Finished then Goto(c, t, Idle)
      else c
    case CloseLock => Acquire(c, t, CloseFlag)
    case CloseFlag => Goto(c, t, CloseChan).(closed := true)
    case CloseChan => Release(c, t, CloseWait).(chClosed := true)
    case CloseWait => if wg == 0 then Goto(c, t, Idle).(stopOnce := Finished) else c
  }

  /** Pipe effect of a caller's next action: only the send and the spawn touch the pipe. */
  function CallerPipe(p: Params, w: Pipe, pc: Pc): Pipe {
    match pc
    case EmitSelect(e) => Select(p, w, e)
    case StartSpawn => w.(wg := w.wg + 1, worker := Selecting)
    case _ => w
  }

  /** Sending on a closed channel and closing it twice panic. */
  predicate CallerPanics(c: Control, t: Tid) {
    c.chClosed && (PcOf(c, t).EmitSelect? || PcOf(c, t).CloseChan?)
  }

  /** flush has returned: the worker selects again, or runs its deferred wg.Done and exits. */
  function AfterFlush(w: Pipe, last: bool): Pipe {
    if last then w.(worker := Exited, wg := w.wg - 1) else w.(worker := Selecting)
  }

  function BeginFlush(p: Params, w: Pipe, last: bool): Pipe {
    if w.batch == [] then AfterFlush(w, last)
    else if !p.hasSink then w.(worker := Counting(w.batch, false, 0, last), batch := [])
    else w.(worker := Writing(w.batch, 1, last), batch := [])
  }

  function Take(p: Params, w: Pipe): Pipe
    requires w.ch != []
  {
    var w1 := w.(ch := w.ch[1..], batch := w.batch + [w.ch[0]]);
    if |w1.batch| >= p.batchN then BeginFlush(p, w1, false) else w1
  }

  function AttemptStep(p: Params, w: Pipe, ok: bool): Pipe
    requires w.worker.Writing?
  {
    var Writing(out, k, last) := w.worker;
    if ok then w.(worker := Counting(out, true, k, last), sunk := w.sunk + [out])
    else if k == p.maxAttempts then w.(worker := Counting(out, false, k, last))
    else w.(worker := Writing(out, k + 1, last))
  }

  function CountStep(w: Pipe): Pipe
    requires w.worker.Counting?
  {
    var Counting(out, ok, k, last) := w.worker;
    var w1 := w.(settled := w.settled + [Settled(out, ok, k)]);
    AfterFlush(if ok then w1.(written := w.written + |out|) else w1.(dropped := w.dropped + |out|), last)
  }

  /** The worker's next action; it reads from the control part only whether the channel is closed. */
  function WorkerStep(p: Params, w: Pipe, chClosed: bool, step: Step): Pipe {
    if step.Receive? && w.worker.Selecting? then
      if w.ch != [] then Take(p, w) else if chClosed then BeginFlush(p, w, true) else w
    else if step.Tick? && w.worker.Selecting? then BeginFlush(p, w, false)
    else if step.Attempt? && w.worker.Writing? then AttemptStep(p, w, step.ok)
    else if step.Count? && w.worker.Counting? then CountStep(w)
    else w
  }

  function EntryPoint(call: Call): Pc {
    match call
    case Emit(e) => EmitLock(e)
    case Start => StartOnce
    case Close => CloseOnce
  }

  /** A negative WaitGroup panics too. */
  function Apply(p: Params, s: State, step: Step): State {
    if s.panicked then s
    else match step
      case Invoke(t, call) => if PcOf(s.c, t) == Idle then s.(c := Goto(s.c, t, EntryPoint(call))) else s
      case Advance(t, now) =>
        if CallerPanics(s.c, t) then s.(panicked := true)
        else s.(c := CallerControl(s.c, s.w.wg, t, now), w := CallerPipe(p, s.w, PcOf(s.c, t)))
      case _ =>
        var w := WorkerStep(p, s.w, s.c.chClosed, step);
        s.(w := w, panicked := w.wg < 0)
  }

  function Run(p: Params, s: State, steps: seq<Step>): State
    decreases |steps|
  {
    if steps == [] then s else Run(p, Apply(p, s, steps[0]), steps[1..])
  }

  // ---- what every interleaving keeps ----

  /** What the position of one goroutine says about the lock, the Onces and the closing of the channel. */
  ghost predicate Local(c: Control, t: Tid, pc: Pc) {
    && (Holds(pc) <==> c.lock == Some(t))
    && (InStart(pc) ==> c.startOnce == Running(t))
    && (InClose(pc) ==> c.stopOnce == Running(t))
    && (pc.EmitSelect? || pc.StartSpawn? || pc.CloseLock? || pc.CloseFlag? ==> !c.closed)
    && (pc.CloseChan? ==> c.closed && !c.chClosed)
    && (pc.CloseWait? ==> c.chClosed)
    && (pc.EmitSelect? ==> pc.e.ts.Some?)
  }

  ghost predicate ControlInv(c: Control) {
    && (c.chClosed ==> c.closed)
    && (c.closed ==> c.stopOnce != Fresh)
    && (c.stopOnce == Finished ==> c.chClosed)
    && forall t: Tid :: Local(c, t, PcOf(c, t))
  }

  /** At most one worker, counted by the WaitGroup, and only spawned while the queue is open. */
  ghost predicate WorkerInv(c: Control, w: Pipe) {
    && w.wg == (if w.worker.NotStarted? || w.worker.Exited? then 0 else 1)
    && (!w.worker.NotStarted? ==> c.startOnce == Finished)
    && (c.stopOnce == Finished ==> w.wg == 0)
    && (w.worker.NotStarted? ==> w.batch == [] && w.settled == [] && w.sunk == [])
    && (w.worker.Writing? || w.worker.Counting? ==> w.worker.last ==> c.chClosed && w.ch == [])
    && (w.worker.Exited? ==> c.chClosed && w.ch == [] && w.batch == [])
  }

  /** A batch given up was tried exactly maxAttempts times (never, without a sink). */
  ghost predicate TriesFit(p: Params, ok: bool, tries: int) {
    if !p.hasSink then !ok && tries == 0
    else 1 <= tries <= p.maxAttempts && (!ok ==> tries == p.maxAttempts)
  }

  ghost predicate BatchInv(p: Params, w: Pipe) {
    && |w.ch| <= p.buffer
    && |w.batch| < p.batchN
    && (w.worker.Writing? ==> p.hasSink && 1 <= w.worker.attempt <= p.maxAttempts)
    && (w.worker.Counting? ==> TriesFit(p, w.worker.ok, w.worker.tries))
    && (w.worker.Writing? || w.worker.Counting? ==> w.batch == [] && 1 <= |w.worker.out| <= p.batchN)
    && (forall b :: b in w.settled ==> 1 <= |b.events| <= p.batchN && TriesFit(p, b.ok, b.tries))
  }

  function Events(bs: seq<Settled>): seq<Event> {
    if bs == [] then [] else Events(bs[..|bs| - 1]) + bs[|bs| - 1].events
  }

  /** Number of events in the settled batches with the given outcome. */
  function Volume(bs: seq<Settled>, ok: bool): int {
    if bs == [] then 0
    else Volume(bs[..|bs| - 1], ok) + (if bs[|bs| - 1].ok == ok then |bs[|bs| - 1].events| else 0)
  }

  /** The settled batches the sink took, in order. */
  function Taken(bs: seq<Settled>): seq<seq<Event>> {
    if bs == [] then []
    else Taken(bs[..|bs| - 1]) + (if bs[|bs| - 1].ok then [bs[|bs| - 1].events] else [])
  }

  /** Everything enqueued, in order: settled, in flight, pending, buffered. */
  function Stages(w: Pipe): seq<Event> {
    Events(w.settled) + InFlight(w.worker) + w.batch + w.ch
  }

  ghost predicate Ordered(w: Pipe) {
    Stages(w) == w.enqueued
  }

  ghost predicate Counted(w: Pipe) {
    && w.written == Volume(w.settled, true)
    && w.dropped == |w.overflow| + Volume(w.settled, false)
    && w.sunk == Taken(w.settled) + (if w.worker.Counting? && w.worker.ok then [w.worker.out] else [])
  }

  ghost predicate Admitted(w: Pipe) {
    && multiset(w.accepted) == multiset(w.enqueued) + multiset(w.overflow)
    && (forall e :: e in w.accepted ==> e.ts.Some?)
  }

  ghost predicate FlowInv(w: Pipe) {
    Ordered(w) && Counted(w) && Admitted(w)
  }

  ghost predicate Inv(p: Params, s: State) {
    !s.panicked && ControlInv(s.c) && WorkerInv(s.c, s.w) && BatchInv(p, s.w) && FlowInv(s.w)
  }

  lemma SettleSnoc(bs: seq<Settled>, b: Settled)
    ensures Events(bs + [b]) == Events(bs) + b.events
    ensures forall ok :: Volume(bs + [b], ok) == Volume(bs, ok) + (if b.ok == ok then |b.events| else 0)
    ensures Taken(bs + [b]) == Taken(bs) + (if b.ok then [b.events] else [])
  {
    assert (bs + [b])[..|bs|] == bs;
  }

  lemma CallerKeepsControl(c: Control, wg: int, t: Tid, now: int)
    requires ControlInv(c)
    ensures ControlInv(CallerControl(c, wg, t, now)) && !CallerPanics(c, t)
  {
    var c' := CallerControl(c, wg, t, now);
    assert Local(c, t, PcOf(c, t));
    forall u: Tid ensures Local(c', u, PcOf(c', u)) {
      assert Local(c, u, PcOf(c, u));
    }
  }

  lemma SelectKeepsFlow(p: Params, w: Pipe, e: Event)
    requires FlowInv(w) && e.ts.Some?
    ensures FlowInv(Select(p, w, e))
  {
    assert Stages(Select(p, w, e)) == if |w.ch| < p.buffer then Stages(w) + [e] else Stages(w);
  }

  lemma SelectKeepsBatches(p: Params, w: Pipe, e: Event)
    requires BatchInv(p, w)
    ensures BatchInv(p, Select(p, w, e))
  {
  }

  lemma CallerKeepsWorker(p: Params, s: State, t: Tid, now: int)
    requires ControlInv(s.c) && WorkerInv(s.c, s.w)
    ensures WorkerInv(CallerControl(s.c, s.w.wg, t, now), CallerPipe(p, s.w, PcOf(s.c, t)))
  {
    assert Local(s.c, t, PcOf(s.c, t));
  }

  lemma CallerKeepsFlow(p: Params, s: State, t: Tid, now: int)
    requires Inv(p, s)
    ensures var w' := CallerPipe(p, s.w, PcOf(s.c, t)); BatchInv(p, w') && FlowInv(w')
  {
    assert Local(s.c, t, PcOf(s.c, t));
    var pc := PcOf(s.c, t);
    if pc.EmitSelect? {
      SelectKeepsFlow(p, s.w, pc.e);
      SelectKeepsBatches(p, s.w, pc.e);
    }
  }

  lemma WorkerKeepsBatches(p: Params, s: State, step: Step)
    requires WorkerInv(s.c, s.w) && BatchInv(p, s.w)
    ensures var w' := WorkerStep(p, s.w, s.c.chClosed, step);
            WorkerInv(s.c, w') && BatchInv(p, w') && w'.wg >= 0
  {
  }

  lemma Regroup<T>(a: seq<T>, b: seq<T>, c: seq<T>, d: seq<T>)
    ensures a + [] + b + c == a + b + [] + c
    ensures a + b + c + d == (a + b) + [] + c + d
  {
  }

  lemma BeginFlushKeepsFlow(p: Params, w: Pipe, last: bool)
    requires FlowInv(w) && w.worker.Selecting?
    ensures FlowInv(BeginFlush(p, w, last))
  {
    Regroup(Events(w.settled), w.batch, w.ch, []);
  }

  lemma TakeKeepsFlow(p: Params, w: Pipe)
    requires FlowInv(w) && w.worker.Selecting? && w.ch != []
    ensures FlowInv(Take(p, w))
  {
    var w1 := w.(ch := w.ch[1..], batch := w.batch + [w.ch[0]]);
    assert Stages(w1) == Stages(w);
    BeginFlushKeepsFlow(p, w1, false);
  }

  lemma AttemptKeepsFlow(p: Params, w: Pipe, ok: bool)
    requires FlowInv(w) && w.worker.Writing?
    ensures FlowInv(AttemptStep(p, w, ok))
  {
    assert Stages(AttemptStep(p, w, ok)) == Stages(w);
  }

  lemma CountKeepsOrder(w: Pipe)
    requires Ordered(w) && w.worker.Counting?
    ensures Ordered(CountStep(w))
  {
    var w' := CountStep(w);
    SettleSnoc(w.settled, Settled(w.worker.out, w.worker.ok, w.worker.tries));
    Regroup(Events(w.settled), w.worker.out, w.batch, w.ch);
    assert InFlight(w'.worker) == [];
  }

  lemma CountKeepsCounters(w: Pipe)
    requires Counted(w) && w.worker.Counting?
    ensures Counted(CountStep(w))
  {
    SettleSnoc(w.settled, Settled(w.worker.out, w.worker.ok, w.worker.tries));
  }

  lemma WorkerKeepsFlow(p: Params, w: Pipe, chClosed: bool, step: Step)
    requires FlowInv(w)
    ensures FlowInv(WorkerStep(p, w, chClosed, step))
  {
    if step.Receive? && w.worker.Selecting? {
      if w.ch != [] { TakeKeepsFlow(p, w); } else { BeginFlushKeepsFlow(p, w, true); }
    } else if step.Tick? && w.worker.Selecting? {
      BeginFlushKeepsFlow(p, w, false);
    } else if step.Attempt? && w.worker.Writing? {
      AttemptKeepsFlow(p, w, step.ok);
    } else if step.Count? && w.worker.Counting? {
      CountKeepsOrder(w);
      CountKeepsCounters(w);
    }
  }

  lemma InvokeKeepsControl(c: Control, w: Pipe, t: Tid, call: Call)
    requires ControlInv(c) && WorkerInv(c, w) && PcOf(c, t) == Idle
    ensures ControlInv(Goto(c, t, EntryPoint(call))) && WorkerInv(Goto(c, t, EntryPoint(call)), w)
  {
    var c' := Goto(c, t, EntryPoint(call));
    forall u: Tid ensures Local(c', u, PcOf(c', u)) {
      assert Local(c, u, PcOf(c, u));
    }
  }

  lemma InvokeKeeps(p: Params, s: State, t: Tid, call: Call)
    requires Inv(p, s)
    ensures Inv(p, Apply(p, s, Invoke(t, call)))
  {
    if PcOf(s.c, t) == Idle {
      InvokeKeepsControl(s.c, s.w, t, call);
    }
  }

  lemma AdvanceKeeps(p: Params, s: State, t: Tid, now: int)
    requires Inv(p, s)
    ensures Inv(p, Apply(p, s, Advance(t, now)))
  {
    CallerKeepsControl(s.c, s.w.wg, t, now);
    CallerKeepsWorker(p, s, t, now);
    CallerKeepsFlow(p, s, t, now);
  }

  lemma StepKeeps(p: Params, s: State, step: Step)
    requires Inv(p, s)
    ensures Inv(p, Apply(p, s, step))
  {
    if step.Invoke? {
      InvokeKeeps(p, s, step.t, step.call);
    } else if step.Advance? {
      AdvanceKeeps(p, s, step.t, step.now);
    } else {
      WorkerKeepsBatches(p, s, step);
      WorkerKeepsFlow(p, s.w, s.c.chClosed, step);
    }
  }

  /** The invariant holds in every reachable state. */
  lemma {:induction false} RunKeeps(p: Params, s: State, steps: seq<Step>)
    requires Inv(p, s)
    ensures Inv(p, Run(p, s, steps))
    decreases |steps|
  {
    if steps != [] {
      StepKeeps(p, s, steps[0]);
      RunKeeps(p, Apply(p, s, steps[0]), steps[1..]);
    }
  }

  lemma InitInv(p: Params)
    ensures Inv(p, INIT)
  {
    assert forall t: Tid :: Local(INIT.c, t, PcOf(INIT.c, t));
  }
}
