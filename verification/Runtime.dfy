// The event loops of any number of runtimes, the threads that call into them,
// and the kernel's side of their rings, as one interleaved state machine
// (runtime.hpp). Every atomic load or store, every mutex section and every
// kernel action is one step; code that only its own loop thread can see is
// merged into the neighbouring step.
module Runtime {
  /** Something a runtime will invoke once. `waits` marks the completion of a
      parked channel, futex or task wait, which lowers the pending counter. */
  datatype Work = Work(id: nat, waits: bool)

  datatype Msg = Job(work: Work) | Wake | Cancel(op: nat)

  /** A message with the runtime it is meant for. */
  datatype Parcel = Parcel(to: nat, msg: Msg)

  datatype Sqe = Send(parcel: Parcel) | Op | CancelOp(op: nat)

  /** `Told` arrives from another ring; `Ack` answers an own `Send`; `More` and
      `Last` are the completions of an own operation. */
  datatype Cqe = Told(msg: Msg) | Ack | More | Last

  /** Where a thread stands inside schedule_internal, cancel_internal,
      allow_exit or the start of a parked wait. */
  datatype Call =
    | Idle
    | StoreExit(to: nat)
    | LoadFlag(parcel: Parcel)
    | TakeLock(parcel: Parcel)
    | SendMsg(parcel: Parcel)
    | Submit
    | Pend

  datatype From = Queue | Completion(tick: bool, last: bool)

  datatype Pc = Off | Starting | Top | Pop | Check | Wait | Blocked | Reap(tick: bool) | Run(from: From) | Leave

  /** One runtime. `ticks` counts turns of the loop since the ring was last polled, up to `interval`.
      `parked` holds its waiters still linked in some list; `waits` (its unfinished waits) and `ran`
      are history. */
  datatype Loop = Loop(
    interval: nat, ticks: nat, enabled: bool, exitAllowed: bool,
    global: seq<Work>, local: seq<Work>,
    sq: seq<Sqe>, kernel: seq<Sqe>, cq: seq<Cqe>,
    pending: int, pc: Pc, call: Call,
    parked: set<Work>, waits: set<Work>, ran: seq<Work>)

  /** `made` lists every work item ever created. */
  datatype State = State(loops: seq<Loop>, threads: seq<Call>, made: seq<Parcel>)

  /** A loop's own thread, or a thread that runs no loop. */
  datatype Agent = Own(loop: nat) | Thread(id: nat)

  // ----- what one loop does by itself -----

  datatype Act =
    | Enter | StartUp | Tick | PopLocal | CheckExit | SubmitAndWait | Return
    | ReapOne | ReapEnd | EndRun | LeaveRun | StartOp | SubmitNow

  predicate Can(l: Loop, act: Act) {
    match act
    case Enter => l.pc.Off?
    case StartUp => l.pc.Starting?
    case Tick => l.pc.Top?
    case PopLocal => l.pc.Pop?
    case CheckExit => l.pc.Check?
    case SubmitAndWait => l.pc.Wait?
    case Return => l.pc.Blocked? && l.cq != []
    case ReapOne => l.pc.Reap? && l.cq != []
    case ReapEnd => l.pc.Reap? && l.cq == []
    case EndRun => l.pc.Run? && l.call == Idle
    case LeaveRun => l.pc.Leave?
    case StartOp => l.pc.Run? && l.call == Idle
    case SubmitNow => l.pc.Run? || l.pc.Reap?
  }

  function Perform(l: Loop, act: Act): Loop
    requires Can(l, act)
  {
    match act
    case Enter => l.(pc := if l.enabled then Reap(false) else Starting)
    case StartUp => l.(local := l.local + l.global, global := [], enabled := true, pc := Top)
    case Tick =>
      if l.ticks + 1 >= l.interval then l.(ticks := 0, pc := Reap(true)) else l.(ticks := l.ticks + 1, pc := Pop)
    case PopLocal =>
      if l.local == [] then l.(pc := Check) else Invoke(l.(local := l.local[1..]), l.local[0], Queue)
    case CheckExit => l.(pc := if l.pending == 0 && l.exitAllowed then Leave else Wait)
    case SubmitAndWait => Flush(l).(pc := Blocked)
    case Return => l.(pc := Reap(false))
    case ReapOne => Process(l.(cq := l.cq[1..]), l.cq[0])
    case ReapEnd => l.(pc := if l.pc.tick then Pop else Top)
    case EndRun => Finish(l)
    case LeaveRun => l.(ticks := 0, exitAllowed := false, pc := Off)
    case StartOp => l.(sq := l.sq + [Op], pending := l.pending + 1)
    case SubmitNow => Flush(l)
  }

  function Flush(l: Loop): Loop {
    l.(kernel := l.kernel + l.sq, sq := [])
  }

  /** Invoking a work item; a finished wait first lowers the counter. */
  function Invoke(l: Loop, w: Work, from: From): Loop {
    var l' := l.(ran := l.ran + [w], pc := Run(from));
    if w.waits then l'.(pending := l.pending - 1, waits := l.waits - {w}) else l'
  }

  /** process_cqe_ on one completion. */
  function Process(l: Loop, c: Cqe): Loop
    requires l.pc.Reap?
  {
    match c
    case Told(Job(w)) => Invoke(l, w, Completion(l.pc.tick, false))
    case Told(Wake) => l
    case Told(Cancel(op)) => l.(sq := l.sq + [CancelOp(op)])
    case Ack => l.(pending := l.pending - 1)
    case More => l.(pc := Run(Completion(l.pc.tick, false)))
    case Last => l.(pc := Run(Completion(l.pc.tick, true)))
  }

  /** The invoked code returns; after a last completion the counter drops. */
  function Finish(l: Loop): Loop
    requires l.pc.Run?
  {
    match l.pc.from
    case Queue => l.(pc := Top)
    case Completion(tick, last) => l.(pc := Reap(tick), pending := if last then l.pending - 1 else l.pending)
  }

  // ----- what agents do to each other -----

  datatype Step =
    | Local(r: nat, act: Act)
    | Spawn(a: Agent, to: nat)                 // schedule a new work item
    | Park(r: nat)                             // link a waiter, counter not yet raised
    | AwaitTask(r: nat)                        // raise the counter, then register the joiner
    | Claim(a: Agent, to: nat, w: Work)        // unlink a waiter and schedule it
    | AllowExit(a: Agent, to: nat)
    | CancelFrom(a: Agent, to: nat, op: nat)   // ask `to` to cancel its operation `op`
    | Advance(a: Agent)                        // the next step of a call in flight
    | Kernel(r: nat, k: nat, more: bool)       // the kernel acts on a submitted entry

  predicate IsAgent(s: State, a: Agent) {
    match a
    case Own(r) => r < |s.loops|
    case Thread(k) => k < |s.threads|
  }

  function CallOf(s: State, a: Agent): Call
    requires IsAgent(s, a)
  {
    match a
    case Own(r) => s.loops[r].call
    case Thread(k) => s.threads[k]
  }

  /** Free to make a new call: an idle thread, or a loop running user code. */
  predicate MayCall(s: State, a: Agent) {
    IsAgent(s, a) && CallOf(s, a) == Idle && (a.Own? ==> s.loops[a.loop].pc.Run?)
  }

  predicate Enabled(s: State, step: Step) {
    match step
    case Local(r, act) => r < |s.loops| && Can(s.loops[r], act)
    case Spawn(a, to) => MayCall(s, a) && to < |s.loops|
    case Park(r) => MayCall(s, Own(r))
    case AwaitTask(r) => MayCall(s, Own(r))
    case Claim(a, to, w) => MayCall(s, a) && to < |s.loops| && w in s.loops[to].parked
    case AllowExit(a, to) => MayCall(s, a) && to < |s.loops|
    case CancelFrom(a, to, _) => MayCall(s, a) && to < |s.loops|
    case Advance(a) => IsAgent(s, a) && CallOf(s, a) != Idle
    case Kernel(r, k, more) => r < |s.loops| && k < |s.loops[r].kernel|
  }

  function SetLoop(s: State, r: nat, l: Loop): State
    requires r < |s.loops|
  {
    s.(loops := s.loops[r := l])
  }

  function SetCall(s: State, a: Agent, c: Call): State
    requires IsAgent(s, a)
  {
    match a
    case Own(r) => SetLoop(s, r, s.loops[r].(call := c))
    case Thread(k) => s.(threads := s.threads[k := c])
  }

  /** A loop once a waiter of its own is linked; `now` if the counter is raised
      before the waiter becomes visible, otherwise that is still to do. */
  function Linked(l: Loop, w: Work, now: bool): Loop {
    var l' := l.(parked := l.parked + {w}, waits := l.waits + {w});
    if now then l'.(pending := l.pending + 1) else l'.(call := Pend)
  }

  function Link(s: State, r: nat, now: bool): State
    requires r < |s.loops|
  {
    var w := Work(|s.made|, true);
    SetLoop(s, r, Linked(s.loops[r], w, now)).(made := s.made + [Parcel(r, Job(w))])
  }

  /** The first step of schedule_internal: the own loop is served at once. */
  function Schedule(s: State, a: Agent, to: nat, w: Work): State
    requires IsAgent(s, a) && to < |s.loops|
  {
    if a == Own(to) then SetLoop(s, to, s.loops[to].(local := s.loops[to].local + [w]))
    else SetCall(s, a, LoadFlag(Parcel(to, Job(w))))
  }

  /** Next for a call in flight whose target is `p.to`. */
  function Forward(s: State, a: Agent, p: Parcel): State
    requires IsAgent(s, a)
  {
    match a
    case Thread(_) =>
      var s1 := SetCall(s, a, Idle);
      if p.to < |s.loops| then Tell(s1, p) else s1
    case Own(r) =>
      var l := s.loops[r];
      SetLoop(s, r, l.(sq := l.sq + [Send(p)], pending := l.pending + 1,
                       call := if p.msg.Job? then Idle else Submit))
  }

  function Tell(s: State, p: Parcel): State
    requires p.to < |s.loops|
  {
    SetLoop(s, p.to, s.loops[p.to].(cq := s.loops[p.to].cq + [Told(p.msg)]))
  }

  predicate FlagIsSet(s: State, r: nat) {
    r < |s.loops| && s.loops[r].enabled
  }

  function Continue(s: State, a: Agent): State
    requires IsAgent(s, a)
  {
    match CallOf(s, a)
    case Idle => s
    case StoreExit(to) =>
      var s1 := SetCall(s, a, if a == Own(to) then Idle else LoadFlag(Parcel(to, Wake)));
      if to < |s.loops| then SetLoop(s1, to, s1.loops[to].(exitAllowed := true)) else s1
    case LoadFlag(p) =>
      SetCall(s, a, if FlagIsSet(s, p.to) then SendMsg(p) else if p.msg.Job? then TakeLock(p) else Idle)
    case TakeLock(p) =>
      if FlagIsSet(s, p.to) then SetCall(s, a, SendMsg(p)) else
      var s1 := SetCall(s, a, Idle);
      if p.to < |s.loops| && p.msg.Job? then
        SetLoop(s1, p.to, s1.loops[p.to].(global := s1.loops[p.to].global + [p.msg.work]))
      else s1
    case SendMsg(p) => Forward(s, a, p)
    case Submit =>
      var s1 := SetCall(s, a, Idle);
      if a.Own? then SetLoop(s1, a.loop, Flush(s1.loops[a.loop])) else s1
    case Pend =>
      var s1 := SetCall(s, a, Idle);
      if a.Own? then SetLoop(s1, a.loop, s1.loops[a.loop].(pending := s1.loops[a.loop].pending + 1)) else s1
  }

  /** A submitted entry is carried out. A message posts to its target and is
      acknowledged; an operation posts `More` or its `Last` completion; a cancel
      request completes silently unless it found nothing. */
  function KernelActs(s: State, r: nat, k: nat, more: bool): State
    requires r < |s.loops| && k < |s.loops[r].kernel|
  {
    var l := s.loops[r];
    var rest := l.kernel[..k] + l.kernel[k + 1..];
    match l.kernel[k]
    case Send(p) =>
      var s1 := SetLoop(s, r, l.(kernel := rest, cq := l.cq + [Ack]));
      if p.to < |s.loops| then Tell(s1, p) else s1
    case Op =>
      SetLoop(s, r, if more then l.(cq := l.cq + [More]) else l.(kernel := rest, cq := l.cq + [Last]))
    case CancelOp(_) =>
      SetLoop(s, r, l.(kernel := rest, cq := if more then l.cq + [Told(Wake)] else l.cq))
  }

  function Next(s: State, step: Step): State
    requires Enabled(s, step)
  {
    match step
    case Local(r, act) => SetLoop(s, r, Perform(s.loops[r], act))
    case Spawn(a, to) =>
      var w := Work(|s.made|, false);
      Schedule(s.(made := s.made + [Parcel(to, Job(w))]), a, to, w)
    case Park(r) => Link(s, r, false)
    case AwaitTask(r) => Link(s, r, true)
    case Claim(a, to, w) =>
      Schedule(SetLoop(s, to, s.loops[to].(parked := s.loops[to].parked - {w})), a, to, w)
    case AllowExit(a, to) => SetCall(s, a, StoreExit(to))
    case CancelFrom(a, to, op) =>
      if a == Own(to) then SetLoop(s, to, s.loops[to].(sq := s.loops[to].sq + [CancelOp(op)]))
      else SetCall(s, a, LoadFlag(Parcel(to, Cancel(op))))
    case Advance(a) => Continue(s, a)
    case Kernel(r, k, more) => KernelActs(s, r, k, more)
  }

  predicate Runs(s: State, steps: seq<Step>, s': State)
    decreases |steps|
  {
    if steps == [] then s == s'
    else Enabled(s, steps[0]) && Runs(Next(s, steps[0]), steps[1..], s')
  }

  predicate Fresh(l: Loop) {
    l == Loop(l.interval, 0, false, false, [], [], [], [], [], 0, Off, Idle, {}, {}, [])
  }

  /** Nothing has happened yet: every runtime is new and every thread idle. */
  predicate Initial(s: State) {
    && (forall r :: 0 <= r < |s.loops| ==> Fresh(s.loops[r]))
    && (forall k :: 0 <= k < |s.threads| ==> s.threads[k] == Idle)
    && s.made == []
  }
}
