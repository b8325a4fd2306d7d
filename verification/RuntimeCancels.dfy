// What becomes of a cancel: one asked of another runtime travels as a message, is
// turned into a cancel request of that runtime's own ring, and reaches the kernel
// there, unless the ring was not yet enabled when the caller looked (runtime.hpp).
module RuntimeCancels {
  import opened Common
  import opened Runtime
  import opened RuntimeProgress
  import opened RuntimeRuns

  /** The cancel of operation `op` of runtime `r`. */
  function CancelOf(r: nat, op: nat): Parcel {
    Parcel(r, Cancel(op))
  }

  predicate Asks(step: Step, r: nat, op: nat) {
    step.CancelFrom? && step.to == r && step.op == op
  }

  /** The caller finds the ring not enabled and gives up. */
  predicate Drops(s: State, step: Step, r: nat, op: nat)
    requires Enabled(s, step)
  {
    step.Advance? && CallOf(s, step.a) == LoadFlag(CancelOf(r, op)) && !FlagIsSet(s, r)
  }

  /** The kernel carries out the request, on the right ring and for the right operation. */
  predicate CarriesOut(s: State, step: Step, r: nat, op: nat)
    requires Enabled(s, step)
  {
    step.Kernel? && step.r == r && s.loops[r].kernel[step.k] == CancelOp(op)
  }

  function Asked(steps: seq<Step>, r: nat, op: nat): nat {
    if steps == [] then 0 else (if Asks(steps[0], r, op) then 1 else 0) + Asked(steps[1..], r, op)
  }

  function Dropped(s: State, steps: seq<Step>, r: nat, op: nat): nat
    decreases |steps|
  {
    if steps == [] || !Enabled(s, steps[0]) then 0
    else (if Drops(s, steps[0], r, op) then 1 else 0) + Dropped(Next(s, steps[0]), steps[1..], r, op)
  }

  function CarriedOut(s: State, steps: seq<Step>, r: nat, op: nat): nat
    decreases |steps|
  {
    if steps == [] || !Enabled(s, steps[0]) then 0
    else (if CarriesOut(s, steps[0], r, op) then 1 else 0) + CarriedOut(Next(s, steps[0]), steps[1..], r, op)
  }

  // ----- every step -----

  lemma OwnAskAddsAPlace(s: State, to: nat, op: nat, p: Parcel)
    requires to < |s.loops|
    ensures var l := s.loops[to];
            Places(SetLoop(s, to, l.(sq := l.sq + [CancelOp(op)])), p) ==
            Places(s, p) + if p == CancelOf(to, op) then 1 else 0
  {
    var l := s.loops[to];
    SetLoopPlaces(s, to, l.(sq := l.sq + [CancelOp(op)]), p);
    EntryPlaces(to, l, CancelOp(op), p);
  }

  lemma AskingAddsAPlace(s: State, a: Agent, to: nat, op: nat, p: Parcel)
    requires Enabled(s, CancelFrom(a, to, op))
    ensures Places(Next(s, CancelFrom(a, to, op)), p) == Places(s, p) + if p == CancelOf(to, op) then 1 else 0
  {
    if a == Own(to) {
      OwnAskAddsAPlace(s, to, op, p);
    } else {
      SetCallPlaces(s, a, LoadFlag(CancelOf(to, op)), p);
      assert CallOf(s, a) == Idle;
    }
  }

  lemma StoringExitMovesNothing(s: State, a: Agent, to: nat, p: Parcel)
    requires IsAgent(s, a) && CallOf(s, a) == StoreExit(to) && p.msg.Cancel?
    ensures Places(Continue(s, a), p) == Places(s, p)
  {
    var c := if a == Own(to) then Idle else LoadFlag(Parcel(to, Wake));
    var s1 := SetCall(s, a, c);
    SetCallPlaces(s, a, c, p);
    if to < |s.loops| { SetLoopPlaces(s1, to, s1.loops[to].(exitAllowed := true), p); }
  }

  lemma LoadingTheFlag(s: State, a: Agent, q: Parcel, p: Parcel)
    requires IsAgent(s, a) && CallOf(s, a) == LoadFlag(q) && p.msg.Cancel?
    ensures Places(Continue(s, a), p) == Places(s, p) - if p == q && !FlagIsSet(s, p.to) then 1 else 0
  {
    SetCallPlaces(s, a, if FlagIsSet(s, q.to) then SendMsg(q) else if q.msg.Job? then TakeLock(q) else Idle, p);
  }

  lemma TakingTheLock(s: State, a: Agent, q: Parcel, p: Parcel)
    requires Inv(s) && IsAgent(s, a) && CallOf(s, a) == TakeLock(q) && p.msg.Cancel?
    ensures Places(Continue(s, a), p) == Places(s, p)
  {
    CallIsOk(s, a);
    if FlagIsSet(s, q.to) {
      SetCallPlaces(s, a, SendMsg(q), p);
    } else {
      SetCallPlaces(s, a, Idle, p);
      GlobalPlaces(SetCall(s, a, Idle), q.to, q.msg.work, p);
    }
  }

  lemma SendingMoves(s: State, a: Agent, q: Parcel, p: Parcel)
    requires Inv(s) && IsAgent(s, a) && CallOf(s, a) == SendMsg(q)
    ensures Places(Continue(s, a), p) == Places(s, p)
  {
    CallIsOk(s, a);
    match a
    case Thread(_) =>
      SetCallPlaces(s, a, Idle, p);
      TellPlaces(SetCall(s, a, Idle), q, p);
    case Own(r) =>
      var l, l' := s.loops[r], Continue(s, a).loops[r];
      SetLoopPlaces(s, r, l', p);
      LoopSendPlaces(r, l, l', q, p);
  }

  lemma OwnCallMovesNothing(s: State, r: nat, p: Parcel)
    requires r < |s.loops| && CallOf(s, Own(r)) in {Submit, Pend}
    ensures Places(Continue(s, Own(r)), p) == Places(s, p)
  {
    var s1 := SetCall(s, Own(r), Idle);
    var l := s1.loops[r];
    SetCallPlaces(s, Own(r), Idle, p);
    FlushKeepsPlaces(r, l, p);
    SetLoopPlaces(s1, r, Flush(l), p);
    SetLoopPlaces(s1, r, l.(pending := l.pending + 1), p);
  }

  lemma AdvancingMoves(s: State, a: Agent, r: nat, op: nat)
    requires Inv(s) && Enabled(s, Advance(a))
    ensures Places(Continue(s, a), CancelOf(r, op)) ==
            Places(s, CancelOf(r, op)) - if Drops(s, Advance(a), r, op) then 1 else 0
  {
    var p := CancelOf(r, op);
    CallIsOk(s, a);
    match CallOf(s, a)
    case Idle =>
    case StoreExit(to) => StoringExitMovesNothing(s, a, to, p);
    case LoadFlag(q) => LoadingTheFlag(s, a, q, p);
    case TakeLock(q) => TakingTheLock(s, a, q, p);
    case SendMsg(q) => SendingMoves(s, a, q, p);
    case Submit => OwnCallMovesNothing(s, a.loop, p);
    case Pend => OwnCallMovesNothing(s, a.loop, p);
  }

  lemma DeliveringMoves(s: State, r: nat, k: nat, more: bool, q: Parcel, p: Parcel)
    requires Inv(s) && Enabled(s, Kernel(r, k, more)) && s.loops[r].kernel[k] == Send(q) && p.msg.Cancel?
    ensures Places(KernelActs(s, r, k, more), p) == Places(s, p)
  {
    assert SqOk(s, s.loops[r].kernel);
    AnswerPlaces(s, r, k, [Ack], p);
    TellPlaces(SetLoop(s, r, Answered(s.loops[r], k, [Ack])), q, p);
  }

  lemma KernelMoves(s: State, at: nat, k: nat, more: bool, r: nat, op: nat)
    requires Inv(s) && Enabled(s, Kernel(at, k, more))
    ensures Places(KernelActs(s, at, k, more), CancelOf(r, op)) ==
            Places(s, CancelOf(r, op)) - if CarriesOut(s, Kernel(at, k, more), r, op) then 1 else 0
  {
    var l, p := s.loops[at], CancelOf(r, op);
    match l.kernel[k]
    case Send(q) => DeliveringMoves(s, at, k, more, q, p);
    case Op =>
      if more {
        SetLoopPlaces(s, at, l.(cq := l.cq + [More]), p);
        TimesAppend(l.cq, More, Told(p.msg));
      } else {
        AnswerPlaces(s, at, k, [Last], p);
      }
    case CancelOp(_) =>
      assert l.cq + [] == l.cq;
      AnswerPlaces(s, at, k, if more then [Told(Wake)] else [], p);
  }

  lemma LinkMovesNothing(s: State, r: nat, now: bool, p: Parcel)
    requires Inv(s) && MayCall(s, Own(r)) && p.msg.Cancel?
    ensures Places(Link(s, r, now), p) == Places(s, p)
  {
    LinkPlaces(s, r, now, p);
  }

  /** Each step leaves every cancel where it was, moves it on, or is its beginning or its end. */
  lemma StepConserves(s: State, step: Step, r: nat, op: nat)
    requires Inv(s) && Enabled(s, step)
    ensures Places(Next(s, step), CancelOf(r, op)) + (if Drops(s, step, r, op) then 1 else 0)
            + (if CarriesOut(s, step, r, op) then 1 else 0) ==
            Places(s, CancelOf(r, op)) + if Asks(step, r, op) then 1 else 0
  {
    var p := CancelOf(r, op);
    match step
    case Local(i, act) =>
      SetLoopPlaces(s, i, Perform(s.loops[i], act), p);
      PerformKeepsPlaces(i, s.loops[i], act, p);
    case Spawn(a, to) =>
      var w := Work(|s.made|, false);
      SchedulePlaces(s.(made := s.made + [Parcel(to, Job(w))]), a, to, w, p);
    case Park(i) => LinkMovesNothing(s, i, false, p);
    case AwaitTask(i) => LinkMovesNothing(s, i, true, p);
    case Claim(a, to, w) => ClaimPlaces(s, a, to, w, p);
    case AllowExit(a, to) => SetCallPlaces(s, a, StoreExit(to), p);
    case CancelFrom(a, to, c) => AskingAddsAPlace(s, a, to, c, p);
    case Advance(a) => AdvancingMoves(s, a, r, op);
    case Kernel(i, k, more) => KernelMoves(s, i, k, more, r, op);
  }

  lemma {:induction false} RunConserves(s: State, steps: seq<Step>, s': State, r: nat, op: nat)
    requires Inv(s) && Runs(s, steps, s')
    ensures Places(s', CancelOf(r, op)) + Dropped(s, steps, r, op) + CarriedOut(s, steps, r, op) ==
            Places(s, CancelOf(r, op)) + Asked(steps, r, op)
    decreases |steps|
  {
    if steps != [] {
      StepConserves(s, steps[0], r, op);
      StepKeepsInv(s, steps[0]);
      RunConserves(Next(s, steps[0]), steps[1..], s', r, op);
    }
  }

  /**
   Every cancel ever asked for is in one place, has been carried out by the kernel of its own
   runtime for its own operation, or was dropped because that runtime's ring was not enabled.
   */
  lemma {:induction false} EveryCancelIsAccountedFor(s0: State, steps: seq<Step>, s: State, r: nat, op: nat)
    requires Initial(s0) && Runs(s0, steps, s)
    ensures Asked(steps, r, op) ==
            Places(s, CancelOf(r, op)) + Dropped(s0, steps, r, op) + CarriedOut(s0, steps, r, op)
  {
    InitialIsInv(s0);
    InLoopsNone(s0.loops, CancelOf(r, op));
    InThreadsNone(s0.threads, CancelOf(r, op));
    RunConserves(s0, steps, s, r, op);
  }

  // ----- at rest -----

  lemma {:induction false} NowhereElse(loops: seq<Loop>, r: nat, p: Parcel)
    requires forall i :: 0 <= i < |loops| && i != r ==> Held(i, loops[i], p) == 0
    ensures InLoops(loops, p) == if r < |loops| then Held(r, loops[r], p) else 0
  {
    if loops != [] { NowhereElse(loops[..|loops| - 1], r, p); }
  }

  lemma SettledHeld(s: State, i: nat, p: Parcel)
    requires Inv(s) && Settled(s) && i < |s.loops| && p.msg.Cancel?
    ensures Held(i, s.loops[i], p) == if p.to == i then Here(s.loops[i], p.msg) else 0
  {
    SettledLoop(s, i);
    TimesIn(s.loops[i].sq, Send(p));
    TimesIn(s.loops[i].kernel, Send(p));
  }

  /**
   At rest a cancel asked of a runtime inside run() is with the kernel or has been carried out; none
   is left in a call, as a message, or as a request that was not submitted.
   */
  lemma {:induction false} NoCancelIsStranded(s0: State, before: seq<Step>, s: State, r: nat, op: nat)
    requires Initial(s0) && Runs(s0, before, s) && Settled(s) && r < |s.loops| && !s.loops[r].pc.Off?
    ensures Places(s, CancelOf(r, op)) == Times(s.loops[r].kernel, CancelOp(op))
    ensures Asked(before, r, op) ==
            Times(s.loops[r].kernel, CancelOp(op)) + Dropped(s0, before, r, op) + CarriedOut(s0, before, r, op)
  {
    var p, l := CancelOf(r, op), s.loops[r];
    EveryCancelIsAccountedFor(s0, before, s, r, op);
    InitialIsInv(s0);
    RunKeepsInv(s0, before, s);
    SettledThreads(s);
    InThreadsNone(s.threads, p);
    forall i | 0 <= i < |s.loops| && i != r ensures Held(i, s.loops[i], p) == 0 { SettledHeld(s, i, p); }
    NowhereElse(s.loops, r, p);
    SettledHeld(s, r, p);
    SettledLoop(s, r);
    assert Orderly(l);
  }
}
