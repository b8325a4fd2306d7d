// Nothing is stranded: left to themselves, the loops, the calls in flight and
// the kernel's message delivery come to rest after a bounded number of steps,
// and then every work item has run, is still parked, or belongs to a runtime
// that is not inside run().
module RuntimeProgress {
  import opened Common
  import opened Runtime
  import opened RuntimeRuns

  /** Steps that only carry on with what has been asked: no new call by user
      code, no new run(), no completion of an operation. */
  predicate Service(s: State, step: Step) {
    && Enabled(s, step)
    && match step
       case Advance(_) => true
       case Kernel(r, k, _) => s.loops[r].kernel[k].Send?
       case Local(_, act) => act !in {Enter, StartOp, SubmitNow}
       case _ => false
  }

  predicate ServiceRuns(s: State, steps: seq<Step>, s': State)
    decreases |steps|
  {
    if steps == [] then s == s'
    else Service(s, steps[0]) && ServiceRuns(Next(s, steps[0]), steps[1..], s')
  }

  ghost predicate Settled(s: State) {
    forall step :: !Service(s, step)
  }

  // ----- the rank -----

  function CallRank(c: Call): nat {
    match c
    case Idle => 0
    case Submit => 1
    case Pend => 1
    case SendMsg(_) => 23
    case TakeLock(_) => 24
    case LoadFlag(_) => 25
    case StoreExit(_) => 26
  }

  function PcRank(pc: Pc, quiet: bool): nat {
    match pc
    case Off => 0
    case Leave => 1
    case Blocked => 4
    case Wait => 5
    case Check => 6
    case Pop => 7
    case Top => 9
    case Starting => 10
    case Reap(tick) => if !quiet then 3 else if tick then 8 else 10
    case Run(_) => 11
  }

  function Sends(sq: seq<Sqe>): nat {
    if sq == [] then 0 else Sends(sq[..|sq| - 1]) + if sq[|sq| - 1].Send? then 1 else 0
  }

  lemma {:induction false} SendsAppend(sq: seq<Sqe>, e: Sqe)
    ensures Sends(sq + [e]) == Sends(sq) + if e.Send? then 1 else 0
  {
    assert (sq + [e])[..|sq|] == sq;
  }

  lemma {:induction false} SendsConcat(a: seq<Sqe>, b: seq<Sqe>)
    ensures Sends(a + b) == Sends(a) + Sends(b)
  {
    if b == [] {
      assert a + b == a;
    } else {
      assert (a + b)[..|a + b| - 1] == a + b[..|b| - 1];
      SendsConcat(a, b[..|b| - 1]);
    }
  }

  lemma {:induction false} SendsRemove(sq: seq<Sqe>, k: nat)
    requires k < |sq|
    ensures Sends(sq[..k] + sq[k + 1..]) == Sends(sq) - if sq[k].Send? then 1 else 0
  {
    var n := |sq| - 1;
    var rest := sq[..k] + sq[k + 1..];
    if k == n {
      assert rest == sq[..n];
    } else {
      assert rest[..n - 1] == sq[..n][..k] + sq[..n][k + 1..];
      SendsRemove(sq[..n], k);
    }
  }

  function LoopRank(l: Loop): nat {
    PcRank(l.pc, l.cq == []) + 10 * (|l.local| + |l.global| + |l.cq|)
    + 21 * (Sends(l.sq) + Sends(l.kernel)) + CallRank(l.call)
  }

  function LoopRanks(loops: seq<Loop>): nat {
    if loops == [] then 0 else LoopRanks(loops[..|loops| - 1]) + LoopRank(loops[|loops| - 1])
  }

  function CallRanks(threads: seq<Call>): nat {
    if threads == [] then 0 else CallRanks(threads[..|threads| - 1]) + CallRank(threads[|threads| - 1])
  }

  function Rank(s: State): nat {
    LoopRanks(s.loops) + CallRanks(s.threads)
  }

  lemma {:induction false} LoopRanksUpdate(loops: seq<Loop>, r: nat, l: Loop)
    requires r < |loops|
    ensures LoopRanks(loops[r := l]) == LoopRanks(loops) - LoopRank(loops[r]) + LoopRank(l)
  {
    var n := |loops| - 1;
    if r == n {
      assert loops[r := l][..n] == loops[..n];
    } else {
      assert loops[r := l][..n] == loops[..n][r := l];
      LoopRanksUpdate(loops[..n], r, l);
    }
  }

  lemma {:induction false} CallRanksUpdate(threads: seq<Call>, k: nat, c: Call)
    requires k < |threads|
    ensures CallRanks(threads[k := c]) == CallRanks(threads) - CallRank(threads[k]) + CallRank(c)
  {
    var n := |threads| - 1;
    if k == n {
      assert threads[k := c][..n] == threads[..n];
    } else {
      assert threads[k := c][..n] == threads[..n][k := c];
      CallRanksUpdate(threads[..n], k, c);
    }
  }

  lemma SetLoopRank(s: State, r: nat, l: Loop)
    requires r < |s.loops|
    ensures Rank(SetLoop(s, r, l)) == Rank(s) - LoopRank(s.loops[r]) + LoopRank(l)
  {
    LoopRanksUpdate(s.loops, r, l);
  }

  lemma SetCallRank(s: State, a: Agent, c: Call)
    requires IsAgent(s, a)
    ensures Rank(SetCall(s, a, c)) == Rank(s) - CallRank(CallOf(s, a)) + CallRank(c)
  {
    match a
    case Own(r) => SetLoopRank(s, r, s.loops[r].(call := c));
    case Thread(k) => CallRanksUpdate(s.threads, k, c);
  }

  // ----- every service step lowers it -----

  lemma PerformLowersRank(l: Loop, act: Act)
    requires Can(l, act) && act !in {Enter, StartOp, SubmitNow}
    ensures LoopRank(Perform(l, act)) < LoopRank(l)
  {
    match act
    case ReapOne => ReapLowersRank(l);
    case SubmitAndWait => SendsConcat(l.kernel, l.sq);
    case _ =>
  }

  lemma ProcessRank(l: Loop, c: Cqe)
    requires l.pc.Reap?
    ensures LoopRank(Process(l, c)) <= LoopRank(l) - PcRank(l.pc, l.cq == []) + 11
  {
    if c.Told? && c.msg.Job? {
      assert LoopRank(Invoke(l, c.msg.work, Completion(l.pc.tick, false)))
          == LoopRank(l) - PcRank(l.pc, l.cq == []) + 11;
    } else if c.Told? && c.msg.Cancel? {
      SendsAppend(l.sq, CancelOp(c.msg.op));
    }
  }

  lemma ReapLowersRank(l: Loop)
    requires Can(l, ReapOne)
    ensures LoopRank(Perform(l, ReapOne)) < LoopRank(l)
  {
    ProcessRank(l.(cq := l.cq[1..]), l.cq[0]);
  }

  lemma TellRaisesRank(s: State, p: Parcel)
    requires p.to < |s.loops|
    ensures Rank(Tell(s, p)) <= Rank(s) + 10
  {
    var l := s.loops[p.to];
    SetLoopRank(s, p.to, l.(cq := l.cq + [Told(p.msg)]));
  }

  lemma QueueSendRank(l: Loop, p: Parcel, c: Call)
    requires l.call == SendMsg(p) && c in {Idle, Submit}
    ensures LoopRank(l.(sq := l.sq + [Send(p)], pending := l.pending + 1, call := c)) < LoopRank(l)
  {
    SendsAppend(l.sq, Send(p));
  }

  lemma ForwardLowersRank(s: State, a: Agent, p: Parcel)
    requires IsAgent(s, a) && CallOf(s, a) == SendMsg(p)
    ensures Rank(Forward(s, a, p)) < Rank(s)
  {
    match a
    case Thread(_) =>
      SetCallRank(s, a, Idle);
      if p.to < |s.loops| {
        TellRaisesRank(SetCall(s, a, Idle), p);
      }
    case Own(r) =>
      QueueSendRank(s.loops[r], p, if p.msg.Job? then Idle else Submit);
      SetLoopRank(s, r, Forward(s, a, p).loops[r]);
  }

  lemma TakeLockLowersRank(s: State, a: Agent, p: Parcel)
    requires IsAgent(s, a) && CallOf(s, a) == TakeLock(p)
    ensures Rank(Continue(s, a)) < Rank(s)
  {
    if FlagIsSet(s, p.to) {
      SetCallRank(s, a, SendMsg(p));
    } else {
      SetCallRank(s, a, Idle);
      var s1 := SetCall(s, a, Idle);
      if p.to < |s.loops| && p.msg.Job? {
        SetLoopRank(s1, p.to, s1.loops[p.to].(global := s1.loops[p.to].global + [p.msg.work]));
      }
    }
  }

  lemma StoreExitLowersRank(s: State, a: Agent, to: nat)
    requires IsAgent(s, a) && CallOf(s, a) == StoreExit(to)
    ensures Rank(Continue(s, a)) < Rank(s)
  {
    var c := if a == Own(to) then Idle else LoadFlag(Parcel(to, Wake));
    var s1 := SetCall(s, a, c);
    SetCallRank(s, a, c);
    if to < |s.loops| {
      SetLoopRank(s1, to, s1.loops[to].(exitAllowed := true));
    }
  }

  lemma OwnCallLowersRank(s: State, a: Agent)
    requires IsAgent(s, a) && CallOf(s, a) in {Submit, Pend}
    ensures Rank(Continue(s, a)) < Rank(s)
  {
    var s1 := SetCall(s, a, Idle);
    SetCallRank(s, a, Idle);
    if a.Own? {
      var l := s1.loops[a.loop];
      if CallOf(s, a) == Submit {
        SendsConcat(l.kernel, l.sq);
        SetLoopRank(s1, a.loop, Flush(l));
      } else {
        SetLoopRank(s1, a.loop, l.(pending := l.pending + 1));
      }
    }
  }

  lemma AdvanceLowersRank(s: State, a: Agent)
    requires Enabled(s, Advance(a))
    ensures Rank(Continue(s, a)) < Rank(s)
  {
    match CallOf(s, a)
    case Idle =>
    case StoreExit(to) => StoreExitLowersRank(s, a, to);
    case LoadFlag(p) =>
      SetCallRank(s, a, if FlagIsSet(s, p.to) then SendMsg(p) else if p.msg.Job? then TakeLock(p) else Idle);
    case TakeLock(p) => TakeLockLowersRank(s, a, p);
    case SendMsg(p) => ForwardLowersRank(s, a, p);
    case Submit => OwnCallLowersRank(s, a);
    case Pend => OwnCallLowersRank(s, a);
  }

  lemma DeliverLowersRank(s: State, r: nat, k: nat, more: bool)
    requires Enabled(s, Kernel(r, k, more)) && s.loops[r].kernel[k].Send?
    ensures Rank(KernelActs(s, r, k, more)) < Rank(s)
  {
    var l := s.loops[r];
    var l1 := l.(kernel := l.kernel[..k] + l.kernel[k + 1..], cq := l.cq + [Ack]);
    SendsRemove(l.kernel, k);
    SetLoopRank(s, r, l1);
    if l.kernel[k].parcel.to < |s.loops| {
      TellRaisesRank(SetLoop(s, r, l1), l.kernel[k].parcel);
    }
  }

  lemma ServiceLowersRank(s: State, step: Step)
    requires Service(s, step)
    ensures Rank(Next(s, step)) < Rank(s)
  {
    match step
    case Local(r, act) =>
      PerformLowersRank(s.loops[r], act);
      SetLoopRank(s, r, Perform(s.loops[r], act));
    case Advance(a) => AdvanceLowersRank(s, a);
    case Kernel(r, k, more) => DeliverLowersRank(s, r, k, more);
    case _ =>
  }

  /** A run of service steps is no longer than the rank it starts from. */
  lemma {:induction false} ServiceEnds(s: State, steps: seq<Step>, s': State)
    requires ServiceRuns(s, steps, s')
    ensures |steps| + Rank(s') <= Rank(s)
    decreases |steps|
  {
    if steps != [] {
      ServiceLowersRank(s, steps[0]);
      ServiceEnds(Next(s, steps[0]), steps[1..], s');
    }
  }

  lemma {:induction false} ServiceKeepsInv(s: State, steps: seq<Step>, s': State)
    requires Inv(s) && ServiceRuns(s, steps, s')
    ensures Inv(s')
    decreases |steps|
  {
    if steps != [] {
      StepKeepsInv(s, steps[0]);
      ServiceKeepsInv(Next(s, steps[0]), steps[1..], s');
    }
  }

  // ----- at rest -----

  lemma SettledLoop(s: State, r: nat)
    requires Inv(s) && Settled(s) && r < |s.loops|
    ensures var l := s.loops[r];
            && l.call == Idle
            && (l.pc.Off? || (l.pc.Blocked? && l.cq == []))
            && forall p :: Send(p) !in l.sq && Send(p) !in l.kernel
  {
    var l := s.loops[r];
    assert Orderly(l);
    assert !Service(s, Advance(Own(r)));
    var act := match l.pc
      case Off => Return
      case Starting => StartUp
      case Top => Tick
      case Pop => PopLocal
      case Check => CheckExit
      case Wait => SubmitAndWait
      case Blocked => Return
      case Reap(_) => if l.cq == [] then ReapEnd else ReapOne
      case Run(_) => EndRun
      case Leave => LeaveRun;
    assert !Service(s, Local(r, act));
    forall p ensures Send(p) !in l.sq && Send(p) !in l.kernel {
      if Send(p) in l.sq {
        DueHas(l.sq, Send(p));
        assert false;
      }
      if Send(p) in l.kernel {
        var k :| 0 <= k < |l.kernel| && l.kernel[k] == Send(p);
        assert Service(s, Kernel(r, k, false));
        assert false;
      }
    }
  }

  lemma SettledThreads(s: State)
    requires Settled(s)
    ensures forall k :: 0 <= k < |s.threads| ==> s.threads[k] == Idle
  {
    forall k | 0 <= k < |s.threads| ensures s.threads[k] == Idle {
      assert !Service(s, Advance(Thread(k)));
    }
  }

  lemma SettledPlaces(s: State, p: Parcel)
    requires Inv(s) && Settled(s) && Places(s, p) > 0
    ensures p.to < |s.loops| && Here(s.loops[p.to], p.msg) > 0
  {
    SettledThreads(s);
    InThreadsNone(s.threads, p);
    var r := InLoopsSomewhere(s.loops, p);
    SettledLoop(s, r);
    TimesIn(s.loops[r].sq, Send(p));
    TimesIn(s.loops[r].kernel, Send(p));
  }

  /** Where a work item of a runtime at rest can be. */
  predicate Resting(l: Loop, w: Work) {
    match l.pc
    case Blocked => w in l.ran || w in l.parked
    case Off => w in l.ran || if l.enabled then Told(Job(w)) in l.cq else w in l.global
    case _ => false
  }

  lemma RestingJob(s: State, p: Parcel)
    requires Inv(s) && Settled(s) && p in s.made
    ensures p.msg.Job? && p.to < |s.loops| && Resting(s.loops[p.to], p.msg.work)
  {
    TimesIn(s.made, p);
    assert Places(s, p) == Times(s.made, p);
    SettledPlaces(s, p);
    SettledLoop(s, p.to);
    var l, w := s.loops[p.to], p.msg.work;
    assert Orderly(l);
    TimesIn(l.cq, Told(Job(w)));
    TimesIn(l.global, w);
    TimesIn(l.local, w);
    TimesIn(l.ran, w);
  }

  lemma RestingExit(s: State, r: nat)
    requires Inv(s) && Settled(s) && r < |s.loops| && !s.loops[r].pc.Off?
    ensures !(s.loops[r].exitAllowed && s.loops[r].pending == 0)
  {
    SettledLoop(s, r);
    assert Woken(s, r);
    if Places(s, Parcel(r, Wake)) > 0 {
      SettledPlaces(s, Parcel(r, Wake));
    }
  }

  /** From any reachable state the system comes to rest within `Rank` service
      steps. At rest, every work item ever scheduled on a runtime that is inside
      run() has run or is still parked; work for a runtime outside run() is kept
      for its next run; no call and no message is under way, and none is unread at a runtime inside
      run(); and no runtime sits at its wait with an exit due. */
  lemma {:induction false} NothingIsStranded(s0: State, before: seq<Step>, s: State, steps: seq<Step>, s': State)
    requires Initial(s0) && Runs(s0, before, s) && ServiceRuns(s, steps, s')
    ensures |steps| <= Rank(s)
    ensures Settled(s') ==>
              forall p :: p in s'.made ==> p.msg.Job? && p.to < |s'.loops| && Resting(s'.loops[p.to], p.msg.work)
    ensures Settled(s') ==>
              && (forall k :: 0 <= k < |s'.threads| ==> s'.threads[k] == Idle)
              && (forall r :: 0 <= r < |s'.loops| ==>
                    && s'.loops[r].call == Idle && (!s'.loops[r].pc.Off? ==> s'.loops[r].cq == [])
                    && forall p :: Send(p) !in s'.loops[r].sq && Send(p) !in s'.loops[r].kernel)
    ensures Settled(s') ==>
              forall r :: 0 <= r < |s'.loops| && !s'.loops[r].pc.Off? ==>
                !(s'.loops[r].exitAllowed && s'.loops[r].pending == 0)
  {
    InitialIsInv(s0);
    RunKeepsInv(s0, before, s);
    ServiceKeepsInv(s, steps, s');
    ServiceEnds(s, steps, s');
    if Settled(s') {
      SettledThreads(s');
      forall r | 0 <= r < |s'.loops|
        ensures s'.loops[r].call == Idle && (!s'.loops[r].pc.Off? ==> s'.loops[r].cq == [])
        ensures forall p :: Send(p) !in s'.loops[r].sq && Send(p) !in s'.loops[r].kernel
      {
        SettledLoop(s', r);
      }
      forall p | p in s'.made
        ensures p.msg.Job? && p.to < |s'.loops| && Resting(s'.loops[p.to], p.msg.work)
      {
        RestingJob(s', p);
      }
      forall r | 0 <= r < |s'.loops| && !s'.loops[r].pc.Off?
        ensures !(s'.loops[r].exitAllowed && s'.loops[r].pending == 0)
      {
        RestingExit(s', r);
      }
    }
  }
}
