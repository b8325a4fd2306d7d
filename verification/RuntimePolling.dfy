// How often a runtime looks at its ring, and that it then takes everything there is:
// the tick counter of run() and the reaping of completions (runtime.hpp).
module RuntimePolling {
  import opened Runtime
  import opened RuntimeRuns

  // ----- what others can do to a loop -----

  /** The loop has not moved itself; completions may have arrived. */
  predicate Untouched(l: Loop, l': Loop) {
    && l'.pc == l.pc && l'.ticks == l.ticks && l'.interval == l.interval && l'.enabled == l.enabled
    && l'.ran == l.ran && l.cq <= l'.cq
  }

  lemma ForwardUntouched(s: State, a: Agent, p: Parcel, r: nat)
    requires IsAgent(s, a) && r < |s.loops|
    ensures r < |Forward(s, a, p).loops| && Untouched(s.loops[r], Forward(s, a, p).loops[r])
  {
  }

  lemma StoreExitUntouched(s: State, a: Agent, r: nat)
    requires IsAgent(s, a) && r < |s.loops| && CallOf(s, a).StoreExit?
    ensures r < |Continue(s, a).loops| && Untouched(s.loops[r], Continue(s, a).loops[r])
  {
  }

  lemma TakeLockUntouched(s: State, a: Agent, r: nat)
    requires IsAgent(s, a) && r < |s.loops| && CallOf(s, a).TakeLock?
    ensures r < |Continue(s, a).loops| && Untouched(s.loops[r], Continue(s, a).loops[r])
  {
  }

  lemma ContinueUntouched(s: State, a: Agent, r: nat)
    requires IsAgent(s, a) && r < |s.loops|
    ensures r < |Continue(s, a).loops| && Untouched(s.loops[r], Continue(s, a).loops[r])
  {
    var c := CallOf(s, a);
    if c.SendMsg? {
      ForwardUntouched(s, a, c.parcel, r);
    } else if c.StoreExit? {
      StoreExitUntouched(s, a, r);
    } else if c.TakeLock? {
      TakeLockUntouched(s, a, r);
    }
  }

  lemma KernelUntouched(s: State, i: nat, k: nat, more: bool, r: nat)
    requires Enabled(s, Kernel(i, k, more)) && r < |s.loops|
    ensures r < |KernelActs(s, i, k, more).loops| && Untouched(s.loops[r], KernelActs(s, i, k, more).loops[r])
  {
  }

  lemma OthersUntouched(s: State, step: Step, r: nat)
    requires Enabled(s, step) && r < |s.loops| && !(step.Local? && step.r == r)
    ensures r < |Next(s, step).loops| && Untouched(s.loops[r], Next(s, step).loops[r])
  {
    if step.Advance? {
      ContinueUntouched(s, step.a, r);
    } else if step.Kernel? {
      KernelUntouched(s, step.r, step.k, step.more, r);
    }
  }

  // ----- the event interval -----

  /** The step runs a work item from the local queue of `r`. */
  predicate RunsQueued(s: State, step: Step, r: nat) {
    step == Local(r, PopLocal) && r < |s.loops| && s.loops[r].local != []
  }

  function QueuedRuns(s: State, steps: seq<Step>, r: nat): nat
    decreases |steps|
  {
    if steps == [] || !Enabled(s, steps[0]) then 0
    else (if RunsQueued(s, steps[0], r) then 1 else 0) + QueuedRuns(Next(s, steps[0]), steps[1..], r)
  }

  /** At no moment of the run does `r` look at its ring. */
  predicate NeverPolls(s: State, steps: seq<Step>, r: nat)
    decreases |steps|
  {
    && r < |s.loops| && !s.loops[r].pc.Reap?
    && (steps != [] ==> Enabled(s, steps[0]) && NeverPolls(Next(s, steps[0]), steps[1..], r))
  }

  /** How many more work items can run before the ring is looked at. */
  function Budget(l: Loop): nat {
    if l.pc.Off? && l.enabled then 0
    else (if l.pc.Pop? then 1 else 0) + if l.ticks + 1 < l.interval then l.interval - 1 - l.ticks else 0
  }

  lemma PerformSpends(l: Loop, act: Act)
    requires Can(l, act) && Orderly(l) && !l.pc.Reap? && !Perform(l, act).pc.Reap?
    ensures Budget(Perform(l, act)) + (if act.PopLocal? && l.local != [] then 1 else 0) <= Budget(l)
    ensures Perform(l, act).interval == l.interval
  {
  }

  lemma {:induction false} RunSpends(s: State, steps: seq<Step>, s': State, r: nat)
    requires Inv(s) && Runs(s, steps, s') && NeverPolls(s, steps, r)
    ensures QueuedRuns(s, steps, r) <= Budget(s.loops[r])
    decreases |steps|
  {
    if steps != [] {
      var step := steps[0];
      if step.Local? && step.r == r {
        assert Orderly(s.loops[r]);
        PerformSpends(s.loops[r], step.act);
      } else {
        OthersUntouched(s, step, r);
      }
      StepKeepsInv(s, step);
      RunSpends(Next(s, step), steps[1..], s', r);
    }
  }

  /** Over every run, a stretch in which a runtime does not look at its ring runs no more work items
      than the event interval (one, if that is zero). */
  lemma {:induction false} RingIsPolled(s0: State, before: seq<Step>, s: State, steps: seq<Step>, s': State, r: nat)
    requires Initial(s0) && Runs(s0, before, s) && Runs(s, steps, s') && NeverPolls(s, steps, r)
    ensures QueuedRuns(s, steps, r) <= if s.loops[r].interval == 0 then 1 else s.loops[r].interval
  {
    InitialIsInv(s0);
    RunKeepsInv(s0, before, s);
    RunSpends(s, steps, s', r);
  }

  // ----- one tick for each turn -----

  function Steps(steps: seq<Step>, x: Step): nat {
    if steps == [] then 0 else (if steps[0] == x then 1 else 0) + Steps(steps[1..], x)
  }

  /** In a turn of the loop, after its tick and before it looks at the local queue. */
  predicate InTurn(pc: Pc) {
    pc.Pop? || (pc.Reap? && pc.tick) || (pc.Run? && pc.from.Completion? && pc.from.tick)
  }

  lemma PerformTurns(l: Loop, act: Act)
    requires Can(l, act)
    ensures (if InTurn(Perform(l, act).pc) then 1 else 0) + (if act == PopLocal then 1 else 0) ==
            (if InTurn(l.pc) then 1 else 0) + if act == Tick then 1 else 0
  {
  }

  /** Over every run, a runtime looks at its local queue once for each tick, before the next one. */
  lemma {:induction false} OneTickPerTurn(s: State, steps: seq<Step>, s': State, r: nat)
    requires Runs(s, steps, s') && r < |s.loops|
    ensures r < |s'.loops|
    ensures Steps(steps, Local(r, PopLocal)) + (if InTurn(s'.loops[r].pc) then 1 else 0) ==
            Steps(steps, Local(r, Tick)) + if InTurn(s.loops[r].pc) then 1 else 0
    decreases |steps|
  {
    if steps != [] {
      var step := steps[0];
      if step.Local? && step.r == r { PerformTurns(s.loops[r], step.act); } else { OthersUntouched(s, step, r); }
      OneTickPerTurn(Next(s, step), steps[1..], s', r);
    }
  }

  /** The tick is the one at which the ring is looked at. */
  predicate TickPolls(s: State, step: Step, r: nat)
    requires Enabled(s, step) && r < |s.loops|
  {
    step == Local(r, Tick) && Next(s, step).loops[r].pc.Reap?
  }

  function TickPollings(s: State, steps: seq<Step>, r: nat): nat
    decreases |steps|
  {
    if steps == [] || !Enabled(s, steps[0]) || r >= |s.loops| then 0
    else (if TickPolls(s, steps[0], r) then 1 else 0) + TickPollings(Next(s, steps[0]), steps[1..], r)
  }

  /** A counter within its range, at zero outside run(). */
  predicate Counting(l: Loop) {
    (l.interval > 0 ==> l.ticks < l.interval) && (l.interval == 0 || l.pc in {Off, Starting} ==> l.ticks == 0)
  }

  lemma PerformTicks(l: Loop, act: Act)
    requires Can(l, act) && Counting(l) && act != LeaveRun && l.interval > 0
    ensures var l' := Perform(l, act);
            && Counting(l') && l'.interval == l.interval
            && l'.ticks + (if act == Tick && l'.pc.Reap? then l.interval else 0)
               == l.ticks + if act == Tick then 1 else 0
  {
  }

  lemma TimesNext(d: nat, k: nat)
    ensures d * (k + 1) == d * k + d
  {
  }

  lemma {:induction false} RunTicks(s: State, steps: seq<Step>, s': State, r: nat)
    requires Runs(s, steps, s') && r < |s.loops| && Counting(s.loops[r]) && s.loops[r].interval > 0
    requires Local(r, LeaveRun) !in steps
    ensures r < |s'.loops| && Counting(s'.loops[r])
    ensures s'.loops[r].ticks + s.loops[r].interval * TickPollings(s, steps, r) ==
            s.loops[r].ticks + Steps(steps, Local(r, Tick))
    decreases |steps|
  {
    if steps == [] {
      assert s.loops[r].interval * 0 == 0;
    } else {
      var step := steps[0];
      if step.Local? && step.r == r { PerformTicks(s.loops[r], step.act); } else { OthersUntouched(s, step, r); }
      RunTicks(Next(s, step), steps[1..], s', r);
      TimesNext(s.loops[r].interval, TickPollings(Next(s, step), steps[1..], r));
    }
  }

  lemma PerformCounts(l: Loop, act: Act)
    requires Can(l, act) && Counting(l)
    ensures Counting(Perform(l, act))
  {
  }

  lemma {:induction false} RunCounts(s: State, steps: seq<Step>, s': State, r: nat)
    requires Runs(s, steps, s') && r < |s.loops| && Counting(s.loops[r])
    ensures r < |s'.loops| && Counting(s'.loops[r])
    decreases |steps|
  {
    if steps != [] {
      var step := steps[0];
      if step.Local? && step.r == r { PerformCounts(s.loops[r], step.act); } else { OthersUntouched(s, step, r); }
      RunCounts(Next(s, step), steps[1..], s', r);
    }
  }

  /** Every run() starts counting at zero, and within it the ring is looked at on exactly every tick whose
      number is a multiple of the event interval. */
  lemma {:induction false} PolledEveryInterval(s0: State, before: seq<Step>, s: State, steps: seq<Step>, s': State,
                                               r: nat)
    requires Initial(s0) && Runs(s0, before, s) && Runs(s, steps, s') && r < |s0.loops| && r < |s.loops|
    requires s.loops[r].pc.Off? && s.loops[r].interval > 0 && Local(r, LeaveRun) !in steps
    ensures r < |s'.loops| && s'.loops[r].ticks < s.loops[r].interval
    ensures Steps(steps, Local(r, Tick)) == s.loops[r].interval * TickPollings(s, steps, r) + s'.loops[r].ticks
  {
    RunCounts(s0, before, s, r);
    RunTicks(s, steps, s', r);
    KeepsInterval(s, steps, s', r);
  }

  lemma {:induction false} KeepsInterval(s: State, steps: seq<Step>, s': State, r: nat)
    requires Runs(s, steps, s') && r < |s.loops|
    ensures r < |s'.loops| && s'.loops[r].interval == s.loops[r].interval
    decreases |steps|
  {
    if steps != [] {
      var step := steps[0];
      if !(step.Local? && step.r == r) { OthersUntouched(s, step, r); }
      KeepsInterval(Next(s, step), steps[1..], s', r);
    }
  }

  // ----- reaping takes everything -----

  /** In a stretch of reaping, or in the code that a reaped completion has called. */
  predicate Reaping(pc: Pc) {
    pc.Reap? || (pc.Run? && pc.from.Completion?)
  }

  /** Work item `w` has run, or the stretch of reaping will come to it. */
  predicate Reached(l: Loop, w: Work) {
    w in l.ran || (Reaping(l.pc) && Told(Job(w)) in l.cq)
  }

  lemma ReapReaches(l: Loop, w: Work)
    requires Can(l, ReapOne) && Reached(l, w)
    ensures Reached(Perform(l, ReapOne), w)
  {
    var c, l1 := l.cq[0], l.(cq := l.cq[1..]);
    if w !in l.ran {
      assert l.cq == [c] + l.cq[1..];
      if c == Told(Job(w)) { assert Process(l1, c).ran == l.ran + [w]; }
    } else if c.Told? && c.msg.Job? {
      assert Process(l1, c).ran == l.ran + [c.msg.work];
    }
  }

  lemma PopReaches(l: Loop, w: Work)
    requires Can(l, PopLocal) && Reached(l, w)
    ensures Reached(Perform(l, PopLocal), w)
  {
    if l.local != [] { assert Perform(l, PopLocal).ran == l.ran + [l.local[0]]; }
  }

  lemma PerformReaches(l: Loop, act: Act, w: Work)
    requires Can(l, act) && Reached(l, w)
    ensures Reached(Perform(l, act), w)
  {
    if act == ReapOne {
      ReapReaches(l, w);
    } else if act == PopLocal {
      PopReaches(l, w);
    }
  }

  lemma {:induction false} RunReaches(s: State, steps: seq<Step>, s': State, r: nat, w: Work)
    requires Runs(s, steps, s') && r < |s.loops| && Reached(s.loops[r], w)
    ensures r < |s'.loops| && Reached(s'.loops[r], w)
    decreases |steps|
  {
    if steps != [] {
      var step := steps[0];
      if step.Local? && step.r == r {
        PerformReaches(s.loops[r], step.act, w);
      } else {
        OthersUntouched(s, step, r);
        assert Told(Job(w)) in s.loops[r].cq ==> Told(Job(w)) in Next(s, step).loops[r].cq;
      }
      RunReaches(Next(s, step), steps[1..], s', r, w);
    }
  }

  /** A runtime that enters run() again, or returns from its wait, first runs everything it has been told
      by then: none of it is left when it comes to its next turn. */
  lemma {:induction false} ReapsBeforeItGoesOn(s: State, act: Act, steps: seq<Step>, s': State, r: nat, w: Work)
    requires r < |s.loops| && Can(s.loops[r], act) && (act == Return || (act == Enter && s.loops[r].enabled))
    requires Runs(Next(s, Local(r, act)), steps, s') && Told(Job(w)) in s.loops[r].cq
    ensures r < |s'.loops| && (!Reaping(s'.loops[r].pc) ==> w in s'.loops[r].ran)
  {
    RunReaches(Next(s, Local(r, act)), steps, s', r, w);
  }
}
