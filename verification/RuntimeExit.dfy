// What becomes of an exit request: allow_exit stores a flag that the loop reads at
// its exit test and clears when it leaves (runtime.hpp).
module RuntimeExit {
  import opened Runtime

  /** A step that tests no exit condition of `r` and stores no exit request for it. */
  predicate LeavesRequest(s: State, step: Step, r: nat) {
    && step != Local(r, CheckExit)
    && (step.Advance? && IsAgent(s, step.a) ==> CallOf(s, step.a) != StoreExit(r))
  }

  predicate LeaveRequests(s: State, steps: seq<Step>, r: nat)
    decreases |steps|
  {
    steps != [] ==>
      LeavesRequest(s, steps[0], r) && Enabled(s, steps[0]) && LeaveRequests(Next(s, steps[0]), steps[1..], r)
  }

  lemma PerformAndRequest(l: Loop, act: Act)
    requires Can(l, act) && act != CheckExit
    ensures var l' := Perform(l, act);
            && l'.exitAllowed == (l.exitAllowed && act != LeaveRun)
            && (l'.pc == Leave <==> l.pc == Leave && act != LeaveRun)
  {
  }

  lemma ContinueAndRequest(s: State, a: Agent, r: nat)
    requires IsAgent(s, a) && CallOf(s, a) != StoreExit(r) && r < |s.loops|
    ensures r < |Continue(s, a).loops|
    ensures Continue(s, a).loops[r].exitAllowed == s.loops[r].exitAllowed
    ensures Continue(s, a).loops[r].pc == s.loops[r].pc
  {
  }

  /** Only leaving the loop clears the request, and only the exit test leads to leaving. */
  lemma StepAndRequest(s: State, step: Step, r: nat)
    requires Enabled(s, step) && LeavesRequest(s, step, r) && r < |s.loops|
    ensures r < |Next(s, step).loops|
    ensures var l, l' := s.loops[r], Next(s, step).loops[r];
            && l'.exitAllowed == (l.exitAllowed && step != Local(r, LeaveRun))
            && (l'.pc == Leave <==> l.pc == Leave && step != Local(r, LeaveRun))
  {
    if step.Local? && step.r == r {
      PerformAndRequest(s.loops[r], step.act);
    } else if step.Advance? {
      ContinueAndRequest(s, step.a, r);
    }
  }

  /** A request that is stored when the loop is at `Leave` is absorbed by that same exit; any
      other one is still there at the loop's next exit test. */
  lemma {:induction false} RequestSurvivesExactly(s: State, steps: seq<Step>, s': State, r: nat)
    requires r < |s.loops| && s.loops[r].exitAllowed && Runs(s, steps, s') && LeaveRequests(s, steps, r)
    ensures r < |s'.loops|
    ensures s'.loops[r].pc == Check ==> (s'.loops[r].exitAllowed <==> s.loops[r].pc != Leave)
    decreases |steps|
  {
    if steps != [] {
      var s1 := Next(s, steps[0]);
      StepAndRequest(s, steps[0], r);
      if s1.loops[r].exitAllowed {
        RequestSurvivesExactly(s1, steps[1..], s', r);
      } else {
        StaysCleared(s1, steps[1..], s', r);
      }
    }
  }

  lemma {:induction false} StaysCleared(s: State, steps: seq<Step>, s': State, r: nat)
    requires r < |s.loops| && !s.loops[r].exitAllowed && Runs(s, steps, s') && LeaveRequests(s, steps, r)
    ensures r < |s'.loops| && !s'.loops[r].exitAllowed
    decreases |steps|
  {
    if steps != [] {
      StepAndRequest(s, steps[0], r);
      StaysCleared(Next(s, steps[0]), steps[1..], s', r);
    }
  }

  // ----- no runtime leaves unasked -----

  lemma ContinueAndLeave(s: State, a: Agent, r: nat)
    requires IsAgent(s, a) && r < |s.loops|
    ensures r < |Continue(s, a).loops| && Continue(s, a).loops[r].pc == s.loops[r].pc
    ensures Continue(s, a).loops[r].exitAllowed == (s.loops[r].exitAllowed || CallOf(s, a) == StoreExit(r))
  {
  }

  lemma StepAndLeave(s: State, step: Step, r: nat)
    requires Enabled(s, step) && r < |s.loops| && (s.loops[r].pc == Leave ==> s.loops[r].exitAllowed)
    ensures r < |Next(s, step).loops|
    ensures Next(s, step).loops[r].pc == Leave ==> Next(s, step).loops[r].exitAllowed
  {
    if step.Advance? {
      ContinueAndLeave(s, step.a, r);
    } else if step != Local(r, CheckExit) {
      StepAndRequest(s, step, r);
    }
  }

  lemma {:induction false} RunAndLeave(s: State, steps: seq<Step>, s': State, r: nat)
    requires Runs(s, steps, s') && r < |s.loops| && (s.loops[r].pc == Leave ==> s.loops[r].exitAllowed)
    ensures r < |s'.loops| && (s'.loops[r].pc == Leave ==> s'.loops[r].exitAllowed)
    decreases |steps|
  {
    if steps != [] {
      StepAndLeave(s, steps[0], r);
      RunAndLeave(Next(s, steps[0]), steps[1..], s', r);
    }
  }

  /** Over every run, a runtime that is leaving has an exit request. */
  lemma {:induction false} LeavesOnlyIfAllowed(s0: State, steps: seq<Step>, s: State, r: nat)
    requires Initial(s0) && Runs(s0, steps, s) && r < |s0.loops|
    ensures r < |s.loops| && (s.loops[r].pc == Leave ==> s.loops[r].exitAllowed)
  {
    RunAndLeave(s0, steps, s, r);
  }

  /** No step of the run carries out the store of an exit request for `r`. */
  predicate NoneStored(s: State, steps: seq<Step>, r: nat)
    decreases |steps|
  {
    steps != [] ==>
      && Enabled(s, steps[0]) && (steps[0].Advance? ==> CallOf(s, steps[0].a) != StoreExit(r))
      && NoneStored(Next(s, steps[0]), steps[1..], r)
  }

  /** Without an exit request in the books, in any call, or at the exit. */
  lemma StaysIn(s: State, step: Step, r: nat)
    requires Enabled(s, step) && (step.Advance? ==> CallOf(s, step.a) != StoreExit(r))
    requires r < |s.loops| && !s.loops[r].exitAllowed && s.loops[r].pc != Leave
    ensures r < |Next(s, step).loops| && !Next(s, step).loops[r].exitAllowed && Next(s, step).loops[r].pc != Leave
  {
    if step != Local(r, CheckExit) { StepAndRequest(s, step, r); }
  }

  lemma {:induction false} StaysInLoop(s: State, steps: seq<Step>, s': State, r: nat)
    requires Runs(s, steps, s') && NoneStored(s, steps, r)
    requires r < |s.loops| && !s.loops[r].exitAllowed && s.loops[r].pc != Leave
    ensures r < |s'.loops| && !s'.loops[r].exitAllowed && s'.loops[r].pc != Leave
    decreases |steps|
  {
    if steps != [] {
      StaysIn(s, steps[0], r);
      StaysInLoop(Next(s, steps[0]), steps[1..], s', r);
    }
  }

  /** A runtime for which no exit request is ever stored never leaves its loop. */
  lemma {:induction false} NeverStoredNeverLeaves(s0: State, steps: seq<Step>, s: State, r: nat)
    requires Initial(s0) && Runs(s0, steps, s) && r < |s0.loops| && NoneStored(s0, steps, r)
    ensures r < |s.loops| && s.loops[r].pc != Leave && !s.loops[r].exitAllowed
  {
    StaysInLoop(s0, steps, s, r);
  }

  /** Nobody is inside allow_exit of `r`. */
  ghost predicate NobodyAsks(s: State, r: nat) {
    forall a: Agent :: IsAgent(s, a) ==> CallOf(s, a) != StoreExit(r)
  }

  lemma CallAfter(s: State, step: Step, a: Agent)
    requires Enabled(s, step) && IsAgent(s, a) && !step.Advance?
    ensures IsAgent(Next(s, step), a)
    ensures CallOf(Next(s, step), a).StoreExit? && CallOf(Next(s, step), a) != CallOf(s, a) ==>
              step == AllowExit(a, CallOf(Next(s, step), a).to)
  {
  }

  lemma ContinueAsksNothing(s: State, b: Agent, a: Agent)
    requires IsAgent(s, b) && IsAgent(s, a)
    ensures IsAgent(Continue(s, b), a)
    ensures CallOf(Continue(s, b), a).StoreExit? ==> CallOf(Continue(s, b), a) == CallOf(s, a)
  {
  }

  lemma StepAsksNothing(s: State, step: Step, r: nat)
    requires Enabled(s, step) && NobodyAsks(s, r) && (step.AllowExit? ==> step.to != r)
    ensures NobodyAsks(Next(s, step), r)
  {
    forall a: Agent | IsAgent(Next(s, step), a) ensures CallOf(Next(s, step), a) != StoreExit(r) {
      assert IsAgent(s, a);
      if step.Advance? { ContinueAsksNothing(s, step.a, a); } else { CallAfter(s, step, a); }
    }
  }

  lemma {:induction false} UnaskedStoresNothing(s: State, steps: seq<Step>, s': State, r: nat)
    requires Runs(s, steps, s') && NobodyAsks(s, r)
    requires forall i :: 0 <= i < |steps| && steps[i].AllowExit? ==> steps[i].to != r
    ensures NoneStored(s, steps, r)
    decreases |steps|
  {
    if steps != [] {
      StepAsksNothing(s, steps[0], r);
      UnaskedStoresNothing(Next(s, steps[0]), steps[1..], s', r);
    }
  }

  /** A runtime whose allow_exit is never called never leaves its loop. */
  lemma {:induction false} NeverAskedNeverLeaves(s0: State, steps: seq<Step>, s: State, r: nat)
    requires Initial(s0) && Runs(s0, steps, s) && r < |s0.loops|
    requires forall i :: 0 <= i < |steps| && steps[i].AllowExit? ==> steps[i].to != r
    ensures r < |s.loops| && s.loops[r].pc != Leave && !s.loops[r].exitAllowed
  {
    UnaskedStoresNothing(s0, steps, s, r);
    NeverStoredNeverLeaves(s0, steps, s, r);
  }

  // ----- the late request comes up -----

  lemma {:induction false} RunsOn(s0: State, steps: seq<Step>, s: State, step: Step)
    requires Runs(s0, steps, s) && Enabled(s, step)
    ensures Runs(s0, steps + [step], Next(s, step))
    decreases |steps|
  {
    if steps == [] {
      assert (steps + [step])[1..] == [];
    } else {
      assert (steps + [step])[1..] == steps[1..] + [step];
      RunsOn(Next(s0, steps[0]), steps[1..], s, step);
    }
  }

  /** One runtime that has only been started and asked to exit, and one thread. */
  function One(ticks: nat, enabled: bool, exitAllowed: bool, pc: Pc, call: Call): State {
    State([Loop(61, ticks, enabled, exitAllowed, [], [], [], [], [], 0, pc, Idle, {}, {}, [])], [call], [])
  }

  lemma OneActs(s: State, act: Act, l: Loop)
    requires |s.loops| == 1 && Can(s.loops[0], act) && Perform(s.loops[0], act) == l
    ensures Enabled(s, Local(0, act)) && Next(s, Local(0, act)) == s.(loops := [l])
  {
    assert s.loops[0 := l] == [l];
  }

  lemma OneCalls(s: State, step: Step, loop: Loop, call: Call)
    requires |s.loops| == |s.threads| == 1 && step in {AllowExit(Thread(0), 0), Advance(Thread(0))}
    requires if step.AllowExit? then s.threads[0] == Idle && loop == s.loops[0] && call == StoreExit(0)
             else if s.threads[0] == StoreExit(0)
                  then loop == s.loops[0].(exitAllowed := true) && call == LoadFlag(Parcel(0, Wake))
                  else && s.threads[0] == LoadFlag(Parcel(0, Wake)) && !s.loops[0].enabled
                       && loop == s.loops[0] && call == Idle
    ensures Enabled(s, step) && Next(s, step) == s.(loops := [loop], threads := [call])
  {
    assert s.loops[0 := loop] == [loop] && s.threads[0 := call] == [call] && [s.loops[0]] == s.loops;
  }

  /** The failing case: another thread stores its request after the exit test, the loop leaves, and
      the flag is down again although no test has seen that request. */
  lemma LateRequestIsAbsorbed(s: State, k: nat, r: nat)
    requires k < |s.threads| && r < |s.loops| && s.threads[k] == StoreExit(r) && s.loops[r].pc == Leave
    ensures var s1 := Next(s, Advance(Thread(k)));
            && Enabled(s, Advance(Thread(k))) && s1.loops[r].exitAllowed && Enabled(s1, Local(r, LeaveRun))
            && !Next(s1, Local(r, LeaveRun)).loops[r].exitAllowed && Next(s1, Local(r, LeaveRun)).loops[r].pc == Off
  {
  }

  /** That case comes up: a first request lets the loop reach its exit, a second one is just in time. */
  lemma LateRequestIsReachable() returns (before: seq<Step>, s: State)
    ensures Initial(One(0, false, false, Off, Idle)) && Runs(One(0, false, false, Off, Idle), before, s)
    ensures s == One(1, true, true, Leave, StoreExit(0))
  {
    var s0 := One(0, false, false, Off, Idle);
    before, s := [], s0;
    before, s := Calls(s0, before, s, AllowExit(Thread(0), 0), One(0, false, false, Off, StoreExit(0)));
    before, s := Calls(s0, before, s, Advance(Thread(0)), One(0, false, true, Off, LoadFlag(Parcel(0, Wake))));
    before, s := Calls(s0, before, s, Advance(Thread(0)), One(0, false, true, Off, Idle));
    before, s := Acts(s0, before, s, Enter, One(0, false, true, Starting, Idle));
    before, s := Acts(s0, before, s, StartUp, One(0, true, true, Top, Idle));
    before, s := Acts(s0, before, s, Tick, One(1, true, true, Pop, Idle));
    before, s := Acts(s0, before, s, PopLocal, One(1, true, true, Check, Idle));
    before, s := Acts(s0, before, s, CheckExit, One(1, true, true, Leave, Idle));
    before, s := Calls(s0, before, s, AllowExit(Thread(0), 0), One(1, true, true, Leave, StoreExit(0)));
  }

  lemma Acts(s0: State, steps: seq<Step>, s: State, act: Act, t: State) returns (steps': seq<Step>, s': State)
    requires Runs(s0, steps, s) && |s.loops| == |t.loops| == 1 && t == s.(loops := t.loops)
    requires Can(s.loops[0], act) && Perform(s.loops[0], act) == t.loops[0]
    ensures Runs(s0, steps', s') && s' == t
  {
    assert t.loops == [t.loops[0]];
    OneActs(s, act, t.loops[0]);
    RunsOn(s0, steps, s, Local(0, act));
    steps', s' := steps + [Local(0, act)], t;
  }

  lemma Calls(s0: State, steps: seq<Step>, s: State, step: Step, t: State) returns (steps': seq<Step>, s': State)
    requires Runs(s0, steps, s) && |s.loops| == |s.threads| == |t.loops| == |t.threads| == 1 && s.made == t.made
    requires step in {AllowExit(Thread(0), 0), Advance(Thread(0))}
    requires if step.AllowExit? then s.threads[0] == Idle && t.loops[0] == s.loops[0] && t.threads[0] == StoreExit(0)
             else if s.threads[0] == StoreExit(0)
                  then t.loops[0] == s.loops[0].(exitAllowed := true) && t.threads[0] == LoadFlag(Parcel(0, Wake))
                  else && s.threads[0] == LoadFlag(Parcel(0, Wake)) && !s.loops[0].enabled
                       && t.loops[0] == s.loops[0] && t.threads[0] == Idle
    ensures Runs(s0, steps', s') && s' == t
  {
    assert t.loops == [t.loops[0]] && t.threads == [t.threads[0]];
    OneCalls(s, step, t.loops[0], t.threads[0]);
    RunsOn(s0, steps, s, step);
    steps', s' := steps + [step], t;
  }
}
