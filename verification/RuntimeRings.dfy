// What goes through a runtime's own ring: an operation is submitted, completes and is
// handled once, and a wake-up or a cancel is submitted before its caller goes on.
module RuntimeRings {
  import opened Common
  import opened Runtime
  import opened RuntimeRuns

  // ----- operations -----

  /** The operations of a loop that the kernel has still to finish or the loop to reap the end of. */
  function Unfinished(l: Loop): nat {
    Times(l.sq, Op) + Times(l.kernel, Op) + Times(l.cq, Last)
  }

  function Unread(l: Loop): nat {
    Times(l.cq, More)
  }

  predicate Starts(step: Step, r: nat) {
    step == Local(r, StartOp)
  }

  /** The kernel posts a completion with more to come. */
  predicate Posts(s: State, step: Step, r: nat)
    requires Enabled(s, step)
  {
    step.Kernel? && step.r == r && step.more && s.loops[r].kernel[step.k] == Op
  }

  /** The code of an operation is called for a completion: its last one, or another. */
  predicate Calls(s: State, step: Step, r: nat, last: bool)
    requires Enabled(s, step) && r < |s.loops|
  {
    && step == Local(r, ReapOne)
    && var l, l' := s.loops[r], Next(s, step).loops[r];
       l'.ran == l.ran && l'.pc == Run(Completion(l.pc.tick, last))
  }

  function Started(steps: seq<Step>, r: nat): nat {
    if steps == [] then 0 else (if Starts(steps[0], r) then 1 else 0) + Started(steps[1..], r)
  }

  function Posted(s: State, steps: seq<Step>, r: nat): nat
    decreases |steps|
  {
    if steps == [] || !Enabled(s, steps[0]) then 0
    else (if Posts(s, steps[0], r) then 1 else 0) + Posted(Next(s, steps[0]), steps[1..], r)
  }

  function Called(s: State, steps: seq<Step>, r: nat, last: bool): nat
    decreases |steps|
  {
    if steps == [] || !Enabled(s, steps[0]) || r >= |s.loops| then 0
    else (if Calls(s, steps[0], r, last) then 1 else 0) + Called(Next(s, steps[0]), steps[1..], r, last)
  }

  lemma StartCounts(l: Loop)
    requires Can(l, StartOp)
    ensures Unfinished(Perform(l, StartOp)) == Unfinished(l) + 1 && Unread(Perform(l, StartOp)) == Unread(l)
  {
    TimesAppend(l.sq, Op, Op);
  }

  lemma FlushCounts(l: Loop)
    ensures Unfinished(Flush(l)) == Unfinished(l)
  {
    TimesConcat(l.kernel, l.sq, Op);
  }

  lemma ProcessCounts(l: Loop, c: Cqe)
    requires l.pc.Reap?
    ensures Unfinished(Process(l, c)) == Unfinished(l) && Unread(Process(l, c)) == Unread(l)
  {
    var l' := Process(l, c);
    assert l'.kernel == l.kernel && l'.cq == l.cq;
    if c.Told? && c.msg.Cancel? {
      TimesAppend(l.sq, CancelOp(c.msg.op), Op);
    } else {
      assert l'.sq == l.sq;
    }
  }

  lemma ReapCounts(l: Loop)
    requires Can(l, ReapOne)
    ensures Unfinished(Perform(l, ReapOne)) == Unfinished(l) - if l.cq[0] == Last then 1 else 0
    ensures Unread(Perform(l, ReapOne)) == Unread(l) - if l.cq[0] == More then 1 else 0
  {
    TimesTail(l.cq, Last);
    TimesTail(l.cq, More);
    ProcessCounts(l.(cq := l.cq[1..]), l.cq[0]);
  }

  lemma ReapCalls(l: Loop)
    requires Can(l, ReapOne)
    ensures var l' := Perform(l, ReapOne);
            && (l.cq[0] == Last <==> l'.ran == l.ran && l'.pc == Run(Completion(l.pc.tick, true)))
            && (l.cq[0] == More <==> l'.ran == l.ran && l'.pc == Run(Completion(l.pc.tick, false)))
  {
    if l.cq[0].Told? && l.cq[0].msg.Job? { assert |Perform(l, ReapOne).ran| == |l.ran| + 1; }
  }

  lemma PerformCounts(l: Loop, act: Act)
    requires Can(l, act) && act != ReapOne
    ensures Unfinished(Perform(l, act)) == Unfinished(l) + if act == StartOp then 1 else 0
    ensures Unread(Perform(l, act)) == Unread(l)
  {
    match act
    case StartOp => StartCounts(l);
    case SubmitAndWait => FlushCounts(l);
    case SubmitNow => FlushCounts(l);
    case _ =>
  }

  lemma ToldCounts(l: Loop, m: Msg)
    ensures Times(l.cq + [Told(m)], Last) == Times(l.cq, Last) && Times(l.cq + [Told(m)], More) == Times(l.cq, More)
  {
    TimesAppend(l.cq, Told(m), Last);
    TimesAppend(l.cq, Told(m), More);
  }

  /** Neither operations nor their completions have changed. */
  predicate SameOps(l: Loop, l': Loop) {
    Unfinished(l') == Unfinished(l) && Unread(l') == Unread(l)
  }

  lemma TellCounts(s: State, p: Parcel, r: nat)
    requires p.to < |s.loops| && r < |s.loops|
    ensures SameOps(s.loops[r], Tell(s, p).loops[r])
  {
    ToldCounts(s.loops[p.to], p.msg);
  }

  lemma ForwardCounts(s: State, a: Agent, p: Parcel, r: nat)
    requires IsAgent(s, a) && r < |s.loops|
    ensures r < |Forward(s, a, p).loops| && SameOps(s.loops[r], Forward(s, a, p).loops[r])
  {
    match a
    case Thread(_) => if p.to < |s.loops| { TellCounts(SetCall(s, a, Idle), p, r); }
    case Own(i) => TimesAppend(s.loops[i].sq, Send(p), Op);
  }

  predicate SameRing(l: Loop, l': Loop) {
    l'.sq == l.sq && l'.kernel == l.kernel && l'.cq == l.cq
  }

  lemma ContinueKeepsRing(s: State, a: Agent, r: nat)
    requires IsAgent(s, a) && r < |s.loops| && !CallOf(s, a).SendMsg? && !CallOf(s, a).Submit?
    ensures r < |Continue(s, a).loops| && SameRing(s.loops[r], Continue(s, a).loops[r])
  {
  }

  lemma SubmitCounts(s: State, a: Agent, r: nat)
    requires IsAgent(s, a) && r < |s.loops| && CallOf(s, a).Submit?
    ensures r < |Continue(s, a).loops| && SameOps(s.loops[r], Continue(s, a).loops[r])
  {
    if a.Own? { FlushCounts(SetCall(s, a, Idle).loops[a.loop]); }
  }

  lemma ContinueCounts(s: State, a: Agent, r: nat)
    requires IsAgent(s, a) && r < |s.loops|
    ensures r < |Continue(s, a).loops| && SameOps(s.loops[r], Continue(s, a).loops[r])
  {
    var c := CallOf(s, a);
    if c.SendMsg? {
      ForwardCounts(s, a, c.parcel, r);
    } else if c.Submit? {
      SubmitCounts(s, a, r);
    } else {
      ContinueKeepsRing(s, a, r);
    }
  }

  /** A loop whose entry the kernel has carried out. */
  lemma AnsweredCounts(l: Loop, k: nat, answer: seq<Cqe>)
    requires k < |l.kernel| && Answers(l.kernel[k], answer)
    ensures SameOps(l, Answered(l, k, answer))
  {
    TimesRemove(l.kernel, k, Op);
    if answer == [] {
      assert l.cq + answer == l.cq;
    } else {
      TimesAppend(l.cq, answer[0], Last);
      TimesAppend(l.cq, answer[0], More);
    }
  }

  lemma DeliverCounts(s: State, i: nat, k: nat, p: Parcel, r: nat)
    requires i < |s.loops| && r < |s.loops| && k < |s.loops[i].kernel| && s.loops[i].kernel[k] == Send(p)
    ensures r < |KernelActs(s, i, k, false).loops| && SameOps(s.loops[r], KernelActs(s, i, k, false).loops[r])
  {
    AnsweredCounts(s.loops[i], k, [Ack]);
    if p.to < |s.loops| { TellCounts(SetLoop(s, i, Answered(s.loops[i], k, [Ack])), p, r); }
  }

  lemma KernelCounts(s: State, i: nat, k: nat, more: bool, r: nat)
    requires Enabled(s, Kernel(i, k, more)) && r < |s.loops|
    ensures r < |KernelActs(s, i, k, more).loops|
    ensures var l, l' := s.loops[r], KernelActs(s, i, k, more).loops[r];
            && Unfinished(l') == Unfinished(l)
            && Unread(l') == Unread(l) + if Posts(s, Kernel(i, k, more), r) then 1 else 0
  {
    var l := s.loops[i];
    match l.kernel[k]
    case Send(p) => DeliverCounts(s, i, k, p, r);
    case Op =>
      if more {
        TimesAppend(l.cq, More, Last);
        TimesAppend(l.cq, More, More);
      } else {
        AnsweredCounts(l, k, [Last]);
      }
    case CancelOp(_) =>
      assert l.cq + [] == l.cq;
      AnsweredCounts(l, k, if more then [Told(Wake)] else []);
  }

  lemma CallCounts(s: State, step: Step, r: nat)
    requires Enabled(s, step) && r < |s.loops| && !step.Local? && !step.Advance? && !step.Kernel?
    ensures r < |Next(s, step).loops| && SameOps(s.loops[r], Next(s, step).loops[r])
  {
    if step.CancelFrom? { TimesAppend(s.loops[step.to].sq, CancelOp(step.op), Op); }
  }

  /** Every step, counted. */
  lemma StepCounts(s: State, step: Step, r: nat)
    requires Enabled(s, step) && r < |s.loops|
    ensures r < |Next(s, step).loops|
    ensures var l, l' := s.loops[r], Next(s, step).loops[r];
            && Unfinished(l') + (if Calls(s, step, r, true) then 1 else 0)
               == Unfinished(l) + (if Starts(step, r) then 1 else 0)
            && Unread(l') + (if Calls(s, step, r, false) then 1 else 0)
               == Unread(l) + if Posts(s, step, r) then 1 else 0
  {
    if step.Local? && step.r == r {
      if step.act == ReapOne {
        ReapCounts(s.loops[r]);
        ReapCalls(s.loops[r]);
      } else {
        PerformCounts(s.loops[r], step.act);
      }
    } else if step.Advance? {
      ContinueCounts(s, step.a, r);
    } else if step.Kernel? {
      KernelCounts(s, step.r, step.k, step.more, r);
    } else if !step.Local? {
      CallCounts(s, step, r);
    }
  }

  lemma {:induction false} RunCounts(s: State, steps: seq<Step>, s': State, r: nat)
    requires Runs(s, steps, s') && r < |s.loops|
    ensures r < |s'.loops|
    ensures Unfinished(s'.loops[r]) + Called(s, steps, r, true) == Unfinished(s.loops[r]) + Started(steps, r)
    ensures Unread(s'.loops[r]) + Called(s, steps, r, false) == Unread(s.loops[r]) + Posted(s, steps, r)
    decreases |steps|
  {
    if steps != [] {
      StepCounts(s, steps[0], r);
      RunCounts(Next(s, steps[0]), steps[1..], s', r);
    }
  }

  /**
   Over every run: every operation started is waiting to be submitted, with the kernel, or its last
   completion is queued or has been handled, exactly once; and every other completion the kernel has
   posted is queued or has been handled, exactly once.
   */
  lemma {:induction false} EveryCompletionIsHandled(s0: State, steps: seq<Step>, s: State, r: nat)
    requires Initial(s0) && Runs(s0, steps, s) && r < |s0.loops|
    ensures r < |s.loops|
    ensures var l := s.loops[r];
            && Started(steps, r)
               == Times(l.sq, Op) + Times(l.kernel, Op) + Times(l.cq, Last) + Called(s0, steps, r, true)
            && Posted(s0, steps, r) == Times(l.cq, More) + Called(s0, steps, r, false)
  {
    RunCounts(s0, steps, s, r);
  }

  // ----- submissions -----

  /** A step that submits: nothing stays queued, and the kernel gets it in the order it was queued. */
  lemma SubmissionsTakeEverything(s: State, step: Step, r: nat)
    requires Enabled(s, step) && r < |s.loops|
    requires || step in {Local(r, SubmitNow), Local(r, SubmitAndWait)}
             || (step == Advance(Own(r)) && s.loops[r].call == Submit)
    ensures var l, l' := s.loops[r], Next(s, step).loops[r]; l'.sq == [] && l'.kernel == l.kernel + l.sq
  {
  }

  /** Only a call that is about to submit leaves a wake-up or a cancel unsubmitted. */
  ghost predicate Prompt(l: Loop) {
    l.call != Submit ==> forall p: Parcel :: Send(p) in l.sq ==> p.msg.Job?
  }

  lemma PerformPrompt(l: Loop, act: Act)
    requires Can(l, act) && Prompt(l)
    ensures Prompt(Perform(l, act))
  {
  }

  lemma ContinuePrompt(s: State, a: Agent, r: nat)
    requires IsAgent(s, a) && r < |s.loops| && Prompt(s.loops[r])
    ensures r < |Continue(s, a).loops| && Prompt(Continue(s, a).loops[r])
  {
  }

  lemma StepPrompt(s: State, step: Step, r: nat)
    requires Enabled(s, step) && r < |s.loops| && Prompt(s.loops[r])
    ensures r < |Next(s, step).loops| && Prompt(Next(s, step).loops[r])
  {
    if step.Local? && step.r == r {
      PerformPrompt(s.loops[r], step.act);
    } else if step.Advance? {
      ContinuePrompt(s, step.a, r);
    }
  }

  lemma {:induction false} RunPrompt(s: State, steps: seq<Step>, s': State, r: nat)
    requires Runs(s, steps, s') && r < |s.loops| && Prompt(s.loops[r])
    ensures r < |s'.loops| && Prompt(s'.loops[r])
    decreases |steps|
  {
    if steps != [] {
      StepPrompt(s, steps[0], r);
      RunPrompt(Next(s, steps[0]), steps[1..], s', r);
    }
  }

  /** Over every run: once cancel_internal or allow_exit has returned to a runtime's own thread, the
      wake-up or cancel it sent has been submitted. */
  lemma {:induction false} WakeUpsAreSubmitted(s0: State, steps: seq<Step>, s: State, r: nat, p: Parcel)
    requires Initial(s0) && Runs(s0, steps, s) && r < |s0.loops| && !p.msg.Job?
    ensures r < |s.loops| && (s.loops[r].call != Submit ==> Send(p) !in s.loops[r].sq)
  {
    RunPrompt(s0, steps, s, r);
  }
}
