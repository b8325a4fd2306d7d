// What every run of the event loops keeps: each work item is in exactly one
// place, the pending counter counts exactly what is outstanding, messages only
// go to enabled rings, and no exit request is slept through.
module RuntimeRuns {
  import opened Common
  import opened Runtime

  // ----- counting a parcel's places -----

  function InCall(c: Call, p: Parcel): nat {
    if (c.LoadFlag? || c.TakeLock? || c.SendMsg?) && c.parcel == p then 1 else 0
  }

  function Queued(l: Loop, w: Work): nat {
    Times(l.global, w) + Times(l.local, w) + (if w in l.parked then 1 else 0) + Times(l.ran, w)
  }

  function Requested(l: Loop, op: nat): nat {
    Times(l.sq, CancelOp(op)) + Times(l.kernel, CancelOp(op))
  }

  /** Places of a message at the runtime it is meant for. */
  function Here(l: Loop, m: Msg): nat {
    Times(l.cq, Told(m))
    + match m case Job(w) => Queued(l, w) case Wake => 0 case Cancel(op) => Requested(l, op)
  }

  function Underway(l: Loop, p: Parcel): nat {
    InCall(l.call, p) + Times(l.sq, Send(p)) + Times(l.kernel, Send(p))
  }

  function Held(r: nat, l: Loop, p: Parcel): nat {
    Underway(l, p) + if p.to == r then Here(l, p.msg) else 0
  }

  function InLoops(loops: seq<Loop>, p: Parcel): nat {
    if loops == [] then 0
    else InLoops(loops[..|loops| - 1], p) + Held(|loops| - 1, loops[|loops| - 1], p)
  }

  function InThreads(threads: seq<Call>, p: Parcel): nat {
    if threads == [] then 0
    else InThreads(threads[..|threads| - 1], p) + InCall(threads[|threads| - 1], p)
  }

  /** In how many places a parcel is. */
  function Places(s: State, p: Parcel): nat {
    InLoops(s.loops, p) + InThreads(s.threads, p)
  }

  lemma {:induction false} InLoopsUpdate(loops: seq<Loop>, r: nat, l: Loop, p: Parcel)
    requires r < |loops|
    ensures InLoops(loops[r := l], p) == InLoops(loops, p) - Held(r, loops[r], p) + Held(r, l, p)
  {
    var n := |loops| - 1;
    if r == n {
      assert loops[r := l][..n] == loops[..n];
    } else {
      assert loops[r := l][..n] == loops[..n][r := l];
      InLoopsUpdate(loops[..n], r, l, p);
    }
  }

  lemma {:induction false} InThreadsUpdate(threads: seq<Call>, k: nat, c: Call, p: Parcel)
    requires k < |threads|
    ensures InThreads(threads[k := c], p) == InThreads(threads, p) - InCall(threads[k], p) + InCall(c, p)
  {
    var n := |threads| - 1;
    if k == n {
      assert threads[k := c][..n] == threads[..n];
    } else {
      assert threads[k := c][..n] == threads[..n][k := c];
      InThreadsUpdate(threads[..n], k, c, p);
    }
  }

  lemma {:induction false} InLoopsAtLeast(loops: seq<Loop>, r: nat, p: Parcel)
    requires r < |loops|
    ensures InLoops(loops, p) >= Held(r, loops[r], p)
  {
    var n := |loops| - 1;
    if r != n {
      InLoopsAtLeast(loops[..n], r, p);
    }
  }

  lemma {:induction false} InLoopsSomewhere(loops: seq<Loop>, p: Parcel) returns (r: nat)
    requires InLoops(loops, p) > 0
    ensures r < |loops| && Held(r, loops[r], p) > 0
  {
    var n := |loops| - 1;
    if Held(n, loops[n], p) > 0 {
      r := n;
    } else {
      r := InLoopsSomewhere(loops[..n], p);
    }
  }

  lemma {:induction false} InThreadsNone(threads: seq<Call>, p: Parcel)
    requires forall k :: 0 <= k < |threads| ==> threads[k] == Idle
    ensures InThreads(threads, p) == 0
  {
    if threads != [] {
      InThreadsNone(threads[..|threads| - 1], p);
    }
  }

  lemma {:induction false} InLoopsNone(loops: seq<Loop>, p: Parcel)
    requires forall r :: 0 <= r < |loops| ==> Fresh(loops[r])
    ensures InLoops(loops, p) == 0
  {
    if loops != [] {
      InLoopsNone(loops[..|loops| - 1], p);
    }
  }

  lemma SetLoopPlaces(s: State, r: nat, l: Loop, p: Parcel)
    requires r < |s.loops|
    ensures Places(SetLoop(s, r, l), p) == Places(s, p) - Held(r, s.loops[r], p) + Held(r, l, p)
  {
    InLoopsUpdate(s.loops, r, l, p);
  }

  lemma SetCallPlaces(s: State, a: Agent, c: Call, p: Parcel)
    requires IsAgent(s, a)
    ensures Places(SetCall(s, a, c), p) == Places(s, p) - InCall(CallOf(s, a), p) + InCall(c, p)
  {
    match a
    case Own(r) => InLoopsUpdate(s.loops, r, s.loops[r].(call := c), p);
    case Thread(k) => InThreadsUpdate(s.threads, k, c, p);
  }

  // ----- counting what is outstanding -----

  function Due(sq: seq<Sqe>): nat {
    if sq == [] then 0 else Due(sq[..|sq| - 1]) + if sq[|sq| - 1].CancelOp? then 0 else 1
  }

  function DueBack(cq: seq<Cqe>): nat {
    if cq == [] then 0
    else DueBack(cq[..|cq| - 1]) + if cq[|cq| - 1] in {Ack, Last} then 1 else 0
  }

  lemma {:induction false} DueConcat(a: seq<Sqe>, b: seq<Sqe>)
    ensures Due(a + b) == Due(a) + Due(b)
  {
    if b == [] {
      assert a + b == a;
    } else {
      var n := |b| - 1;
      assert (a + b)[..|a + b| - 1] == a + b[..n];
      DueConcat(a, b[..n]);
    }
  }

  lemma {:induction false} DueAppend(sq: seq<Sqe>, e: Sqe)
    ensures Due(sq + [e]) == Due(sq) + if e.CancelOp? then 0 else 1
  {
    assert (sq + [e])[..|sq|] == sq;
  }

  lemma {:induction false} DueRemove(sq: seq<Sqe>, k: nat)
    requires k < |sq|
    ensures Due(sq[..k] + sq[k + 1..]) == Due(sq) - if sq[k].CancelOp? then 0 else 1
  {
    var n := |sq| - 1;
    var rest := sq[..k] + sq[k + 1..];
    if k == n {
      assert rest == sq[..n];
    } else {
      assert rest[..n - 1] == sq[..n][..k] + sq[..n][k + 1..];
      DueRemove(sq[..n], k);
    }
  }

  lemma {:induction false} DueHas(sq: seq<Sqe>, e: Sqe)
    requires e in sq && !e.CancelOp?
    ensures Due(sq) > 0
  {
    var n := |sq| - 1;
    if sq[n] != e {
      assert sq == sq[..n] + [sq[n]];
      DueHas(sq[..n], e);
    }
  }

  lemma {:induction false} NoneDueBack(cq: seq<Cqe>)
    requires DueBack(cq) == 0
    ensures Ack !in cq && Last !in cq
  {
    if cq != [] {
      var n := |cq| - 1;
      assert cq == cq[..n] + [cq[n]];
      NoneDueBack(cq[..n]);
    }
  }

  lemma {:induction false} DueBackAppend(cq: seq<Cqe>, c: Cqe)
    ensures DueBack(cq + [c]) == DueBack(cq) + if c in {Ack, Last} then 1 else 0
  {
    assert (cq + [c])[..|cq|] == cq;
  }

  lemma {:induction false} DueBackHead(cq: seq<Cqe>)
    requires cq != []
    ensures DueBack(cq) == DueBack(cq[1..]) + if cq[0] in {Ack, Last} then 1 else 0
  {
    var n := |cq| - 1;
    if n == 0 {
      assert cq[1..] == [] && cq[..n] == [];
    } else {
      assert cq[..n][1..] == cq[1..][..n - 1];
      DueBackHead(cq[..n]);
    }
  }

  /** Unfinished operations, unacknowledged messages and unfinished waits. */
  function Outstanding(l: Loop): nat {
    Due(l.sq) + Due(l.kernel) + DueBack(l.cq) + |l.waits|
    + (if l.pc.Run? && l.pc.from.Completion? && l.pc.from.last then 1 else 0)
  }

  // ----- the invariant -----

  /** The counter is exact, except while a waiter is linked and not yet pended. */
  predicate Counted(l: Loop) {
    l.pending + (if l.call == Pend then 1 else 0) == Outstanding(l)
  }

  predicate Orderly(l: Loop) {
    && (l.enabled ==> l.global == [])
    && (!l.enabled ==> l.pc in {Off, Starting} && l.local == [] && l.sq == [] && l.kernel == [] && l.cq == []
                       && l.waits == {} && l.ran == [])
    && (!l.pc.Run? ==> l.call == Idle)
    && (l.pc in {Check, Wait, Blocked, Leave, Off} ==> l.local == [])
    && (l.pc.Blocked? ==> l.sq == [])
    && (l.pc in {Leave, Off} ==> l.pending == 0)
    && l.parked <= l.waits
    && (l.call == Pend ==> l.waits != {})
    && Counted(l)
  }

  predicate LoopsOrderly(s: State) {
    forall r :: 0 <= r < |s.loops| ==> Orderly(s.loops[r])
  }

  /** A call's target exists; a message on its way has an enabled target. */
  predicate CallOk(s: State, c: Call) {
    && (c.StoreExit? ==> c.to < |s.loops|)
    && (c.LoadFlag? ==> c.parcel.to < |s.loops|)
    && (c.TakeLock? ==> c.parcel.to < |s.loops| && c.parcel.msg.Job?)
    && (c.SendMsg? ==> FlagIsSet(s, c.parcel.to))
  }

  predicate SqOk(s: State, sq: seq<Sqe>) {
    forall k :: 0 <= k < |sq| && sq[k].Send? ==> FlagIsSet(s, sq[k].parcel.to)
  }

  predicate TargetsEnabled(s: State) {
    && (forall r :: 0 <= r < |s.loops| ==>
          CallOk(s, s.loops[r].call) && SqOk(s, s.loops[r].sq) && SqOk(s, s.loops[r].kernel))
    && (forall k :: 0 <= k < |s.threads| ==> CallOk(s, s.threads[k]) && !s.threads[k].Submit? && !s.threads[k].Pend?)
  }

  predicate MadeOnce(s: State) {
    forall i :: 0 <= i < |s.made| ==> s.made[i].to < |s.loops| && s.made[i].msg.Job? && s.made[i].msg.work.id == i
  }

  /** Every work item ever made is in one place, and nothing else is anywhere. */
  ghost predicate InOnePlace(s: State) {
    forall p: Parcel :: p.msg.Job? ==> Places(s, p) == Times(s.made, p)
  }

  /** A runtime's unfinished waits are its wait items that have not run. */
  ghost predicate WaitsExact(s: State) {
    forall r, w :: 0 <= r < |s.loops| ==>
      (w in s.loops[r].waits <==> w.waits && Parcel(r, Job(w)) in s.made && w !in s.loops[r].ran)
  }

  /** An allowed exit with nothing pending finds a wake-up coming. */
  predicate Woken(s: State, r: nat)
    requires r < |s.loops|
  {
    var l := s.loops[r];
    l.pc in {Wait, Blocked} && l.exitAllowed && l.pending == 0 ==> Places(s, Parcel(r, Wake)) > 0
  }

  predicate NoneSleeps(s: State) {
    forall r :: 0 <= r < |s.loops| ==> Woken(s, r)
  }

  ghost predicate Inv(s: State) {
    LoopsOrderly(s) && TargetsEnabled(s) && MadeOnce(s) && InOnePlace(s) && WaitsExact(s) && NoneSleeps(s)
  }

  // ----- consequences used by the steps -----

  lemma {:induction false} MadeAtMostOnce(made: seq<Parcel>, p: Parcel)
    requires forall i :: 0 <= i < |made| ==> made[i].msg.Job? && made[i].msg.work.id == i
    ensures Times(made, p) <= 1
  {
    if made != [] {
      var n := |made| - 1;
      TimesIn(made[..n], p);
      MadeAtMostOnce(made[..n], p);
    }
  }

  /** A job found in a runtime's local queue or completion queue has not run
      and is not parked; if it is a wait, it is still an unfinished one. */
  lemma FoundIsUnfinished(s: State, r: nat, w: Work)
    requires r < |s.loops| && MadeOnce(s) && InOnePlace(s) && WaitsExact(s)
    requires w in s.loops[r].local || Told(Job(w)) in s.loops[r].cq
    ensures w !in s.loops[r].ran && w !in s.loops[r].parked
    ensures w.waits ==> w in s.loops[r].waits
  {
    var p, l := Parcel(r, Job(w)), s.loops[r];
    InLoopsAtLeast(s.loops, r, p);
    MadeAtMostOnce(s.made, p);
    TimesIn(s.made, p);
    TimesIn(l.local, w);
    TimesIn(l.cq, Told(Job(w)));
    TimesIn(l.ran, w);
    assert Places(s, p) == Times(s.made, p);
  }

  // ----- steps of one loop -----

  /** What an action of `l` is about to invoke. */
  predicate Invokes(l: Loop, act: Act, w: Work) {
    || (act.PopLocal? && l.local != [] && w == l.local[0])
    || (act.ReapOne? && l.cq != [] && l.cq[0] == Told(Job(w)))
  }

  lemma PopKeepsOrderly(l: Loop)
    requires Orderly(l) && l.pc.Pop?
    requires forall w :: Invokes(l, PopLocal, w) && w.waits ==> w in l.waits && w !in l.parked
    ensures Orderly(Perform(l, PopLocal))
  {
    if l.local != [] {
      assert Invokes(l, PopLocal, l.local[0]);
      InvokeKeepsOrderly(l.(local := l.local[1..]), l.local[0], Queue);
    }
  }

  lemma InvokeKeepsOrderly(l: Loop, w: Work, from: From)
    requires Orderly(l) && l.enabled && (l.pc.Pop? || l.pc.Reap?)
    requires w.waits ==> w in l.waits && w !in l.parked
    requires from.Completion? ==> !from.last
    ensures Orderly(Invoke(l, w, from))
  {
  }

  lemma ReapKeepsOrderly(l: Loop)
    requires Orderly(l) && l.pc.Reap? && l.cq != []
    requires forall w :: Invokes(l, ReapOne, w) && w.waits ==> w in l.waits && w !in l.parked
    ensures Orderly(Perform(l, ReapOne))
  {
    DueBackHead(l.cq);
    var c, l1 := l.cq[0], l.(cq := l.cq[1..]);
    if c.Told? {
      if c.msg.Job? {
        assert Invokes(l, ReapOne, c.msg.work);
      }
      ToldKeepsOrderly(l1, c.msg);
    }
  }

  lemma ToldKeepsOrderly(l: Loop, m: Msg)
    requires Orderly(l) && l.enabled && l.pc.Reap?
    requires m.Job? && m.work.waits ==> m.work in l.waits && m.work !in l.parked
    ensures Orderly(Process(l, Told(m)))
  {
    if m.Job? {
      InvokeKeepsOrderly(l, m.work, Completion(l.pc.tick, false));
    } else if m.Cancel? {
      DueAppend(l.sq, CancelOp(m.op));
    }
  }

  lemma FlushKeepsOrderly(l: Loop)
    requires Orderly(l) && l.enabled
    ensures Orderly(Flush(l)) && Outstanding(Flush(l)) == Outstanding(l)
  {
    DueConcat(l.kernel, l.sq);
  }

  lemma StartUpKeepsOrderly(l: Loop)
    requires Orderly(l) && l.pc.Starting?
    ensures Orderly(Perform(l, StartUp))
  {
  }

  lemma TurnKeepsOrderly(l: Loop, act: Act)
    requires Orderly(l) && Can(l, act)
    requires act in {Enter, Tick, CheckExit, Return, ReapEnd, EndRun, LeaveRun}
    ensures Orderly(Perform(l, act))
  {
  }

  lemma PerformKeepsOrderly(l: Loop, act: Act)
    requires Orderly(l) && Can(l, act)
    requires forall w :: Invokes(l, act, w) && w.waits ==> w in l.waits && w !in l.parked
    ensures Orderly(Perform(l, act))
  {
    match act
    case PopLocal => PopKeepsOrderly(l);
    case ReapOne => ReapKeepsOrderly(l);
    case SubmitAndWait => FlushKeepsOrderly(l);
    case SubmitNow => FlushKeepsOrderly(l);
    case StartUp => StartUpKeepsOrderly(l);
    case StartOp => DueAppend(l.sq, Op);
    case _ => TurnKeepsOrderly(l, act);
  }

  lemma InvokeAddsPlace(r: nat, l: Loop, w: Work, from: From, p: Parcel)
    ensures Held(r, Invoke(l, w, from), p) == Held(r, l, p) + if p == Parcel(r, Job(w)) then 1 else 0
  {
    if p.msg.Job? {
      TimesAppend(l.ran, w, p.msg.work);
    }
  }

  lemma DropLocalPlace(r: nat, l: Loop, p: Parcel)
    requires l.local != []
    ensures Held(r, l.(local := l.local[1..]), p) == Held(r, l, p) - if p == Parcel(r, Job(l.local[0])) then 1 else 0
  {
    if p.msg.Job? {
      TimesTail(l.local, p.msg.work);
    }
  }

  lemma PopKeepsPlaces(r: nat, l: Loop, p: Parcel)
    requires l.pc.Pop?
    ensures Held(r, Perform(l, PopLocal), p) == Held(r, l, p)
  {
    if l.local != [] {
      DropLocalPlace(r, l, p);
      InvokeAddsPlace(r, l.(local := l.local[1..]), l.local[0], Queue, p);
    }
  }

  lemma ProcessAddsPlace(r: nat, l: Loop, c: Cqe, p: Parcel)
    requires l.pc.Reap?
    ensures Held(r, Process(l, c), p) ==
            Held(r, l, p) + if p.to == r && !p.msg.Wake? && c == Told(p.msg) then 1 else 0
  {
    if c.Told? && c.msg.Job? {
      InvokeAddsPlace(r, l, c.msg.work, Completion(l.pc.tick, false), p);
    } else if c.Told? && c.msg.Cancel? {
      EntryPlaces(r, l, CancelOp(c.msg.op), p);
    }
  }

  /** A new entry of the submission queue. */
  lemma EntryPlaces(r: nat, l: Loop, e: Sqe, p: Parcel)
    ensures Held(r, l.(sq := l.sq + [e]), p) ==
            Held(r, l, p) + if e == Send(p) || (p.to == r && p.msg.Cancel? && e == CancelOp(p.msg.op)) then 1 else 0
  {
    TimesAppend(l.sq, e, Send(p));
    if p.msg.Cancel? { TimesAppend(l.sq, e, CancelOp(p.msg.op)); }
  }

  /** The counter is no place, and a call is one at most. */
  lemma CallPlaces(r: nat, l: Loop, c: Call, n: int, p: Parcel)
    ensures Held(r, l.(call := c, pending := n), p) == Held(r, l, p) - InCall(l.call, p) + InCall(c, p)
  {
    var l' := l.(call := c, pending := n);
    assert Here(l', p.msg) == Here(l, p.msg);
  }

  /** Reaping moves a job into execution and a cancel into the submission queue, and uses up a wake-up. */
  lemma ReapKeepsPlaces(r: nat, l: Loop, p: Parcel)
    requires l.pc.Reap? && l.cq != []
    ensures Held(r, Perform(l, ReapOne), p) ==
            Held(r, l, p) - if p == Parcel(r, Wake) && l.cq[0] == Told(Wake) then 1 else 0
  {
    TimesTail(l.cq, Told(p.msg));
    ProcessAddsPlace(r, l.(cq := l.cq[1..]), l.cq[0], p);
  }

  lemma FlushKeepsPlaces(r: nat, l: Loop, p: Parcel)
    ensures Held(r, Flush(l), p) == Held(r, l, p)
  {
    TimesConcat(l.kernel, l.sq, Send(p));
    if p.msg.Cancel? { TimesConcat(l.kernel, l.sq, CancelOp(p.msg.op)); }
  }

  lemma StartUpKeepsPlaces(r: nat, l: Loop, p: Parcel)
    requires l.pc.Starting?
    ensures Held(r, Perform(l, StartUp), p) == Held(r, l, p)
  {
    if p.msg.Job? {
      TimesConcat(l.local, l.global, p.msg.work);
    }
  }

  lemma StartOpKeepsPlaces(r: nat, l: Loop, p: Parcel)
    requires Can(l, StartOp)
    ensures Held(r, Perform(l, StartOp), p) == Held(r, l, p)
  {
    var l1 := l.(sq := l.sq + [Op]);
    EntryPlaces(r, l, Op, p);
    CallPlaces(r, l1, l.call, l.pending + 1, p);
    assert Perform(l, StartOp) == l1.(call := l.call, pending := l.pending + 1);
  }

  lemma TurnKeepsPlaces(r: nat, l: Loop, act: Act, p: Parcel)
    requires Can(l, act) && act in {Enter, Tick, CheckExit, Return, ReapEnd, EndRun, LeaveRun}
    ensures Held(r, Perform(l, act), p) == Held(r, l, p)
  {
    assert Here(Perform(l, act), p.msg) == Here(l, p.msg);
  }

  lemma SubmitKeepsPlaces(r: nat, l: Loop, act: Act, p: Parcel)
    requires Can(l, act) && act in {SubmitAndWait, SubmitNow}
    ensures Held(r, Perform(l, act), p) == Held(r, l, p)
  {
    FlushKeepsPlaces(r, l, p);
    assert Here(Perform(l, act), p.msg) == Here(Flush(l), p.msg);
  }

  lemma PerformKeepsPlaces(r: nat, l: Loop, act: Act, p: Parcel)
    requires Can(l, act) && (act.ReapOne? ==> p != Parcel(r, Wake))
    ensures Held(r, Perform(l, act), p) == Held(r, l, p)
  {
    match act
    case PopLocal => PopKeepsPlaces(r, l, p);
    case ReapOne => ReapKeepsPlaces(r, l, p);
    case SubmitAndWait => SubmitKeepsPlaces(r, l, act, p);
    case SubmitNow => SubmitKeepsPlaces(r, l, act, p);
    case StartUp => StartUpKeepsPlaces(r, l, p);
    case StartOp => StartOpKeepsPlaces(r, l, p);
    case _ => TurnKeepsPlaces(r, l, act, p);
  }

  lemma SetLoopKeepsTargets(s: State, r: nat, l: Loop)
    requires r < |s.loops| && TargetsEnabled(s)
    requires s.loops[r].enabled ==> l.enabled
    requires CallOk(s, l.call) && SqOk(s, l.sq) && SqOk(s, l.kernel)
    ensures TargetsEnabled(SetLoop(s, r, l))
  {
    var s' := SetLoop(s, r, l);
    forall i | 0 <= i < |s'.loops|
      ensures CallOk(s', s'.loops[i].call) && SqOk(s', s'.loops[i].sq) && SqOk(s', s'.loops[i].kernel)
    {
      assert CallOk(s, s.loops[i].call);
    }
  }

  lemma PerformKeepsTargets(s: State, r: nat, act: Act)
    requires Enabled(s, Local(r, act)) && TargetsEnabled(s)
    ensures TargetsEnabled(Next(s, Local(r, act)))
  {
    var l := s.loops[r];
    var l' := Perform(l, act);
    assert SqOk(s, l.kernel + l.sq);
    assert SqOk(s, l'.sq) && SqOk(s, l'.kernel);
    SetLoopKeepsTargets(s, r, l');
  }

  lemma PerformKeepsWaits(s: State, r: nat, act: Act)
    requires Enabled(s, Local(r, act)) && MadeOnce(s) && InOnePlace(s) && WaitsExact(s)
    ensures WaitsExact(Next(s, Local(r, act)))
  {
    var l := s.loops[r];
    var l' := Perform(l, act);
    if w :| Invokes(l, act, w) {
      assert l'.ran == l.ran + [w];
    } else {
      assert act.PopLocal? && l.local != [] ==> Invokes(l, act, l.local[0]);
      assert act.ReapOne? && l.cq[0].Told? && l.cq[0].msg.Job? ==> Invokes(l, act, l.cq[0].msg.work);
      assert l'.ran == l.ran && l'.waits == l.waits;
    }
  }

  lemma PerformKeepsWakes(s: State, r: nat, act: Act, i: nat)
    requires r < |s.loops| && Can(s.loops[r], act) && (i != r || !act.ReapOne?)
    ensures Places(SetLoop(s, r, Perform(s.loops[r], act)), Parcel(i, Wake)) == Places(s, Parcel(i, Wake))
  {
    SetLoopPlaces(s, r, Perform(s.loops[r], act), Parcel(i, Wake));
    PerformKeepsPlaces(r, s.loops[r], act, Parcel(i, Wake));
  }

  lemma PerformKeepsWake(s: State, r: nat, act: Act, i: nat)
    requires r < |s.loops| && Can(s.loops[r], act) && i < |s.loops| && Woken(s, i)
    ensures Woken(SetLoop(s, r, Perform(s.loops[r], act)), i)
  {
    if i != r || !act.ReapOne? { PerformKeepsWakes(s, r, act, i); }
  }

  lemma PerformKeepsWoken(s: State, r: nat, act: Act)
    requires Inv(s) && Enabled(s, Local(r, act))
    ensures NoneSleeps(Next(s, Local(r, act)))
  {
    var s' := Next(s, Local(r, act));
    forall i | 0 <= i < |s'.loops| ensures Woken(s', i) {
      PerformKeepsWake(s, r, act, i);
    }
  }

  lemma PerformKeepsInv(s: State, r: nat, act: Act)
    requires Inv(s) && Enabled(s, Local(r, act))
    ensures Inv(Next(s, Local(r, act)))
  {
    var l, s' := s.loops[r], Next(s, Local(r, act));
    forall w | Invokes(l, act, w) && w.waits ensures w in l.waits && w !in l.parked {
      FoundIsUnfinished(s, r, w);
    }
    PerformKeepsOrderly(l, act);
    PerformKeepsTargets(s, r, act);
    PerformKeepsWaits(s, r, act);
    PerformKeepsWoken(s, r, act);
    forall p: Parcel | p.msg.Job? ensures Places(s', p) == Times(s'.made, p) {
      SetLoopPlaces(s, r, Perform(l, act), p);
      PerformKeepsPlaces(r, l, act, p);
    }
  }

  // ----- steps of calls -----

  /** No wait begins or ends, and a loop at its wait keeps its exit condition. */
  predicate SameCore(l: Loop, l': Loop) {
    && l'.waits == l.waits && l'.ran == l.ran
    && (l'.pc in {Wait, Blocked} ==>
          l'.pc == l.pc && l'.exitAllowed == l.exitAllowed && l'.pending == l.pending)
  }

  predicate SameCores(s: State, s': State) {
    && |s'.loops| == |s.loops| && s'.made == s.made
    && forall r :: 0 <= r < |s.loops| ==> SameCore(s.loops[r], s'.loops[r])
  }

  lemma CoresKeepWaits(s: State, s': State)
    requires SameCores(s, s') && MadeOnce(s) && WaitsExact(s)
    ensures MadeOnce(s') && WaitsExact(s')
  {
    forall r, w | 0 <= r < |s'.loops|
      ensures w in s'.loops[r].waits <==> w.waits && Parcel(r, Job(w)) in s'.made && w !in s'.loops[r].ran
    {
      assert SameCore(s.loops[r], s'.loops[r]);
    }
  }

  lemma CoresKeepWoken(s: State, s': State)
    requires SameCores(s, s') && NoneSleeps(s)
    requires forall r :: 0 <= r < |s.loops| && s.loops[r].pc in {Wait, Blocked} ==>
               Places(s', Parcel(r, Wake)) >= Places(s, Parcel(r, Wake))
    ensures NoneSleeps(s')
  {
    forall r | 0 <= r < |s'.loops| ensures Woken(s', r) {
      assert SameCore(s.loops[r], s'.loops[r]);
      assert Woken(s, r);
    }
  }

  /** No job is created or lost, and no wake-up is lost. */
  ghost predicate SamePlaces(s: State, s': State) {
    && (forall p: Parcel :: p.msg.Job? ==> Places(s', p) == Places(s, p))
    && (forall p: Parcel :: p.msg.Wake? ==> Places(s', p) >= Places(s, p))
  }

  /** A step that only moves parcels about. */
  lemma MoveKeepsInv(s: State, s': State)
    requires Inv(s) && LoopsOrderly(s') && TargetsEnabled(s') && SameCores(s, s') && SamePlaces(s, s')
    ensures Inv(s')
  {
    CoresKeepWaits(s, s');
    CoresKeepWoken(s, s');
  }

  lemma SetCallKeepsOrderly(s: State, a: Agent, c: Call)
    requires IsAgent(s, a) && LoopsOrderly(s)
    requires a.Own? ==> s.loops[a.loop].pc.Run? && CallOf(s, a) != Pend && c != Pend
    ensures LoopsOrderly(SetCall(s, a, c)) && SameCores(s, SetCall(s, a, c))
  {
    if a.Own? {
      assert Orderly(s.loops[a.loop]);
      assert Orderly(s.loops[a.loop].(call := c));
    }
  }

  lemma SetCallKeepsTargets(s: State, a: Agent, c: Call)
    requires IsAgent(s, a) && TargetsEnabled(s) && CallOk(s, c)
    requires a.Thread? ==> !c.Submit? && !c.Pend?
    ensures TargetsEnabled(SetCall(s, a, c))
  {
    if a.Own? {
      SetLoopKeepsTargets(s, a.loop, s.loops[a.loop].(call := c));
    } else {
      var s' := SetCall(s, a, c);
      assert forall c :: CallOk(s, c) ==> CallOk(s', c);
      assert forall q :: SqOk(s, q) ==> SqOk(s', q);
    }
  }

  lemma SchedulePlaces(s: State, a: Agent, to: nat, w: Work, p: Parcel)
    requires MayCall(s, a) && to < |s.loops|
    ensures Places(Schedule(s, a, to, w), p) == Places(s, p) + if p == Parcel(to, Job(w)) then 1 else 0
  {
    if a == Own(to) {
      var l := s.loops[to];
      SetLoopPlaces(s, to, l.(local := l.local + [w]), p);
      if p.msg.Job? {
        TimesAppend(l.local, w, p.msg.work);
      }
    } else {
      SetCallPlaces(s, a, LoadFlag(Parcel(to, Job(w))), p);
    }
  }

  lemma ScheduleKeeps(s: State, a: Agent, to: nat, w: Work)
    requires MayCall(s, a) && to < |s.loops| && LoopsOrderly(s) && TargetsEnabled(s)
    ensures LoopsOrderly(Schedule(s, a, to, w)) && TargetsEnabled(Schedule(s, a, to, w))
    ensures SameCores(s, Schedule(s, a, to, w))
  {
    if a == Own(to) {
      var l := s.loops[to];
      assert Orderly(l);
      assert Orderly(l.(local := l.local + [w]));
      SetLoopKeepsTargets(s, to, l.(local := l.local + [w]));
    } else {
      SetCallKeepsOrderly(s, a, LoadFlag(Parcel(to, Job(w))));
      SetCallKeepsTargets(s, a, LoadFlag(Parcel(to, Job(w))));
    }
  }

  /** Recording a plain work item as made, before it is placed. */
  lemma MakeKeeps(s: State, s1: State, to: nat)
    requires TargetsEnabled(s) && MadeOnce(s) && WaitsExact(s) && NoneSleeps(s) && to < |s.loops|
    requires s1 == s.(made := s.made + [Parcel(to, Job(Work(|s.made|, false)))])
    ensures TargetsEnabled(s1) && MadeOnce(s1) && WaitsExact(s1) && NoneSleeps(s1)
  {
    MadeIsNoTarget(s, s1);
    forall r | 0 <= r < |s1.loops| ensures Woken(s1, r) {
      assert Woken(s, r);
    }
  }

  lemma SpawnKeepsInv(s: State, a: Agent, to: nat)
    requires Inv(s) && Enabled(s, Spawn(a, to))
    ensures Inv(Next(s, Spawn(a, to)))
  {
    var w := Work(|s.made|, false);
    var s1, s' := s.(made := s.made + [Parcel(to, Job(w))]), Next(s, Spawn(a, to));
    MakeKeeps(s, s1, to);
    ScheduleKeeps(s1, a, to, w);
    CoresKeepWaits(s1, s');
    forall p: Parcel | p.msg.Job? ensures Places(s', p) == Times(s'.made, p) {
      SchedulePlaces(s1, a, to, w, p);
      TimesAppend(s.made, Parcel(to, Job(w)), p);
    }
    forall r | 0 <= r < |s1.loops| ensures Places(s', Parcel(r, Wake)) == Places(s1, Parcel(r, Wake)) {
      SchedulePlaces(s1, a, to, w, Parcel(r, Wake));
    }
    CoresKeepWoken(s1, s');
  }

  lemma UnlinkKeeps(s: State, to: nat, w: Work)
    requires to < |s.loops| && LoopsOrderly(s) && TargetsEnabled(s)
    ensures var s1 := SetLoop(s, to, s.loops[to].(parked := s.loops[to].parked - {w}));
            LoopsOrderly(s1) && TargetsEnabled(s1)
  {
    var l := s.loops[to].(parked := s.loops[to].parked - {w});
    assert Orderly(s.loops[to]);
    assert Orderly(l);
    SetLoopKeepsTargets(s, to, l);
  }

  lemma ClaimPlaces(s: State, a: Agent, to: nat, w: Work, p: Parcel)
    requires Enabled(s, Claim(a, to, w))
    ensures Places(Next(s, Claim(a, to, w)), p) == Places(s, p)
  {
    var l := s.loops[to].(parked := s.loops[to].parked - {w});
    SetLoopPlaces(s, to, l, p);
    SchedulePlaces(SetLoop(s, to, l), a, to, w, p);
  }

  lemma ClaimKeepsPlaces(s: State, a: Agent, to: nat, w: Work)
    requires Enabled(s, Claim(a, to, w))
    ensures SamePlaces(s, Next(s, Claim(a, to, w)))
  {
    forall p: Parcel ensures Places(Next(s, Claim(a, to, w)), p) == Places(s, p) {
      ClaimPlaces(s, a, to, w, p);
    }
  }

  lemma ClaimKeepsLoops(s: State, a: Agent, to: nat, w: Work)
    requires LoopsOrderly(s) && TargetsEnabled(s) && Enabled(s, Claim(a, to, w))
    ensures var s' := Next(s, Claim(a, to, w)); LoopsOrderly(s') && TargetsEnabled(s') && SameCores(s, s')
  {
    var s1 := SetLoop(s, to, s.loops[to].(parked := s.loops[to].parked - {w}));
    UnlinkKeeps(s, to, w);
    ScheduleKeeps(s1, a, to, w);
    assert SameCores(s, s1);
  }

  lemma ClaimKeepsInv(s: State, a: Agent, to: nat, w: Work)
    requires Inv(s) && Enabled(s, Claim(a, to, w))
    ensures Inv(Next(s, Claim(a, to, w)))
  {
    ClaimKeepsLoops(s, a, to, w);
    ClaimKeepsPlaces(s, a, to, w);
    MoveKeepsInv(s, Next(s, Claim(a, to, w)));
  }

  // ----- a waiter is linked -----

  /** An item that was never made is nowhere. */
  lemma UnmadeIsNowhere(s: State, r: nat, w: Work)
    requires r < |s.loops| && MadeOnce(s) && InOnePlace(s) && w.id == |s.made|
    ensures w !in s.loops[r].parked && w !in s.loops[r].ran
  {
    var p := Parcel(r, Job(w));
    InLoopsAtLeast(s.loops, r, p);
    TimesIn(s.made, p);
    TimesIn(s.loops[r].ran, w);
    assert Places(s, p) == Times(s.made, p);
  }

  lemma LinkKeepsPlaces(s: State, r: nat, w: Work, now: bool, p: Parcel)
    requires MayCall(s, Own(r)) && w !in s.loops[r].parked
    ensures Places(SetLoop(s, r, Linked(s.loops[r], w, now)), p) ==
            Places(s, p) + if p == Parcel(r, Job(w)) then 1 else 0
  {
    SetLoopPlaces(s, r, Linked(s.loops[r], w, now), p);
  }

  lemma LinkKeepsLoops(s: State, r: nat, w: Work, now: bool)
    requires MayCall(s, Own(r)) && w !in s.loops[r].waits && LoopsOrderly(s) && TargetsEnabled(s)
    ensures LoopsOrderly(SetLoop(s, r, Linked(s.loops[r], w, now)))
    ensures TargetsEnabled(SetLoop(s, r, Linked(s.loops[r], w, now)))
  {
    assert Orderly(s.loops[r]);
    assert Orderly(Linked(s.loops[r], w, now));
    SetLoopKeepsTargets(s, r, Linked(s.loops[r], w, now));
  }

  lemma MadeIsNoTarget(s: State, s': State)
    requires TargetsEnabled(s) && s' == s.(made := s'.made)
    ensures TargetsEnabled(s')
  {
    assert forall c :: CallOk(s, c) ==> CallOk(s', c);
    assert forall q :: SqOk(s, q) ==> SqOk(s', q);
  }

  lemma {:induction false} LinkPlaces(s: State, r: nat, now: bool, p: Parcel)
    requires Inv(s) && MayCall(s, Own(r))
    ensures p.msg.Job? ==> Places(Link(s, r, now), p) == Times(Link(s, r, now).made, p)
    ensures !p.msg.Job? ==> Places(Link(s, r, now), p) == Places(s, p)
  {
    var w := Work(|s.made|, true);
    UnmadeIsNowhere(s, r, w);
    LinkKeepsPlaces(s, r, w, now, p);
    TimesAppend(s.made, Parcel(r, Job(w)), p);
  }

  lemma LinkKeepsWoken(s: State, r: nat, now: bool)
    requires Inv(s) && MayCall(s, Own(r))
    ensures NoneSleeps(Link(s, r, now))
  {
    var s' := Link(s, r, now);
    forall i | 0 <= i < |s'.loops| ensures Woken(s', i) {
      LinkPlaces(s, r, now, Parcel(i, Wake));
      assert Woken(s, i);
    }
  }

  lemma LinkKeepsShape(s: State, r: nat, now: bool)
    requires Inv(s) && MayCall(s, Own(r))
    ensures LoopsOrderly(Link(s, r, now)) && TargetsEnabled(Link(s, r, now))
  {
    var w := Work(|s.made|, true);
    UnmadeIsNowhere(s, r, w);
    LinkKeepsLoops(s, r, w, now);
    MadeIsNoTarget(SetLoop(s, r, Linked(s.loops[r], w, now)), Link(s, r, now));
  }

  lemma LinkKeepsInv(s: State, r: nat, now: bool)
    requires Inv(s) && MayCall(s, Own(r))
    ensures Inv(Link(s, r, now))
  {
    LinkKeepsShape(s, r, now);
    LinkKeepsWaits(s, r, Link(s, r, now));
    LinkKeepsWoken(s, r, now);
    forall p: Parcel | p.msg.Job? ensures Places(Link(s, r, now), p) == Times(Link(s, r, now).made, p) {
      LinkPlaces(s, r, now, p);
    }
  }

  lemma LinkKeepsWaits(s: State, r: nat, s': State)
    requires r < |s.loops| && MadeOnce(s) && InOnePlace(s) && WaitsExact(s)
    requires |s'.loops| == |s.loops| && s'.made == s.made + [Parcel(r, Job(Work(|s.made|, true)))]
    requires forall i :: 0 <= i < |s.loops| ==>
               && s'.loops[i].ran == s.loops[i].ran
               && s'.loops[i].waits == s.loops[i].waits + if i == r then {Work(|s.made|, true)} else {}
    ensures MadeOnce(s') && WaitsExact(s')
  {
    UnmadeIsNowhere(s, r, Work(|s.made|, true));
    forall i, w | 0 <= i < |s'.loops|
      ensures w in s'.loops[i].waits <==> w.waits && Parcel(i, Job(w)) in s'.made && w !in s'.loops[i].ran
    {
      assert w in s.loops[i].waits <==> w.waits && Parcel(i, Job(w)) in s.made && w !in s.loops[i].ran;
    }
  }

  // ----- a call moves on -----

  /** A step that changes one call only and loses no parcel anyone relies on. */
  lemma RecallKeepsInv(s: State, a: Agent, c: Call)
    requires Inv(s) && IsAgent(s, a) && CallOk(s, c)
    requires a.Own? ==> s.loops[a.loop].pc.Run? && CallOf(s, a) != Pend && c != Pend
    requires a.Thread? ==> !c.Submit? && !c.Pend?
    requires forall p: Parcel :: InCall(CallOf(s, a), p) != InCall(c, p) ==>
               && !p.msg.Job?
               && (p.msg.Wake? && p.to < |s.loops| && InCall(c, p) == 0 ==> !s.loops[p.to].enabled)
    ensures Inv(SetCall(s, a, c))
  {
    var s' := SetCall(s, a, c);
    SetCallKeepsOrderly(s, a, c);
    SetCallKeepsTargets(s, a, c);
    CoresKeepWaits(s, s');
    forall p: Parcel | p.msg.Job? ensures Places(s', p) == Times(s'.made, p) {
      SetCallPlaces(s, a, c, p);
    }
    forall r | 0 <= r < |s.loops| && s.loops[r].pc in {Wait, Blocked}
      ensures Places(s', Parcel(r, Wake)) >= Places(s, Parcel(r, Wake))
    {
      SetCallPlaces(s, a, c, Parcel(r, Wake));
      assert Orderly(s.loops[r]);
    }
    CoresKeepWoken(s, s');
  }

  lemma CancelFromKeepsInv(s: State, a: Agent, to: nat, op: nat)
    requires Inv(s) && Enabled(s, CancelFrom(a, to, op))
    ensures Inv(Next(s, CancelFrom(a, to, op)))
  {
    if a == Own(to) {
      var l := s.loops[to];
      var l' := l.(sq := l.sq + [CancelOp(op)]);
      DueAppend(l.sq, CancelOp(op));
      assert Orderly(l);
      assert Orderly(l');
      SetLoopKeepsTargets(s, to, l');
      forall p: Parcel | !p.msg.Cancel? ensures Places(SetLoop(s, to, l'), p) == Places(s, p) {
        SetLoopPlaces(s, to, l', p);
        EntryPlaces(to, l, CancelOp(op), p);
      }
      MoveKeepsInv(s, SetLoop(s, to, l'));
    } else {
      RecallKeepsInv(s, a, LoadFlag(Parcel(to, Cancel(op))));
    }
  }

  lemma AllowKeeps(s: State, to: nat)
    requires Inv(s) && to < |s.loops|
    requires s.loops[to].pc in {Wait, Blocked} ==> Places(s, Parcel(to, Wake)) > 0
    ensures Inv(SetLoop(s, to, s.loops[to].(exitAllowed := true)))
  {
    var l := s.loops[to].(exitAllowed := true);
    var s' := SetLoop(s, to, l);
    assert Orderly(s.loops[to]);
    assert Orderly(l);
    SetLoopKeepsTargets(s, to, l);
    forall p: Parcel ensures Places(s', p) == Places(s, p) {
      SetLoopPlaces(s, to, l, p);
    }
    forall r | 0 <= r < |s'.loops| ensures Woken(s', r) {
      assert Woken(s, r);
    }
  }

  /** The store of an exit request: from another thread, its wake-up is due. */
  lemma StoreExitKeepsInv(s: State, a: Agent, to: nat)
    requires Inv(s) && IsAgent(s, a) && CallOf(s, a) == StoreExit(to)
    ensures Inv(Continue(s, a))
  {
    var c := if a == Own(to) then Idle else LoadFlag(Parcel(to, Wake));
    CallIsOk(s, a);
    RecallKeepsInv(s, a, c);
    SetCallPlaces(s, a, c, Parcel(to, Wake));
    AllowKeeps(SetCall(s, a, c), to);
  }

  lemma CallIsOk(s: State, a: Agent)
    requires Inv(s) && IsAgent(s, a)
    ensures CallOk(s, CallOf(s, a))
    ensures a.Thread? ==> !CallOf(s, a).Submit? && !CallOf(s, a).Pend?
    ensures a.Own? && CallOf(s, a) != Idle ==> s.loops[a.loop].pc.Run?
  {
    if a.Own? {
      assert Orderly(s.loops[a.loop]);
    }
  }

  /** A call returns; what it carried is handed over in the same step. */
  lemma ReturnKeeps(s: State, a: Agent)
    requires Inv(s) && IsAgent(s, a) && CallOf(s, a) != Pend
    ensures var s1 := SetCall(s, a, Idle);
            LoopsOrderly(s1) && TargetsEnabled(s1) && SameCores(s, s1)
  {
    CallIsOk(s, a);
    if CallOf(s, a) == Idle {
      assert SetCall(s, a, Idle) == s;
    } else {
      SetCallKeepsOrderly(s, a, Idle);
      SetCallKeepsTargets(s, a, Idle);
    }
  }

  lemma StoreKeepsInv(s: State, a: Agent, p: Parcel)
    requires Inv(s) && IsAgent(s, a) && CallOf(s, a) == TakeLock(p) && !FlagIsSet(s, p.to)
    ensures Inv(Continue(s, a))
  {
    var s1, s' := SetCall(s, a, Idle), Continue(s, a);
    CallIsOk(s, a);
    ReturnKeeps(s, a);
    GlobalKeeps(s1, p.to, p.msg.work);
    forall q: Parcel ensures Places(s', q) == Places(s, q) {
      SetCallPlaces(s, a, Idle, q);
      GlobalPlaces(s1, p.to, p.msg.work, q);
    }
    assert SameCores(s, s');
    MoveKeepsInv(s, s');
  }

  lemma TakeLockKeepsInv(s: State, a: Agent, p: Parcel)
    requires Inv(s) && IsAgent(s, a) && CallOf(s, a) == TakeLock(p)
    ensures Inv(Continue(s, a))
  {
    CallIsOk(s, a);
    if FlagIsSet(s, p.to) { RecallKeepsInv(s, a, SendMsg(p)); } else { StoreKeepsInv(s, a, p); }
  }

  function PushGlobal(s: State, to: nat, w: Work): State
    requires to < |s.loops|
  {
    SetLoop(s, to, s.loops[to].(global := s.loops[to].global + [w]))
  }

  lemma GlobalKeeps(s: State, to: nat, w: Work)
    requires to < |s.loops| && LoopsOrderly(s) && TargetsEnabled(s) && !s.loops[to].enabled
    ensures LoopsOrderly(PushGlobal(s, to, w)) && TargetsEnabled(PushGlobal(s, to, w))
  {
    var l := s.loops[to].(global := s.loops[to].global + [w]);
    assert Orderly(s.loops[to]);
    assert Orderly(l);
    SetLoopKeepsTargets(s, to, l);
  }

  lemma GlobalPlaces(s: State, to: nat, w: Work, p: Parcel)
    requires to < |s.loops|
    ensures Places(PushGlobal(s, to, w), p) == Places(s, p) + if p == Parcel(to, Job(w)) then 1 else 0
  {
    SetLoopPlaces(s, to, s.loops[to].(global := s.loops[to].global + [w]), p);
    if p.msg.Job? {
      TimesAppend(s.loops[to].global, w, p.msg.work);
    }
  }

  // ----- a message is sent -----

  lemma TellKeeps(s: State, p: Parcel)
    requires FlagIsSet(s, p.to) && LoopsOrderly(s) && TargetsEnabled(s)
    ensures LoopsOrderly(Tell(s, p)) && TargetsEnabled(Tell(s, p)) && SameCores(s, Tell(s, p))
  {
    var l := s.loops[p.to];
    var l' := l.(cq := l.cq + [Told(p.msg)]);
    DueBackAppend(l.cq, Told(p.msg));
    assert Orderly(l);
    assert Orderly(l');
    SetLoopKeepsTargets(s, p.to, l');
  }

  lemma TellPlaces(s: State, p: Parcel, q: Parcel)
    requires p.to < |s.loops|
    ensures Places(Tell(s, p), q) == Places(s, q) + if p == q then 1 else 0
  {
    var l := s.loops[p.to];
    SetLoopPlaces(s, p.to, l.(cq := l.cq + [Told(p.msg)]), q);
    TimesAppend(l.cq, Told(p.msg), Told(q.msg));
  }

  lemma ThreadSendKeepsInv(s: State, a: Agent, p: Parcel)
    requires Inv(s) && IsAgent(s, a) && a.Thread? && CallOf(s, a) == SendMsg(p)
    ensures Inv(Continue(s, a))
  {
    CallIsOk(s, a);
    var s1, s' := SetCall(s, a, Idle), Continue(s, a);
    ReturnKeeps(s, a);
    TellKeeps(s1, p);
    forall q: Parcel ensures Places(s', q) == Places(s, q) {
      SetCallPlaces(s, a, Idle, q);
      TellPlaces(s1, p, q);
    }
    MoveKeepsInv(s, s');
  }

  lemma LoopSendPlaces(r: nat, l: Loop, l': Loop, p: Parcel, q: Parcel)
    requires l.call == SendMsg(p) && (l'.call == Idle || l'.call == Submit)
    requires l' == l.(call := l'.call, sq := l.sq + [Send(p)], pending := l'.pending)
    ensures Held(r, l', q) == Held(r, l, q)
  {
    var l1 := l.(sq := l.sq + [Send(p)]);
    EntryPlaces(r, l, Send(p), q);
    CallPlaces(r, l1, l'.call, l'.pending, q);
    assert l' == l1.(call := l'.call, pending := l'.pending);
  }

  /** A loop sends through its own ring, counted until acknowledged. */
  lemma LoopSendKeepsInv(s: State, r: nat, p: Parcel)
    requires Inv(s) && r < |s.loops| && CallOf(s, Own(r)) == SendMsg(p)
    ensures Inv(Continue(s, Own(r)))
  {
    CallIsOk(s, Own(r));
    var l, s' := s.loops[r], Continue(s, Own(r));
    var l' := s'.loops[r];
    DueAppend(l.sq, Send(p));
    assert Orderly(l);
    assert Orderly(l');
    SetLoopKeepsTargets(s, r, l');
    forall q: Parcel ensures Places(s', q) == Places(s, q) {
      SetLoopPlaces(s, r, l', q);
      LoopSendPlaces(r, l, l', p, q);
    }
    MoveKeepsInv(s, s');
  }

  lemma SubmitKeepsInv(s: State, r: nat)
    requires Inv(s) && r < |s.loops| && CallOf(s, Own(r)) == Submit
    ensures Inv(Continue(s, Own(r)))
  {
    CallIsOk(s, Own(r));
    var s1, s' := SetCall(s, Own(r), Idle), Continue(s, Own(r));
    ReturnKeeps(s, Own(r));
    assert Orderly(s1.loops[r]);
    FlushKeepsOrderly(s1.loops[r]);
    SetLoopKeepsTargets(s1, r, Flush(s1.loops[r]));
    forall q: Parcel ensures Places(s', q) == Places(s, q) {
      SetCallPlaces(s, Own(r), Idle, q);
      SetLoopPlaces(s1, r, Flush(s1.loops[r]), q);
      FlushKeepsPlaces(r, s1.loops[r], q);
    }
    assert SameCores(s, s');
    MoveKeepsInv(s, s');
  }

  lemma PendKeepsInv(s: State, r: nat)
    requires Inv(s) && r < |s.loops| && CallOf(s, Own(r)) == Pend
    ensures Inv(Continue(s, Own(r)))
  {
    CallIsOk(s, Own(r));
    var l, s' := s.loops[r], Continue(s, Own(r));
    var l' := s'.loops[r];
    assert Orderly(l);
    assert Orderly(l');
    SetLoopKeepsTargets(s, r, l');
    assert s' == SetLoop(s, r, l');
    forall q: Parcel ensures Places(s', q) == Places(s, q) {
      SetLoopPlaces(s, r, l', q);
    }
    MoveKeepsInv(s, s');
  }

  lemma AdvanceKeepsInv(s: State, a: Agent)
    requires Inv(s) && Enabled(s, Advance(a))
    ensures Inv(Next(s, Advance(a)))
  {
    CallIsOk(s, a);
    match CallOf(s, a)
    case Idle =>
    case StoreExit(to) => StoreExitKeepsInv(s, a, to);
    case LoadFlag(p) =>
      RecallKeepsInv(s, a, if FlagIsSet(s, p.to) then SendMsg(p) else if p.msg.Job? then TakeLock(p) else Idle);
    case TakeLock(p) => TakeLockKeepsInv(s, a, p);
    case SendMsg(p) =>
      if a.Thread? { ThreadSendKeepsInv(s, a, p); } else { LoopSendKeepsInv(s, a.loop, p); }
    case Submit => SubmitKeepsInv(s, a.loop);
    case Pend => PendKeepsInv(s, a.loop);
  }

  // ----- the kernel acts -----

  /** A submitted entry leaves the ring and its answer, if any, is queued. */
  function Answered(l: Loop, k: nat, answer: seq<Cqe>): Loop
    requires k < |l.kernel|
  {
    l.(kernel := l.kernel[..k] + l.kernel[k + 1..], cq := l.cq + answer)
  }

  predicate Answers(e: Sqe, answer: seq<Cqe>) {
    match e
    case Send(_) => answer == [Ack]
    case Op => answer == [Last]
    case CancelOp(_) => answer == [] || answer == [Told(Wake)]
  }

  lemma AnsweredOrderly(l: Loop, k: nat, answer: seq<Cqe>)
    requires Orderly(l) && k < |l.kernel| && Answers(l.kernel[k], answer)
    ensures Orderly(Answered(l, k, answer))
  {
    DueRemove(l.kernel, k);
    if answer == [] {
      assert l.cq + answer == l.cq;
    } else {
      DueBackAppend(l.cq, answer[0]);
    }
  }

  lemma AnswerKeeps(s: State, r: nat, k: nat, answer: seq<Cqe>)
    requires r < |s.loops| && k < |s.loops[r].kernel| && LoopsOrderly(s) && TargetsEnabled(s)
    requires Answers(s.loops[r].kernel[k], answer)
    ensures var s' := SetLoop(s, r, Answered(s.loops[r], k, answer));
            LoopsOrderly(s') && TargetsEnabled(s') && SameCores(s, s')
  {
    var l := s.loops[r];
    AnsweredOrderly(l, k, answer);
    SetLoopKeepsTargets(s, r, Answered(l, k, answer));
  }

  /** The kernel carries out the cancel request `p` with its entry `k`. */
  predicate Takes(s: State, r: nat, k: nat, p: Parcel)
    requires r < |s.loops| && k < |s.loops[r].kernel|
  {
    p.to == r && p.msg.Cancel? && s.loops[r].kernel[k] == CancelOp(p.msg.op)
  }

  lemma AnswerPlaces(s: State, r: nat, k: nat, answer: seq<Cqe>, p: Parcel)
    requires r < |s.loops| && k < |s.loops[r].kernel| && Answers(s.loops[r].kernel[k], answer)
    ensures Places(SetLoop(s, r, Answered(s.loops[r], k, answer)), p) ==
            Places(s, p)
            - (if Send(p) == s.loops[r].kernel[k] || Takes(s, r, k, p) then 1 else 0)
            + (if p == Parcel(r, Wake) && answer == [Told(Wake)] then 1 else 0)
  {
    var l := s.loops[r];
    SetLoopPlaces(s, r, Answered(l, k, answer), p);
    TimesRemove(l.kernel, k, Send(p));
    if p.msg.Cancel? { TimesRemove(l.kernel, k, CancelOp(p.msg.op)); }
    if answer == [] {
      assert l.cq + answer == l.cq;
    } else {
      TimesAppend(l.cq, answer[0], Told(p.msg));
    }
  }

  lemma DeliverKeepsInv(s: State, r: nat, k: nat, p: Parcel)
    requires Inv(s) && r < |s.loops| && k < |s.loops[r].kernel| && s.loops[r].kernel[k] == Send(p)
    ensures p.to < |s.loops| && Inv(Tell(SetLoop(s, r, Answered(s.loops[r], k, [Ack])), p))
  {
    var s1 := SetLoop(s, r, Answered(s.loops[r], k, [Ack]));
    assert FlagIsSet(s, p.to) by {
      assert SqOk(s, s.loops[r].kernel);
    }
    var s' := Tell(s1, p);
    assert LoopsOrderly(s') && TargetsEnabled(s') && SameCores(s, s') by {
      AnswerKeeps(s, r, k, [Ack]);
      TellKeeps(s1, p);
    }
    forall q: Parcel ensures Places(s', q) == Places(s, q) {
      AnswerPlaces(s, r, k, [Ack], q);
      TellPlaces(s1, p, q);
    }
    MoveKeepsInv(s, s');
  }

  lemma CompleteKeepsInv(s: State, r: nat, k: nat, answer: seq<Cqe>)
    requires Inv(s) && r < |s.loops| && k < |s.loops[r].kernel|
    requires Answers(s.loops[r].kernel[k], answer) && !s.loops[r].kernel[k].Send?
    ensures Inv(SetLoop(s, r, Answered(s.loops[r], k, answer)))
  {
    var s' := SetLoop(s, r, Answered(s.loops[r], k, answer));
    AnswerKeeps(s, r, k, answer);
    forall p: Parcel ensures p.msg.Job? ==> Places(s', p) == Places(s, p)
                     ensures p.msg.Wake? ==> Places(s', p) >= Places(s, p)
    {
      AnswerPlaces(s, r, k, answer, p);
    }
    MoveKeepsInv(s, s');
  }

  lemma KernelKeepsInv(s: State, r: nat, k: nat, more: bool)
    requires Inv(s) && Enabled(s, Kernel(r, k, more))
    ensures Inv(Next(s, Kernel(r, k, more)))
  {
    var l := s.loops[r];
    match l.kernel[k]
    case Send(p) => DeliverKeepsInv(s, r, k, p);
    case Op =>
      if more {
        assert Orderly(l);
        MoreKeepsInv(s, r);
      } else {
        CompleteKeepsInv(s, r, k, [Last]);
      }
    case CancelOp(_) =>
      assert l.cq + [] == l.cq;
      CompleteKeepsInv(s, r, k, if more then [Told(Wake)] else []);
  }

  lemma MoreKeepsInv(s: State, r: nat)
    requires Inv(s) && r < |s.loops| && s.loops[r].enabled
    ensures Inv(SetLoop(s, r, s.loops[r].(cq := s.loops[r].cq + [More])))
  {
    var l := s.loops[r];
    var l' := l.(cq := l.cq + [More]);
    assert Orderly(l);
    DueBackAppend(l.cq, More);
    assert Orderly(l');
    SetLoopKeepsTargets(s, r, l');
    forall p: Parcel ensures Places(SetLoop(s, r, l'), p) == Places(s, p) {
      SetLoopPlaces(s, r, l', p);
      TimesAppend(l.cq, More, Told(p.msg));
    }
    MoveKeepsInv(s, SetLoop(s, r, l'));
  }

  // ----- runs -----

  lemma StepKeepsInv(s: State, step: Step)
    requires Inv(s) && Enabled(s, step)
    ensures Inv(Next(s, step))
  {
    match step
    case Local(r, act) => PerformKeepsInv(s, r, act);
    case Spawn(a, to) => SpawnKeepsInv(s, a, to);
    case Park(r) => LinkKeepsInv(s, r, false);
    case AwaitTask(r) => LinkKeepsInv(s, r, true);
    case Claim(a, to, w) => ClaimKeepsInv(s, a, to, w);
    case AllowExit(a, to) => RecallKeepsInv(s, a, StoreExit(to));
    case CancelFrom(a, to, op) => CancelFromKeepsInv(s, a, to, op);
    case Advance(a) => AdvanceKeepsInv(s, a);
    case Kernel(r, k, more) => KernelKeepsInv(s, r, k, more);
  }

  lemma {:induction false} RunKeepsInv(s: State, steps: seq<Step>, s': State)
    requires Inv(s) && Runs(s, steps, s')
    ensures Inv(s')
    decreases |steps|
  {
    if steps != [] {
      StepKeepsInv(s, steps[0]);
      RunKeepsInv(Next(s, steps[0]), steps[1..], s');
    }
  }

  lemma InitialIsInv(s: State)
    requires Initial(s)
    ensures Inv(s)
  {
    forall p: Parcel ensures Places(s, p) == 0 {
      InLoopsNone(s.loops, p);
      InThreadsNone(s.threads, p);
    }
  }

  // ----- main results -----

  /** Work scheduled from any thread before, during or after start-up is at
      every moment in exactly one place, runs at most once, and never waits in
      the global queue of an enabled runtime. */
  lemma {:induction false} WorkIsInOnePlace(s0: State, steps: seq<Step>, s: State)
    requires Initial(s0) && Runs(s0, steps, s)
    ensures forall p :: p in s.made ==> Places(s, p) == 1
    ensures forall p: Parcel :: p.msg.Job? && p !in s.made ==> Places(s, p) == 0
    ensures forall r, w :: 0 <= r < |s.loops| ==> Times(s.loops[r].ran, w) <= 1
    ensures forall r :: 0 <= r < |s.loops| && s.loops[r].enabled ==> s.loops[r].global == []
  {
    InitialIsInv(s0);
    RunKeepsInv(s0, steps, s);
    forall p: Parcel | p.msg.Job? ensures Places(s, p) <= 1 && (Places(s, p) == 1 <==> p in s.made) {
      MadeAtMostOnce(s.made, p);
      TimesIn(s.made, p);
    }
    forall r, w | 0 <= r < |s.loops| ensures Times(s.loops[r].ran, w) <= 1 {
      InLoopsAtLeast(s.loops, r, Parcel(r, Job(w)));
    }
    forall r | 0 <= r < |s.loops| && s.loops[r].enabled ensures s.loops[r].global == [] {
      assert Orderly(s.loops[r]);
    }
  }

  /** The pending counter is never negative, equals what is outstanding at every
      loop iteration, and a runtime outside its loop has nothing outstanding. */
  lemma {:induction false} PendingIsExact(s0: State, steps: seq<Step>, s: State, r: nat)
    requires Initial(s0) && Runs(s0, steps, s) && r < |s.loops|
    ensures s.loops[r].pending >= 0
    ensures s.loops[r].call != Pend ==> s.loops[r].pending == Outstanding(s.loops[r])
    ensures !s.loops[r].pc.Run? ==> s.loops[r].pending == Outstanding(s.loops[r])
    ensures s.loops[r].pc in {Off, Leave} ==>
              && s.loops[r].pending == 0 == Outstanding(s.loops[r])
              && s.loops[r].waits == {} && s.loops[r].local == []
              && Op !in s.loops[r].sq && Op !in s.loops[r].kernel
              && Ack !in s.loops[r].cq && Last !in s.loops[r].cq
              && forall p :: Send(p) !in s.loops[r].sq && Send(p) !in s.loops[r].kernel
    ensures forall w :: w in s.loops[r].waits <==>
                        w.waits && Parcel(r, Job(w)) in s.made && w !in s.loops[r].ran
  {
    InitialIsInv(s0);
    RunKeepsInv(s0, steps, s);
    var l := s.loops[r];
    assert Orderly(l);
    if l.pc in {Off, Leave} {
      forall e: Sqe | !e.CancelOp? ensures e !in l.sq && e !in l.kernel {
        if e in l.sq { DueHas(l.sq, e); }
        if e in l.kernel { DueHas(l.kernel, e); }
      }
      NoneDueBack(l.cq);
    }
  }

  /** A message is only ever on its way to a runtime whose ring is enabled, whoever sends it. */
  lemma {:induction false} MessagesFindEnabledRings(s0: State, steps: seq<Step>, s: State, p: Parcel)
    requires Initial(s0) && Runs(s0, steps, s)
    requires || (exists k :: 0 <= k < |s.threads| && s.threads[k] == SendMsg(p))
             || (exists r :: 0 <= r < |s.loops| && (s.loops[r].call == SendMsg(p)
                                                    || Send(p) in s.loops[r].sq || Send(p) in s.loops[r].kernel))
    ensures FlagIsSet(s, p.to)
  {
    InitialIsInv(s0);
    RunKeepsInv(s0, steps, s);
  }

  /** Someone is still going to wake runtime `r`. */
  ghost predicate WakeUpComing(s: State, r: nat)
    requires r < |s.loops|
  {
    var p := Parcel(r, Wake);
    || Told(Wake) in s.loops[r].cq
    || (exists k :: 0 <= k < |s.threads| && s.threads[k] in {LoadFlag(p), SendMsg(p)})
    || (exists i :: 0 <= i < |s.loops| && s.loops[i].call in {LoadFlag(p), SendMsg(p)})
    || (exists i :: 0 <= i < |s.loops| && s.loops[i].pc !in {Off, Leave}
                    && (Send(p) in s.loops[i].kernel || (Send(p) in s.loops[i].sq && !s.loops[i].pc.Blocked?)))
  }

  lemma {:induction false} InThreadsSomewhere(threads: seq<Call>, p: Parcel) returns (k: nat)
    requires InThreads(threads, p) > 0
    ensures k < |threads| && InCall(threads[k], p) > 0
  {
    var n := |threads| - 1;
    if InCall(threads[n], p) > 0 {
      k := n;
    } else {
      k := InThreadsSomewhere(threads[..n], p);
    }
  }

  lemma WakePlaceIsComing(s: State, r: nat)
    requires Inv(s) && r < |s.loops| && Places(s, Parcel(r, Wake)) > 0
    ensures WakeUpComing(s, r)
  {
    var p := Parcel(r, Wake);
    if InThreads(s.threads, p) > 0 {
      var k := InThreadsSomewhere(s.threads, p);
      CallIsOk(s, Thread(k));
      assert s.threads[k] in {LoadFlag(p), SendMsg(p)};
    } else {
      var i := InLoopsSomewhere(s.loops, p);
      var l := s.loops[i];
      CallIsOk(s, Own(i));
      TimesIn(l.sq, Send(p));
      TimesIn(l.kernel, Send(p));
      TimesIn(l.cq, Told(Wake));
      assert Orderly(l);
      if Send(p) in l.sq {
        DueHas(l.sq, Send(p));
        assert l.pc !in {Off, Leave} && !l.pc.Blocked?;
      } else if Send(p) in l.kernel {
        DueHas(l.kernel, Send(p));
        assert l.pc !in {Off, Leave};
      }
    }
  }

  /** No exit request is slept through. */
  lemma {:induction false} NoExitIsSleptThrough(s0: State, steps: seq<Step>, s: State, r: nat)
    requires Initial(s0) && Runs(s0, steps, s) && r < |s.loops|
    requires s.loops[r].pc in {Wait, Blocked} && s.loops[r].exitAllowed && s.loops[r].pending == 0
    ensures WakeUpComing(s, r)
  {
    InitialIsInv(s0);
    RunKeepsInv(s0, steps, s);
    assert Woken(s, r);
    WakePlaceIsComing(s, r);
  }
}
