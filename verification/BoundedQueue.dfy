/**
The producer-consumer queue of examples/queue-kernel-futex.cpp: a queue guarded by three
futex-based semaphores, for any number of producers and consumers. Loads, exchanges,
additions, futex waits and wakes are separate steps, in sequentially consistent order.
Assumed of the kernel: futex_wait compares and sleeps atomically, may also return at any
time; futex_wake(1) wakes one sleeper if there is one.
 */
module BoundedQueue {
  import opened Common

  const U32: nat := 0x1_0000_0000

  datatype Sem = SlotsFree | ItemsReady | QueueLock

  datatype Counts = Counts(free: nat, ready: nat, lock: nat)

  function Get(c: Counts, k: Sem): nat {
    match k case SlotsFree => c.free case ItemsReady => c.ready case QueueLock => c.lock
  }

  function Set(c: Counts, k: Sem, n: nat): Counts {
    match k case SlotsFree => c.(free := n) case ItemsReady => c.(ready := n) case QueueLock => c.(lock := n)
  }

  /** Position inside acquire() (Load, Exchange, Wait, Asleep), the queue access, or release() (Add, Wake). */
  datatype Phase = Load | Exchange(seen: nat) | Wait | Asleep | Access | Add | Wake

  /**
   Stage 0 acquires SlotsFree (producer) or ItemsReady (consumer), stage 1 the lock, stage 2
   is the access, stage 3 releases the lock, stage 4 the other semaphore. `todo` counts the
   iterations of the loop that are not complete.
   */
  datatype Worker = Worker(producer: bool, todo: nat, stage: nat, phase: Phase)

  /** `broken` is raised by front() on an empty queue; `pushed` and `popped` log the items. */
  datatype Sys = Sys(count: Counts, queue: seq<int>, ws: seq<Worker>,
                     pushed: seq<int>, popped: seq<int>, broken: bool)

  function SemOf(w: Worker): Sem {
    if w.stage == 1 || w.stage == 3 then QueueLock
    else if w.producer == (w.stage == 0) then SlotsFree
    else ItemsReady
  }

  predicate WellPlaced(w: Worker) {
    && w.stage <= 4
    && (w.stage <= 1 <==> w.phase.Load? || w.phase.Exchange? || w.phase.Wait? || w.phase.Asleep?)
    && (w.stage == 2 <==> w.phase == Access)
    && (w.phase.Exchange? ==> w.phase.seen > 0)
    && (w.todo == 0 ==> w.stage == 0 && w.phase == Load)
  }

  datatype Step =
    | DoLoad(i: nat)
    | DoExchange(i: nat)
    | DoWait(i: nat)
    | DoAccess(i: nat, item: int)
    | DoAdd(i: nat)
    | DoWake(i: nat, sleeper: nat)
    | DoWakeNobody(i: nat)
    | Return(i: nat) // futex_wait returns without a wake

  predicate AsleepOn(w: Worker, k: Sem) {
    w.phase == Asleep && SemOf(w) == k
  }

  ghost predicate Enabled(s: Sys, x: Step) {
    && x.i < |s.ws| && s.ws[x.i].todo > 0
    && var w := s.ws[x.i];
       match x
       case DoLoad(_) => w.phase == Load
       case DoExchange(_) => w.phase.Exchange?
       case DoWait(_) => w.phase == Wait
       case DoAccess(_, _) => w.phase == Access
       case DoAdd(_) => w.phase == Add
       case DoWake(_, j) => w.phase == Wake && j < |s.ws| && AsleepOn(s.ws[j], SemOf(w))
       case DoWakeNobody(_) => w.phase == Wake && forall j :: 0 <= j < |s.ws| ==> !AsleepOn(s.ws[j], SemOf(w))
       case Return(_) => w.phase == Asleep
  }

  /** The worker after its release() is complete. */
  function AfterRelease(w: Worker): Worker {
    if w.stage == 3 then w.(stage := 4, phase := Add)
    else w.(stage := 0, phase := Load, todo := if w.todo > 0 then w.todo - 1 else 0)
  }

  function AfterAcquire(w: Worker): Worker {
    if w.stage == 0 then w.(stage := 1, phase := Load) else w.(stage := 2, phase := Access)
  }

  ghost function Next(s: Sys, x: Step): Sys
    requires Enabled(s, x)
  {
    var i, w := x.i, s.ws[x.i];
    var k := SemOf(w);
    var c := Get(s.count, k);
    match x
    case DoLoad(_) =>
      s.(ws := s.ws[i := w.(phase := if c > 0 then Exchange(c) else Wait)])
    case DoExchange(_) =>
      if c == w.phase.seen then
        s.(count := Set(s.count, k, if c > 0 then c - 1 else U32 - 1), ws := s.ws[i := AfterAcquire(w)])
      else s.(ws := s.ws[i := w.(phase := Load)])
    case DoWait(_) =>
      s.(ws := s.ws[i := w.(phase := if c == 0 then Asleep else Load)])
    case DoAccess(_, item) =>
      var ws' := s.ws[i := w.(stage := 3, phase := Add)];
      if w.producer then s.(queue := s.queue + [item], pushed := s.pushed + [item], ws := ws')
      else if s.queue == [] then s.(broken := true)
      else s.(queue := s.queue[1..], popped := s.popped + [s.queue[0]], ws := ws')
    case DoAdd(_) =>
      s.(count := Set(s.count, k, (c + 1) % U32), ws := s.ws[i := w.(phase := Wake)])
    case DoWake(_, j) =>
      s.(ws := s.ws[j := s.ws[j].(phase := Load)][i := AfterRelease(w)])
    case DoWakeNobody(_) =>
      s.(ws := s.ws[i := AfterRelease(w)])
    case Return(_) =>
      s.(ws := s.ws[i := w.(phase := Load)])
  }

  // ---- sums over the workers ----

  datatype Measure =
    | Permits           // permits of SlotsFree/ItemsReady held mid-operation
    | QueueDebt         // items queued but not yet in ItemsReady, or permits taken but items not yet removed
    | LockHeld
    | Seekers(k: Sem)   // inside acquire(k) and awake
    | Wakers(k: Sem)    // have added to k and are about to wake
    | ToPush
    | ToPop
    | Left              // successful steps still ahead: seven per iteration
    | Retry(c: Counts)  // steps inside acquire() before a count must change

  function Ind(b: bool): nat { if b then 1 else 0 }

  function Val(m: Measure, w: Worker): nat {
    match m
    case Permits => Ind(1 <= w.stage <= 3 || (w.stage == 4 && w.phase == Add))
    case QueueDebt =>
      if w.producer then Ind(w.stage == 3 || (w.stage == 4 && w.phase == Add)) else Ind(w.stage == 1 || w.stage == 2)
    case LockHeld => Ind(w.stage == 2 || (w.stage == 3 && w.phase == Add))
    case Seekers(k) => Ind(w.stage <= 1 && w.phase != Asleep && SemOf(w) == k && w.todo > 0)
    case Wakers(k) => Ind(w.phase == Wake && SemOf(w) == k)
    case ToPush => if !w.producer then 0 else if w.stage <= 2 || w.todo == 0 then w.todo else w.todo - 1
    case ToPop => if w.producer then 0 else if w.stage <= 2 || w.todo == 0 then w.todo else w.todo - 1
    case Left => if 7 * w.todo >= Progress(w) then 7 * w.todo - Progress(w) else 0
    case Retry(c) =>
      if w.todo == 0 then 0 else
      match w.phase
      case Load => 2
      case Exchange(seen) => if seen == Get(c, SemOf(w)) then 1 else 3
      case Wait => if Get(c, SemOf(w)) == 0 then 1 else 3
      case _ => 0
  }

  function Progress(w: Worker): nat {
    if w.stage <= 2 then w.stage
    else if w.stage == 3 then (if w.phase == Wake then 4 else 3)
    else (if w.phase == Wake then 6 else 5)
  }

  function Sum(m: Measure, ws: seq<Worker>): nat {
    if ws == [] then 0 else Val(m, ws[0]) + Sum(m, ws[1..])
  }

  lemma {:induction false} SumUpdate(m: Measure, ws: seq<Worker>, i: nat, w: Worker)
    requires i < |ws|
    ensures Sum(m, ws[i := w]) == Sum(m, ws) - Val(m, ws[i]) + Val(m, w)
    ensures Sum(m, ws) >= Val(m, ws[i])
    decreases |ws|
  {
    var r := ws[i := w];
    if i == 0 {
      assert r[1..] == ws[1..];
    } else {
      assert r[1..] == ws[1..][i - 1 := w];
      SumUpdate(m, ws[1..], i - 1, w);
    }
  }

  /** Two workers change, as in a wake. */
  lemma SumUpdateTwo(m: Measure, ws: seq<Worker>, j: nat, v: Worker, i: nat, w: Worker)
    requires i < |ws| && j < |ws| && i != j
    ensures Sum(m, ws[j := v][i := w]) == Sum(m, ws) - Val(m, ws[j]) + Val(m, v) - Val(m, ws[i]) + Val(m, w)
  {
    SumUpdate(m, ws, j, v);
    SumUpdate(m, ws[j := v], i, w);
  }

  lemma {:induction false} SumAtMost(m: Measure, m': Measure, ws: seq<Worker>)
    requires forall w :: w in ws ==> Val(m, w) <= Val(m', w)
    ensures Sum(m, ws) <= Sum(m', ws)
  {
    if ws != [] { SumAtMost(m, m', ws[1..]); }
  }

  // ---- conservation of permits ----

  /**
   Free slots, ready items and permits held between two semaphores make up the capacity; the
   queue holds the ready items and those whose count is being moved; the lock is one permit.
   */
  ghost predicate Books(s: Sys, cap: nat) {
    && cap < U32
    && s.count.free + s.count.ready + Sum(Permits, s.ws) == cap
    && |s.queue| == s.count.ready + Sum(QueueDebt, s.ws)
    && s.count.lock + Sum(LockHeld, s.ws) == 1
  }

  ghost predicate Placed(s: Sys) {
    && (forall i :: 0 <= i < |s.ws| ==> WellPlaced(s.ws[i]))
    && s.pushed == s.popped + s.queue && !s.broken
  }

  /** Items still to come plus items queued exceed the items still to be taken by a constant. */
  ghost predicate Balance(s: Sys, surplus: int) {
    Sum(ToPush, s.ws) + |s.queue| == Sum(ToPop, s.ws) + surplus
  }

  ghost predicate Sleeper(ws: seq<Worker>, k: Sem) {
    exists j :: 0 <= j < |ws| && AsleepOn(ws[j], k)
  }

  /** While somebody sleeps on a semaphore, each of its permits has a worker on the way to it or a wake pending. */
  ghost predicate Roused(s: Sys, k: Sem) {
    Sleeper(s.ws, k) ==> Get(s.count, k) <= Sum(Seekers(k), s.ws) + Sum(Wakers(k), s.ws)
  }

  ghost predicate Inv(s: Sys, cap: nat, surplus: int) {
    Books(s, cap) && Placed(s) && Balance(s, surplus) && forall k :: Roused(s, k)
  }

  lemma {:induction false} SumStep(m: Measure, s: Sys, x: Step)
    requires Enabled(s, x)
    ensures var s' := Next(s, x); var i := x.i;
            if x.DoWake? then
              Sum(m, s'.ws) == Sum(m, s.ws) - Val(m, s.ws[x.sleeper]) + Val(m, s.ws[x.sleeper].(phase := Load))
                               - Val(m, s.ws[i]) + Val(m, AfterRelease(s.ws[i]))
            else
              Sum(m, s'.ws) == Sum(m, s.ws) - Val(m, s.ws[i]) + Val(m, s'.ws[i])
    ensures Sum(m, s.ws) >= Val(m, s.ws[x.i])
  {
    var s' := Next(s, x);
    SumUpdate(m, s.ws, x.i, s'.ws[x.i]);
    if x.DoWake? {
      SumUpdateTwo(m, s.ws, x.sleeper, s.ws[x.sleeper].(phase := Load), x.i, AfterRelease(s.ws[x.i]));
    } else {
      assert s'.ws == s.ws[x.i := s'.ws[x.i]];
    }
  }

  lemma StepPermits(s: Sys, x: Step, cap: nat)
    requires Books(s, cap) && Enabled(s, x) && WellPlaced(s.ws[x.i]) && (x.DoWake? ==> WellPlaced(s.ws[x.sleeper]))
    ensures var s' := Next(s, x); s'.count.free + s'.count.ready + Sum(Permits, s'.ws) == cap
  {
    SumStep(Permits, s, x);
  }

  lemma StepQueueDebt(s: Sys, x: Step, cap: nat)
    requires Books(s, cap) && Enabled(s, x) && WellPlaced(s.ws[x.i]) && (x.DoWake? ==> WellPlaced(s.ws[x.sleeper]))
    ensures var s' := Next(s, x); |s'.queue| == s'.count.ready + Sum(QueueDebt, s'.ws)
  {
    SumStep(QueueDebt, s, x);
    SumStep(Permits, s, x);
  }

  lemma StepLockHeld(s: Sys, x: Step, cap: nat)
    requires Books(s, cap) && Enabled(s, x) && WellPlaced(s.ws[x.i]) && (x.DoWake? ==> WellPlaced(s.ws[x.sleeper]))
    ensures var s' := Next(s, x); s'.count.lock + Sum(LockHeld, s'.ws) == 1
  {
    SumStep(LockHeld, s, x);
  }

  lemma StepBooks(s: Sys, x: Step, cap: nat)
    requires Books(s, cap) && Placed(s) && Enabled(s, x)
    ensures Books(Next(s, x), cap)
  {
    assert WellPlaced(s.ws[x.i]) && (x.DoWake? ==> WellPlaced(s.ws[x.sleeper]));
    StepPermits(s, x, cap);
    StepQueueDebt(s, x, cap);
    StepLockHeld(s, x, cap);
  }

  /** The stage a worker moves to is one it may be at. */
  lemma StepWellPlaced(s: Sys, x: Step)
    requires Enabled(s, x) && WellPlaced(s.ws[x.i]) && (x.DoWake? ==> WellPlaced(s.ws[x.sleeper]))
    ensures |Next(s, x).ws| == |s.ws| && WellPlaced(Next(s, x).ws[x.i])
    ensures forall j :: 0 <= j < |s.ws| && j != x.i ==>
              Next(s, x).ws[j] == s.ws[j] || (x.DoWake? && j == x.sleeper && WellPlaced(Next(s, x).ws[j]))
  {
  }

  /** front() finds an item: the permit that the consumer holds stands for one. */
  lemma AccessFindsItem(s: Sys, x: Step, cap: nat)
    requires Books(s, cap) && Enabled(s, x) && x.DoAccess? && WellPlaced(s.ws[x.i]) && !s.ws[x.i].producer
    ensures s.queue != []
  {
    SumStep(QueueDebt, s, x);
  }

  lemma StepPlaced(s: Sys, x: Step, cap: nat)
    requires Books(s, cap) && Placed(s) && Enabled(s, x)
    ensures Placed(Next(s, x))
  {
    assert WellPlaced(s.ws[x.i]) && (x.DoWake? ==> WellPlaced(s.ws[x.sleeper]));
    StepWellPlaced(s, x);
    if x.DoAccess? && !s.ws[x.i].producer { AccessFindsItem(s, x, cap); }
  }

  lemma StepBalance(s: Sys, x: Step, cap: nat, surplus: int)
    requires Books(s, cap) && Placed(s) && Balance(s, surplus) && Enabled(s, x)
    ensures Balance(Next(s, x), surplus)
  {
    SumStep(ToPush, s, x);
    SumStep(ToPop, s, x);
    if x.DoAccess? { SumStep(QueueDebt, s, x); }
    assert WellPlaced(s.ws[x.i]);
    if x.DoWake? { assert WellPlaced(s.ws[x.sleeper]); }
  }

  /** Only futex_wait on a zero count puts a worker to sleep. */
  lemma NewSleeper(s: Sys, x: Step, k: Sem)
    requires Enabled(s, x) && WellPlaced(s.ws[x.i]) && Sleeper(Next(s, x).ws, k)
    ensures Sleeper(s.ws, k) || Get(Next(s, x).count, k) == 0
  {
    var s' := Next(s, x);
    var j :| 0 <= j < |s'.ws| && AsleepOn(s'.ws[j], k);
    assert s'.ws[j] == s.ws[j] || j == x.i;
    assert s'.ws[j] == s.ws[j] ==> Sleeper(s.ws, k);
  }

  /** A release never wraps: the permit it returns was taken out of the capacity. */
  lemma AddDoesNotWrap(s: Sys, x: Step, cap: nat)
    requires Books(s, cap) && Enabled(s, x) && x.DoAdd? && WellPlaced(s.ws[x.i])
    ensures Get(s.count, SemOf(s.ws[x.i])) + 1 < U32
  {
    SumStep(Permits, s, x);
    SumStep(LockHeld, s, x);
  }

  /** Permits minus workers on the way to them; a step that leaves a sleeper does not raise it above zero. */
  function Unattended(s: Sys, k: Sem): int {
    Get(s.count, k) - Sum(Seekers(k), s.ws) - Sum(Wakers(k), s.ws)
  }

  lemma AcquireAttended(s: Sys, x: Step, k: Sem)
    requires Enabled(s, x) && WellPlaced(s.ws[x.i]) && (x.DoLoad? || x.DoExchange? || x.DoWait? || x.Return?)
    ensures Unattended(Next(s, x), k) <= Unattended(s, k) || Get(Next(s, x).count, k) == 0
  {
    SumStep(Seekers(k), s, x);
    SumStep(Wakers(k), s, x);
  }

  lemma ReleaseAttended(s: Sys, x: Step, cap: nat, k: Sem)
    requires Books(s, cap) && Enabled(s, x) && WellPlaced(s.ws[x.i])
    requires || x.DoAccess? || x.DoAdd?
             || (x.DoWake? && WellPlaced(s.ws[x.sleeper])) || (x.DoWakeNobody? && Sleeper(s.ws, k))
    ensures Unattended(Next(s, x), k) <= Unattended(s, k)
  {
    SumStep(Seekers(k), s, x);
    SumStep(Wakers(k), s, x);
    if x.DoAdd? { AddDoesNotWrap(s, x, cap); }
  }

  lemma StepRoused(s: Sys, x: Step, cap: nat, k: Sem)
    requires Books(s, cap) && Placed(s) && Roused(s, k) && Enabled(s, x)
    ensures Roused(Next(s, x), k)
  {
    assert WellPlaced(s.ws[x.i]) && (x.DoWake? ==> WellPlaced(s.ws[x.sleeper]));
    if Sleeper(Next(s, x).ws, k) {
      NewSleeper(s, x, k);
      if x.DoLoad? || x.DoExchange? || x.DoWait? || x.Return? {
        AcquireAttended(s, x, k);
      } else if Sleeper(s.ws, k) {
        ReleaseAttended(s, x, cap, k);
      }
    }
  }

  // ---- every run ----

  ghost predicate Runs(s: Sys, steps: seq<Step>, s': Sys)
    decreases |steps|
  {
    if steps == [] then s' == s
    else Enabled(s, steps[0]) && Runs(Next(s, steps[0]), steps[1..], s')
  }

  /** The program at its start: every worker is about to begin its first iteration. */
  ghost predicate Start(s: Sys, cap: nat) {
    && cap < U32 && s.count == Counts(cap, 0, 1)
    && s.queue == [] && s.pushed == [] && s.popped == [] && !s.broken
    && forall w :: w in s.ws ==> w.stage == 0 && w.phase == Load
  }

  function Surplus(s: Sys): int {
    Sum(ToPush, s.ws) - Sum(ToPop, s.ws)
  }

  lemma {:induction false} SumZero(m: Measure, ws: seq<Worker>)
    requires forall w :: w in ws ==> Val(m, w) == 0
    ensures Sum(m, ws) == 0
  {
    if ws != [] { SumZero(m, ws[1..]); }
  }

  lemma {:induction false} SumPositive(m: Measure, ws: seq<Worker>) returns (i: nat)
    requires Sum(m, ws) > 0
    ensures i < |ws| && Val(m, ws[i]) > 0
  {
    if Val(m, ws[0]) > 0 {
      i := 0;
    } else {
      i := SumPositive(m, ws[1..]);
      i := i + 1;
    }
  }

  lemma StartInv(s: Sys, cap: nat)
    requires Start(s, cap)
    ensures Inv(s, cap, Surplus(s))
  {
    SumZero(Permits, s.ws);
    SumZero(QueueDebt, s.ws);
    SumZero(LockHeld, s.ws);
  }

  lemma StepKeepsInv(s: Sys, x: Step, cap: nat, surplus: int)
    requires Inv(s, cap, surplus) && Enabled(s, x)
    ensures Inv(Next(s, x), cap, surplus)
  {
    StepBooks(s, x, cap);
    StepPlaced(s, x, cap);
    StepBalance(s, x, cap, surplus);
    forall k ensures Roused(Next(s, x), k) { StepRoused(s, x, cap, k); }
  }

  lemma {:induction false} RunKeepsInv(s: Sys, steps: seq<Step>, s': Sys, cap: nat, surplus: int)
    requires Inv(s, cap, surplus) && Runs(s, steps, s')
    ensures Inv(s', cap, surplus)
    decreases |steps|
  {
    if steps != [] {
      StepKeepsInv(s, steps[0], cap, surplus);
      RunKeepsInv(Next(s, steps[0]), steps[1..], s', cap, surplus);
    }
  }

  predicate Pushes(s: Sys, x: Step) {
    x.DoAccess? && x.i < |s.ws| && s.ws[x.i].producer
  }

  predicate Pops(s: Sys, x: Step) {
    x.DoAccess? && x.i < |s.ws| && !s.ws[x.i].producer
  }

  /** The items of the producers' accesses, in order. */
  ghost function Offered(s: Sys, steps: seq<Step>): seq<int>
    decreases |steps|
  {
    if steps == [] || !Enabled(s, steps[0]) then []
    else (if Pushes(s, steps[0]) then [steps[0].item] else [])
         + Offered(Next(s, steps[0]), steps[1..])
  }

  /** How many accesses the consumers have made. */
  ghost function Withdrawals(s: Sys, steps: seq<Step>): nat
    decreases |steps|
  {
    if steps == [] || !Enabled(s, steps[0]) then 0
    else (if Pops(s, steps[0]) then 1 else 0)
         + Withdrawals(Next(s, steps[0]), steps[1..])
  }

  lemma StepLogs(s: Sys, x: Step)
    requires Enabled(s, x) && !Next(s, x).broken
    ensures !s.broken && Next(s, x).pushed == s.pushed + if Pushes(s, x) then [x.item] else []
    ensures |Next(s, x).popped| == |s.popped| + if Pops(s, x) then 1 else 0
  {
  }

  lemma {:induction false} RunLogs(s: Sys, steps: seq<Step>, s': Sys)
    requires Runs(s, steps, s') && !s'.broken
    ensures s'.pushed == s.pushed + Offered(s, steps) && |s'.popped| == |s.popped| + Withdrawals(s, steps)
    ensures !s.broken
    decreases |steps|
  {
    if steps != [] {
      RunLogs(Next(s, steps[0]), steps[1..], s');
      StepLogs(s, steps[0]);
    }
  }

  /**
   Over every run: the queue never exceeds the capacity, front() is never called on an empty
   queue, at most one worker is at the queue, the items taken are the first ones offered, one for
   each access of a consumer, and the rest is queued, and the counts never wrap.
   */
  lemma {:induction false} BoundedBufferIsSafe(s: Sys, cap: nat, steps: seq<Step>, s': Sys)
    requires Start(s, cap) && Runs(s, steps, s')
    ensures |s'.queue| <= cap && !s'.broken && s'.pushed == s'.popped + s'.queue
    ensures s'.pushed == Offered(s, steps) && |s'.popped| == Withdrawals(s, steps)
    ensures s'.count.free + s'.count.ready + Sum(Permits, s'.ws) == cap
    ensures forall i, j :: 0 <= i < j < |s'.ws| ==> s'.ws[i].stage != 2 || s'.ws[j].stage != 2
  {
    StartInv(s, cap);
    RunKeepsInv(s, steps, s', cap, Surplus(s));
    RunLogs(s, steps, s');
    SumAtMost(QueueDebt, Permits, s'.ws);
    forall i, j | 0 <= i < j < |s'.ws| ensures s'.ws[i].stage != 2 || s'.ws[j].stage != 2 {
      SumTwo(LockHeld, s'.ws, i, j);
    }
  }

  lemma {:induction false} SumTwo(m: Measure, ws: seq<Worker>, i: nat, j: nat)
    requires i < j < |ws|
    ensures Sum(m, ws) >= Val(m, ws[i]) + Val(m, ws[j])
  {
    if i == 0 {
      SumUpdate(m, ws[1..], j - 1, ws[j]);
    } else {
      SumTwo(m, ws[1..], i - 1, j - 1);
    }
  }

  /** Nothing can happen except futex_wait returning for no reason. */
  ghost predicate Stuck(s: Sys) {
    forall x: Step :: Enabled(s, x) ==> x.Return?
  }

  lemma StuckSleeps(s: Sys, i: nat)
    requires Placed(s) && Stuck(s) && i < |s.ws|
    ensures s.ws[i].todo == 0 || s.ws[i].phase == Asleep
  {
    assert WellPlaced(s.ws[i]);
    assert !Enabled(s, DoLoad(i)) && !Enabled(s, DoExchange(i)) && !Enabled(s, DoWait(i));
    assert !Enabled(s, DoAccess(i, 0)) && !Enabled(s, DoAdd(i)) && !Enabled(s, DoWakeNobody(i));
    if s.ws[i].todo > 0 && s.ws[i].phase == Wake {
      var j :| 0 <= j < |s.ws| && AsleepOn(s.ws[j], SemOf(s.ws[i]));
      assert Enabled(s, DoWake(i, j));
    }
  }

  /** With everybody asleep or done, a semaphore that somebody sleeps on has no permits. */
  lemma StuckCounts(s: Sys, k: Sem)
    requires Placed(s) && Stuck(s) && Roused(s, k)
    ensures Sleeper(s.ws, k) ==> Get(s.count, k) == 0
  {
    forall w | w in s.ws ensures Val(Seekers(k), w) == 0 && Val(Wakers(k), w) == 0 {
      var i :| 0 <= i < |s.ws| && s.ws[i] == w;
      StuckSleeps(s, i);
      assert WellPlaced(s.ws[i]);
    }
    SumZero(Seekers(k), s.ws);
    SumZero(Wakers(k), s.ws);
  }

  /** A stuck system has nobody between two semaphores. */
  lemma StuckAtStart(s: Sys, cap: nat)
    requires Books(s, cap) && Placed(s) && Stuck(s) && forall k :: Roused(s, k)
    ensures forall w :: w in s.ws ==> w.stage == 0
    ensures s.count.free + s.count.ready == cap && |s.queue| == s.count.ready
  {
    forall w | w in s.ws ensures w.stage <= 1 {
      var i :| 0 <= i < |s.ws| && s.ws[i] == w;
      StuckSleeps(s, i);
      assert WellPlaced(s.ws[i]);
    }
    SumZero(LockHeld, s.ws);
    StuckCounts(s, QueueLock);
    forall w | w in s.ws ensures w.stage == 0 {
      var i :| 0 <= i < |s.ws| && s.ws[i] == w;
      StuckSleeps(s, i);
      assert WellPlaced(s.ws[i]);
      assert AsleepOn(s.ws[i], QueueLock) ==> Sleeper(s.ws, QueueLock);
    }
    SumZero(Permits, s.ws);
    SumZero(QueueDebt, s.ws);
  }

  /** If items remain to be pushed (popped) in a stuck system, no slot is free (no item is ready). */
  lemma StuckFor(s: Sys, cap: nat, k: Sem)
    requires Books(s, cap) && Placed(s) && Stuck(s) && forall k :: Roused(s, k)
    requires (k == SlotsFree && Sum(ToPush, s.ws) > 0) || (k == ItemsReady && Sum(ToPop, s.ws) > 0)
    ensures Get(s.count, k) == 0
  {
    var i := SumPositive(if k == SlotsFree then ToPush else ToPop, s.ws);
    StuckSleeps(s, i);
    StuckAtStart(s, cap);
    assert s.ws[i] in s.ws;
    assert AsleepOn(s.ws[i], k);
    StuckCounts(s, k);
  }

  /**
   The program cannot deadlock: with a positive capacity and as many items to consume as to
   produce, a state in which nobody can move has every worker done and every item consumed.
   */
  lemma StuckIsDone(s: Sys, cap: nat)
    requires Inv(s, cap, 0) && Stuck(s) && cap > 0
    ensures s.queue == [] && s.popped == s.pushed && forall i :: 0 <= i < |s.ws| ==> s.ws[i].todo == 0
  {
    StuckAtStart(s, cap);
    if Sum(ToPop, s.ws) > 0 { StuckFor(s, cap, ItemsReady); }
    if Sum(ToPush, s.ws) > 0 { StuckFor(s, cap, SlotsFree); }
    assert Sum(ToPush, s.ws) == 0 && Sum(ToPop, s.ws) == 0 && s.queue == [];
    forall i | 0 <= i < |s.ws| ensures s.ws[i].todo == 0 {
      SumUpdate(ToPush, s.ws, i, s.ws[i]);
      SumUpdate(ToPop, s.ws, i, s.ws[i]);
      assert s.ws[i] in s.ws;
    }
  }

  // ---- progress ----

  predicate Lower(s': Sys, s: Sys) {
    || Sum(Left, s'.ws) < Sum(Left, s.ws)
    || (Sum(Left, s'.ws) == Sum(Left, s.ws) && Sum(Retry(s'.count), s'.ws) < Sum(Retry(s.count), s.ws))
  }

  lemma StepMakesProgress(s: Sys, x: Step)
    requires Enabled(s, x) && !x.Return? && WellPlaced(s.ws[x.i]) && (x.DoWake? ==> WellPlaced(s.ws[x.sleeper]))
    requires !Next(s, x).broken
    ensures Lower(Next(s, x), s)
  {
    SumStep(Left, s, x);
    SumStep(Retry(s.count), s, x);
  }

  lemma {:induction false} RetryBound(c: Counts, ws: seq<Worker>)
    ensures Sum(Retry(c), ws) <= 3 * |ws|
  {
    if ws != [] { RetryBound(c, ws[1..]); }
  }

  function Rank(s: Sys): nat {
    Pack(3 * |s.ws| + 1, Sum(Left, s.ws), Sum(Retry(s.count), s.ws))
  }

  lemma LowerRank(s: Sys, s': Sys)
    requires |s'.ws| == |s.ws| && Lower(s', s)
    ensures Rank(s') < Rank(s)
  {
    RetryBound(s'.count, s'.ws);
    PackOrdered(3 * |s.ws| + 1, Sum(Left, s.ws), Sum(Retry(s.count), s.ws),
                Sum(Left, s'.ws), Sum(Retry(s'.count), s'.ws));
  }

  predicate NoReturns(steps: seq<Step>) {
    forall x :: x in steps ==> !x.Return?
  }

  lemma {:induction false} RunIsBounded(s: Sys, steps: seq<Step>, s': Sys, cap: nat, surplus: int)
    requires Inv(s, cap, surplus) && Runs(s, steps, s') && NoReturns(steps)
    ensures |steps| + Rank(s') <= Rank(s)
    decreases |steps|
  {
    if steps != [] {
      var x := steps[0];
      StepKeepsInv(s, x, cap, surplus);
      assert WellPlaced(s.ws[x.i]) && (x.DoWake? ==> WellPlaced(s.ws[x.sleeper]));
      StepMakesProgress(s, x);
      LowerRank(s, Next(s, x));
      RunIsBounded(Next(s, x), steps[1..], s', cap, surplus);
    }
  }

  /**
   Completion: as many items to consume as to produce and room for at least one. Unless
   futex_wait keeps returning for no reason, every run is bounded, and one that cannot be
   extended has produced and consumed everything, in order.
   */
  lemma {:induction false} EveryItemIsConsumed(s: Sys, cap: nat, steps: seq<Step>, s': Sys)
    requires Start(s, cap) && cap > 0 && Surplus(s) == 0 && Runs(s, steps, s')
    ensures NoReturns(steps) ==> |steps| <= Rank(s)
    ensures Stuck(s') ==>
              s'.queue == [] && s'.popped == s'.pushed && forall i :: 0 <= i < |s'.ws| ==> s'.ws[i].todo == 0
  {
    StartInv(s, cap);
    RunKeepsInv(s, steps, s', cap, 0);
    if NoReturns(steps) { RunIsBounded(s, steps, s', cap, 0); }
    if Stuck(s') { StuckIsDone(s', cap); }
  }
}
