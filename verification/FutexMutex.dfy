/**
The coroutine mutex of examples/queue-condy-futex.cpp on top of condy::Futex
(include/condy/futex.hpp), for any number of coroutines. The atomic `state_` is not
guarded by the futex's own mutex, so request_wait_ is two steps: load under the mutex,
then append to the waiter list. Steps interleave in sequentially consistent order.
 */
module FutexMutex {
  import opened Common

  /** Where a coroutine is between two lock/unlock cycles. */
  datatype Pc =
    | Outside
    | TryLock           // about to compare-exchange state_ from false to true
    | WantWait          // the exchange failed; about to enter request_wait_
    | Loaded            // inside the futex mutex, having read true; about to append itself
    | Parked            // in the waiter list
    | Popped            // taken off the list by a notifier that has yet to schedule it
    | Holding           // owns the lock
    | Notify            // has stored false; about to pop one waiter
    | Waking(who: nat)  // has popped `who`; about to schedule it

  /** `busy` holds while some coroutine is inside the futex mutex between its two steps. */
  datatype Sys = Sys(locked: bool, waiters: seq<nat>, busy: bool, pcs: seq<Pc>)

  datatype Step =
    | Arrive(i: nat)
    | Exchange(i: nat, ok: bool)
    | Enter(i: nat)
    | Park(i: nat)
    | Store(i: nat)
    | Pop(i: nat)
    | Schedule(i: nat)

  function Init(n: nat): Sys {
    Sys(false, [], false, seq(n, _ => Outside))
  }

  predicate Enabled(s: Sys, x: Step) {
    && x.i < |s.pcs|
    && match x
       case Arrive(i) => s.pcs[i] == Outside
       case Exchange(i, _) => s.pcs[i] == TryLock
       case Enter(i) => s.pcs[i] == WantWait && !s.busy
       case Park(i) => s.pcs[i] == Loaded
       case Store(i) => s.pcs[i] == Holding
       case Pop(i) => s.pcs[i] == Notify && !s.busy && (s.waiters != [] ==> s.waiters[0] < |s.pcs|)
       case Schedule(i) => s.pcs[i].Waking? && s.pcs[i].who < |s.pcs|
  }

  function Next(s: Sys, x: Step): Sys
    requires Enabled(s, x)
  {
    var i := x.i;
    match x
    case Arrive(_) => s.(pcs := s.pcs[i := TryLock])
    case Exchange(_, ok) =>
      if ok && !s.locked then s.(locked := true, pcs := s.pcs[i := Holding])
      else s.(pcs := s.pcs[i := WantWait])
    case Enter(_) =>
      if s.locked then s.(busy := true, pcs := s.pcs[i := Loaded])
      else s.(pcs := s.pcs[i := TryLock])
    case Park(_) => s.(busy := false, waiters := s.waiters + [i], pcs := s.pcs[i := Parked])
    case Store(_) => s.(locked := false, pcs := s.pcs[i := Notify])
    case Pop(_) =>
      if s.waiters == [] then s.(pcs := s.pcs[i := Outside])
      else s.(waiters := s.waiters[1..], pcs := s.pcs[s.waiters[0] := Popped][i := Waking(s.waiters[0])])
    case Schedule(_) => s.(pcs := s.pcs[s.pcs[i].who := TryLock][i := Outside])
  }

  predicate Runs(s: Sys, steps: seq<Step>, s': Sys)
    decreases |steps|
  {
    if steps == [] then s' == s
    else Enabled(s, steps[0]) && Runs(Next(s, steps[0]), steps[1..], s')
  }

  // ---- safety ----

  /** At most one coroutine is at p, and one is exactly when the flag is set. */
  ghost predicate Unique(pcs: seq<Pc>, p: Pc, flag: bool) {
    && (forall i, j :: 0 <= i < |pcs| && 0 <= j < |pcs| && pcs[i] == p && pcs[j] == p ==> i == j)
    && (flag <==> p in pcs)
  }

  /** Mutual exclusion: the flag is set exactly while one coroutine, and only one, holds the lock. */
  ghost predicate Exclusive(s: Sys) {
    Unique(s.pcs, Holding, s.locked)
  }

  /** The futex mutex is held exactly while one coroutine is between its load and its append. */
  ghost predicate Guarded(s: Sys) {
    Unique(s.pcs, Loaded, s.busy)
  }

  /** The list holds exactly the parked coroutines, once each. */
  ghost predicate Queued(waiters: seq<nat>, pcs: seq<Pc>) {
    && (forall i :: 0 <= i < |pcs| ==> (pcs[i] == Parked <==> i in waiters))
    && (forall i :: i in waiters ==> i < |pcs|)
    && (forall k, l :: 0 <= k < l < |waiters| ==> waiters[k] != waiters[l])
  }

  /** Every popped coroutine has exactly one notifier that will schedule it. */
  ghost predicate Matched(pcs: seq<Pc>) {
    && (forall i :: 0 <= i < |pcs| && pcs[i].Waking? ==> pcs[i].who < |pcs| && pcs[pcs[i].who] == Popped)
    && (forall i, j :: 0 <= i < |pcs| && 0 <= j < |pcs| && pcs[i].Waking? && pcs[i] == pcs[j] ==> i == j)
    && (forall i :: 0 <= i < |pcs| && pcs[i] == Popped ==> Waking(i) in pcs)
  }

  ghost predicate SomeNotify(s: Sys) {
    Notify in s.pcs
  }

  /** A coroutine that will go on to try the lock, or to wake one that will. */
  predicate OnItsWay(pc: Pc) {
    pc == Notify || pc.Waking? || pc == TryLock || pc == WantWait
  }

  ghost predicate SomeOnItsWay(s: Sys) {
    exists i :: 0 <= i < |s.pcs| && OnItsWay(s.pcs[i])
  }

  /** No lost wake-up: a free lock with waiters always has somebody on the way to it. */
  ghost predicate Woken(s: Sys) {
    && (s.waiters != [] && !s.locked ==> SomeOnItsWay(s))
    && (s.busy && !s.locked ==> SomeNotify(s))
  }

  ghost predicate Inv(s: Sys) {
    Exclusive(s) && Queued(s.waiters, s.pcs) && Matched(s.pcs) && Guarded(s) && Woken(s)
  }

  lemma UniqueMove(pcs: seq<Pc>, p: Pc, flag: bool, i: nat, pc: Pc)
    requires Unique(pcs, p, flag) && i < |pcs| && pcs[i] != p && pc != p
    ensures Unique(pcs[i := pc], p, flag)
  {
    if flag {
      var j :| 0 <= j < |pcs| && pcs[j] == p;
      assert pcs[i := pc][j] == p;
    }
  }

  lemma UniqueGain(pcs: seq<Pc>, p: Pc, i: nat)
    requires Unique(pcs, p, false) && i < |pcs|
    ensures Unique(pcs[i := p], p, true)
  {
    assert pcs[i := p][i] == p;
  }

  lemma UniqueLose(pcs: seq<Pc>, p: Pc, i: nat, pc: Pc)
    requires Unique(pcs, p, true) && i < |pcs| && pcs[i] == p != pc
    ensures Unique(pcs[i := pc], p, false)
  {
  }

  lemma StepUnique(s: Sys, x: Step)
    requires Exclusive(s) && Guarded(s) && Queued(s.waiters, s.pcs) && Matched(s.pcs) && Enabled(s, x)
    ensures Exclusive(Next(s, x)) && Guarded(Next(s, x))
  {
    var i, s' := x.i, Next(s, x);
    match x
    case Pop(_) =>
      if s.waiters == [] {
        Moves(s, i, Outside);
      } else {
        var w := s.waiters[0];
        assert w in s.waiters;
        Moves(s, w, Popped);
        Moves(s.(pcs := s.pcs[w := Popped]), i, Waking(w));
      }
    case Schedule(_) =>
      Moves(s, s.pcs[i].who, TryLock);
      Moves(s.(pcs := s.pcs[s.pcs[i].who := TryLock]), i, Outside);
    case _ => Moves(s, i, s'.pcs[i]);
  }

  lemma Moves(s: Sys, i: nat, pc: Pc)
    requires Exclusive(s) && Guarded(s) && i < |s.pcs|
    ensures s.pcs[i] != Holding && pc != Holding ==> Unique(s.pcs[i := pc], Holding, s.locked)
    ensures s.pcs[i] != Loaded && pc != Loaded ==> Unique(s.pcs[i := pc], Loaded, s.busy)
    ensures pc == Holding && !s.locked ==> Unique(s.pcs[i := pc], Holding, true)
    ensures pc == Loaded && !s.busy ==> Unique(s.pcs[i := pc], Loaded, true)
    ensures s.pcs[i] == Holding && pc != Holding ==> Unique(s.pcs[i := pc], Holding, false)
    ensures s.pcs[i] == Loaded && pc != Loaded ==> Unique(s.pcs[i := pc], Loaded, false)
  {
    if s.pcs[i] != Holding && pc != Holding { UniqueMove(s.pcs, Holding, s.locked, i, pc); }
    if s.pcs[i] != Loaded && pc != Loaded { UniqueMove(s.pcs, Loaded, s.busy, i, pc); }
    if pc == Holding && !s.locked { UniqueGain(s.pcs, Holding, i); }
    if pc == Loaded && !s.busy { UniqueGain(s.pcs, Loaded, i); }
    if s.pcs[i] == Holding && pc != Holding { UniqueLose(s.pcs, Holding, i, pc); }
    if s.pcs[i] == Loaded && pc != Loaded { UniqueLose(s.pcs, Loaded, i, pc); }
  }

  lemma QueuedMove(waiters: seq<nat>, pcs: seq<Pc>, i: nat, pc: Pc)
    requires Queued(waiters, pcs) && i < |pcs| && pcs[i] != Parked && pc != Parked
    ensures Queued(waiters, pcs[i := pc])
  {
  }

  lemma QueuedPark(waiters: seq<nat>, pcs: seq<Pc>, i: nat)
    requires Queued(waiters, pcs) && i < |pcs| && pcs[i] != Parked
    ensures Queued(waiters + [i], pcs[i := Parked])
  {
  }

  lemma QueuedPop(waiters: seq<nat>, pcs: seq<Pc>)
    requires Queued(waiters, pcs) && waiters != []
    ensures waiters[0] < |pcs| && Queued(waiters[1..], pcs[waiters[0] := Popped])
  {
    var w := waiters[0];
    assert w in waiters;
    assert forall i :: i in waiters <==> i == w || i in waiters[1..];
  }

  lemma StepQueued(s: Sys, x: Step)
    requires Queued(s.waiters, s.pcs) && Matched(s.pcs) && Enabled(s, x)
    ensures Queued(Next(s, x).waiters, Next(s, x).pcs)
  {
    match x
    case Park(i) => QueuedPark(s.waiters, s.pcs, i);
    case Pop(i) =>
      if s.waiters == [] {
        QueuedMove(s.waiters, s.pcs, i, Outside);
      } else {
        var w := s.waiters[0];
        assert w in s.waiters;
        QueuedPop(s.waiters, s.pcs);
        QueuedMove(s.waiters[1..], s.pcs[w := Popped], i, Waking(w));
      }
    case Schedule(i) =>
      var w := s.pcs[i].who;
      QueuedMove(s.waiters, s.pcs, w, TryLock);
      QueuedMove(s.waiters, s.pcs[w := TryLock], i, Outside);
    case _ => QueuedMove(s.waiters, s.pcs, x.i, Next(s, x).pcs[x.i]);
  }

  lemma MatchedMove(pcs: seq<Pc>, i: nat, pc: Pc)
    requires Matched(pcs) && i < |pcs|
    requires pcs[i] != Popped && !pcs[i].Waking? && pc != Popped && !pc.Waking?
    ensures Matched(pcs[i := pc])
  {
    var r := pcs[i := pc];
    forall k | 0 <= k < |r| && r[k] == Popped ensures Waking(k) in r {
      var j :| 0 <= j < |pcs| && pcs[j] == Waking(k);
      assert r[j] == Waking(k);
    }
  }

  lemma MatchedPop(pcs: seq<Pc>, w: nat, i: nat)
    requires Matched(pcs) && w < |pcs| && i < |pcs| && pcs[w] == Parked && pcs[i] == Notify
    ensures Matched(pcs[w := Popped][i := Waking(w)])
  {
    var r := pcs[w := Popped][i := Waking(w)];
    assert r[i] == Waking(w);
    forall k | 0 <= k < |r| && r[k] == Popped && k != w ensures Waking(k) in r {
      var j :| 0 <= j < |pcs| && pcs[j] == Waking(k);
      assert r[j] == Waking(k);
    }
  }

  lemma MatchedSchedule(pcs: seq<Pc>, i: nat)
    requires Matched(pcs) && i < |pcs| && pcs[i].Waking?
    ensures Matched(pcs[pcs[i].who := TryLock][i := Outside])
  {
    var w := pcs[i].who;
    var r := pcs[w := TryLock][i := Outside];
    forall k | 0 <= k < |r| && r[k] == Popped ensures Waking(k) in r {
      var j :| 0 <= j < |pcs| && pcs[j] == Waking(k);
      assert r[j] == Waking(k);
    }
  }

  lemma StepMatched(s: Sys, x: Step)
    requires Queued(s.waiters, s.pcs) && Matched(s.pcs) && Enabled(s, x)
    ensures Matched(Next(s, x).pcs)
  {
    match x
    case Pop(i) =>
      if s.waiters == [] {
        MatchedMove(s.pcs, i, Outside);
      } else {
        assert s.waiters[0] in s.waiters;
        MatchedPop(s.pcs, s.waiters[0], i);
      }
    case Schedule(i) => MatchedSchedule(s.pcs, i);
    case _ => MatchedMove(s.pcs, x.i, Next(s, x).pcs[x.i]);
  }

  lemma StepWoken(s: Sys, x: Step)
    requires Inv(s) && Enabled(s, x)
    ensures Woken(Next(s, x))
  {
    var s' := Next(s, x);
    if s'.waiters != [] && !s'.locked && !OnItsWay(s'.pcs[x.i]) {
      if x.Schedule? {
        assert OnItsWay(s'.pcs[s.pcs[x.i].who]);
      } else {
        assert x.Park?;
        var j :| 0 <= j < |s.pcs| && s.pcs[j] == Notify;
        assert OnItsWay(s'.pcs[j]);
      }
    } else if s'.waiters != [] && !s'.locked {
      assert SomeOnItsWay(s');
    }
    if s'.busy && !s'.locked {
      if x.Store? {
        assert s'.pcs[x.i] == Notify;
      } else {
        var j :| 0 <= j < |s.pcs| && s.pcs[j] == Notify;
        assert s'.pcs[j] == Notify;
      }
    }
  }

  lemma StepKeepsInv(s: Sys, x: Step)
    requires Inv(s) && Enabled(s, x)
    ensures Inv(Next(s, x))
  {
    StepUnique(s, x);
    StepQueued(s, x);
    StepMatched(s, x);
    StepWoken(s, x);
  }

  lemma {:induction false} RunKeepsInv(s: Sys, steps: seq<Step>, s': Sys)
    requires Inv(s) && Runs(s, steps, s')
    ensures Inv(s')
    decreases |steps|
  {
    if steps != [] {
      StepKeepsInv(s, steps[0]);
      RunKeepsInv(Next(s, steps[0]), steps[1..], s');
    }
  }

  /**
   Over every run of n coroutines: two of them never hold the lock together, and whenever the
   lock is free while coroutines wait, some other one is between its unlocking store and its
   pop, or is waking a popped one, or has yet to retry its exchange.
   */
  lemma {:induction false} MutualExclusionWithoutLostWakeups(n: nat, steps: seq<Step>, s: Sys)
    requires Runs(Init(n), steps, s)
    ensures forall i, j :: 0 <= i < |s.pcs| && 0 <= j < |s.pcs| && s.pcs[i] == Holding && s.pcs[j] == Holding ==> i == j
    ensures !s.locked && s.waiters != [] ==> exists i :: 0 <= i < |s.pcs| && OnItsWay(s.pcs[i])
  {
    RunKeepsInv(Init(n), steps, s);
  }

  // ---- progress: with finitely many arrivals everybody gets the lock ----

  /** Steps of the acquire-release-notify-wake cycle still ahead of a coroutine. */
  function Major(pc: Pc): nat {
    match pc
    case Outside => 0
    case Holding => 3
    case Notify => 2
    case Waking(_) => 1
    case _ => 4
  }

  /** Steps a waiting coroutine can take before somebody else must move. */
  function Minor(pc: Pc, locked: bool): (r: nat)
    ensures r <= 3
  {
    match pc
    case TryLock => if locked then 3 else 0
    case WantWait => if locked then 2 else 1
    case Loaded => 1
    case _ => 0
  }

  function Majors(pcs: seq<Pc>): nat {
    if pcs == [] then 0 else Major(pcs[0]) + Majors(pcs[1..])
  }

  function Minors(pcs: seq<Pc>, locked: bool): (r: nat)
    ensures r <= 3 * |pcs|
  {
    if pcs == [] then 0 else Minor(pcs[0], locked) + Minors(pcs[1..], locked)
  }

  lemma {:induction false} SumsUpdate(pcs: seq<Pc>, i: nat, pc: Pc, locked: bool)
    requires i < |pcs|
    ensures Majors(pcs[i := pc]) == Majors(pcs) - Major(pcs[i]) + Major(pc)
    ensures Minors(pcs[i := pc], locked) == Minors(pcs, locked) - Minor(pcs[i], locked) + Minor(pc, locked)
    decreases |pcs|
  {
    var r := pcs[i := pc];
    if i == 0 {
      assert r[1..] == pcs[1..];
    } else {
      assert r[1..] == pcs[1..][i - 1 := pc];
      SumsUpdate(pcs[1..], i - 1, pc, locked);
    }
  }

  /** A weak exchange that fails although the lock is free. */
  predicate Spurious(s: Sys, x: Step) {
    x.Exchange? && !x.ok && !s.locked
  }

  predicate Lower(s': Sys, s: Sys) {
    || Majors(s'.pcs) < Majors(s.pcs)
    || (Majors(s'.pcs) == Majors(s.pcs) && Minors(s'.pcs, s'.locked) < Minors(s.pcs, s.locked))
  }

  lemma PopMakesProgress(s: Sys, i: nat)
    requires Queued(s.waiters, s.pcs) && Enabled(s, Pop(i))
    ensures Majors(Next(s, Pop(i)).pcs) < Majors(s.pcs)
  {
    if s.waiters == [] {
      SumsUpdate(s.pcs, i, Outside, s.locked);
    } else {
      var w := s.waiters[0];
      assert w in s.waiters;
      SumsUpdate(s.pcs, w, Popped, s.locked);
      SumsUpdate(s.pcs[w := Popped], i, Waking(w), s.locked);
    }
  }

  lemma ScheduleMakesProgress(s: Sys, i: nat)
    requires Matched(s.pcs) && Enabled(s, Schedule(i))
    ensures Majors(Next(s, Schedule(i)).pcs) < Majors(s.pcs)
  {
    var w := s.pcs[i].who;
    SumsUpdate(s.pcs, w, TryLock, s.locked);
    SumsUpdate(s.pcs[w := TryLock], i, Outside, s.locked);
  }

  lemma StepMakesProgress(s: Sys, x: Step)
    requires Queued(s.waiters, s.pcs) && Matched(s.pcs) && Enabled(s, x) && !x.Arrive? && !Spurious(s, x)
    ensures Lower(Next(s, x), s)
  {
    if x.Pop? {
      PopMakesProgress(s, x.i);
    } else if x.Schedule? {
      ScheduleMakesProgress(s, x.i);
    } else {
      SumsUpdate(s.pcs, x.i, Next(s, x).pcs[x.i], s.locked);
    }
  }

  /** No coroutine can move except by starting a new cycle. */
  ghost predicate Stuck(s: Sys) {
    forall x: Step :: Enabled(s, x) ==> x.Arrive?
  }

  /** The protocol never deadlocks: when nobody can move, nobody is left waiting. */
  lemma StuckIsIdle(s: Sys)
    requires Inv(s) && Stuck(s)
    ensures !s.locked && s.waiters == [] && forall i :: 0 <= i < |s.pcs| ==> s.pcs[i] == Outside
  {
    assert !s.busy by {
      if s.busy { var j :| 0 <= j < |s.pcs| && s.pcs[j] == Loaded; assert Enabled(s, Park(j)); }
    }
    assert !s.locked by {
      if s.locked { var j :| 0 <= j < |s.pcs| && s.pcs[j] == Holding; assert Enabled(s, Store(j)); }
    }
    forall i | 0 <= i < |s.pcs| ensures s.pcs[i] in {Outside, Parked, Popped} {
      assert s.waiters != [] ==> s.waiters[0] in s.waiters;
      assert !Enabled(s, Exchange(i, true)) && !Enabled(s, Enter(i)) && !Enabled(s, Pop(i)) && !Enabled(s, Schedule(i));
    }
    assert s.waiters == [];
  }

  predicate Fair(s: Sys, steps: seq<Step>)
    decreases |steps|
  {
    steps != [] ==>
      Enabled(s, steps[0]) && !steps[0].Arrive? && !Spurious(s, steps[0]) && Fair(Next(s, steps[0]), steps[1..])
  }

  function Rank(s: Sys): nat {
    Pack(3 * |s.pcs| + 1, Majors(s.pcs), Minors(s.pcs, s.locked))
  }

  lemma LowerRank(s: Sys, s': Sys)
    requires |s'.pcs| == |s.pcs| && Lower(s', s)
    ensures Rank(s') < Rank(s)
  {
    PackOrdered(3 * |s.pcs| + 1, Majors(s.pcs), Minors(s.pcs, s.locked), Majors(s'.pcs), Minors(s'.pcs, s'.locked));
  }

  lemma FairStep(s: Sys, x: Step)
    requires Inv(s) && Enabled(s, x) && !x.Arrive? && !Spurious(s, x)
    ensures Inv(Next(s, x)) && Rank(Next(s, x)) < Rank(s)
  {
    StepKeepsInv(s, x);
    StepMakesProgress(s, x);
    LowerRank(s, Next(s, x));
  }

  lemma {:induction false} FairRun(s: Sys, steps: seq<Step>, s': Sys)
    requires Inv(s) && Runs(s, steps, s') && Fair(s, steps)
    ensures |steps| + Rank(s') <= Rank(s)
    decreases |steps|
  {
    if steps != [] {
      FairStep(s, steps[0]);
      FairRun(Next(s, steps[0]), steps[1..], s');
    }
  }

  /**
   From any reachable state, once no more coroutines arrive and exchanges do not fail
   spuriously, every run is bounded, and a run that cannot be extended has let every
   coroutine acquire and release the lock.
   */
  lemma {:induction false} EveryWaiterIsServed(n: nat, before: seq<Step>, s: Sys, steps: seq<Step>, s': Sys)
    requires Runs(Init(n), before, s) && Runs(s, steps, s') && Fair(s, steps)
    ensures |steps| <= Rank(s)
    ensures Stuck(s') ==> !s'.locked && s'.waiters == [] && forall i :: 0 <= i < |s'.pcs| ==> s'.pcs[i] == Outside
  {
    RunKeepsInv(Init(n), before, s);
    RunKeepsInv(s, steps, s');
    FairRun(s, steps, s');
    if Stuck(s') { StuckIsIdle(s'); }
  }

  // ---- order ----

  /** Whom a step takes off the waiter list. */
  function Takes(s: Sys, x: Step): seq<nat>
    requires Enabled(s, x)
  {
    if x.Pop? && Next(s, x).pcs[x.i].Waking? then [Next(s, x).pcs[x.i].who] else []
  }

  function Taken(s: Sys, steps: seq<Step>): seq<nat>
    decreases |steps|
  {
    if steps == [] || !Enabled(s, steps[0]) then [] else Takes(s, steps[0]) + Taken(Next(s, steps[0]), steps[1..])
  }

  /** Who begins to wait. */
  function Parks(steps: seq<Step>): seq<nat> {
    if steps == [] then [] else (if steps[0].Park? then [steps[0].i] else []) + Parks(steps[1..])
  }

  lemma StepTakesInOrder(s: Sys, x: Step)
    requires Enabled(s, x)
    ensures s.waiters + (if x.Park? then [x.i] else []) == Takes(s, x) + Next(s, x).waiters
  {
  }

  /** Over every run: those who waited before and those who have begun to wait, in that order, are those
      who have been woken, in that order, followed by those who still wait. */
  lemma {:induction false} WaitersAreServedInOrder(s: Sys, steps: seq<Step>, s': Sys)
    requires Runs(s, steps, s')
    ensures s.waiters + Parks(steps) == Taken(s, steps) + s'.waiters
    decreases |steps|
  {
    if steps != [] {
      var x := steps[0];
      var s1 := Next(s, x);
      StepTakesInOrder(s, x);
      WaitersAreServedInOrder(s1, steps[1..], s');
      var parked := if x.Park? then [x.i] else [];
      calc {
        s.waiters + (parked + Parks(steps[1..]));
        (s.waiters + parked) + Parks(steps[1..]);
        Takes(s, x) + (s1.waiters + Parks(steps[1..]));
        Takes(s, x) + Taken(s1, steps[1..]) + s'.waiters;
      }
    }
  }
}
