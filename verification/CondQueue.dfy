// The producer-consumer queue of examples/queue-condy-futex.cpp: a queue guarded by
// the futex mutex and two condition variables, for any number of producers and
// consumers. Loads, stores, exchanges, and the load and the append inside
// request_wait_ are separate steps, in sequentially consistent order; popping a
// waiter and scheduling it is one step. The generation counter is unbounded.
module CondQueue {
  /** What a worker does once it has released the lock. */
  datatype Then = Sleep(gen: nat) | Announce

  datatype Pc =
    | TryLock               // about to exchange state_ from false to true
    | WantLock              // the exchange failed; about to enter the mutex's request_wait_
    | LockLoaded            // inside the futex mutex, having read true
    | LockParked
    | Test                  // holds the lock; about to test the queue
    | Access                // holds the lock; about to push or pop
    | ReadGen               // holds the lock; about to read the generation
    | Unlock(next: Then)    // holds the lock; about to store false
    | NotifyLock(next: Then) // about to pop one waiter for the lock
    | CheckGen(gen: nat)    // about to compare the generation
    | WantSleep(gen: nat)   // about to enter the condition's request_wait_
    | SleepLoaded(gen: nat) // inside that futex's mutex, having read the same generation
    | Asleep(gen: nat)
    | Bump                  // about to raise the other side's generation
    | Signal                // about to pop one waiter of the other side

  /** `todo` counts the enqueue or dequeue calls that are not complete. */
  datatype Worker = Worker(producer: bool, todo: nat, pc: Pc)

  /** A condition variable; `busy` while some worker is inside its futex's mutex. */
  datatype Cond = Cond(gen: nat, busy: bool, waiting: seq<nat>)

  /** Producers sleep on `full`, consumers on `empty`. `broken` is raised by front() on an empty
      queue; `pushed` and `popped` log the items. */
  datatype Sys = Sys(cap: nat, queue: seq<int>, locked: bool, busy: bool, waiting: seq<nat>,
                     full: Cond, empty: Cond, ws: seq<Worker>,
                     pushed: seq<int>, popped: seq<int>, broken: bool)

  function CondOf(s: Sys, producer: bool): Cond {
    if producer then s.full else s.empty
  }

  function SetCond(s: Sys, producer: bool, c: Cond): Sys {
    if producer then s.(full := c) else s.(empty := c)
  }

  /** What a side needs one of: free slots for producers, items for consumers. */
  function Supply(s: Sys, producer: bool): int {
    if producer then s.cap - |s.queue| else |s.queue|
  }

  /** `Go` takes the worker's next step; `Miss` is a weak exchange that fails for no reason. */
  datatype Step = Go(i: nat, item: int) | Miss(i: nat)

  predicate Front(list: seq<nat>, ws: seq<Worker>) {
    list != [] ==> list[0] < |ws|
  }

  predicate CanGo(s: Sys, w: Worker) {
    match w.pc
    case WantLock => !s.busy
    case LockParked => false
    case NotifyLock(_) => !s.busy && Front(s.waiting, s.ws)
    case WantSleep(_) => !CondOf(s, w.producer).busy
    case Asleep(_) => false
    case Signal => !CondOf(s, !w.producer).busy && Front(CondOf(s, !w.producer).waiting, s.ws)
    case _ => true
  }

  predicate Enabled(s: Sys, x: Step) {
    && x.i < |s.ws| && s.ws[x.i].todo > 0
    && match x
       case Go(i, _) => CanGo(s, s.ws[i])
       case Miss(i) => s.ws[i].pc == TryLock
  }

  /** Where the worker's own step takes it. */
  function Moved(s: Sys, w: Worker): Worker {
    var gen := CondOf(s, w.producer).gen;
    match w.pc
    case TryLock => w.(pc := if s.locked then WantLock else Test)
    case WantLock => w.(pc := if s.locked then LockLoaded else TryLock)
    case LockLoaded => w.(pc := LockParked)
    case LockParked => w
    case Test => w.(pc := if Supply(s, w.producer) > 0 then Access else ReadGen)
    case Access => w.(pc := Unlock(Announce))
    case ReadGen => w.(pc := Unlock(Sleep(gen)))
    case Unlock(t) => w.(pc := NotifyLock(t))
    case NotifyLock(t) => w.(pc := match t case Sleep(g) => CheckGen(g) case Announce => Bump)
    case CheckGen(g) => w.(pc := if g == gen then WantSleep(g) else TryLock)
    case WantSleep(g) => w.(pc := if g == gen then SleepLoaded(g) else CheckGen(g))
    case SleepLoaded(g) => w.(pc := Asleep(g))
    case Asleep(_) => w
    case Bump => w.(pc := Signal)
    case Signal => Worker(w.producer, if w.todo > 0 then w.todo - 1 else 0, TryLock)
  }

  /** The list a worker pops from, if its step is a pop. */
  function PopList(s: Sys, w: Worker): seq<nat> {
    match w.pc
    case NotifyLock(_) => s.waiting
    case Signal => CondOf(s, !w.producer).waiting
    case _ => []
  }

  /** A popped waiter goes back to the loop it waits in. */
  function Roused(w: Worker): Worker {
    match w.pc
    case Asleep(g) => w.(pc := CheckGen(g))
    case _ => w.(pc := TryLock)
  }

  /** The workers after worker `i` has moved. */
  function WorkersAfter(s: Sys, i: nat): (ws: seq<Worker>)
    requires i < |s.ws|
    ensures |ws| == |s.ws|
  {
    var list := PopList(s, s.ws[i]);
    var ws := if list != [] && list[0] < |s.ws| then s.ws[list[0] := Roused(s.ws[list[0]])] else s.ws;
    ws[i := Moved(s, s.ws[i])]
  }

  /** The shared variables after worker `i` has moved. */
  function SharedAfter(s: Sys, i: nat, item: int): Sys
    requires i < |s.ws|
  {
    var w := s.ws[i];
    var mine, theirs := CondOf(s, w.producer), CondOf(s, !w.producer);
    match w.pc
    case TryLock => s.(locked := true)
    case WantLock => s.(busy := s.locked)
    case LockLoaded => s.(busy := false, waiting := s.waiting + [i])
    case Access =>
      if w.producer then s.(queue := s.queue + [item], pushed := s.pushed + [item])
      else if s.queue == [] then s.(broken := true)
      else s.(queue := s.queue[1..], popped := s.popped + [s.queue[0]])
    case Unlock(_) => s.(locked := false)
    case NotifyLock(_) => s.(waiting := if s.waiting == [] then [] else s.waiting[1..])
    case WantSleep(g) => SetCond(s, w.producer, mine.(busy := g == mine.gen))
    case SleepLoaded(_) => SetCond(s, w.producer, mine.(busy := false, waiting := mine.waiting + [i]))
    case Bump => SetCond(s, !w.producer, theirs.(gen := theirs.gen + 1))
    case Signal =>
      SetCond(s, !w.producer, theirs.(waiting := if theirs.waiting == [] then [] else theirs.waiting[1..]))
    case _ => s
  }

  function Next(s: Sys, x: Step): Sys
    requires Enabled(s, x)
  {
    match x
    case Go(i, item) => SharedAfter(s, i, item).(ws := WorkersAfter(s, i))
    case Miss(i) => s.(ws := s.ws[i := s.ws[i].(pc := WantLock)])
  }

  predicate Runs(s: Sys, steps: seq<Step>, s': Sys)
    decreases |steps|
  {
    if steps == [] then s' == s
    else Enabled(s, steps[0]) && Runs(Next(s, steps[0]), steps[1..], s')
  }

  /** Before anybody has moved. */
  predicate Start(s: Sys) {
    && s.queue == s.pushed == s.popped == [] && !s.locked && !s.busy && s.waiting == [] && !s.broken
    && s.full == Cond(0, false, []) && s.empty == Cond(0, false, [])
    && forall i :: 0 <= i < |s.ws| ==> s.ws[i].pc == TryLock
  }

  // ----- sums over the workers -----

  datatype Measure =
    | Holders                         // inside the lock
    | Loading                         // inside the mutex's futex
    | LoadingSleep(p: bool)           // inside the condition's futex
    | Notifiers                       // about to pop a waiter for the lock
    | OnWay                           // will try the lock, or wake somebody who will
    | Active(p: bool, gen: nat)       // will test the queue without being woken
    | Fresh(p: bool, gen: nat)        // going to sleep, or asleep, on the current generation
    | Sleepers(p: bool)
    | Pre(p: bool)                    // has added to p's supply and not yet raised p's generation
    | Post(p: bool)                   // has raised it and not yet popped
    | ToPush
    | ToPop

  function Ind(b: bool): nat { if b then 1 else 0 }

  /** The generation a worker has read, if it is on its way to sleep. */
  predicate HasGen(pc: Pc) {
    pc.CheckGen? || pc.WantSleep? || pc.SleepLoaded? || pc.Asleep?
    || (pc.Unlock? && pc.next.Sleep?) || (pc.NotifyLock? && pc.next.Sleep?)
  }

  function GenOf(pc: Pc): nat
    requires HasGen(pc)
  {
    match pc
    case Unlock(t) => t.gen
    case NotifyLock(t) => t.gen
    case CheckGen(g) => g
    case WantSleep(g) => g
    case SleepLoaded(g) => g
    case Asleep(g) => g
  }

  predicate Holds(pc: Pc) {
    pc.Test? || pc.Access? || pc.ReadGen? || pc.Unlock?
  }

  predicate Locking(pc: Pc) {
    pc.TryLock? || pc.WantLock? || pc.LockLoaded? || pc.LockParked?
  }

  predicate Sleeping(pc: Pc) {
    pc.SleepLoaded? || pc.Asleep?
  }

  predicate Announcing(pc: Pc) {
    (pc.Unlock? && pc.next.Announce?) || (pc.NotifyLock? && pc.next.Announce?) || pc.Bump?
  }

  function Val(m: Measure, w: Worker): nat {
    if w.todo == 0 then 0 else
    match m
    case Holders => Ind(Holds(w.pc))
    case Loading => Ind(w.pc.LockLoaded?)
    case LoadingSleep(p) => Ind(w.producer == p && w.pc.SleepLoaded?)
    case Notifiers => Ind(w.pc.NotifyLock?)
    case OnWay => Ind(w.pc.NotifyLock? || w.pc.TryLock? || w.pc.WantLock?)
    case Active(p, gen) =>
      Ind(w.producer == p && (Locking(w.pc) || w.pc.Test? || w.pc.Access?
                              || (HasGen(w.pc) && !Sleeping(w.pc) && GenOf(w.pc) != gen)))
    case Fresh(p, gen) => Ind(w.producer == p && (w.pc.ReadGen? || (HasGen(w.pc) && GenOf(w.pc) == gen)))
    case Sleepers(p) => Ind(w.producer == p && Sleeping(w.pc))
    case Pre(p) => Ind(w.producer != p && Announcing(w.pc))
    case Post(p) => Ind(w.producer != p && w.pc.Signal?)
    case ToPush => if !w.producer then 0 else if Announcing(w.pc) || w.pc.Signal? then w.todo - 1 else w.todo
    case ToPop => if w.producer then 0 else if Announcing(w.pc) || w.pc.Signal? then w.todo - 1 else w.todo
  }

  function Sum(m: Measure, ws: seq<Worker>): nat {
    if ws == [] then 0 else Val(m, ws[0]) + Sum(m, ws[1..])
  }

  lemma {:induction false} SumUpdate(m: Measure, ws: seq<Worker>, i: nat, w: Worker)
    requires i < |ws|
    ensures Sum(m, ws[i := w]) == Sum(m, ws) - Val(m, ws[i]) + Val(m, w)
    ensures Sum(m, ws) >= Val(m, ws[i])
    decreases |ws|
  {
    var r := ws[i := w];
    if i == 0 {
      assert r[1..] == ws[1..];
    } else {
      assert r[1..] == ws[1..][i - 1 := w];
      SumUpdate(m, ws[1..], i - 1, w);
    }
  }

  lemma {:induction false} SumAtMost(m: Measure, m': Measure, ws: seq<Worker>)
    requires forall i :: 0 <= i < |ws| ==> Val(m, ws[i]) <= Val(m', ws[i])
    ensures Sum(m, ws) <= Sum(m', ws)
  {
    if ws != [] {
      SumAtMost(m, m', ws[1..]);
    }
  }

  lemma {:induction false} SumPositive(m: Measure, ws: seq<Worker>) returns (i: nat)
    requires Sum(m, ws) > 0
    ensures i < |ws| && Val(m, ws[i]) > 0
  {
    if Val(m, ws[0]) > 0 {
      i := 0;
    } else {
      var k := SumPositive(m, ws[1..]);
      i := k + 1;
    }
  }

  lemma {:induction false} SumTwo(m: Measure, ws: seq<Worker>, i: nat, j: nat)
    requires i < |ws| && j < |ws| && i != j
    ensures Sum(m, ws) >= Val(m, ws[i]) + Val(m, ws[j])
  {
    var w := Worker(true, 0, TryLock);
    SumUpdate(m, ws, i, w);
    SumUpdate(m, ws[i := w], j, w);
  }

  // ----- the invariant -----

  /** The list holds exactly the workers that are parked in it, once each. */
  ghost predicate Queued(list: seq<nat>, ws: seq<Worker>, cond: bool, p: bool) {
    && (forall i :: 0 <= i < |ws| ==> (ParkedIn(ws[i], cond, p) <==> i in list))
    && (forall i :: i in list ==> i < |ws|)
    && (forall k, l :: 0 <= k < l < |list| ==> list[k] != list[l])
  }

  /** Parked for the lock, or on p's condition. */
  predicate ParkedIn(w: Worker, cond: bool, p: bool) {
    w.todo > 0 && if cond then w.producer == p && w.pc.Asleep? else w.pc.LockParked?
  }

  ghost predicate Queues(s: Sys) {
    && Queued(s.waiting, s.ws, false, true)
    && forall p :: Queued(CondOf(s, p).waiting, s.ws, true, p)
  }

  /** One holder iff locked; one worker inside each futex iff it is busy. */
  ghost predicate Exclusive(s: Sys) {
    && Sum(Holders, s.ws) == Ind(s.locked)
    && Sum(Loading, s.ws) == Ind(s.busy)
    && forall p :: Sum(LoadingSleep(p), s.ws) == Ind(CondOf(s, p).busy)
  }

  /** No generation that was read is from the future. */
  predicate NotAhead(ws: seq<Worker>, gen: nat, p: bool) {
    forall i :: 0 <= i < |ws| && ws[i].producer == p && HasGen(ws[i].pc) ==> GenOf(ws[i].pc) <= gen
  }

  /** What a test of the queue found still holds while its worker has the lock. */
  predicate TestedBy(s: Sys, w: Worker) {
    w.todo > 0 ==>
      && (w.pc.Access? ==> Supply(s, w.producer) > 0)
      && (w.pc.ReadGen? || (w.pc.Unlock? && w.pc.next.Sleep?) ==> Supply(s, w.producer) == 0)
  }

  predicate Tested(s: Sys) {
    forall i :: 0 <= i < |s.ws| ==> TestedBy(s, s.ws[i])
  }

  ghost predicate Sound(s: Sys) {
    |s.queue| <= s.cap && s.pushed == s.popped + s.queue && !s.broken
  }

  ghost predicate Balance(s: Sys, surplus: int) {
    Sum(ToPush, s.ws) + |s.queue| == Sum(ToPop, s.ws) + surplus
  }

  /** No wake-up for the lock is lost. */
  ghost predicate LockServed(s: Sys) {
    && (s.waiting != [] && !s.locked ==> Sum(OnWay, s.ws) > 0)
    && (s.busy && !s.locked ==> Sum(Notifiers, s.ws) > 0)
  }

  /** No wake-up of a condition is lost: while somebody goes to sleep on the current generation, each
      unit of supply has a worker that will test the queue, or one that has yet to raise the
      generation; while somebody sleeps at all, one that has yet to pop counts too. */
  ghost predicate Served(s: Sys, p: bool) {
    var gen := CondOf(s, p).gen;
    && (Sum(Fresh(p, gen), s.ws) > 0 ==> Supply(s, p) <= Sum(Pre(p), s.ws) + Sum(Active(p, gen), s.ws))
    && (Sum(Sleepers(p), s.ws) > 0 ==>
          Supply(s, p) <= Sum(Pre(p), s.ws) + Sum(Post(p), s.ws) + Sum(Active(p, gen), s.ws))
  }

  ghost predicate Inv(s: Sys, surplus: int) {
    && Queues(s) && Exclusive(s) && Tested(s) && Sound(s) && Balance(s, surplus)
    && (forall p :: NotAhead(s.ws, CondOf(s, p).gen, p))
    && LockServed(s) && (forall p :: Served(s, p))
  }

  // ----- one step -----

  predicate CanMove(s: Sys, i: nat) {
    i < |s.ws| && s.ws[i].todo > 0 && CanGo(s, s.ws[i])
  }

  /** A pop finds a waiter of its own list. */
  lemma PopFacts(s: Sys, i: nat)
    requires Queues(s) && CanMove(s, i)
    ensures var list := PopList(s, s.ws[i]);
            list != [] ==>
              && list[0] < |s.ws| && list[0] != i && s.ws[list[0]].todo > 0
              && (s.ws[i].pc.NotifyLock? ==> s.ws[list[0]].pc.LockParked?)
              && (s.ws[i].pc.Signal? ==> s.ws[list[0]].producer != s.ws[i].producer && s.ws[list[0]].pc.Asleep?)
  {
    var list := PopList(s, s.ws[i]);
    if list != [] {
      assert list[0] in list;
      assert Queued(CondOf(s, !s.ws[i].producer).waiting, s.ws, true, !s.ws[i].producer);
    }
  }

  /** What a step does to the queue and its logs. */
  lemma QueueAfter(s: Sys, i: nat, item: int)
    requires i < |s.ws|
    ensures var s', w := SharedAfter(s, i, item), s.ws[i];
            && s'.cap == s.cap
            && (!w.pc.Access? ==>
                  s'.queue == s.queue && s'.pushed == s.pushed && s'.popped == s.popped && s'.broken == s.broken)
            && (w.pc.Access? && w.producer ==> s'.queue == s.queue + [item] && s'.pushed == s.pushed + [item]
                                               && s'.popped == s.popped && s'.broken == s.broken)
            && (w.pc.Access? && !w.producer && s.queue != [] ==>
                  s'.queue == s.queue[1..] && s'.popped == s.popped + [s.queue[0]] && s'.pushed == s.pushed
                  && s'.broken == s.broken)
  {
  }

  /** What a step does to one side's condition variable. */
  lemma CondAfter(s: Sys, i: nat, item: int, p: bool)
    requires i < |s.ws|
    ensures var c, c', w := CondOf(s, p), CondOf(SharedAfter(s, i, item), p), s.ws[i];
            && c'.gen == c.gen + Ind(w.producer != p && w.pc.Bump?)
            && c'.busy == (if w.producer != p then c.busy
                           else match w.pc
                                case WantSleep(g) => g == c.gen
                                case SleepLoaded(_) => false
                                case _ => c.busy)
            && c'.waiting == (if w.producer == p && w.pc.SleepLoaded? then c.waiting + [i]
                              else if w.producer != p && w.pc.Signal? && c.waiting != [] then c.waiting[1..]
                              else c.waiting)
  {
  }

  /** What a step adds to a sum. */
  lemma {:induction false} SumGo(m: Measure, s: Sys, i: nat)
    requires Queues(s) && CanMove(s, i)
    ensures var list := PopList(s, s.ws[i]); var ws' := WorkersAfter(s, i);
            && Sum(m, s.ws) >= Val(m, s.ws[i])
            && if list == [] then Sum(m, ws') == Sum(m, s.ws) - Val(m, s.ws[i]) + Val(m, Moved(s, s.ws[i]))
               else && list[0] < |s.ws|
                    && Sum(m, ws') == Sum(m, s.ws) - Val(m, s.ws[i]) + Val(m, Moved(s, s.ws[i]))
                                      - Val(m, s.ws[list[0]]) + Val(m, Roused(s.ws[list[0]]))
  {
    PopFacts(s, i);
    var list := PopList(s, s.ws[i]);
    SumUpdate(m, s.ws, i, Moved(s, s.ws[i]));
    if list != [] {
      SumUpdate(m, s.ws, list[0], Roused(s.ws[list[0]]));
      SumUpdate(m, s.ws[list[0] := Roused(s.ws[list[0]])], i, Moved(s, s.ws[i]));
    }
  }

  lemma QueuedMove(list: seq<nat>, ws: seq<Worker>, cond: bool, p: bool, i: nat, w: Worker)
    requires Queued(list, ws, cond, p) && i < |ws| && !ParkedIn(ws[i], cond, p) && !ParkedIn(w, cond, p)
    ensures Queued(list, ws[i := w], cond, p)
  {
  }

  lemma QueuedPark(list: seq<nat>, ws: seq<Worker>, cond: bool, p: bool, i: nat, w: Worker)
    requires Queued(list, ws, cond, p) && i < |ws| && !ParkedIn(ws[i], cond, p) && ParkedIn(w, cond, p)
    ensures Queued(list + [i], ws[i := w], cond, p)
  {
  }

  lemma QueuedPop(list: seq<nat>, ws: seq<Worker>, cond: bool, p: bool, w: Worker)
    requires Queued(list, ws, cond, p) && list != [] && list[0] < |ws| && !ParkedIn(w, cond, p)
    ensures Queued(list[1..], ws[list[0] := w], cond, p)
  {
    assert forall i :: i in list <==> i == list[0] || i in list[1..];
  }

  /** A step and one list: a worker joins at the end, the first one leaves, or nothing happens. */
  lemma MoveQueued(list: seq<nat>, s: Sys, i: nat, cond: bool, p: bool)
    requires Queues(s) && CanMove(s, i) && Queued(list, s.ws, cond, p)
    requires !ParkedIn(s.ws[i], cond, p)
    requires var pops := PopList(s, s.ws[i]);
             pops != [] ==>
               !ParkedIn(Moved(s, s.ws[i]), cond, p) && (pops == list <==> ParkedIn(s.ws[pops[0]], cond, p))
    ensures var pops := PopList(s, s.ws[i]);
            Queued(if pops != [] && pops == list then list[1..]
                   else if ParkedIn(Moved(s, s.ws[i]), cond, p) then list + [i] else list,
                   WorkersAfter(s, i), cond, p)
  {
    var w', pops := Moved(s, s.ws[i]), PopList(s, s.ws[i]);
    PopFacts(s, i);
    if pops == [] {
      if ParkedIn(w', cond, p) {
        QueuedPark(list, s.ws, cond, p, i, w');
      } else {
        QueuedMove(list, s.ws, cond, p, i, w');
      }
    } else {
      var v := Roused(s.ws[pops[0]]);
      if pops == list {
        QueuedPop(list, s.ws, cond, p, v);
        QueuedMove(list[1..], s.ws[pops[0] := v], cond, p, i, w');
      } else {
        QueuedMove(list, s.ws, cond, p, pops[0], v);
        QueuedMove(list, s.ws[pops[0] := v], cond, p, i, w');
      }
    }
  }

  lemma StepLockQueue(s: Sys, i: nat, item: int)
    requires Queues(s) && CanMove(s, i)
    ensures Queued(SharedAfter(s, i, item).waiting, WorkersAfter(s, i), false, true)
  {
    PopFacts(s, i);
    if s.ws[i].pc.Signal? && PopList(s, s.ws[i]) != [] {
      assert s.ws[PopList(s, s.ws[i])[0]].pc.Asleep?;
      assert PopList(s, s.ws[i])[0] !in s.waiting;
    }
    MoveQueued(s.waiting, s, i, false, true);
  }

  lemma StepCondQueue(s: Sys, i: nat, item: int, p: bool)
    requires Queues(s) && CanMove(s, i)
    ensures Queued(CondOf(SharedAfter(s, i, item), p).waiting, WorkersAfter(s, i), true, p)
  {
    PopFacts(s, i);
    var list, pops := CondOf(s, p).waiting, PopList(s, s.ws[i]);
    assert Queued(list, s.ws, true, p);
    if pops != [] && !(s.ws[i].pc.Signal? && s.ws[i].producer != p) {
      assert !ParkedIn(s.ws[pops[0]], true, p);
      assert pops[0] !in list;
    }
    MoveQueued(list, s, i, true, p);
  }

  lemma HoldersMove(s: Sys, w: Worker)
    requires w.todo > 0 && CanGo(s, w)
    ensures Val(Holders, Moved(s, w)) ==
            (if w.pc.TryLock? then Ind(!s.locked) else if w.pc.Unlock? then 0 else Val(Holders, w))
  {
  }

  lemma StepHolders(s: Sys, i: nat, item: int)
    requires Queues(s) && CanMove(s, i) && Sum(Holders, s.ws) == Ind(s.locked)
    ensures Sum(Holders, WorkersAfter(s, i)) == Ind(SharedAfter(s, i, item).locked)
  {
    PopFacts(s, i);
    HoldersMove(s, s.ws[i]);
    LockAfter(s, i, item);
    SumGo(Holders, s, i);
  }

  lemma StepLoading(s: Sys, i: nat, item: int)
    requires Queues(s) && CanMove(s, i) && Sum(Loading, s.ws) == Ind(s.busy)
    ensures Sum(Loading, WorkersAfter(s, i)) == Ind(SharedAfter(s, i, item).busy)
  {
    PopFacts(s, i);
    SumGo(Loading, s, i);
  }

  lemma StepLoadingSleep(s: Sys, i: nat, item: int, p: bool)
    requires Queues(s) && CanMove(s, i) && Sum(LoadingSleep(p), s.ws) == Ind(CondOf(s, p).busy)
    ensures Sum(LoadingSleep(p), WorkersAfter(s, i)) == Ind(CondOf(SharedAfter(s, i, item), p).busy)
  {
    PopFacts(s, i);
    CondAfter(s, i, item, p);
    SumGo(LoadingSleep(p), s, i);
    if s.ws[i].producer == p {
      LoadingSleepMove(s, s.ws[i]);
    }
  }

  lemma LoadingSleepMove(s: Sys, w: Worker)
    requires w.todo > 0
    ensures var p, w' := w.producer, Moved(s, w);
            Val(LoadingSleep(p), w') == Ind(w.pc.WantSleep? && w.pc.gen == CondOf(s, p).gen)
  {
  }

  lemma MoverNotAhead(s: Sys, i: nat, item: int, p: bool)
    requires Queues(s) && CanMove(s, i) && NotAhead(s.ws, CondOf(s, p).gen, p)
    ensures var w := WorkersAfter(s, i)[i];
            w.producer == p && HasGen(w.pc) ==> GenOf(w.pc) <= CondOf(SharedAfter(s, i, item), p).gen
  {
    PopFacts(s, i);
  }

  lemma StepNotAhead(s: Sys, i: nat, item: int, p: bool)
    requires Queues(s) && CanMove(s, i) && NotAhead(s.ws, CondOf(s, p).gen, p)
    ensures NotAhead(WorkersAfter(s, i), CondOf(SharedAfter(s, i, item), p).gen, p)
  {
    PopFacts(s, i);
    MoverNotAhead(s, i, item, p);
    var ws', gen' := WorkersAfter(s, i), CondOf(SharedAfter(s, i, item), p).gen;
    forall k | 0 <= k < |ws'| && ws'[k].producer == p && HasGen(ws'[k].pc) ensures GenOf(ws'[k].pc) <= gen' {
      if k != i {
        assert HasGen(s.ws[k].pc) && GenOf(ws'[k].pc) == GenOf(s.ws[k].pc);
      }
    }
  }

  lemma OnlyHolder(s: Sys, i: nat)
    requires Exclusive(s) && i < |s.ws| && s.ws[i].todo > 0 && Holds(s.ws[i].pc)
    ensures s.locked && forall j :: 0 <= j < |s.ws| && s.ws[j].todo > 0 && Holds(s.ws[j].pc) ==> j == i
  {
    SumUpdate(Holders, s.ws, i, s.ws[i]);
    forall j | 0 <= j < |s.ws| && s.ws[j].todo > 0 && Holds(s.ws[j].pc) ensures j == i {
      if j != i { SumTwo(Holders, s.ws, i, j); }
    }
  }

  lemma TestedMove(s: Sys, w: Worker)
    requires TestedBy(s, w) && Sound(s) && w.todo > 0
    ensures !w.pc.Access? ==> TestedBy(s, Moved(s, w))
    ensures w.pc.Access? ==> !Moved(s, w).pc.Access? && !Moved(s, w).pc.ReadGen? && Moved(s, w).pc == Unlock(Announce)
  {
  }

  lemma StepTested(s: Sys, i: nat, item: int)
    requires Queues(s) && CanMove(s, i) && Exclusive(s) && Tested(s) && Sound(s)
    ensures Tested(Next(s, Go(i, item)))
  {
    PopFacts(s, i);
    QueueAfter(s, i, item);
    TestedMove(s, s.ws[i]);
    if s.ws[i].pc.Access? { OnlyHolder(s, i); }
    var s' := Next(s, Go(i, item));
    forall k | 0 <= k < |s'.ws| ensures TestedBy(s', s'.ws[k]) {
      if k != i {
        assert TestedBy(s, s.ws[k]);
        assert s'.ws[k] == s.ws[k] || s'.ws[k].pc.TryLock? || s'.ws[k].pc.CheckGen?;
      }
    }
  }

  /** front() is only called on a queue with an item, and push only below the capacity. */
  lemma StepSound(s: Sys, i: nat, item: int)
    requires CanMove(s, i) && Tested(s) && Sound(s)
    ensures Sound(SharedAfter(s, i, item))
  {
    QueueAfter(s, i, item);
    if s.ws[i].pc.Access? {
      assert Supply(s, s.ws[i].producer) > 0;
      if !s.ws[i].producer { assert s.queue == [s.queue[0]] + s.queue[1..]; }
    }
  }

  lemma ToMove(s: Sys, w: Worker, producers: bool)
    requires w.todo > 0 && CanGo(s, w)
    ensures var m := if producers then ToPush else ToPop;
            Val(m, Moved(s, w)) == Val(m, w) - Ind(w.pc.Access? && w.producer == producers)
  {
  }

  lemma StepToMove(s: Sys, i: nat, producers: bool)
    requires Queues(s) && CanMove(s, i)
    ensures var m := if producers then ToPush else ToPop;
            Sum(m, WorkersAfter(s, i)) == Sum(m, s.ws) - Ind(s.ws[i].pc.Access? && s.ws[i].producer == producers)
  {
    PopFacts(s, i);
    ToMove(s, s.ws[i], producers);
    SumGo(if producers then ToPush else ToPop, s, i);
  }

  lemma StepBalance(s: Sys, i: nat, item: int, surplus: int)
    requires Queues(s) && CanMove(s, i) && Tested(s) && Balance(s, surplus)
    ensures Balance(SharedAfter(s, i, item).(ws := WorkersAfter(s, i)), surplus)
  {
    QueueAfter(s, i, item);
    StepToMove(s, i, true);
    StepToMove(s, i, false);
    assert s.ws[i].pc.Access? ==> Supply(s, s.ws[i].producer) > 0;
  }

  // ----- no lost wake-up for the lock -----

  /** What a step does to the lock and its waiters. */
  lemma LockAfter(s: Sys, i: nat, item: int)
    requires i < |s.ws|
    ensures var s', pc := SharedAfter(s, i, item), s.ws[i].pc;
            && s'.locked == (if pc.TryLock? then true else if pc.Unlock? then false else s.locked)
            && s'.busy == (if pc.WantLock? then s.locked else if pc.LockLoaded? then false else s.busy)
            && s'.waiting == (if pc.LockLoaded? then s.waiting + [i]
                              else if pc.NotifyLock? && s.waiting != [] then s.waiting[1..] else s.waiting)
  {
  }

  lemma StepNotifiers(s: Sys, i: nat)
    requires Queues(s) && CanMove(s, i)
    ensures Sum(Notifiers, WorkersAfter(s, i)) ==
            Sum(Notifiers, s.ws) - Ind(s.ws[i].pc.NotifyLock?) + Ind(s.ws[i].pc.Unlock?)
  {
    PopFacts(s, i);
    SumGo(Notifiers, s, i);
  }

  lemma OnWayMove(s: Sys, w: Worker)
    requires w.todo > 0 && CanGo(s, w)
    ensures Val(OnWay, Moved(s, w)) < Val(OnWay, w) ==>
              (w.pc.TryLock? && !s.locked) || (w.pc.WantLock? && s.locked) || w.pc.NotifyLock?
    ensures w.pc.Unlock? ==> Val(OnWay, Moved(s, w)) == 1
  {
  }

  lemma StepOnWay(s: Sys, i: nat, item: int)
    requires Queues(s) && CanMove(s, i) && Sum(Loading, s.ws) == Ind(s.busy) && LockServed(s)
    ensures var s' := SharedAfter(s, i, item); s'.waiting != [] && !s'.locked ==> Sum(OnWay, WorkersAfter(s, i)) > 0
  {
    PopFacts(s, i);
    LockAfter(s, i, item);
    OnWayMove(s, s.ws[i]);
    SumGo(OnWay, s, i);
    SumAtMost(Notifiers, OnWay, s.ws);
    SumUpdate(Loading, s.ws, i, s.ws[i]);
    SumUpdate(OnWay, WorkersAfter(s, i), i, Moved(s, s.ws[i]));
    assert s.ws[i].pc.NotifyLock? && s.waiting != [] ==> Val(OnWay, Roused(s.ws[s.waiting[0]])) == 1;
  }

  lemma StepLockServed(s: Sys, i: nat, item: int)
    requires Queues(s) && CanMove(s, i) && Sum(Loading, s.ws) == Ind(s.busy) && LockServed(s)
    ensures LockServed(Next(s, Go(i, item)))
  {
    StepOnWay(s, i, item);
    StepNotifiers(s, i);
    LockAfter(s, i, item);
  }

  // ----- no lost wake-up of a condition -----

  lemma OwnMove(s: Sys, w: Worker)
    requires w.todo > 0 && CanGo(s, w)
    ensures var p, w' := w.producer, Moved(s, w); var gen := CondOf(s, p).gen;
            && Val(Active(p, gen), w') + Ind(w.pc.Access? || w'.pc.ReadGen?) >= Val(Active(p, gen), w)
            && (Val(Fresh(p, gen), w') > Val(Fresh(p, gen), w) ==> w'.pc.ReadGen? && Supply(s, p) <= 0)
            && (w'.pc.ReadGen? ==> Supply(s, p) <= 0)
            && (Val(Sleepers(p), w') > Val(Sleepers(p), w) ==> Val(Fresh(p, gen), w) == 1)
            && Val(Pre(p), w) == Val(Pre(p), w') == Val(Post(p), w) == Val(Post(p), w') == 0
  {
  }

  lemma OtherMove(s: Sys, w: Worker, p: bool, gen: nat)
    requires w.todo > 0 && w.producer != p
    ensures var w' := Moved(s, w);
            && Val(Active(p, gen), w) == Val(Active(p, gen), w') == Val(Fresh(p, gen), w) == Val(Fresh(p, gen), w') == 0
            && Val(Sleepers(p), w) == Val(Sleepers(p), w') == 0
            && Val(Pre(p), w') == Val(Pre(p), w) + Ind(w.pc.Access?) - Ind(w.pc.Bump?)
            && Val(Post(p), w') == Val(Post(p), w) + Ind(w.pc.Bump?) - Ind(w.pc.Signal?)
  {
  }

  lemma RousedVals(w: Worker, p: bool, gen: nat)
    requires w.todo > 0 && (w.pc.LockParked? || w.pc.Asleep?)
    ensures var w' := Roused(w);
            && Val(Pre(p), w) == Val(Pre(p), w') == Val(Post(p), w) == Val(Post(p), w') == 0
            && Val(Fresh(p, gen), w') == Val(Fresh(p, gen), w)
            && Val(Active(p, gen), w') ==
               Val(Active(p, gen), w) + Ind(w.producer == p && w.pc.Asleep? && w.pc.gen != gen)
            && Val(Sleepers(p), w') == Val(Sleepers(p), w) - Ind(w.producer == p && w.pc.Asleep?)
  {
  }

  /** The five sums of one side after a step, with the generation as it was. */
  lemma SideSums(s: Sys, i: nat, p: bool)
    requires Queues(s) && CanMove(s, i)
    ensures var w, w', ws', pops := s.ws[i], Moved(s, s.ws[i]), WorkersAfter(s, i), PopList(s, s.ws[i]);
            var gen := CondOf(s, p).gen;
            var stale := && pops != [] && s.ws[pops[0]].producer == p
                         && s.ws[pops[0]].pc.Asleep? && s.ws[pops[0]].pc.gen != gen;
            && Sum(Active(p, gen), ws') ==
               Sum(Active(p, gen), s.ws) - Val(Active(p, gen), w) + Val(Active(p, gen), w') + Ind(stale)
            && Sum(Fresh(p, gen), ws') == Sum(Fresh(p, gen), s.ws) - Val(Fresh(p, gen), w) + Val(Fresh(p, gen), w')
            && Sum(Sleepers(p), ws') <= Sum(Sleepers(p), s.ws) - Val(Sleepers(p), w) + Val(Sleepers(p), w')
            && Sum(Pre(p), ws') == Sum(Pre(p), s.ws) - Val(Pre(p), w) + Val(Pre(p), w')
            && Sum(Post(p), ws') == Sum(Post(p), s.ws) - Val(Post(p), w) + Val(Post(p), w')
            && Sum(Fresh(p, gen), s.ws) >= Val(Fresh(p, gen), w)
  {
    PopFacts(s, i);
    var gen, pops := CondOf(s, p).gen, PopList(s, s.ws[i]);
    if pops != [] { RousedVals(s.ws[pops[0]], p, gen); }
    SumGo(Active(p, gen), s, i);
    SumGo(Fresh(p, gen), s, i);
    SumGo(Sleepers(p), s, i);
    SumGo(Pre(p), s, i);
    SumGo(Post(p), s, i);
  }

  /** A step of the side itself. */
  lemma ServedOwn(s: Sys, i: nat, item: int, p: bool)
    requires Queues(s) && CanMove(s, i) && s.ws[i].producer == p && Tested(s) && Sound(s) && Served(s, p)
    ensures Served(Next(s, Go(i, item)), p)
  {
    PopFacts(s, i);
    OwnMove(s, s.ws[i]);
    CondAfter(s, i, item, p);
    QueueAfter(s, i, item);
    SideSums(s, i, p);
    assert s.ws[i].pc.Access? ==> Supply(s, p) > 0;
  }

  /** A step of the other side that leaves the generation and the sleepers alone. */
  lemma ServedOther(s: Sys, i: nat, item: int, p: bool)
    requires Queues(s) && CanMove(s, i) && s.ws[i].producer != p && Tested(s) && Sound(s) && Served(s, p)
    requires !s.ws[i].pc.Bump? && !s.ws[i].pc.Signal?
    ensures Served(Next(s, Go(i, item)), p)
  {
    PopFacts(s, i);
    OtherMove(s, s.ws[i], p, CondOf(s, p).gen);
    CondAfter(s, i, item, p);
    QueueAfter(s, i, item);
    SideSums(s, i, p);
    assert s.ws[i].pc.Access? ==> Supply(s, !p) > 0;
  }

  lemma RaisedIsActive(w: Worker, p: bool, gen: nat)
    requires w.producer == p && HasGen(w.pc) ==> GenOf(w.pc) <= gen
    ensures Val(Active(p, gen), w) <= Val(Active(p, gen + 1), w)
    ensures Val(Fresh(p, gen + 1), w) > 0 ==> w.pc.ReadGen? && w.producer == p && w.todo > 0
  {
  }

  lemma {:induction false} RaisedSums(ws: seq<Worker>, p: bool, gen: nat)
    requires NotAhead(ws, gen, p)
    ensures Sum(Active(p, gen), ws) <= Sum(Active(p, gen + 1), ws)
    ensures Sum(Fresh(p, gen + 1), ws) > 0 ==>
              exists k :: 0 <= k < |ws| && ws[k].pc.ReadGen? && ws[k].producer == p && ws[k].todo > 0
  {
    forall k | 0 <= k < |ws| ensures Val(Active(p, gen), ws[k]) <= Val(Active(p, gen + 1), ws[k]) {
      RaisedIsActive(ws[k], p, gen);
    }
    SumAtMost(Active(p, gen), Active(p, gen + 1), ws);
    if Sum(Fresh(p, gen + 1), ws) > 0 {
      var k := SumPositive(Fresh(p, gen + 1), ws);
      RaisedIsActive(ws[k], p, gen);
    }
  }

  /** The sums of the side whose generation is raised, for the new generation. */
  lemma BumpSums(s: Sys, i: nat, p: bool)
    requires Queues(s) && CanMove(s, i) && s.ws[i].producer != p && s.ws[i].pc.Bump?
    requires NotAhead(s.ws, CondOf(s, p).gen, p)
    ensures var ws', gen := WorkersAfter(s, i), CondOf(s, p).gen;
            && Sum(Pre(p), ws') == Sum(Pre(p), s.ws) - 1 && Sum(Post(p), ws') == Sum(Post(p), s.ws) + 1
            && Sum(Sleepers(p), ws') == Sum(Sleepers(p), s.ws)
            && Sum(Active(p, gen + 1), ws') >= Sum(Active(p, gen), s.ws)
            && Sum(Fresh(p, gen + 1), ws') == Sum(Fresh(p, gen + 1), s.ws)
  {
    var gen, w' := CondOf(s, p).gen, Moved(s, s.ws[i]);
    assert WorkersAfter(s, i) == s.ws[i := w'];
    OtherMove(s, s.ws[i], p, gen + 1);
    RaisedSums(s.ws, p, gen);
    SumUpdate(Pre(p), s.ws, i, w');
    SumUpdate(Post(p), s.ws, i, w');
    SumUpdate(Sleepers(p), s.ws, i, w');
    SumUpdate(Active(p, gen + 1), s.ws, i, w');
    SumUpdate(Fresh(p, gen + 1), s.ws, i, w');
  }

  /** The generation is raised: whoever was on the way to sleep will test the queue again. */
  lemma ServedBump(s: Sys, i: nat, item: int, p: bool)
    requires Queues(s) && CanMove(s, i) && s.ws[i].producer != p && s.ws[i].pc.Bump? && Tested(s) && Served(s, p)
    requires NotAhead(s.ws, CondOf(s, p).gen, p)
    ensures Served(Next(s, Go(i, item)), p)
  {
    CondAfter(s, i, item, p);
    QueueAfter(s, i, item);
    BumpSums(s, i, p);
    RaisedSums(s.ws, p, CondOf(s, p).gen);
  }

  /** The sums of the side whose sleeper is popped. */
  lemma SignalSums(s: Sys, i: nat, p: bool)
    requires Queues(s) && CanMove(s, i) && s.ws[i].producer != p && s.ws[i].pc.Signal?
    ensures var ws', gen, list := WorkersAfter(s, i), CondOf(s, p).gen, CondOf(s, p).waiting;
            && Sum(Fresh(p, gen), ws') == Sum(Fresh(p, gen), s.ws) && Sum(Pre(p), ws') == Sum(Pre(p), s.ws)
            && Sum(Post(p), ws') == Sum(Post(p), s.ws) - 1 && Sum(Sleepers(p), ws') <= Sum(Sleepers(p), s.ws)
            && Sum(Active(p, gen), ws') >= Sum(Active(p, gen), s.ws)
            && (list != [] && Sum(Fresh(p, gen), s.ws) == 0 ==>
                  Sum(Active(p, gen), ws') == Sum(Active(p, gen), s.ws) + 1)
  {
    PopFacts(s, i);
    var gen, list := CondOf(s, p).gen, CondOf(s, p).waiting;
    OtherMove(s, s.ws[i], p, gen);
    SideSums(s, i, p);
    if list != [] {
      SumUpdate(Fresh(p, gen), s.ws, list[0], s.ws[list[0]]);
    }
  }

  /** A sleeper is popped: one with an old generation will test the queue again; otherwise somebody is
      fresh, and then the one who pops was not counted on. */
  lemma ServedSignal(s: Sys, i: nat, item: int, p: bool)
    requires Queues(s) && Exclusive(s) && CanMove(s, i) && s.ws[i].producer != p && s.ws[i].pc.Signal? && Served(s, p)
    ensures Served(Next(s, Go(i, item)), p)
  {
    CondAfter(s, i, item, p);
    QueueAfter(s, i, item);
    SignalSums(s, i, p);
    if CondOf(s, p).waiting == [] {
      NoSleepers(s, p);
    }
  }

  lemma NoSleepers(s: Sys, p: bool)
    requires Queues(s) && Exclusive(s) && CondOf(s, p).waiting == [] && !CondOf(s, p).busy
    ensures Sum(Sleepers(p), s.ws) == 0
  {
    if Sum(Sleepers(p), s.ws) > 0 {
      var k := SumPositive(Sleepers(p), s.ws);
      assert Queued(CondOf(s, p).waiting, s.ws, true, p);
      SumUpdate(LoadingSleep(p), s.ws, k, s.ws[k]);
    }
  }

  lemma StepServed(s: Sys, i: nat, item: int, p: bool, surplus: int)
    requires Inv(s, surplus) && CanMove(s, i)
    ensures Served(Next(s, Go(i, item)), p)
  {
    if s.ws[i].producer == p {
      ServedOwn(s, i, item, p);
    } else if s.ws[i].pc.Bump? {
      ServedBump(s, i, item, p);
    } else if s.ws[i].pc.Signal? {
      ServedSignal(s, i, item, p);
    } else {
      ServedOther(s, i, item, p);
    }
  }

  lemma GoKeepsInv(s: Sys, i: nat, item: int, surplus: int)
    requires Inv(s, surplus) && CanMove(s, i)
    ensures Inv(Next(s, Go(i, item)), surplus)
  {
    StepLockQueue(s, i, item);
    StepHolders(s, i, item);
    StepLoading(s, i, item);
    StepTested(s, i, item);
    StepSound(s, i, item);
    StepBalance(s, i, item, surplus);
    StepLockServed(s, i, item);
    var s', t := Next(s, Go(i, item)), SharedAfter(s, i, item);
    forall p
      ensures Queued(CondOf(s', p).waiting, s'.ws, true, p)
      ensures Sum(LoadingSleep(p), s'.ws) == Ind(CondOf(s', p).busy)
      ensures NotAhead(s'.ws, CondOf(s', p).gen, p) && Served(s', p)
    {
      assert CondOf(s', p) == CondOf(t, p);
      StepCondQueue(s, i, item, p);
      StepLoadingSleep(s, i, item, p);
      StepNotAhead(s, i, item, p);
      StepServed(s, i, item, p, surplus);
    }
  }

  lemma {:induction false} MissSums(s: Sys, i: nat, m: Measure)
    requires Enabled(s, Miss(i))
    ensures Sum(m, Next(s, Miss(i)).ws) == Sum(m, s.ws)
  {
    var w := s.ws[i].(pc := WantLock);
    SumUpdate(m, s.ws, i, w);
    assert Val(m, w) == Val(m, s.ws[i]);
  }

  lemma MissKeepsSide(s: Sys, i: nat, p: bool)
    requires Enabled(s, Miss(i)) && Queues(s) && NotAhead(s.ws, CondOf(s, p).gen, p) && Served(s, p)
    requires Sum(LoadingSleep(p), s.ws) == Ind(CondOf(s, p).busy)
    ensures var s' := Next(s, Miss(i));
            && CondOf(s', p) == CondOf(s, p) && Queued(CondOf(s', p).waiting, s'.ws, true, p)
            && Sum(LoadingSleep(p), s'.ws) == Ind(CondOf(s', p).busy)
            && NotAhead(s'.ws, CondOf(s', p).gen, p) && Served(s', p)
  {
    var gen := CondOf(s, p).gen;
    QueuedMove(CondOf(s, p).waiting, s.ws, true, p, i, s.ws[i].(pc := WantLock));
    MissSums(s, i, LoadingSleep(p));
    MissSums(s, i, Fresh(p, gen));
    MissSums(s, i, Sleepers(p));
    MissSums(s, i, Pre(p));
    MissSums(s, i, Post(p));
    MissSums(s, i, Active(p, gen));
  }

  /** A weak exchange that fails for no reason changes nothing that anybody counts. */
  lemma MissKeepsInv(s: Sys, i: nat, surplus: int)
    requires Inv(s, surplus) && Enabled(s, Miss(i))
    ensures Inv(Next(s, Miss(i)), surplus)
  {
    MissSums(s, i, Holders);
    MissSums(s, i, Loading);
    MissSums(s, i, ToPush);
    MissSums(s, i, ToPop);
    MissSums(s, i, OnWay);
    MissSums(s, i, Notifiers);
    QueuedMove(s.waiting, s.ws, false, true, i, s.ws[i].(pc := WantLock));
    forall p
      ensures var s' := Next(s, Miss(i));
              && Queued(CondOf(s', p).waiting, s'.ws, true, p)
              && Sum(LoadingSleep(p), s'.ws) == Ind(CondOf(s', p).busy)
              && NotAhead(s'.ws, CondOf(s', p).gen, p) && Served(s', p)
    {
      MissKeepsSide(s, i, p);
    }
  }

  lemma StepKeepsInv(s: Sys, x: Step, surplus: int)
    requires Inv(s, surplus) && Enabled(s, x)
    ensures Inv(Next(s, x), surplus)
  {
    match x
    case Go(i, item) => GoKeepsInv(s, i, item, surplus);
    case Miss(i) => MissKeepsInv(s, i, surplus);
  }

  lemma {:induction false} RunKeepsInv(s: Sys, steps: seq<Step>, s': Sys, surplus: int)
    requires Inv(s, surplus) && Runs(s, steps, s')
    ensures Inv(s', surplus) && s'.cap == s.cap
    decreases |steps|
  {
    if steps != [] {
      StepKeepsInv(s, steps[0], surplus);
      RunKeepsInv(Next(s, steps[0]), steps[1..], s', surplus);
    }
  }

  /** Items that will be pushed less items that will be taken. */
  function Surplus(s: Sys): int {
    Sum(ToPush, s.ws) - Sum(ToPop, s.ws)
  }

  lemma {:induction false} SumZero(m: Measure, ws: seq<Worker>)
    requires forall i :: 0 <= i < |ws| ==> Val(m, ws[i]) == 0
    ensures Sum(m, ws) == 0
  {
    if ws != [] {
      SumZero(m, ws[1..]);
    }
  }

  lemma StartIsServed(s: Sys, p: bool)
    requires Start(s)
    ensures Queued(CondOf(s, p).waiting, s.ws, true, p) && NotAhead(s.ws, CondOf(s, p).gen, p)
    ensures Sum(LoadingSleep(p), s.ws) == 0 && Served(s, p)
  {
    SumZero(LoadingSleep(p), s.ws);
    SumZero(Fresh(p, 0), s.ws);
    SumZero(Sleepers(p), s.ws);
  }

  lemma StartIsInv(s: Sys)
    requires Start(s)
    ensures Inv(s, Surplus(s))
  {
    SumZero(Holders, s.ws);
    SumZero(Loading, s.ws);
    StartIsServed(s, true);
    StartIsServed(s, false);
  }

  predicate Pushes(s: Sys, x: Step) {
    x.Go? && x.i < |s.ws| && s.ws[x.i].pc.Access? && s.ws[x.i].producer
  }

  predicate Pops(s: Sys, x: Step) {
    x.Go? && x.i < |s.ws| && s.ws[x.i].pc.Access? && !s.ws[x.i].producer
  }

  /** The items of the producers' accesses, in order. */
  function Offered(s: Sys, steps: seq<Step>): seq<int>
    decreases |steps|
  {
    if steps == [] || !Enabled(s, steps[0]) then []
    else (if Pushes(s, steps[0]) then [steps[0].item] else []) + Offered(Next(s, steps[0]), steps[1..])
  }

  /** How many accesses the consumers have made. */
  function Withdrawals(s: Sys, steps: seq<Step>): nat
    decreases |steps|
  {
    if steps == [] || !Enabled(s, steps[0]) then 0
    else (if Pops(s, steps[0]) then 1 else 0) + Withdrawals(Next(s, steps[0]), steps[1..])
  }

  lemma SharedLogs(s: Sys, i: nat, item: int)
    requires i < |s.ws| && !SharedAfter(s, i, item).broken
    ensures !s.broken && SharedAfter(s, i, item).pushed == s.pushed + if Pushes(s, Go(i, item)) then [item] else []
    ensures |SharedAfter(s, i, item).popped| == |s.popped| + if Pops(s, Go(i, item)) then 1 else 0
  {
  }

  lemma StepLogs(s: Sys, x: Step)
    requires Enabled(s, x) && !Next(s, x).broken
    ensures !s.broken && Next(s, x).pushed == s.pushed + if Pushes(s, x) then [x.item] else []
    ensures |Next(s, x).popped| == |s.popped| + if Pops(s, x) then 1 else 0
  {
    if x.Go? { SharedLogs(s, x.i, x.item); }
  }

  lemma {:induction false} RunLogs(s: Sys, steps: seq<Step>, s': Sys)
    requires Runs(s, steps, s') && !s'.broken
    ensures s'.pushed == s.pushed + Offered(s, steps) && |s'.popped| == |s.popped| + Withdrawals(s, steps)
    ensures !s.broken
    decreases |steps|
  {
    if steps != [] {
      RunLogs(Next(s, steps[0]), steps[1..], s');
      StepLogs(s, steps[0]);
    }
  }

  /**
   For any number of producers and consumers and every run: the queue never exceeds its capacity,
   front() never meets an empty queue, the items taken are the first ones offered, one for each access
   of a consumer, and the rest is queued, one worker at a time is inside the lock; and while somebody
   sleeps on a condition, every unit of what it waits for has a worker that will test the queue, or one
   that has yet to raise the generation or to pop a sleeper.
   */
  lemma {:induction false} CondQueueIsSafe(s: Sys, steps: seq<Step>, s': Sys)
    requires Start(s) && Runs(s, steps, s')
    ensures |s'.queue| <= s'.cap == s.cap && !s'.broken && s'.pushed == s'.popped + s'.queue
    ensures s'.pushed == Offered(s, steps) && |s'.popped| == Withdrawals(s, steps)
    ensures forall i, j :: 0 <= i < j < |s'.ws| && s'.ws[i].todo > 0 && s'.ws[j].todo > 0 ==>
              !Holds(s'.ws[i].pc) || !Holds(s'.ws[j].pc)
    ensures forall i :: 0 <= i < |s'.ws| && s'.ws[i].todo > 0 && Sleeping(s'.ws[i].pc) ==>
              var p := s'.ws[i].producer;
              Supply(s', p) <= Sum(Pre(p), s'.ws) + Sum(Post(p), s'.ws) + Sum(Active(p, CondOf(s', p).gen), s'.ws)
  {
    StartIsInv(s);
    RunKeepsInv(s, steps, s', Surplus(s));
    RunLogs(s, steps, s');
    forall i, j | 0 <= i < j < |s'.ws| && s'.ws[i].todo > 0 && s'.ws[j].todo > 0
      ensures !Holds(s'.ws[i].pc) || !Holds(s'.ws[j].pc)
    {
      SumTwo(Holders, s'.ws, i, j);
    }
    forall i | 0 <= i < |s'.ws| && s'.ws[i].todo > 0 && Sleeping(s'.ws[i].pc)
      ensures var p := s'.ws[i].producer;
              Supply(s', p) <= Sum(Pre(p), s'.ws) + Sum(Post(p), s'.ws) + Sum(Active(p, CondOf(s', p).gen), s'.ws)
    {
      SleeperIsServed(s', i);
    }
  }

  lemma SleeperIsServed(s: Sys, i: nat)
    requires i < |s.ws| && s.ws[i].todo > 0 && Sleeping(s.ws[i].pc) && Served(s, s.ws[i].producer)
    ensures var p := s.ws[i].producer;
            Supply(s, p) <= Sum(Pre(p), s.ws) + Sum(Post(p), s.ws) + Sum(Active(p, CondOf(s, p).gen), s.ws)
  {
    SumUpdate(Sleepers(s.ws[i].producer), s.ws, i, s.ws[i]);
  }
}
