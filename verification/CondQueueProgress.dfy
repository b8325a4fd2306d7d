// The condition-variable queue makes progress: runs without spurious failures are
// bounded, and when nobody can move nobody is stranded.
module CondQueueProgress {
  import opened Common
  import opened CondQueue

  // ----- nobody is stranded -----

  /** No worker can take a step. */
  ghost predicate Stuck(s: Sys) {
    forall x: Step :: !Enabled(s, x)
  }

  lemma StuckFutexesAreFree(s: Sys, surplus: int)
    requires Inv(s, surplus) && Stuck(s)
    ensures !s.busy && forall p :: !CondOf(s, p).busy
  {
    if s.busy {
      var k := SumPositive(Loading, s.ws);
      assert Enabled(s, Go(k, 0));
    }
    forall p ensures !CondOf(s, p).busy {
      if CondOf(s, p).busy {
        assert Sum(LoadingSleep(p), s.ws) == 1;
        var k := SumPositive(LoadingSleep(p), s.ws);
        assert Enabled(s, Go(k, 0));
      }
    }
  }

  lemma StuckIsParked(s: Sys, surplus: int, i: nat)
    requires Inv(s, surplus) && Stuck(s) && i < |s.ws| && s.ws[i].todo > 0
    ensures s.ws[i].pc.LockParked? || s.ws[i].pc.Asleep?
  {
    StuckFutexesAreFree(s, surplus);
    assert !Enabled(s, Go(i, 0));
    assert Front(s.waiting, s.ws) by {
      if s.waiting != [] { assert s.waiting[0] in s.waiting; }
    }
    var q := !s.ws[i].producer;
    assert Front(CondOf(s, q).waiting, s.ws) by {
      assert Queued(CondOf(s, q).waiting, s.ws, true, q);
      if CondOf(s, q).waiting != [] { assert CondOf(s, q).waiting[0] in CondOf(s, q).waiting; }
    }
  }

  lemma StuckSleeps(s: Sys, surplus: int, i: nat)
    requires Inv(s, surplus) && Stuck(s) && i < |s.ws| && s.ws[i].todo > 0
    ensures s.ws[i].pc.Asleep?
  {
    StuckIsParked(s, surplus, i);
    if s.ws[i].pc.LockParked? {
      assert i in s.waiting;
      if s.locked {
        var k := SumPositive(Holders, s.ws);
        StuckIsParked(s, surplus, k);
      } else {
        var k := SumPositive(OnWay, s.ws);
        StuckIsParked(s, surplus, k);
      }
    }
  }

  /** A sleeper has nothing it could have been woken for. */
  lemma StuckHasNoSupply(s: Sys, surplus: int, i: nat)
    requires Inv(s, surplus) && Stuck(s) && i < |s.ws| && s.ws[i].todo > 0
    ensures Supply(s, s.ws[i].producer) == 0
  {
    var p := s.ws[i].producer;
    var gen := CondOf(s, p).gen;
    StuckSleeps(s, surplus, i);
    SumUpdate(Sleepers(p), s.ws, i, s.ws[i]);
    forall k | 0 <= k < |s.ws|
      ensures Val(Pre(p), s.ws[k]) == Val(Post(p), s.ws[k]) == Val(Active(p, gen), s.ws[k]) == 0
    {
      if s.ws[k].todo > 0 { StuckSleeps(s, surplus, k); }
    }
    SumZero(Pre(p), s.ws);
    SumZero(Post(p), s.ws);
    SumZero(Active(p, gen), s.ws);
    assert Served(s, p);
  }

  /** When nobody can move, whoever is left sleeps because there is nothing for its side, and then the
      other side has finished; if as many items are pushed as taken, everybody has finished. */
  lemma StuckIsNotStranded(s: Sys, surplus: int)
    requires Inv(s, surplus) && Stuck(s) && s.cap > 0
    ensures forall i :: 0 <= i < |s.ws| && s.ws[i].todo > 0 ==>
              s.ws[i].pc.Asleep? && Supply(s, s.ws[i].producer) == 0
    ensures forall i, j :: 0 <= i < |s.ws| && 0 <= j < |s.ws| && s.ws[i].todo > 0 && s.ws[j].todo > 0 ==>
              s.ws[i].producer == s.ws[j].producer
    ensures surplus == 0 ==> s.queue == [] && s.popped == s.pushed && forall i :: 0 <= i < |s.ws| ==> s.ws[i].todo == 0
  {
    forall i | 0 <= i < |s.ws| && s.ws[i].todo > 0 ensures s.ws[i].pc.Asleep? && Supply(s, s.ws[i].producer) == 0 {
      StuckSleeps(s, surplus, i);
      StuckHasNoSupply(s, surplus, i);
    }
    if surplus == 0 {
      forall i | 0 <= i < |s.ws| ensures s.ws[i].todo == 0 {
        if s.ws[i].todo > 0 { OtherSideIsLeft(s, i); }
      }
      SumZero(ToPush, s.ws);
      SumZero(ToPop, s.ws);
    }
  }

  /** With the totals balanced, a side that has run out of supply is not the only one left. */
  lemma OtherSideIsLeft(s: Sys, i: nat)
    requires Balance(s, 0) && s.cap > 0 && i < |s.ws| && s.ws[i].todo > 0 && s.ws[i].pc.Asleep?
    requires Supply(s, s.ws[i].producer) == 0
    ensures exists k :: 0 <= k < |s.ws| && s.ws[k].todo > 0 && s.ws[k].producer != s.ws[i].producer
  {
    var mine, theirs := if s.ws[i].producer then ToPush else ToPop, if s.ws[i].producer then ToPop else ToPush;
    SumUpdate(mine, s.ws, i, s.ws[i]);
    var k := SumPositive(theirs, s.ws);
  }

  // ----- and every run comes to that point -----

  /** Three levels: accesses, generations and signals still to come; how far a worker is from sleeping;
      what it can do about the lock before somebody else must move. */
  datatype Level = Left | Stage(full: nat, empty: nat) | Minor(locked: bool)

  function Of(l: Level, w: Worker): (r: nat)
    ensures l.Stage? ==> r <= 16
    ensures l.Minor? ==> r <= 3
  {
    if w.todo == 0 then 0 else
    match l
    case Left => 3 * w.todo - if Announcing(w.pc) then 1 else if w.pc.Signal? then 2 else 0
    case Stage(full, empty) => StageOf(w.pc, if w.producer then full else empty)
    case Minor(locked) =>
      match w.pc
      case TryLock => if locked then 3 else 0
      case WantLock => if locked then 2 else 1
      case LockLoaded => 1
      case _ => 0
  }

  /** A worker with an old generation is further from sleep than one that goes for the lock. */
  function StageOf(pc: Pc, gen: nat): (r: nat)
    ensures r <= 16
  {
    match pc
    case Test => 11
    case Access => 10
    case ReadGen => 10
    case Unlock(n) => if n.Sleep? && n.gen != gen then 16 else 9
    case NotifyLock(n) => if n.Sleep? && n.gen != gen then 15 else 8
    case CheckGen(g) => if g != gen then 13 else 7
    case WantSleep(g) => if g != gen then 14 else 6
    case SleepLoaded(_) => 5
    case Asleep(_) => 4
    case Bump => 7
    case Signal => 6
    case _ => 12
  }

  function Total(l: Level, ws: seq<Worker>): (r: nat)
    ensures l.Stage? ==> r <= 16 * |ws|
    ensures l.Minor? ==> r <= 3 * |ws|
  {
    if ws == [] then 0 else Of(l, ws[0]) + Total(l, ws[1..])
  }

  lemma {:induction false} TotalUpdate(l: Level, ws: seq<Worker>, i: nat, w: Worker)
    requires i < |ws|
    ensures Total(l, ws[i := w]) == Total(l, ws) - Of(l, ws[i]) + Of(l, w)
    decreases |ws|
  {
    var r := ws[i := w];
    if i == 0 {
      assert r[1..] == ws[1..];
    } else {
      assert r[1..] == ws[1..][i - 1 := w];
      TotalUpdate(l, ws[1..], i - 1, w);
    }
  }

  function StageLevel(s: Sys): Level {
    Stage(s.full.gen, s.empty.gen)
  }

  predicate Lower(s': Sys, s: Sys) {
    || Total(Left, s'.ws) < Total(Left, s.ws)
    || (&& Total(Left, s'.ws) == Total(Left, s.ws)
        && (|| Total(StageLevel(s'), s'.ws) < Total(StageLevel(s), s.ws)
            || (&& Total(StageLevel(s'), s'.ws) == Total(StageLevel(s), s.ws)
                && Total(Minor(s'.locked), s'.ws) < Total(Minor(s.locked), s.ws))))
  }

  lemma {:induction false} TotalGo(l: Level, s: Sys, i: nat)
    requires Queues(s) && CanMove(s, i)
    ensures var list := PopList(s, s.ws[i]);
            if list == []
            then Total(l, WorkersAfter(s, i)) == Total(l, s.ws) - Of(l, s.ws[i]) + Of(l, Moved(s, s.ws[i]))
            else && list[0] < |s.ws|
                 && Total(l, WorkersAfter(s, i)) == Total(l, s.ws) - Of(l, s.ws[i]) + Of(l, Moved(s, s.ws[i]))
                                                    - Of(l, s.ws[list[0]]) + Of(l, Roused(s.ws[list[0]]))
  {
    PopFacts(s, i);
    var list := PopList(s, s.ws[i]);
    TotalUpdate(l, s.ws, i, Moved(s, s.ws[i]));
    if list != [] {
      TotalUpdate(l, s.ws, list[0], Roused(s.ws[list[0]]));
      TotalUpdate(l, s.ws[list[0] := Roused(s.ws[list[0]])], i, Moved(s, s.ws[i]));
    }
  }

  /** An access, a raised generation or a signal is used up for good. */
  lemma LeftGoes(s: Sys, i: nat)
    requires Queues(s) && CanMove(s, i)
    ensures Total(Left, WorkersAfter(s, i)) ==
            Total(Left, s.ws) - if s.ws[i].pc.Access? || s.ws[i].pc.Bump? || s.ws[i].pc.Signal? then 1 else 0
  {
    PopFacts(s, i);
    TotalGo(Left, s, i);
  }

  predicate InLockLoop(s: Sys, w: Worker) {
    w.pc.WantLock? || w.pc.LockLoaded? || (w.pc.TryLock? && s.locked)
  }

  lemma StageMove(s: Sys, w: Worker)
    requires w.todo > 0 && CanGo(s, w) && !w.pc.Access? && !w.pc.Bump? && !w.pc.Signal?
    ensures if InLockLoop(s, w) then Of(StageLevel(s), Moved(s, w)) == Of(StageLevel(s), w)
            else Of(StageLevel(s), Moved(s, w)) < Of(StageLevel(s), w)
  {
  }

  lemma StageGoes(s: Sys, i: nat)
    requires Queues(s) && CanMove(s, i) && !s.ws[i].pc.Access? && !s.ws[i].pc.Bump? && !s.ws[i].pc.Signal?
    ensures if InLockLoop(s, s.ws[i]) then Total(StageLevel(s), WorkersAfter(s, i)) == Total(StageLevel(s), s.ws)
            else Total(StageLevel(s), WorkersAfter(s, i)) < Total(StageLevel(s), s.ws)
  {
    PopFacts(s, i);
    StageMove(s, s.ws[i]);
    TotalGo(StageLevel(s), s, i);
  }

  lemma MinorGoes(s: Sys, i: nat)
    requires Queues(s) && CanMove(s, i) && InLockLoop(s, s.ws[i])
    ensures Total(Minor(s.locked), WorkersAfter(s, i)) < Total(Minor(s.locked), s.ws)
  {
    TotalGo(Minor(s.locked), s, i);
  }

  lemma GoMakesProgress(s: Sys, i: nat, item: int)
    requires Queues(s) && CanMove(s, i)
    ensures Lower(Next(s, Go(i, item)), s)
  {
    LeftGoes(s, i);
    if !s.ws[i].pc.Access? && !s.ws[i].pc.Bump? && !s.ws[i].pc.Signal? {
      CondAfter(s, i, item, true);
      CondAfter(s, i, item, false);
      StageGoes(s, i);
      if InLockLoop(s, s.ws[i]) {
        LockAfter(s, i, item);
        MinorGoes(s, i);
      }
    }
  }

  lemma MissMakesProgress(s: Sys, i: nat)
    requires Enabled(s, Miss(i)) && s.locked
    ensures Lower(Next(s, Miss(i)), s)
  {
    var w := s.ws[i].(pc := WantLock);
    TotalUpdate(Left, s.ws, i, w);
    TotalUpdate(StageLevel(s), s.ws, i, w);
    TotalUpdate(Minor(s.locked), s.ws, i, w);
  }

  /** A weak exchange that fails although the lock is free. */
  predicate Spurious(s: Sys, x: Step) {
    x.Miss? && !s.locked
  }

  predicate NoSpurious(s: Sys, steps: seq<Step>)
    decreases |steps|
  {
    steps != [] ==>
      Enabled(s, steps[0]) && !Spurious(s, steps[0]) && NoSpurious(Next(s, steps[0]), steps[1..])
  }

  function Rank(s: Sys): nat {
    var n := |s.ws|;
    Pack(3 * n + 1, Pack(16 * n + 1, Total(Left, s.ws), Total(StageLevel(s), s.ws)), Total(Minor(s.locked), s.ws))
  }

  lemma LowerRank(s: Sys, s': Sys)
    requires |s'.ws| == |s.ws| && Lower(s', s)
    ensures Rank(s') < Rank(s)
  {
    var d, e := 16 * |s.ws| + 1, 3 * |s.ws| + 1;
    var a, b, c := Total(Left, s.ws), Total(StageLevel(s), s.ws), Total(Minor(s.locked), s.ws);
    var a', b', c' := Total(Left, s'.ws), Total(StageLevel(s'), s'.ws), Total(Minor(s'.locked), s'.ws);
    if a' < a || b' < b {
      PackOrdered(d, a, b, a', b');
    }
    PackOrdered(e, Pack(d, a, b), c, Pack(d, a', b'), c');
  }

  lemma {:induction false} RunMakesProgress(s: Sys, steps: seq<Step>, s': Sys, surplus: int)
    requires Inv(s, surplus) && Runs(s, steps, s') && NoSpurious(s, steps)
    ensures |steps| + Rank(s') <= Rank(s)
    decreases |steps|
  {
    if steps != [] {
      match steps[0] {
        case Go(i, item) => GoMakesProgress(s, i, item);
        case Miss(i) => MissMakesProgress(s, i);
      }
      LowerRank(s, Next(s, steps[0]));
      StepKeepsInv(s, steps[0], surplus);
      RunMakesProgress(Next(s, steps[0]), steps[1..], s', surplus);
    }
  }

  /**
   From the start, a run without spurious failures takes at most `Rank` steps, and a run that cannot be
   extended has stranded nobody: with as many items produced as consumed every call has completed and
   every item has been taken; otherwise only the side with calls to spare is left, asleep at an empty
   or a full queue.
   */
  lemma {:induction false} NobodyIsStranded(s: Sys, steps: seq<Step>, s': Sys)
    requires Start(s) && s.cap > 0 && Runs(s, steps, s')
    ensures NoSpurious(s, steps) ==> |steps| <= Rank(s)
    ensures Stuck(s') ==> forall i :: 0 <= i < |s'.ws| && s'.ws[i].todo > 0 ==>
              s'.ws[i].pc.Asleep? && Supply(s', s'.ws[i].producer) == 0
    ensures Stuck(s') ==>
              forall i, j :: 0 <= i < |s'.ws| && 0 <= j < |s'.ws| && s'.ws[i].todo > 0 && s'.ws[j].todo > 0 ==>
                s'.ws[i].producer == s'.ws[j].producer
    ensures Stuck(s') && Surplus(s) == 0 ==>
              s'.queue == [] && s'.popped == s'.pushed && forall i :: 0 <= i < |s'.ws| ==> s'.ws[i].todo == 0
  {
    StartIsInv(s);
    RunKeepsInv(s, steps, s', Surplus(s));
    if NoSpurious(s, steps) {
      RunMakesProgress(s, steps, s', Surplus(s));
    }
    if Stuck(s') {
      StuckIsNotStranded(s', Surplus(s));
    }
  }
}
