// Waiters are served in the order in which they began to wait: for the lock, and on
// either condition variable.
module CondQueueOrder {
  import opened CondQueue

  /** The waiters for the lock, or on p's condition. */
  function List(s: Sys, cond: bool, p: bool): seq<nat> {
    if cond then CondOf(s, p).waiting else s.waiting
  }

  /** `k` waits, and `l` does not wait in front of it. */
  predicate Ahead(list: seq<nat>, k: nat, l: nat) {
    exists i :: 0 <= i < |list| && list[i] == k && forall j :: 0 <= j < |list| && list[j] == l ==> i < j
  }

  /** What one step does to a list: nothing, one more at its end, or one less at its front. */
  ghost predicate Advanced(list: seq<nat>, list': seq<nat>) {
    || list' == list
    || (exists i :: i !in list && list' == list + [i])
    || (list != [] && list' == list[1..])
  }

  lemma AheadLater(list: seq<nat>, list': seq<nat>, k: nat, l: nat)
    requires Ahead(list, k, l) && Advanced(list, list') && k in list' && k != l
    requires forall i, j :: 0 <= i < j < |list| ==> list[i] != list[j]
    ensures Ahead(list', k, l) && (l in list ==> l in list')
  {
    var i :| 0 <= i < |list| && list[i] == k && forall j :: 0 <= j < |list| && list[j] == l ==> i < j;
    if list' == list {
    } else if list != [] && list' == list[1..] {
      assert i > 0;
      assert list'[i - 1] == k;
      assert forall j :: 0 <= j < |list'| ==> list'[j] == list[j + 1];
      if l in list {
        var j :| 0 <= j < |list| && list[j] == l;
        assert list'[j - 1] == l;
      }
    } else {
      assert list'[i] == k;
      assert forall j :: 0 <= j < |list| ==> list'[j] == list[j];
    }
  }

  lemma LockAdvances(s: Sys, x: Step)
    requires Queues(s) && Enabled(s, x)
    ensures Advanced(List(s, false, true), List(Next(s, x), false, true))
  {
    if x.Go? {
      LockAfter(s, x.i, x.item);
      assert !ParkedIn(s.ws[x.i], false, true);
    }
  }

  lemma CondAdvances(s: Sys, x: Step, p: bool)
    requires Queues(s) && Enabled(s, x)
    ensures Advanced(List(s, true, p), List(Next(s, x), true, p))
  {
    if x.Go? {
      CondAfter(s, x.i, x.item, p);
      assert Queued(CondOf(s, p).waiting, s.ws, true, p);
      assert !ParkedIn(s.ws[x.i], true, p);
    }
  }

  /** `k` waits at every moment of the run. */
  predicate KeepsWaiting(s: Sys, steps: seq<Step>, k: nat, cond: bool, p: bool)
    decreases |steps|
  {
    && k < |s.ws| && ParkedIn(s.ws[k], cond, p)
    && (steps != [] ==> Enabled(s, steps[0]) && KeepsWaiting(Next(s, steps[0]), steps[1..], k, cond, p))
  }

  lemma ListIsQueued(s: Sys, cond: bool, p: bool)
    requires Queues(s)
    ensures Queued(List(s, cond, p), s.ws, cond, p)
  {
    assert Queued(CondOf(s, p).waiting, s.ws, true, p);
  }

  lemma {:induction false} RunKeepsAhead(s: Sys, steps: seq<Step>, s': Sys, surplus: int,
                                         k: nat, l: nat, cond: bool, p: bool)
    requires Inv(s, surplus) && Runs(s, steps, s') && KeepsWaiting(s, steps, k, cond, p) && k != l
    requires Ahead(List(s, cond, p), k, l)
    ensures Ahead(List(s', cond, p), k, l) && |s'.ws| == |s.ws|
    ensures l in List(s, cond, p) ==> l in List(s', cond, p)
    decreases |steps|
  {
    if steps != [] {
      var s1 := Next(s, steps[0]);
      StepKeepsInv(s, steps[0], surplus);
      ListIsQueued(s, cond, p);
      ListIsQueued(s1, cond, p);
      if cond { CondAdvances(s, steps[0], p); } else { LockAdvances(s, steps[0]); }
      assert k in List(s1, cond, p) by { assert ParkedIn(s1.ws[k], cond, p); }
      AheadLater(List(s, cond, p), List(s1, cond, p), k, l);
      RunKeepsAhead(s1, steps[1..], s', surplus, k, l, cond, p);
    }
  }

  /**
   Over every run: while a worker waits, for the lock or on a condition, nobody who began to wait
   after it is served, and nobody who begins to wait gets in front of it.
   */
  lemma {:induction false} WaitersAreServedInOrder(s0: Sys, before: seq<Step>, s: Sys, steps: seq<Step>, s': Sys,
                                                   k: nat, l: nat, cond: bool, p: bool)
    requires Start(s0) && Runs(s0, before, s) && Runs(s, steps, s') && k != l
    requires KeepsWaiting(s, steps, k, cond, p) && Ahead(List(s, cond, p), k, l)
    ensures Ahead(List(s', cond, p), k, l) && |s'.ws| == |s.ws|
    ensures l < |s.ws| && ParkedIn(s.ws[l], cond, p) ==> ParkedIn(s'.ws[l], cond, p)
  {
    StartIsInv(s0);
    RunKeepsInv(s0, before, s, Surplus(s0));
    RunKeepsInv(s, steps, s', Surplus(s0));
    RunKeepsAhead(s, steps, s', Surplus(s0), k, l, cond, p);
    ListIsQueued(s, cond, p);
    ListIsQueued(s', cond, p);
  }
}
