// Which cancels a futex survives. A cancel of the kind `Fails` names leaves links that
// make some later run of ordinary calls end a wait twice or lose one; every other
// cancel is harmless, whatever comes after it.
module FutexCancels {
  import opened Common
  import opened Futex
  import opened FutexLinks
  import opened FutexRuns
  import opened IntrusiveList

  /** Calls that cannot themselves fail: nothing is moved out, and only waits numbered `n` or later
      are cancelled. */
  predicate Plain(c: Call, n: nat) {
    !c.TakeAll? && (c.Cancel? ==> n <= c.wait)
  }

  predicate AllPlain(calls: seq<Call>, n: nat) {
    forall i :: 0 <= i < |calls| ==> Plain(calls[i], n)
  }

  // ----- a harmless cancel -----

  ghost predicate DrainsBelow(w: World, n: nat) {
    forall d, h: nat :: 0 <= d < |w.drains| && Holds(w.drains[d], h) ==> h < n
  }

  lemma PlainKeepsBelow(w: World, c: Call, n: nat)
    requires Sorted(w) && DrainsBelow(w, n) && Plain(c, n)
    ensures DrainsBelow(Do(w, c), n) && !Fails(w, c)
  {
    if c.Cancel? {
      assert DrainOf(w.drains, c.wait) == |w.drains|;
    }
    forall d, h: nat | 0 <= d < |Do(w, c).drains| && Holds(Do(w, c).drains[d], h) ensures h < n {
      assert Holds(w.drains[d], h);
    }
  }

  lemma {:induction false} PlainRunIsFine(m: Memory, w: World, more: seq<Call>, n: nat)
    requires Agree(m, w) && Proper(w) && DrainsBelow(w, n) && AllPlain(more, n)
    ensures Agree(ExecuteAll(m, more), Run(w, more)) && Proper(Run(w, more)) && DrainsBelow(Run(w, more), n)
    ensures Fine(ExecuteAll(m, more))
  {
    if more != [] {
      var k := |more| - 1;
      PlainRunIsFine(m, w, more[..k], n);
      PlainKeepsBelow(Run(w, more[..k]), more[k], n);
      StepAgrees(ExecuteAll(m, more[..k]), Run(w, more[..k]), more[k]);
    }
    AgreeIsFine(ExecuteAll(m, more), Run(w, more));
  }

  lemma {:induction false} HarmlessAfter(m: Memory, w: World, more: seq<Call>)
    requires Agree(m, w) && Proper(w) && AllPlain(more, |m.nodes|)
    ensures Fine(ExecuteAll(m, more))
  {
    forall d, h: nat | 0 <= d < |w.drains| && Holds(w.drains[d], h) ensures h < |m.nodes| {
      HeldOnce(w, d, h);
    }
    PlainRunIsFine(m, w, more, |m.nodes|);
  }

  // ----- running on -----

  lemma {:induction false} ExecuteConcat(m: Memory, a: seq<Call>, b: seq<Call>)
    ensures ExecuteAll(m, a + b) == ExecuteAll(ExecuteAll(m, a), b)
  {
    if b == [] {
      assert a + b == a;
    } else {
      var k := |b| - 1;
      assert (a + b)[..|a + b| - 1] == a + b[..k];
      ExecuteConcat(m, a, b[..k]);
    }
  }

  lemma {:induction false} ExecuteFirst(m: Memory, c: Call, more: seq<Call>)
    ensures ExecuteAll(m, [c] + more) == ExecuteAll(Execute(m, c), more)
  {
    ExecuteConcat(m, [c], more);
    assert [c][..0] == [];
  }

  function StepsLeft(stage: Stage): nat {
    match stage
    case Idle => 0
    case Loaded(_) => 3
    case Cleared(_) => 2
    case Unlinked(_) => 1
  }

  /** A drain finishes the pop it is in, whatever the links are, and reports the entry. */
  lemma {:induction false} FinishPop(m: Memory, d: nat, n: nat) returns (more: seq<Call>)
    requires d < |m.drains|
    ensures AllPlain(more, n) && d < |ExecuteAll(m, more).drains|
    ensures var m', x := ExecuteAll(m, more), m.drains[d];
            && |m'.nodes| == |m.nodes| && m'.drains[d].stage.Idle?
            && (x.ends.head.Some? ==> m'.drains[d].ends.head == x.ends.head)
            && m'.woken == m.woken + if x.stage.Idle? then [] else [(x.stage.entry, x.result)]
    decreases StepsLeft(m.drains[d].stage)
  {
    more := [];
    if !m.drains[d].stage.Idle? {
      var rest := FinishPop(Access(m, d), d, n);
      more := [Turn(d)] + rest;
      ExecuteFirst(m, Turn(d), rest);
    }
  }

  /** A drain whose head is `h` reports `h` next. */
  lemma PopNext(m: Memory, d: nat, h: nat, n: nat) returns (more: seq<Call>)
    requires d < |m.drains| && m.drains[d].ends.head == Some(h) && h < |m.nodes|
    ensures AllPlain(more, n) && |ExecuteAll(m, more).nodes| == |m.nodes|
    ensures Times(Ids(ExecuteAll(m, more).woken), h) > Times(Ids(m.woken), h)
  {
    var a := FinishPop(m, d, n);
    var m' := ExecuteAll(m, a);
    var b := FinishPop(Access(m', d), d, n);
    more := a + ([Turn(d)] + b);
    ExecuteConcat(m, a, [Turn(d)] + b);
    ExecuteFirst(m', Turn(d), b);
    var x := m.drains[d];
    if x.stage.Idle? { assert m'.woken == m.woken; } else { ReportAdds(m.woken, x.stage.entry, x.result, h); }
    var y := Access(m', d).drains[d];
    ReportAdds(m'.woken, h, y.result, h);
  }

  // ----- the waiter at the head of the drain's list, or being popped: it ends twice -----

  lemma FailingCancelReports(m: Memory, w: World, h: nat)
    requires Agree(m, w) && Proper(w) && Fails(w, Cancel(h))
    ensures h < |m.nodes| && |Remove(m, h).nodes| == |m.nodes| && Remove(m, h).drains == m.drains
    ensures Remove(m, h).woken == m.woken + [(h, ECANCELED)]
  {
    var d := DrainOf(w.drains, h);
    var y, s := w.drains[d], Chained(w.drains[d]);
    HeldOnce(w, d, h);
    if h in s {
      var i :| 0 <= i < |s| && s[i] == h;
      assert m.nodes[s[i]] == NodeAt(s, i);
    }
  }

  lemma {:induction false} EndsTwice(m: Memory, h: nat, result: int, later: Memory)
    requires h < |later.nodes| && Times(Ids(later.woken), h) > Times(Ids(m.woken + [(h, result)]), h)
    ensures !Fine(later)
  {
    ReportAdds(m.woken, h, result, h);
    assert Outcomes(later, h) >= 2;
  }

  lemma HeadEndsTwice(m: Memory, w: World, h: nat) returns (more: seq<Call>)
    requires Agree(m, w) && Proper(w) && Fails(w, Cancel(h))
    requires var y := w.drains[DrainOf(w.drains, h)]; y.rest != [] && y.rest[0] == h
    ensures AllPlain(more, |m.nodes|) && !Fine(ExecuteAll(Remove(m, h), more))
  {
    FailingCancelReports(m, w, h);
    more := PopNext(Remove(m, h), DrainOf(w.drains, h), h, |m.nodes|);
    EndsTwice(m, h, ECANCELED, ExecuteAll(Remove(m, h), more));
  }

  lemma PoppedEndsTwice(m: Memory, w: World, h: nat) returns (more: seq<Call>)
    requires Agree(m, w) && Proper(w) && Fails(w, Cancel(h)) && h !in w.drains[DrainOf(w.drains, h)].rest
    ensures AllPlain(more, |m.nodes|) && !Fine(ExecuteAll(Remove(m, h), more))
  {
    var d := DrainOf(w.drains, h);
    FailingCancelReports(m, w, h);
    more := FinishPop(Remove(m, h), d, |m.nodes|);
    ReportAdds(Remove(m, h).woken, h, m.drains[d].result, h);
    EndsTwice(m, h, ECANCELED, ExecuteAll(Remove(m, h), more));
  }

  // ----- the waiter at the end of the drain's list: the futex's tail is a stranger -----

  /** With nobody parked the next waiter gets a stranger for its predecessor; cancelled, it stays the
      head and is notified again. */
  lemma NextEndsTwice(m: Memory, p: nat) returns (more: seq<Call>)
    requires m.own == Ends(None, Some(p)) && p < |m.nodes|
    ensures AllPlain(more, |m.nodes|) && !Fine(ExecuteAll(m, more))
  {
    var x := |m.nodes|;
    more := [Wait(m.value)] + ([Cancel(x)] + ([NotifyOne] + []));
    ExecuteFirst(m, Wait(m.value), [Cancel(x)] + ([NotifyOne] + []));
    var m1 := Execute(m, Wait(m.value));
    ExecuteFirst(m1, Cancel(x), [NotifyOne] + []);
    var m2 := Execute(m1, Cancel(x));
    ExecuteFirst(m2, NotifyOne, []);
    assert m2.own.head == Some(x) && m2.woken == m.woken + [(x, ECANCELED)];
    ReportAdds(m2.woken, x, 0, x);
    EndsTwice(m, x, ECANCELED, Execute(m2, NotifyOne));
  }

  /** The drains go on and the futex's own list stays as it is. */
  ghost predicate Reached(m: Memory, w: World, m': Memory, w': World) {
    && AgreeButTail(m', w') && Proper(w') && m'.own == m.own && w'.fut.waiting == w.fut.waiting
    && |m'.nodes| == |m.nodes| && m'.value == m.value
  }

  lemma Onward(m: Memory, w: World, m1: Memory, w1: World, m2: Memory, w2: World)
    requires Reached(m, w, m1, w1) && Reached(m1, w1, m2, w2)
    ensures Reached(m, w, m2, w2)
  {
  }

  /** A drain after its next access. */
  function NextOf(y: Drain): Drain {
    match y.stage
    case Idle => if y.rest == [] then y else y.(rest := y.rest[1..], stage := Loaded(y.rest[0]))
    case Loaded(a) => y.(stage := Cleared(a))
    case Cleared(a) => y.(stage := Unlinked(a))
    case Unlinked(_) => y.(stage := Idle)
  }

  function AccessesLeft(y: Drain): nat {
    4 * |y.rest| + StepsLeft(y.stage)
  }

  lemma TakeTurn(m: Memory, w: World, d: nat) returns (m': Memory, w': World)
    requires AgreeButTail(m, w) && Proper(w) && d < |w.drains|
    ensures Reached(m, w, m', w') && w'.drains == w.drains[d := NextOf(w.drains[d])]
    ensures forall more :: ExecuteAll(m, [Turn(d)] + more) == ExecuteAll(m', more)
  {
    m', w' := Access(m, d), TurnOf(w, d);
    TurnAgrees(m, w, d);
    DoKeeps(w, Turn(d));
    forall more ensures ExecuteAll(m, [Turn(d)] + more) == ExecuteAll(m', more) {
      ExecuteFirst(m, Turn(d), more);
    }
    assert w'.drains == w.drains[d := NextOf(w.drains[d])];
  }

  /** A drain runs to its end. */
  lemma {:induction false} EmptyDrain(m: Memory, w: World, d: nat, n: nat) returns (more: seq<Call>, w': World)
    requires AgreeButTail(m, w) && Proper(w) && d < |w.drains|
    ensures AllPlain(more, n) && Reached(m, w, ExecuteAll(m, more), w')
    ensures w'.drains == w.drains[d := Drain([], Idle, w.drains[d].result)]
    decreases AccessesLeft(w.drains[d])
  {
    more, w' := [], w;
    var y := w.drains[d];
    if y.stage.Idle? && y.rest == [] {
      assert w.drains[d := Drain([], Idle, y.result)] == w.drains;
    } else {
      var m1, w1 := TakeTurn(m, w, d);
      var rest;
      rest, w' := EmptyDrain(m1, w1, d, n);
      more := [Turn(d)] + rest;
      Onward(m, w, m1, w1, ExecuteAll(m1, rest), w');
    }
  }

  function LastLoaded(y: Drain): Drain
    requires y.rest != []
  {
    Drain([], Loaded(y.rest[|y.rest| - 1]), y.result)
  }

  /** One access brings the drain nearer to its last waiter, or is the one that reads it. */
  lemma NearerToLast(ds: seq<Drain>, d: nat)
    requires d < |ds| && ds[d].rest != []
    ensures var y, y' := ds[d], NextOf(ds[d]);
            if y.stage.Idle? && |y.rest| == 1 then ds[d := y'] == ds[d := LastLoaded(y)]
            else && y'.rest != [] && AccessesLeft(y') < AccessesLeft(y)
                 && ds[d := y'][d := LastLoaded(y')] == ds[d := LastLoaded(y)]
  {
  }

  /** A drain runs until it has read its last waiter. */
  lemma {:induction false} ReachLast(m: Memory, w: World, d: nat, n: nat) returns (more: seq<Call>, w': World)
    requires AgreeButTail(m, w) && Proper(w) && d < |w.drains| && w.drains[d].rest != []
    ensures AllPlain(more, n) && Reached(m, w, ExecuteAll(m, more), w')
    ensures w'.drains == w.drains[d := LastLoaded(w.drains[d])]
    decreases AccessesLeft(w.drains[d])
  {
    var y := w.drains[d];
    var m1, w1 := TakeTurn(m, w, d);
    var rest := [];
    w' := w1;
    NearerToLast(w.drains, d);
    if !(y.stage.Idle? && |y.rest| == 1) {
      rest, w' := ReachLast(m1, w1, d, n);
      Onward(m, w, m1, w1, ExecuteAll(m1, rest), w');
    }
    more := [Turn(d)] + rest;
  }

  predicate EmptyBelow(ds: seq<Drain>, e: nat, d: nat) {
    forall i :: 0 <= i < e && i < |ds| && i != d ==> ds[i].stage.Idle? && ds[i].rest == []
  }

  /** All drains but `d` run to their end. */
  lemma {:induction false} EmptyOthers(m: Memory, w: World, d: nat, e: nat, n: nat)
    returns (more: seq<Call>, w': World)
    requires AgreeButTail(m, w) && Proper(w) && d < |w.drains| && e <= |w.drains|
    ensures AllPlain(more, n) && Reached(m, w, ExecuteAll(m, more), w')
    ensures |w'.drains| == |w.drains| && w'.drains[d] == w.drains[d] && EmptyBelow(w'.drains, e, d)
  {
    more, w' := [], w;
    if e > 0 {
      more, w' := EmptyOthers(m, w, d, e - 1, n);
      if e - 1 != d {
        var m1 := ExecuteAll(m, more);
        var rest, w1 := EmptyDrain(m1, w', e - 1, n);
        ExecuteConcat(m, more, rest);
        more, w' := more + rest, w1;
      }
    }
  }

  /** A waiter that parks behind one being popped for the last time is cut off when the pop clears
      that one's next. */
  lemma CutOff(m: Memory, d: nat, p: nat, n: nat) returns (more: seq<Call>)
    requires d < |m.drains| && m.drains[d].stage == Loaded(p) && m.drains[d].ends.head.None?
    requires m.own.head.Some? && m.own.tail == Some(p) && p < |m.nodes| && m.nodes[p] == DETACHED
    ensures AllPlain(more, n)
    ensures var m' := ExecuteAll(m, more);
            && m'.nodes == m.nodes + [Node(None, Some(p))] && m'.own.head == m.own.head && m'.returned == m.returned
            && m'.drains == m.drains[d := Drainer(NOTHING, Idle, m.drains[d].result)]
            && m'.woken == m.woken + [(p, m.drains[d].result)]
  {
    var x := |m.nodes|;
    var t3 := [Turn(d)] + [];
    var t2 := [Turn(d)] + t3;
    var t1 := [Turn(d)] + t2;
    more := [Wait(m.value)] + t1;
    ExecuteFirst(m, Wait(m.value), t1);
    var m1 := Execute(m, Wait(m.value));
    ExecuteFirst(m1, Turn(d), t2);
    var m2 := Execute(m1, Turn(d));
    ExecuteFirst(m2, Turn(d), t3);
    var m3 := Execute(m2, Turn(d));
    ExecuteFirst(m3, Turn(d), []);
    assert m1.nodes == (m.nodes + [Node(None, Some(p))])[p := Node(Some(x), None)];
    assert m3.nodes == m.nodes + [Node(None, Some(p))];
  }

  lemma PopOwn(m: Memory, s: seq<nat>)
    requires Linked(m.nodes, s) && Distinct(s) && s != [] && m.own.head == First(s)
    ensures var m' := PopFront(m);
            && Linked(m'.nodes, s[1..]) && Distinct(s[1..]) && m'.own.head == First(s[1..])
            && m'.woken == m.woken + [(s[0], 0)] && m' == m.(nodes := m'.nodes, own := m'.own, woken := m'.woken)
            && |m'.nodes| == |m.nodes|
  {
    WithoutLinked(m.nodes, s, 0);
    assert RemoveAt(s, 0) == s[1..];
    assert PopFront(m).nodes == Without(m.nodes, s[0]);
  }

  /** notify_one until the futex's list is empty. */
  lemma {:induction false} PopAll(m: Memory, s: seq<nat>, x: nat, n: nat) returns (more: seq<Call>)
    requires Linked(m.nodes, s) && Distinct(s) && m.own.head == First(s) && x !in s
    ensures AllPlain(more, n)
    ensures var m' := ExecuteAll(m, more);
            && m'.own.head.None? && m'.drains == m.drains && m'.returned == m.returned && |m'.nodes| == |m.nodes|
            && Times(Ids(m'.woken), x) == Times(Ids(m.woken), x)
    decreases |s|
  {
    more := [];
    if s != [] {
      PopOwn(m, s);
      ReportAdds(m.woken, s[0], 0, x);
      var rest := PopAll(PopFront(m), s[1..], x, n);
      more := [NotifyOne] + rest;
      ExecuteFirst(m, NotifyOne, rest);
    }
  }

  /** The state in which the next waiter will be cut off. */
  lemma ReachCutOff(m: Memory, w: World, d: nat, n: nat) returns (more: seq<Call>, w': World)
    requires AgreeButTail(m, w) && Proper(w) && d < |w.drains| && w.drains[d].rest != []
    ensures AllPlain(more, n) && Reached(m, w, ExecuteAll(m, more), w')
    ensures |w'.drains| == |w.drains| && EmptyBelow(w'.drains, |w'.drains|, d)
    ensures var rest := w.drains[d].rest; w'.drains[d] == Drain([], Loaded(rest[|rest| - 1]), w.drains[d].result)
  {
    var a, w1 := EmptyOthers(m, w, d, |w.drains|, n);
    var b, w2 := ReachLast(ExecuteAll(m, a), w1, d, n);
    ExecuteConcat(m, a, b);
    more, w' := a + b, w2;
  }

  /** The new waiter is in no list and will not be reported, and the drains are done. */
  ghost predicate Stranded(m: Memory, s: seq<nat>, x: nat) {
    && Linked(m.nodes, s) && Distinct(s) && m.own.head == First(s) && x !in s
    && x < |m.nodes| && Outcomes(m, x) == 0
    && forall d :: 0 <= d < |m.drains| ==> m.drains[d].stage.Idle? && m.drains[d].ends.head.None?
  }

  lemma Strand(m: Memory, w: World, d: nat, p: nat, n: nat) returns (more: seq<Call>)
    requires AgreeButTail(m, w) && Proper(w) && w.fut.waiting != [] && m.own.tail == Some(p)
    requires d < |w.drains| && w.drains[d] == Drain([], Loaded(p), w.drains[d].result)
    requires EmptyBelow(w.drains, |w.drains|, d)
    ensures AllPlain(more, n) && Stranded(ExecuteAll(m, more), w.fut.waiting, |m.nodes|)
  {
    var s := w.fut.waiting;
    assert Chained(w.drains[d]) == [p] && m.nodes[[p][0]] == NodeAt([p], 0);
    more := CutOff(m, d, p, n);
    LinkedFrame(m.nodes, ExecuteAll(m, more).nodes, s);
    assert Fates(w, |m.nodes|) == 0;
    ReportAdds(m.woken, p, m.drains[d].result, |m.nodes|);
  }

  /** With others parked, the next waiter is lost. */
  lemma NextIsLost(m: Memory, w: World, d: nat) returns (more: seq<Call>)
    requires AgreeButTail(m, w) && Proper(w) && w.fut.waiting != [] && d < |w.drains|
    requires w.drains[d].rest != [] && m.own.tail == Last(w.drains[d].rest)
    ensures AllPlain(more, |m.nodes|) && !Fine(ExecuteAll(m, more))
  {
    var x, p := |m.nodes|, w.drains[d].rest[|w.drains[d].rest| - 1];
    var a, w' := ReachCutOff(m, w, d, x);
    var b := Strand(ExecuteAll(m, a), w', d, p, x);
    ExecuteConcat(m, a, b);
    var c := PopAll(ExecuteAll(m, a + b), w'.fut.waiting, x, x);
    ExecuteConcat(m, a + b, c);
    more := a + b + c;
    assert Outcomes(ExecuteAll(m, more), x) == 0 && AtRest(ExecuteAll(m, more));
  }

  lemma TailTaken(m: Memory, w: World, d: nat)
    requires Agree(m, w) && Proper(w) && d < |w.drains| && |w.drains[d].rest| > 1
    ensures var rest := w.drains[d].rest;
            var k := |rest| - 1;
            var m', w' := Remove(m, rest[k]), TakenOut(w, d, k);
            && AgreeButTail(m', w') && Proper(w') && rest[k - 1] < |m.nodes|
            && m'.own == m.own.(tail := Some(rest[k - 1])) && Last(w'.drains[d].rest) == Some(rest[k - 1])
  {
    var rest := w.drains[d].rest;
    var k := |rest| - 1;
    TakenOutAgrees(m, w, d, k);
    TakenOutKeeps(w, d, k);
    WithoutEnds(rest, k);
    HeldOnce(w, d, rest[k - 1]);
  }

  lemma TailBreaks(m: Memory, w: World, h: nat) returns (more: seq<Call>)
    requires Agree(m, w) && Proper(w) && Fails(w, Cancel(h))
    requires var rest := w.drains[DrainOf(w.drains, h)].rest; |rest| > 1 && rest[|rest| - 1] == h
    ensures AllPlain(more, |m.nodes|) && !Fine(ExecuteAll(Remove(m, h), more))
  {
    var d := DrainOf(w.drains, h);
    var k := |w.drains[d].rest| - 1;
    FailingCancelReports(m, w, h);
    TailTaken(m, w, d);
    if w.fut.waiting == [] {
      more := NextEndsTwice(Remove(m, h), w.drains[d].rest[k - 1]);
    } else {
      more := NextIsLost(Remove(m, h), TakenOut(w, d, k), d);
    }
  }

  // ----- exactly which cancels are harmless -----

  ghost predicate Harmless(m: Memory) {
    forall more :: AllPlain(more, |m.nodes|) ==> Fine(ExecuteAll(m, more))
  }

  lemma FailingBreaks(m: Memory, w: World, h: nat) returns (more: seq<Call>)
    requires Agree(m, w) && Proper(w) && Fails(w, Cancel(h))
    ensures AllPlain(more, |Remove(m, h).nodes|) && !Fine(ExecuteAll(Remove(m, h), more))
  {
    var rest := w.drains[DrainOf(w.drains, h)].rest;
    FailingCancelReports(m, w, h);
    if h !in rest {
      more := PoppedEndsTwice(m, w, h);
    } else if rest[0] == h {
      more := HeadEndsTwice(m, w, h);
    } else {
      more := TailBreaks(m, w, h);
    }
  }

  lemma AgreeIsHarmless(m: Memory, w: World)
    requires Agree(m, w) && Proper(w)
    ensures Harmless(m)
  {
    forall more | AllPlain(more, |m.nodes|) ensures Fine(ExecuteAll(m, more)) {
      HarmlessAfter(m, w, more);
    }
  }

  /** The futex keeps its promises through every later run of ordinary calls exactly if the cancel
      was not of the failing kind. */
  lemma CancelIsHarmlessExactly(m: Memory, w: World, h: nat)
    requires Agree(m, w) && Proper(w)
    ensures Harmless(Execute(m, Cancel(h))) <==> !Fails(w, Cancel(h))
  {
    if Fails(w, Cancel(h)) {
      var more := FailingBreaks(m, w, h);
    } else {
      StepAgrees(m, w, Cancel(h));
      AgreeIsHarmless(Execute(m, Cancel(h)), Do(w, Cancel(h)));
    }
  }

  lemma {:induction false} NeverFailsOneMore(value: int, before: seq<Call>, c: Call)
    requires NeverFails(value, before) && !Fails(Run(Start(value), before), c)
    ensures NeverFails(value, before + [c])
  {
    var calls := before + [c];
    forall n | 0 <= n < |calls| ensures !Fails(Run(Start(value), calls[..n]), calls[n]) {
      if n < |before| { assert calls[..n] == before[..n]; } else { assert calls[..n] == before; }
    }
  }

  lemma {:induction false} HarmlessNeverFails(value: int, calls: seq<Call>)
    requires forall n :: 0 <= n <= |calls| ==> Harmless(ExecuteAll(Fresh(value), calls[..n]))
    ensures NeverFails(value, calls)
  {
    if calls != [] {
      var k := |calls| - 1;
      var before := calls[..k];
      forall n | 0 <= n <= k ensures Harmless(ExecuteAll(Fresh(value), before[..n])) {
        assert before[..n] == calls[..n];
      }
      HarmlessNeverFails(value, before);
      RunAgrees(value, before);
      assert calls[..k + 1] == calls;
      var m, w := ExecuteAll(Fresh(value), before), Run(Start(value), before);
      if calls[k].Cancel? { CancelIsHarmlessExactly(m, w, calls[k].wait); }
      NeverFailsOneMore(value, before, calls[k]);
      assert before + [calls[k]] == calls;
    }
  }

  lemma NeverFailsBefore(value: int, calls: seq<Call>, n: nat)
    requires NeverFails(value, calls) && n <= |calls|
    ensures NeverFails(value, calls[..n])
  {
    forall i | 0 <= i < n ensures !Fails(Run(Start(value), calls[..n][..i]), calls[..n][i]) {
      assert calls[..n][..i] == calls[..i];
    }
  }

  /** Throughout a run, and however ordinary calls continue it, no wait ends twice and none is lost:
      exactly if no call of the run is a failing cancel. */
  lemma RunIsHarmlessExactly(value: int, calls: seq<Call>)
    ensures (forall n :: 0 <= n <= |calls| ==> Harmless(ExecuteAll(Fresh(value), calls[..n])))
            <==> NeverFails(value, calls)
  {
    if NeverFails(value, calls) {
      forall n | 0 <= n <= |calls| ensures Harmless(ExecuteAll(Fresh(value), calls[..n])) {
        NeverFailsBefore(value, calls, n);
        RunAgrees(value, calls[..n]);
        AgreeIsHarmless(ExecuteAll(Fresh(value), calls[..n]), Run(Start(value), calls[..n]));
      }
    } else if forall n :: 0 <= n <= |calls| ==> Harmless(ExecuteAll(Fresh(value), calls[..n])) {
      HarmlessNeverFails(value, calls);
    }
  }

  // ----- three runs -----

  lemma {:induction false} ExecuteThree(m: Memory, a: Call, b: Call, c: Call)
    ensures ExecuteAll(m, [a, b, c]) == Execute(Execute(Execute(m, a), b), c)
  {
    assert [a, b, c] == [a] + ([b] + ([c] + []));
    ExecuteFirst(m, a, [b] + ([c] + []));
    ExecuteFirst(Execute(m, a), b, [c] + []);
    ExecuteFirst(Execute(Execute(m, a), b), c, []);
  }

  function Turns(n: nat): seq<Call> {
    seq(n, _ => Turn(0))
  }

  lemma ThreeParked(v: int)
    ensures ExecuteAll(Fresh(v), [Wait(v), Wait(v), Wait(v)]) ==
            Memory(v, [Node(Some(1), None), Node(Some(2), Some(0)), Node(None, Some(1))], Ends(Some(0), Some(2)),
                   [], [], {})
  {
    ExecuteThree(Fresh(v), Wait(v), Wait(v), Wait(v));
  }

  /** The first is being popped, the second has been cancelled. */
  function DuringAPop(v: int): Memory {
    Memory(v, [Node(Some(2), None), DETACHED, Node(None, Some(0))], NOTHING,
           [Drainer(Ends(Some(1), Some(2)), Loaded(0), 0)], [(1, ECANCELED)], {})
  }

  lemma ReachDuringAPop(v: int)
    ensures ExecuteAll(Fresh(v), [Wait(v), Wait(v), Wait(v)] + [TakeAll(0), Turn(0), Cancel(1)]) == DuringAPop(v)
  {
    ThreeParked(v);
    ExecuteConcat(Fresh(v), [Wait(v), Wait(v), Wait(v)], [TakeAll(0), Turn(0), Cancel(1)]);
    ExecuteThree(ExecuteAll(Fresh(v), [Wait(v), Wait(v), Wait(v)]), TakeAll(0), Turn(0), Cancel(1));
  }

  /** The first is reported; the drain still takes the second for its head. */
  function AfterThePop(v: int): Memory {
    Memory(v, [DETACHED, DETACHED, Node(None, Some(0))], NOTHING,
           [Drainer(Ends(Some(1), Some(2)), Idle, 0)], [(1, ECANCELED), (0, 0)], {})
  }

  lemma FinishThePop(v: int)
    ensures ExecuteAll(DuringAPop(v), Turns(3)) == AfterThePop(v)
  {
    assert Turns(3) == [Turn(0), Turn(0), Turn(0)];
    ExecuteThree(DuringAPop(v), Turn(0), Turn(0), Turn(0));
    assert Execute(DuringAPop(v), Turn(0)).nodes == DuringAPop(v).nodes;
  }

  lemma PopTheSecond(v: int)
    ensures var m := ExecuteAll(AfterThePop(v), Turns(4));
            AtRest(m) && m.woken == [(1, ECANCELED), (0, 0), (1, 0)] && m.returned == {}
  {
    assert Turns(3) == [Turn(0), Turn(0), Turn(0)] && Turns(4) == [Turn(0)] + Turns(3);
    ExecuteFirst(AfterThePop(v), Turn(0), Turns(3));
    ExecuteThree(Execute(AfterThePop(v), Turn(0)), Turn(0), Turn(0), Turn(0));
  }

  /** Three waiters are moved out and the first is being popped when the second is cancelled: the
      second ends twice, and the third is left behind. */
  lemma CancelledDuringAPop(v: int)
    ensures var calls := [Wait(v), Wait(v), Wait(v)] + [TakeAll(0), Turn(0), Cancel(1)] + (Turns(3) + Turns(4));
            var m := ExecuteAll(Fresh(v), calls);
            AtRest(m) && m.woken == [(1, ECANCELED), (0, 0), (1, 0)] && m.returned == {}
  {
    ReachDuringAPop(v);
    ExecuteConcat(Fresh(v), [Wait(v), Wait(v), Wait(v)] + [TakeAll(0), Turn(0), Cancel(1)], Turns(3) + Turns(4));
    ExecuteConcat(DuringAPop(v), Turns(3), Turns(4));
    FinishThePop(v);
    PopTheSecond(v);
  }

  lemma TwoMovedOut(v: int)
    ensures ExecuteAll(Fresh(v), [Wait(v), Wait(v), TakeAll(0)]) ==
            Memory(v, [Node(Some(1), None), Node(None, Some(0))], NOTHING,
                   [Drainer(Ends(Some(0), Some(1)), Idle, 0)], [], {})
  {
    ExecuteThree(Fresh(v), Wait(v), Wait(v), TakeAll(0));
  }

  /** Two waiters are moved out and the first is cancelled: the drain reports it again. */
  lemma CancelledAtTheHead(v: int)
    ensures var calls := [Wait(v), Wait(v), TakeAll(0)] + [Cancel(0), Turn(0), Turn(0)] + Turns(2);
            ExecuteAll(Fresh(v), calls).woken == [(0, ECANCELED), (0, 0)]
  {
    var a, b := [Wait(v), Wait(v), TakeAll(0)], [Cancel(0), Turn(0), Turn(0)];
    TwoMovedOut(v);
    var m3 := ExecuteAll(Fresh(v), a);
    ExecuteConcat(Fresh(v), a, b);
    ExecuteThree(m3, Cancel(0), Turn(0), Turn(0));
    var m6 := ExecuteAll(m3, b);
    ExecuteConcat(Fresh(v), a + b, Turns(2));
    assert Turns(2) == [Turn(0)] + ([Turn(0)] + []);
    ExecuteFirst(m6, Turn(0), [Turn(0)] + []);
    ExecuteFirst(Execute(m6, Turn(0)), Turn(0), []);
  }

  /** Two waiters are moved out and the last is cancelled: the futex takes the first for its tail,
      the next waiter stays its head when it is cancelled, and notify_one reports it again. */
  lemma CancelledAtTheTail(v: int)
    ensures var calls := [Wait(v), Wait(v), TakeAll(0)] + [Cancel(1), Wait(v), Cancel(2)] + [NotifyOne];
            ExecuteAll(Fresh(v), calls).woken == [(1, ECANCELED), (2, ECANCELED), (2, 0)]
  {
    var a, b := [Wait(v), Wait(v), TakeAll(0)], [Cancel(1), Wait(v), Cancel(2)];
    TwoMovedOut(v);
    var m3 := ExecuteAll(Fresh(v), a);
    ExecuteConcat(Fresh(v), a, b);
    ExecuteThree(m3, Cancel(1), Wait(v), Cancel(2));
    var m6 := ExecuteAll(m3, b);
    ExecuteConcat(Fresh(v), a + b, [NotifyOne]);
    ExecuteFirst(m6, NotifyOne, []);
    assert [NotifyOne] + [] == [NotifyOne];
  }

  // ----- how many waiters notify_all may move out -----

  /** The lists after a drain's next `j` accesses. */
  function Drained(w: World, d: nat, j: nat): World {
    if j == 0 then w else Do(Drained(w, d, j - 1), Turn(d))
  }

  lemma {:induction false} AloneStaysAlone(w: World, d: nat, j: nat)
    requires d < |w.drains| && w.drains[d].stage.Idle? && |w.drains[d].rest| <= 1
    ensures d < |Drained(w, d, j).drains| == |w.drains|
    ensures var y := Drained(w, d, j).drains[d]; |y.rest| <= 1 && (!y.stage.Idle? ==> y.rest == [])
    ensures forall e :: 0 <= e < |w.drains| && e != d ==> Drained(w, d, j).drains[e] == w.drains[e]
  {
    if j > 0 { AloneStaysAlone(w, d, j - 1); }
  }

  /** No moment of a notify_all is wrong for cancelling one of the waiters it moved out, exactly if it
      moved out at most one. */
  lemma NotifyAllIsSafeExactly(w: World, result: int)
    requires Proper(w)
    ensures (forall j: nat, h :: h in w.fut.waiting ==>
               !Fails(Drained(Do(w, TakeAll(result)), |w.drains|, j), Cancel(h)))
            <==> |w.fut.waiting| <= 1
  {
    var w', d, s := Do(w, TakeAll(result)), |w.drains|, w.fut.waiting;
    if |s| <= 1 {
      forall j: nat, h | h in s ensures !Fails(Drained(w', d, j), Cancel(h)) {
        AloneStaysAlone(w', d, j);
        WaitingOnce(w, h);
        var ds := Drained(w', d, j).drains;
        assert forall e :: 0 <= e < d ==> ds[e] == w.drains[e] && !Holds(ds[e], h);
      }
    } else {
      DoKeeps(w, TakeAll(result));
      HeldOnce(w', d, s[0]);
      assert Fails(Drained(w', d, 0), Cancel(s[0]));
    }
  }
}
