// Whole runs of a futex, told by lists: what its calls are meant to do. Each mutex
// section is one step. notify_all moves the waiters out in one and then drains them
// outside the mutex, where every access to a waiter's links is a step of its own.
// FutexLinks.dfy has the pointers and says when they follow these lists.
module FutexRuns {
  import opened Common
  import opened Futex
  import opened IntrusiveList

  /** Where a drain stands inside pop_front: the entry is read and the head moved on; then the new
      head's prev is cleared; then the entry's next. */
  datatype Stage = Idle | Loaded(entry: nat) | Cleared(entry: nat) | Unlinked(entry: nat)

  /** What a notify_all still has to report, beside the entry it is popping. */
  datatype Drain = Drain(rest: seq<nat>, stage: Stage, result: int)

  /** Waits are numbered in the order they are requested; `returned` are those that found another
      value and never parked. */
  datatype World = World(fut: Fut<nat>, next: nat, returned: set<nat>, drains: seq<Drain>)

  datatype Call =
    | Store(value: int)
    | Wait(expected: int)
    | NotifyOne
    | TakeAll(result: int)
    | Turn(drain: nat)      // a drain's next access
    | Cancel(wait: nat)

  /** The position of `x`, or the length if it is not there. */
  function IndexOf(s: seq<nat>, x: nat): (k: nat)
    ensures k <= |s| && (k < |s| ==> s[k] == x) && (k == |s| ==> x !in s)
  {
    if s == [] || s[0] == x then 0 else 1 + IndexOf(s[1..], x)
  }

  /** The drain holds `x`, to come or being popped. */
  predicate Holds(d: Drain, x: nat) {
    x in d.rest || (!d.stage.Idle? && d.stage.entry == x)
  }

  /** The drain that holds `x`, or their number if none does. */
  function DrainOf(ds: seq<Drain>, x: nat): (d: nat)
    ensures d <= |ds| && (d < |ds| ==> Holds(ds[d], x))
    ensures forall i :: 0 <= i < d ==> !Holds(ds[i], x)
  {
    if ds == [] || Holds(ds[0], x) then 0 else 1 + DrainOf(ds[1..], x)
  }

  /** The entries of a drain that are linked to each other. */
  function Chained(d: Drain): seq<nat> {
    if d.stage.Loaded? then [d.stage.entry] + d.rest else d.rest
  }

  /** A waiter that a cancel can take out of a drain: others are before and behind it in the rest. */
  predicate Inside(d: Drain, x: nat) {
    0 < IndexOf(d.rest, x) < |d.rest| - 1
  }

  /** Some link leads from `x` to another waiter of the drain. */
  predicate HasLink(d: Drain, x: nat) {
    || (x in d.rest && |Chained(d)| > 1)
    || ((d.stage.Loaded? || d.stage.Cleared?) && d.stage.entry == x && d.rest != [])
  }

  /** The cancels that go wrong: the waiter is drained, still linked to another one, and at an end of
      the rest or being popped. */
  predicate Fails(w: World, c: Call) {
    && c.Cancel? && c.wait !in w.fut.waiting
    && var d := DrainOf(w.drains, c.wait);
       d < |w.drains| && HasLink(w.drains[d], c.wait) && !Inside(w.drains[d], c.wait)
  }

  function TurnOf(w: World, d: nat): World
    requires d < |w.drains|
  {
    var x := w.drains[d];
    match x.stage
    case Idle =>
      if x.rest == [] then w
      else w.(drains := w.drains[d := x.(rest := x.rest[1..], stage := Loaded(x.rest[0]))])
    case Loaded(a) => w.(drains := w.drains[d := x.(stage := Cleared(a))])
    case Cleared(a) => w.(drains := w.drains[d := x.(stage := Unlinked(a))])
    case Unlinked(a) => w.(fut := Report(w.fut, a, x.result), drains := w.drains[d := x.(stage := Idle)])
  }

  /** A cancel of a drained waiter wins if the waiter can be taken out, and else leaves it alone. */
  function CancelInDrain(w: World, d: nat, h: nat): World
    requires d < |w.drains|
  {
    var x := w.drains[d];
    if !Inside(x, h) then w
    else TakenOut(w, d, IndexOf(x.rest, h))
  }

  function TakenOut(w: World, d: nat, k: nat): World
    requires d < |w.drains| && k < |w.drains[d].rest|
  {
    var x := w.drains[d];
    w.(fut := Report(w.fut, x.rest[k], ECANCELED), drains := w.drains[d := x.(rest := RemoveAt(x.rest, k))])
  }

  function Do(w: World, c: Call): World {
    match c
    case Store(v) => w.(fut := w.fut.(value := v))
    case Wait(expected) =>
      if w.fut.value != expected then w.(next := w.next + 1, returned := w.returned + {w.next})
      else w.(next := w.next + 1, fut := Park(w.fut, w.next))
    case NotifyOne => w.(fut := WakeOne(w.fut))
    case TakeAll(result) =>
      w.(fut := w.fut.(waiting := []), drains := w.drains + [Drain(w.fut.waiting, Idle, result)])
    case Turn(d) => if d < |w.drains| then TurnOf(w, d) else w
    case Cancel(h) =>
      var k, d := IndexOf(w.fut.waiting, h), DrainOf(w.drains, h);
      if k < |w.fut.waiting| then w.(fut := CancelAt(w.fut, k))
      else if d < |w.drains| then CancelInDrain(w, d, h)
      else w
  }

  function Run(w: World, calls: seq<Call>): World {
    if calls == [] then w else Do(Run(w, calls[..|calls| - 1]), calls[|calls| - 1])
  }

  function Start(value: int): World {
    World(Fut(value, [], []), 0, {}, [])
  }

  // ----- exactly one fate -----

  function Ids(woken: seq<(nat, int)>): (r: seq<nat>)
    ensures |r| == |woken| && forall i :: 0 <= i < |r| ==> r[i] == woken[i].0
  {
    seq(|woken|, i requires 0 <= i < |woken| => woken[i].0)
  }

  function InDrain(d: Drain, h: nat): nat {
    (if h in d.rest then 1 else 0) + if !d.stage.Idle? && d.stage.entry == h then 1 else 0
  }

  function InDrains(ds: seq<Drain>, h: nat): nat {
    if ds == [] then 0 else InDrains(ds[..|ds| - 1], h) + InDrain(ds[|ds| - 1], h)
  }

  /** The places and outcomes of a numbered wait, counted. */
  function Fates(w: World, h: nat): nat {
    (if h in w.returned then 1 else 0) + (if h in w.fut.waiting then 1 else 0)
    + InDrains(w.drains, h) + Times(Ids(w.fut.woken), h)
  }

  predicate Increasing(s: seq<nat>) {
    forall i, j :: 0 <= i < j < |s| ==> s[i] < s[j]
  }

  /** Every list is in the order of the waits' numbers. */
  predicate Sorted(w: World) {
    Increasing(w.fut.waiting) && forall d :: 0 <= d < |w.drains| ==> Increasing(w.drains[d].rest)
  }

  /** Every wait that was requested has one place or outcome, and nothing else has any. */
  ghost predicate OneFate(w: World) {
    forall h: nat :: Fates(w, h) == if h < w.next then 1 else 0
  }

  lemma {:induction false} ReportAdds(woken: seq<(nat, int)>, x: nat, result: int, h: nat)
    ensures Times(Ids(woken + [(x, result)]), h) == Times(Ids(woken), h) + if x == h then 1 else 0
  {
    assert Ids(woken + [(x, result)]) == Ids(woken) + [x];
    TimesAppend(Ids(woken), x, h);
  }

  lemma {:induction false} InDrainsUpdate(ds: seq<Drain>, d: nat, x: Drain, h: nat)
    requires d < |ds|
    ensures InDrains(ds[d := x], h) == InDrains(ds, h) - InDrain(ds[d], h) + InDrain(x, h)
  {
    var n := |ds| - 1;
    if d == n {
      assert ds[d := x][..n] == ds[..n];
    } else {
      assert ds[d := x][..n] == ds[..n][d := x];
      InDrainsUpdate(ds[..n], d, x, h);
    }
  }

  lemma {:induction false} InDrainsAppend(ds: seq<Drain>, x: Drain, h: nat)
    ensures InDrains(ds + [x], h) == InDrains(ds, h) + InDrain(x, h)
  {
    assert (ds + [x])[..|ds|] == ds;
  }

  lemma {:induction false} InDrainsAtLeast(ds: seq<Drain>, d: nat, h: nat)
    requires d < |ds|
    ensures InDrains(ds, h) >= InDrain(ds[d], h)
  {
    if d < |ds| - 1 { InDrainsAtLeast(ds[..|ds| - 1], d, h); }
  }

  lemma {:induction false} InTwoDrains(ds: seq<Drain>, d: nat, e: nat, h: nat)
    requires d < |ds| && e < |ds| && d != e
    ensures InDrains(ds, h) >= InDrain(ds[d], h) + InDrain(ds[e], h)
  {
    var x := Drain([], Idle, 0);
    InDrainsUpdate(ds, d, x, h);
    InDrainsAtLeast(ds[d := x], e, h);
  }

  lemma RemovedIsGone(s: seq<nat>, k: nat, h: nat)
    requires Increasing(s) && k < |s|
    ensures h in RemoveAt(s, k) <==> h in s && h != s[k]
    ensures Increasing(RemoveAt(s, k))
    ensures forall i :: 0 <= i < |s| - 1 ==> RemoveAt(s, k)[i] == s[if i < k then i else i + 1]
  {
    assert forall i :: 0 <= i < |s| - 1 ==> RemoveAt(s, k)[i] == s[if i < k then i else i + 1];
    if h in s && h != s[k] {
      var j :| 0 <= j < |s| && s[j] == h;
      assert RemoveAt(s, k)[if j < k then j else j - 1] == h;
    }
  }

  /** Taking waiter `k` out of the parked list and reporting it. */
  lemma UnparkKeeps(w: World, k: nat, result: int)
    requires Sorted(w) && k < |w.fut.waiting|
    ensures var w' := w.(fut := Report(w.fut.(waiting := RemoveAt(w.fut.waiting, k)), w.fut.waiting[k], result));
            Sorted(w') && forall h :: Fates(w', h) == Fates(w, h)
  {
    var w' := w.(fut := Report(w.fut.(waiting := RemoveAt(w.fut.waiting, k)), w.fut.waiting[k], result));
    RemovedIsGone(w.fut.waiting, k, 0);
    forall h ensures Fates(w', h) == Fates(w, h) {
      RemovedIsGone(w.fut.waiting, k, h);
      ReportAdds(w.fut.woken, w.fut.waiting[k], result, h);
    }
  }

  /** The same for a drained list. */
  lemma TakenOutKeeps(w: World, d: nat, k: nat)
    requires Sorted(w) && d < |w.drains| && k < |w.drains[d].rest|
    ensures Sorted(TakenOut(w, d, k)) && forall h :: Fates(TakenOut(w, d, k), h) == Fates(w, h)
  {
    var hs := w.drains[d].rest;
    var x := w.drains[d].(rest := RemoveAt(hs, k));
    RemovedIsGone(hs, k, 0);
    forall h ensures Fates(TakenOut(w, d, k), h) == Fates(w, h) {
      RemovedIsGone(hs, k, h);
      InDrainsUpdate(w.drains, d, x, h);
      ReportAdds(w.fut.woken, hs[k], ECANCELED, h);
    }
  }

  lemma TurnKeeps(w: World, d: nat)
    requires Sorted(w) && d < |w.drains|
    ensures Sorted(TurnOf(w, d)) && forall h :: Fates(TurnOf(w, d), h) == Fates(w, h)
  {
    var x, w' := w.drains[d], TurnOf(w, d);
    forall h ensures Fates(w', h) == Fates(w, h) {
      if x.stage.Unlinked? {
        ReportAdds(w.fut.woken, x.stage.entry, x.result, h);
        InDrainsUpdate(w.drains, d, x.(stage := Idle), h);
      } else if x.stage != Idle || x.rest != [] {
        InDrainsUpdate(w.drains, d, w'.drains[d], h);
        HeadOrTail(x.rest, h);
      }
    }
  }

  lemma HeadOrTail(s: seq<nat>, h: nat)
    ensures s != [] ==> (h in s <==> h == s[0] || h in s[1..])
    ensures Increasing(s) && s != [] ==> s[0] !in s[1..]
  {
  }

  lemma TakeAllKeeps(w: World, result: int)
    requires Sorted(w)
    ensures var w' := Do(w, TakeAll(result)); Sorted(w') && forall h :: Fates(w', h) == Fates(w, h)
  {
    forall h ensures Fates(Do(w, TakeAll(result)), h) == Fates(w, h) {
      InDrainsAppend(w.drains, Drain(w.fut.waiting, Idle, result), h);
    }
  }

  lemma WaitKeeps(w: World, expected: int)
    requires Sorted(w) && OneFate(w)
    ensures Sorted(Do(w, Wait(expected))) && OneFate(Do(w, Wait(expected)))
  {
    var w' := Do(w, Wait(expected));
    forall i | 0 <= i < |w.fut.waiting| ensures w.fut.waiting[i] < w.next {
      assert Fates(w, w.fut.waiting[i]) > 0;
    }
    forall h: nat ensures Fates(w', h) == if h < w'.next then 1 else 0 {
      assert Fates(w, h) == if h < w.next then 1 else 0;
    }
  }

  /** Every call keeps every wait in exactly one place or outcome. */
  lemma DoKeeps(w: World, c: Call)
    requires Sorted(w) && OneFate(w)
    ensures Sorted(Do(w, c)) && OneFate(Do(w, c))
  {
    match c
    case Store(_) =>
      forall h ensures Fates(Do(w, c), h) == Fates(w, h) {
      }
    case Wait(expected) => WaitKeeps(w, expected);
    case NotifyOne =>
      if w.fut.waiting != [] {
        UnparkKeeps(w, 0, 0);
        assert RemoveAt(w.fut.waiting, 0) == w.fut.waiting[1..];
      }
    case TakeAll(result) => TakeAllKeeps(w, result);
    case Turn(d) => if d < |w.drains| { TurnKeeps(w, d); }
    case Cancel(h) =>
      var k, d := IndexOf(w.fut.waiting, h), DrainOf(w.drains, h);
      if k < |w.fut.waiting| {
        UnparkKeeps(w, k, ECANCELED);
      } else if d < |w.drains| && Inside(w.drains[d], h) {
        TakenOutKeeps(w, d, IndexOf(w.drains[d].rest, h));
      }
  }

  /** Once one of notify, drain and cancel has scheduled a waiter, a later cancel finds it in no list
      and changes nothing. */
  lemma {:induction false} FirstToUnlinkWins(w: World, h: nat)
    requires OneFate(w) && h in Ids(w.fut.woken)
    ensures Times(Ids(w.fut.woken), h) == 1 && h !in w.fut.waiting && InDrains(w.drains, h) == 0
    ensures Do(w, Cancel(h)) == w
  {
    TimesIn(Ids(w.fut.woken), h);
    assert Fates(w, h) == if h < w.next then 1 else 0;
    NotDrained(w.drains, h);
  }

  lemma {:induction false} NotDrained(ds: seq<Drain>, h: nat)
    requires InDrains(ds, h) == 0
    ensures DrainOf(ds, h) == |ds|
  {
    var d := DrainOf(ds, h);
    if d < |ds| { InDrainsAtLeast(ds, d, h); }
  }

  // ----- order -----

  predicate NotCancelled(e: (nat, int)) {
    e.1 != ECANCELED
  }

  /** Notified waiters appear in parking order and before every waiter still parked. */
  predicate InOrder(f: Fut<nat>) {
    && (forall i, j :: 0 <= i < j < |f.woken| && NotCancelled(f.woken[i]) && NotCancelled(f.woken[j]) ==>
          f.woken[i].0 < f.woken[j].0)
    && (forall i, j :: 0 <= i < |f.woken| && 0 <= j < |f.waiting| && NotCancelled(f.woken[i]) ==>
          f.woken[i].0 < f.waiting[j])
  }

  lemma WakeOneKeepsOrder(f: Fut<nat>)
    requires Increasing(f.waiting) && InOrder(f) && f.waiting != []
    ensures InOrder(WakeOne(f)) && Increasing(WakeOne(f).waiting)
  {
    var rest := f.waiting[1..];
    assert forall i :: 0 <= i < |rest| ==> rest[i] == f.waiting[i + 1];
  }

  lemma CancelKeepsOrder(f: Fut<nat>, k: nat)
    requires Increasing(f.waiting) && InOrder(f) && k < |f.waiting|
    ensures InOrder(CancelAt(f, k)) && Increasing(CancelAt(f, k).waiting)
  {
    RemovedIsGone(f.waiting, k, 0);
  }

  predicate Ordered(w: World) {
    && w.drains == [] && InOrder(w.fut) && Increasing(w.fut.waiting)
    && (forall i :: 0 <= i < |w.fut.waiting| ==> w.fut.waiting[i] < w.next)
    && (forall i :: 0 <= i < |w.fut.woken| ==> w.fut.woken[i].0 < w.next)
  }

  lemma NotifyKeepsOrder(w: World)
    requires Ordered(w)
    ensures Ordered(Do(w, NotifyOne))
  {
    if w.fut.waiting != [] { WakeOneKeepsOrder(w.fut); }
  }

  lemma CancelKeepsOrdered(w: World, h: nat)
    requires Ordered(w)
    ensures Ordered(Do(w, Cancel(h)))
  {
    var k := IndexOf(w.fut.waiting, h);
    if k < |w.fut.waiting| {
      CancelKeepsOrder(w.fut, k);
      RemovedIsGone(w.fut.waiting, k, 0);
    }
  }

  lemma DoKeepsOrder(w: World, c: Call)
    requires Ordered(w) && !c.TakeAll?
    ensures Ordered(Do(w, c))
  {
    if c.NotifyOne? {
      NotifyKeepsOrder(w);
    } else if c.Cancel? {
      CancelKeepsOrdered(w, c.wait);
    }
  }

  /** As long as only notify_one and cancels are at work, waiters are notified in the order they
      parked, less the cancelled ones. */
  lemma {:induction false} NotifiedInOrder(value: int, calls: seq<Call>)
    requires forall i :: 0 <= i < |calls| ==> !calls[i].TakeAll?
    ensures Ordered(Run(Start(value), calls))
  {
    if calls != [] {
      NotifiedInOrder(value, calls[..|calls| - 1]);
      DoKeepsOrder(Run(Start(value), calls[..|calls| - 1]), calls[|calls| - 1]);
    }
  }

  // ----- answers -----

  /** The futex word after the calls. */
  function ValueAfter(value: int, calls: seq<Call>): int {
    if calls == [] then value
    else
      var c := calls[|calls| - 1];
      if c.Store? then c.value else ValueAfter(value, calls[..|calls| - 1])
  }

  /** How many waits have been requested: the number of the next one. */
  function Waits(calls: seq<Call>): nat {
    if calls == [] then 0 else Waits(calls[..|calls| - 1]) + if calls[|calls| - 1].Wait? then 1 else 0
  }

  /** What a waiter may be told: 0 by notify_one, the result of a notify_all, or ECANCELED by its own cancel. */
  predicate Earned(calls: seq<Call>, h: nat, result: int) {
    || (result == 0 && NotifyOne in calls)
    || TakeAll(result) in calls
    || (result == ECANCELED && Cancel(h) in calls)
  }

  ghost predicate Answered(calls: seq<Call>, w: World) {
    && (forall i :: 0 <= i < |w.fut.woken| ==> Earned(calls, w.fut.woken[i].0, w.fut.woken[i].1))
    && (forall d :: 0 <= d < |w.drains| ==> TakeAll(w.drains[d].result) in calls)
  }

  lemma EarnedStill(calls: seq<Call>, c: Call, w: World)
    requires Answered(calls, w)
    ensures Answered(calls + [c], w)
  {
    assert forall x :: x in calls ==> x in calls + [c];
  }

  lemma DoAnswers(calls: seq<Call>, w: World, c: Call)
    requires Answered(calls, w)
    ensures Answered(calls + [c], Do(w, c))
  {
    EarnedStill(calls, c, w);
    assert (calls + [c])[|calls|] == c;
    assert c in calls + [c];
  }

  /** Over every run: nobody is told anything but what a call made for it says. */
  lemma {:induction false} EveryAnswerIsEarned(value: int, calls: seq<Call>)
    ensures Answered(calls, Run(Start(value), calls))
  {
    if calls != [] {
      var n := |calls| - 1;
      EveryAnswerIsEarned(value, calls[..n]);
      DoAnswers(calls[..n], Run(Start(value), calls[..n]), calls[n]);
      assert calls[..n] + [calls[n]] == calls;
    }
  }

  lemma DoValue(w: World, c: Call)
    ensures Do(w, c).fut.value == if c.Store? then c.value else w.fut.value
    ensures Do(w, c).next == w.next + if c.Wait? then 1 else 0
    ensures Do(w, c).returned == w.returned + if c.Wait? && w.fut.value != c.expected then {w.next} else {}
  {
  }

  /** The wait that is call `n` returns at once exactly if the word then differs from what it expects. */
  predicate ReturnsAtOnce(value: int, calls: seq<Call>, n: nat)
    requires n < |calls|
  {
    calls[n].Wait? && ValueAfter(value, calls[..n]) != calls[n].expected
  }

  lemma {:induction false} WaitsBefore(calls: seq<Call>, k: nat)
    requires k < |calls| && calls[k].Wait?
    ensures Waits(calls[..k]) < Waits(calls)
  {
    assert calls[..k + 1][..k] == calls[..k];
    WaitsGrow(calls, k + 1);
  }

  lemma {:induction false} WaitsGrow(calls: seq<Call>, k: nat)
    requires k <= |calls|
    ensures Waits(calls[..k]) <= Waits(calls)
  {
    if k == |calls| {
      assert calls[..k] == calls;
    } else {
      var n := |calls| - 1;
      WaitsGrow(calls[..n], k);
      assert calls[..n][..k] == calls[..k];
    }
  }

  /** Over every run: the word is the value stored last, waits are numbered as they are requested, and a
      wait returns at once if and only if the word differed from what it expected. */
  lemma {:induction false} WaitsReturnExactly(value: int, calls: seq<Call>)
    ensures var w := Run(Start(value), calls);
            && w.fut.value == ValueAfter(value, calls) && w.next == Waits(calls)
            && (forall h :: h in w.returned ==> h < Waits(calls))
            && forall n :: 0 <= n < |calls| && calls[n].Wait? ==>
                 (Waits(calls[..n]) in w.returned <==> ReturnsAtOnce(value, calls, n))
  {
    if calls != [] {
      var n := |calls| - 1;
      var before := calls[..n];
      var w, w' := Run(Start(value), before), Run(Start(value), calls);
      WaitsReturnExactly(value, before);
      DoValue(w, calls[n]);
      forall k | 0 <= k < |calls| && calls[k].Wait?
        ensures Waits(calls[..k]) in w'.returned <==> ReturnsAtOnce(value, calls, k)
      {
        if k < n {
          assert before[..k] == calls[..k] && before[k] == calls[k];
          WaitsBefore(before, k);
          assert ReturnsAtOnce(value, before, k) <==> ReturnsAtOnce(value, calls, k);
        } else {
          assert calls[..k] == before;
        }
      }
    }
  }
}
