// Work queued on a runtime runs in the order it was queued, also across start-up,
// and a runtime starts up once.
module RuntimeOrder {
  import opened Common
  import opened Runtime
  import opened RuntimeRuns

  /** What has run, then what waits in the local and in the global queue. */
  function Line(l: Loop): seq<Work> {
    l.ran + l.local + l.global
  }

  predicate Before(s: seq<Work>, v: Work, w: Work) {
    exists i, j :: 0 <= i < j < |s| && s[i] == v && s[j] == w
  }

  /** At most one item has joined, somewhere. */
  ghost predicate Joined(a: seq<Work>, b: seq<Work>) {
    b == a || exists k, x :: 0 <= k <= |a| && b == a[..k] + [x] + a[k..]
  }

  lemma JoinedKeepsBefore(a: seq<Work>, b: seq<Work>, v: Work, w: Work)
    requires Joined(a, b) && Before(a, v, w)
    ensures Before(b, v, w)
  {
    if b != a {
      var k, x :| 0 <= k <= |a| && b == a[..k] + [x] + a[k..];
      var i, j :| 0 <= i < j < |a| && a[i] == v && a[j] == w;
      assert b[if i < k then i else i + 1] == v && b[if j < k then j else j + 1] == w;
    }
  }

  lemma JoinsAt(a: seq<Work>, b: seq<Work>, x: Work)
    ensures Joined(a + b, a + [x] + b)
  {
    assert (a + b)[..|a|] == a && (a + b)[|a|..] == b;
  }

  /** At the three places an item joins the line. */
  lemma JoinsLine(a: seq<Work>, b: seq<Work>, c: seq<Work>, x: Work)
    ensures Joined(a + b + c, a + [x] + b + c) && Joined(a + b + c, a + (b + [x]) + c)
    ensures Joined(a + b + c, a + b + (c + [x]))
  {
    JoinsAt(a, b + c, x);
    assert a + (b + c) == a + b + c && a + [x] + (b + c) == a + [x] + b + c;
    JoinsAt(a + b, c, x);
    assert a + b + [x] + c == a + (b + [x]) + c;
    JoinsAt(a + b + c, [], x);
    assert a + b + c + [] == a + b + c && a + b + c + [x] + [] == a + b + (c + [x]);
  }

  lemma InvokeJoins(l: Loop, w: Work, from: From)
    ensures Line(Invoke(l, w, from)) == l.ran + [w] + l.local + l.global
  {
  }

  lemma PopKeepsLine(l: Loop)
    requires l.pc.Pop?
    ensures Line(Perform(l, PopLocal)) == Line(l)
  {
    if l.local != [] {
      InvokeJoins(l.(local := l.local[1..]), l.local[0], Queue);
      assert l.local == [l.local[0]] + l.local[1..];
    }
  }

  lemma ReapJoins(l: Loop)
    requires l.pc.Reap? && l.cq != []
    ensures Joined(Line(l), Line(Perform(l, ReapOne)))
  {
    if l.cq[0].Told? && l.cq[0].msg.Job? {
      var w := l.cq[0].msg.work;
      InvokeJoins(l.(cq := l.cq[1..]), w, Completion(l.pc.tick, false));
      JoinsLine(l.ran, l.local, l.global, w);
    }
  }

  lemma StartUpKeepsLine(l: Loop)
    requires l.pc.Starting?
    ensures Line(Perform(l, StartUp)) == Line(l)
  {
  }

  lemma PerformJoins(l: Loop, act: Act)
    requires Can(l, act)
    ensures Joined(Line(l), Line(Perform(l, act)))
  {
    if act == PopLocal {
      PopKeepsLine(l);
    } else if act == ReapOne {
      ReapJoins(l);
    } else if act == StartUp {
      StartUpKeepsLine(l);
    }
  }

  lemma ScheduleJoins(s: State, a: Agent, to: nat, w: Work, r: nat)
    requires IsAgent(s, a) && to < |s.loops| && r < |s.loops|
    ensures Joined(Line(s.loops[r]), Line(Schedule(s, a, to, w).loops[r]))
  {
    var l := s.loops[to];
    JoinsLine(l.ran, l.local, l.global, w);
  }

  lemma TakeLockJoins(s: State, a: Agent, r: nat)
    requires IsAgent(s, a) && r < |s.loops| && CallOf(s, a).TakeLock?
    ensures r < |Continue(s, a).loops| && Joined(Line(s.loops[r]), Line(Continue(s, a).loops[r]))
  {
    var l, p := s.loops[r], CallOf(s, a).parcel;
    if p.msg.Job? { JoinsLine(l.ran, l.local, l.global, p.msg.work); }
  }

  lemma ContinueKeepsLine(s: State, a: Agent, r: nat)
    requires IsAgent(s, a) && r < |s.loops| && !CallOf(s, a).TakeLock?
    ensures r < |Continue(s, a).loops| && Line(Continue(s, a).loops[r]) == Line(s.loops[r])
  {
  }

  lemma StepJoins(s: State, step: Step, r: nat)
    requires Enabled(s, step) && r < |s.loops|
    ensures r < |Next(s, step).loops| && Joined(Line(s.loops[r]), Line(Next(s, step).loops[r]))
  {
    match step
    case Local(i, act) => if i == r { PerformJoins(s.loops[r], act); }
    case Spawn(a, to) =>
      var w := Work(|s.made|, false);
      ScheduleJoins(s.(made := s.made + [Parcel(to, Job(w))]), a, to, w, r);
    case Claim(a, to, w) =>
      ScheduleJoins(SetLoop(s, to, s.loops[to].(parked := s.loops[to].parked - {w})), a, to, w, r);
    case Advance(a) =>
      if CallOf(s, a).TakeLock? { TakeLockJoins(s, a, r); } else { ContinueKeepsLine(s, a, r); }
    case _ =>
  }

  lemma {:induction false} RunKeepsBefore(s: State, steps: seq<Step>, s': State, r: nat, v: Work, w: Work)
    requires Runs(s, steps, s') && r < |s.loops| && Before(Line(s.loops[r]), v, w)
    ensures r < |s'.loops| && Before(Line(s'.loops[r]), v, w)
    decreases |steps|
  {
    if steps != [] {
      StepJoins(s, steps[0], r);
      JoinedKeepsBefore(Line(s.loops[r]), Line(Next(s, steps[0]).loops[r]), v, w);
      RunKeepsBefore(Next(s, steps[0]), steps[1..], s', r, v, w);
    }
  }

  lemma {:induction false} TwiceCounts(s: seq<Work>, i: nat, j: nat)
    requires i < j < |s| && s[i] == s[j]
    ensures Times(s, s[i]) >= 2
  {
    var n := |s| - 1;
    if j < n {
      TwiceCounts(s[..n], i, j);
    } else {
      TimesIn(s[..n], s[i]);
      assert s[..n][i] == s[i];
    }
  }

  lemma {:induction false} LineOnce(s: State, r: nat, w: Work)
    requires Inv(s) && r < |s.loops|
    ensures Times(Line(s.loops[r]), w) <= 1
  {
    var l, p := s.loops[r], Parcel(r, Job(w));
    InLoopsAtLeast(s.loops, r, p);
    MadeAtMostOnce(s.made, p);
    assert Places(s, p) == Times(s.made, p);
    TimesConcat(l.ran, l.local, w);
    TimesConcat(l.ran + l.local, l.global, w);
  }

  /** Of two items that are in line, the one in front runs first. */
  lemma {:induction false} WorkRunsInOrder(s0: State, before: seq<Step>, s: State, steps: seq<Step>, s': State,
                                           r: nat, v: Work, w: Work)
    requires Initial(s0) && Runs(s0, before, s) && Runs(s, steps, s')
    requires r < |s.loops| && Before(Line(s.loops[r]), v, w)
    ensures r < |s'.loops| && (w in s'.loops[r].ran ==> Before(s'.loops[r].ran, v, w))
  {
    InitialIsInv(s0);
    RunKeepsInv(s0, before, s);
    RunKeepsInv(s, steps, s');
    RunKeepsBefore(s, steps, s', r, v, w);
    var l := s'.loops[r];
    if w in l.ran {
      var i, j :| 0 <= i < j < |Line(l)| && Line(l)[i] == v && Line(l)[j] == w;
      var k :| 0 <= k < |l.ran| && l.ran[k] == w;
      LineOnce(s', r, w);
      assert Line(l)[k] == w;
      if k < j { TwiceCounts(Line(l), k, j); }
      assert l.ran[i] == v && l.ran[j] == w;
    }
  }

  // ----- start-up -----

  /** The ring stays enabled, and with it enabled there is no start-up. */
  predicate Onward(l: Loop, l': Loop) {
    (l'.pc == Starting ==> !l'.enabled) && (l.enabled ==> l'.enabled)
  }

  lemma PerformStartsOnce(l: Loop, act: Act)
    requires Can(l, act) && Onward(l, l)
    ensures Onward(l, Perform(l, act))
  {
  }

  lemma ContinueStartsOnce(s: State, a: Agent, r: nat)
    requires IsAgent(s, a) && r < |s.loops| && Onward(s.loops[r], s.loops[r])
    ensures r < |Continue(s, a).loops| && Onward(s.loops[r], Continue(s, a).loops[r])
  {
  }

  lemma StepStartsOnce(s: State, step: Step, r: nat)
    requires Enabled(s, step) && r < |s.loops| && Onward(s.loops[r], s.loops[r])
    ensures r < |Next(s, step).loops| && Onward(s.loops[r], Next(s, step).loops[r])
  {
    if step.Local? && step.r == r {
      PerformStartsOnce(s.loops[r], step.act);
    } else if step.Advance? {
      ContinueStartsOnce(s, step.a, r);
    }
  }

  /** The start-up of a runtime, which takes over the global queue and enables the ring, is never
      repeated, and the ring stays enabled. */
  lemma {:induction false} StartsUpOnce(s: State, steps: seq<Step>, s': State, r: nat)
    requires Runs(s, steps, s') && r < |s.loops| && (s.loops[r].pc == Starting ==> !s.loops[r].enabled)
    ensures r < |s'.loops|
    ensures s'.loops[r].pc == Starting ==> !s'.loops[r].enabled
    ensures s.loops[r].enabled ==> s'.loops[r].enabled && s'.loops[r].pc != Starting
    decreases |steps|
  {
    if steps != [] {
      StepStartsOnce(s, steps[0], r);
      StartsUpOnce(Next(s, steps[0]), steps[1..], s', r);
    }
  }
}
