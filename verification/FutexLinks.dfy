// The futex's lists as they are in memory: every waiter has a next and a prev link,
// the futex and every drain have a head and a tail. Calls act on the links as
// intrusive.hpp does; remove always works on the futex's own head and tail, whatever
// list the waiter is in. The links follow the lists of FutexRuns exactly as long as
// no cancel of the kind `Fails` names is made.
module FutexLinks {
  import opened Common
  import opened Futex
  import opened FutexRuns
  import opened IntrusiveList

  type Ptr = Option<nat>

  datatype Node = Node(next: Ptr, prev: Ptr)

  datatype Ends = Ends(head: Ptr, tail: Ptr)

  datatype Drainer = Drainer(ends: Ends, stage: Stage, result: int)

  /** Waiter `h` is `nodes[h]`. */
  datatype Memory = Memory(value: int, nodes: seq<Node>, own: Ends, drains: seq<Drainer>,
                           woken: seq<(nat, int)>, returned: set<nat>)

  const DETACHED := Node(None, None)
  const NOTHING := Ends(None, None)

  // ----- the list operations -----

  function SetNext(nodes: seq<Node>, p: Ptr, v: Ptr): (r: seq<Node>)
    ensures |r| == |nodes|
  {
    if p.Some? && p.value < |nodes| then nodes[p.value := nodes[p.value].(next := v)] else nodes
  }

  function SetPrev(nodes: seq<Node>, p: Ptr, v: Ptr): (r: seq<Node>)
    ensures |r| == |nodes|
  {
    if p.Some? && p.value < |nodes| then nodes[p.value := nodes[p.value].(prev := v)] else nodes
  }

  /** Waiter `h` unlinked: its neighbours linked to each other, its own links cleared. */
  function Without(nodes: seq<Node>, h: nat): (r: seq<Node>)
    requires h < |nodes|
    ensures |r| == |nodes|
  {
    SetPrev(SetNext(nodes, nodes[h].prev, nodes[h].next), nodes[h].next, nodes[h].prev)[h := DETACHED]
  }

  /** push_back of a new waiter. */
  function PushBack(m: Memory): Memory {
    var x := Some(|m.nodes|);
    var nodes := m.nodes + [Node(None, m.own.tail)];
    if m.own.head.None? then m.(nodes := nodes, own := Ends(x, x))
    else m.(nodes := SetNext(nodes, m.own.tail, x), own := m.own.(tail := x))
  }

  /** pop_front on the futex's own list, in one step. */
  function PopFront(m: Memory): Memory {
    if m.own.head.None? || m.own.head.value >= |m.nodes| then m else
    var e := m.own.head.value;
    var head := m.nodes[e].next;
    var nodes := SetPrev(m.nodes, head, None);
    m.(nodes := nodes[e := DETACHED], own := if head.None? then NOTHING else m.own.(head := head),
       woken := m.woken + [(e, 0)])
  }

  /** remove on the futex's own list; a waiter that it unlinks is reported. */
  function Remove(m: Memory, h: nat): Memory {
    if h >= |m.nodes| || (m.nodes[h] == DETACHED && m.own.head != Some(h)) then m else
    var n := m.nodes[h];
    m.(nodes := Without(m.nodes, h),
       own := Ends(if n.prev.Some? then m.own.head else n.next, if n.next.Some? then m.own.tail else n.prev),
       woken := m.woken + [(h, ECANCELED)])
  }

  /** The next access of a drain's pop_front. */
  function Access(m: Memory, d: nat): Memory
    requires d < |m.drains|
  {
    var x := m.drains[d];
    match x.stage
    case Idle =>
      if x.ends.head.None? || x.ends.head.value >= |m.nodes| then m
      else
        var a := x.ends.head.value;
        m.(drains := m.drains[d := x.(ends := x.ends.(head := m.nodes[a].next), stage := Loaded(a))])
    case Loaded(a) =>
      if x.ends.head.None? then m.(drains := m.drains[d := x.(ends := NOTHING, stage := Cleared(a))])
      else m.(nodes := SetPrev(m.nodes, x.ends.head, None), drains := m.drains[d := x.(stage := Cleared(a))])
    case Cleared(a) =>
      m.(nodes := SetNext(m.nodes, Some(a), None), drains := m.drains[d := x.(stage := Unlinked(a))])
    case Unlinked(a) =>
      m.(nodes := SetPrev(m.nodes, Some(a), None), drains := m.drains[d := x.(stage := Idle)],
         woken := m.woken + [(a, x.result)])
  }

  function Execute(m: Memory, c: Call): Memory {
    match c
    case Store(v) => m.(value := v)
    case Wait(expected) =>
      if m.value != expected then m.(nodes := m.nodes + [DETACHED], returned := m.returned + {|m.nodes|})
      else PushBack(m)
    case NotifyOne => PopFront(m)
    case TakeAll(result) => m.(own := NOTHING, drains := m.drains + [Drainer(m.own, Idle, result)])
    case Turn(d) => if d < |m.drains| then Access(m, d) else m
    case Cancel(h) => Remove(m, h)
  }

  function ExecuteAll(m: Memory, calls: seq<Call>): Memory {
    if calls == [] then m else Execute(ExecuteAll(m, calls[..|calls| - 1]), calls[|calls| - 1])
  }

  function Fresh(value: int): Memory {
    Memory(value, [], NOTHING, [], [], {})
  }

  // ----- links that describe lists -----

  function First(s: seq<nat>): Ptr {
    if s == [] then None else Some(s[0])
  }

  function Last(s: seq<nat>): Ptr {
    if s == [] then None else Some(s[|s| - 1])
  }

  function NodeAt(s: seq<nat>, i: nat): Node
    requires i < |s|
  {
    Node(if i + 1 < |s| then Some(s[i + 1]) else None, if 0 < i then Some(s[i - 1]) else None)
  }

  predicate Linked(nodes: seq<Node>, s: seq<nat>) {
    && (forall i :: 0 <= i < |s| ==> s[i] < |nodes|)
    && (forall i {:trigger nodes[s[i]]} :: 0 <= i < |s| ==> nodes[s[i]] == NodeAt(s, i))
  }

  /** The tail of a list that is drained is never read. */
  predicate DrainAgrees(nodes: seq<Node>, x: Drainer, d: Drain) {
    && x.stage == d.stage && x.result == d.result && x.ends.head == First(d.rest)
    && Linked(nodes, Chained(d))
    && (!d.stage.Idle? ==> d.stage.entry < |nodes|)
    && (d.stage.Cleared? ==> nodes[d.stage.entry] == Node(First(d.rest), None))
    && (d.stage.Unlinked? ==> nodes[d.stage.entry] == DETACHED)
  }

  /** In no list. */
  predicate Unlisted(w: World, h: nat) {
    h !in w.fut.waiting && DrainOf(w.drains, h) == |w.drains|
  }

  /** The links say what the lists say, apart from the futex's tail. */
  ghost predicate AgreeButTail(m: Memory, w: World) {
    && m.value == w.fut.value && m.woken == w.fut.woken && m.returned == w.returned && |m.nodes| == w.next
    && Linked(m.nodes, w.fut.waiting) && m.own.head == First(w.fut.waiting)
    && |m.drains| == |w.drains| && (forall d :: 0 <= d < |w.drains| ==> DrainAgrees(m.nodes, m.drains[d], w.drains[d]))
    && (forall h :: 0 <= h < |m.nodes| && Unlisted(w, h) ==> m.nodes[h] == DETACHED)
  }

  ghost predicate Agree(m: Memory, w: World) {
    AgreeButTail(m, w) && m.own.tail == Last(w.fut.waiting)
  }

  ghost predicate Proper(w: World) {
    Sorted(w) && OneFate(w)
  }

  // ----- every waiter is in one list only -----

  lemma {:induction false} HeldOnce(w: World, d: nat, h: nat)
    requires Proper(w) && d < |w.drains| && Holds(w.drains[d], h)
    ensures h !in w.fut.waiting && DrainOf(w.drains, h) == d && h < w.next
    ensures InDrain(w.drains[d], h) == 1
    ensures forall e :: 0 <= e < |w.drains| && e != d ==> !Holds(w.drains[e], h)
  {
    InDrainsAtLeast(w.drains, d, h);
    assert Fates(w, h) == if h < w.next then 1 else 0;
    forall e | 0 <= e < |w.drains| && e != d ensures !Holds(w.drains[e], h) {
      InTwoDrains(w.drains, d, e, h);
    }
  }

  lemma {:induction false} WaitingOnce(w: World, h: nat)
    requires Proper(w) && h in w.fut.waiting
    ensures h < w.next && DrainOf(w.drains, h) == |w.drains|
    ensures forall e :: 0 <= e < |w.drains| ==> !Holds(w.drains[e], h)
  {
    assert Fates(w, h) == if h < w.next then 1 else 0;
    NotDrained(w.drains, h);
  }

  // ----- changes that a list does not see -----

  lemma LinkedFrame(nodes: seq<Node>, nodes': seq<Node>, s: seq<nat>)
    requires Linked(nodes, s) && |nodes| <= |nodes'|
    requires forall i :: 0 <= i < |s| ==> s[i] < |nodes| && nodes'[s[i]] == nodes[s[i]]
    ensures Linked(nodes', s)
  {
  }

  lemma DrainFrame(nodes: seq<Node>, nodes': seq<Node>, x: Drainer, d: Drain)
    requires DrainAgrees(nodes, x, d) && |nodes| <= |nodes'|
    requires forall h :: 0 <= h < |nodes| && Holds(d, h) ==> nodes'[h] == nodes[h]
    ensures DrainAgrees(nodes', x, d)
  {
    var s := Chained(d);
    forall i | 0 <= i < |s| ensures s[i] < |nodes| && nodes'[s[i]] == nodes[s[i]] {
      assert Holds(d, s[i]);
    }
    LinkedFrame(nodes, nodes', s);
  }

  /** A change of links inside one drain. */
  lemma OthersAgree(m: Memory, w: World, d: nat, nodes: seq<Node>)
    requires AgreeButTail(m, w) && Proper(w) && d < |w.drains| && |nodes| == |m.nodes|
    requires forall h :: 0 <= h < |nodes| && !Holds(w.drains[d], h) ==> nodes[h] == m.nodes[h]
    ensures Linked(nodes, w.fut.waiting)
    ensures forall e :: 0 <= e < |w.drains| && e != d ==> DrainAgrees(nodes, m.drains[e], w.drains[e])
    ensures forall h :: 0 <= h < |nodes| && Unlisted(w, h) ==> nodes[h] == DETACHED
  {
    forall i | 0 <= i < |w.fut.waiting|
      ensures w.fut.waiting[i] < |nodes| && nodes[w.fut.waiting[i]] == m.nodes[w.fut.waiting[i]]
    {
      WaitingOnce(w, w.fut.waiting[i]);
    }
    LinkedFrame(m.nodes, nodes, w.fut.waiting);
    forall e | 0 <= e < |w.drains| && e != d ensures DrainAgrees(nodes, m.drains[e], w.drains[e]) {
      forall h | 0 <= h < |nodes| && Holds(w.drains[e], h) ensures nodes[h] == m.nodes[h] {
        HeldOnce(w, e, h);
      }
      DrainFrame(m.nodes, nodes, m.drains[e], w.drains[e]);
    }
  }

  // ----- a drain's accesses -----

  lemma {:induction false} SameDrainOf(ds: seq<Drain>, ds': seq<Drain>, h: nat)
    requires |ds| == |ds'| && forall e :: 0 <= e < |ds| ==> (Holds(ds[e], h) <==> Holds(ds'[e], h))
    ensures DrainOf(ds, h) == |ds| <==> DrainOf(ds', h) == |ds'|
  {
    if DrainOf(ds, h) < |ds| { assert Holds(ds'[DrainOf(ds, h)], h); }
    if DrainOf(ds', h) < |ds'| { assert Holds(ds[DrainOf(ds', h)], h); }
  }

  /** A drain moves on with the waiters it has. */
  lemma DrainStep(m: Memory, w: World, d: nat, nodes: seq<Node>, x: Drainer, y: Drain)
    requires AgreeButTail(m, w) && Proper(w) && d < |w.drains| && |nodes| == |m.nodes|
    requires forall h :: 0 <= h < |nodes| && !Holds(w.drains[d], h) ==> nodes[h] == m.nodes[h]
    requires DrainAgrees(nodes, x, y) && forall h :: Holds(y, h) <==> Holds(w.drains[d], h)
    ensures AgreeButTail(m.(nodes := nodes, drains := m.drains[d := x]), w.(drains := w.drains[d := y]))
  {
    var w' := w.(drains := w.drains[d := y]);
    OthersAgree(m, w, d, nodes);
    forall h | 0 <= h < |nodes| && Unlisted(w', h) ensures nodes[h] == DETACHED {
      SameDrainOf(w.drains, w'.drains, h);
    }
  }

  lemma LoadDrain(nodes: seq<Node>, x: Drainer, y: Drain)
    requires DrainAgrees(nodes, x, y) && y.stage.Idle? && y.rest != []
    ensures y.rest[0] < |nodes|
    ensures DrainAgrees(nodes, x.(ends := x.ends.(head := nodes[y.rest[0]].next), stage := Loaded(y.rest[0])),
                        y.(rest := y.rest[1..], stage := Loaded(y.rest[0])))
  {
    assert [y.rest[0]] + y.rest[1..] == y.rest;
  }

  lemma ClearLinked(nodes: seq<Node>, a: nat, rest: seq<nat>)
    requires Linked(nodes, [a] + rest) && Increasing(rest) && a !in rest && rest != []
    ensures a < |nodes| && rest[0] < |nodes|
    ensures var nodes' := SetPrev(nodes, First(rest), None);
            Linked(nodes', rest) && nodes'[a] == Node(First(rest), None)
  {
    var s, nodes' := [a] + rest, SetPrev(nodes, First(rest), None);
    assert s[0] == a && s[1] == rest[0] && nodes[s[0]] == NodeAt(s, 0);
    forall i | 0 <= i < |rest| ensures rest[i] < |nodes| && nodes'[rest[i]] == NodeAt(rest, i) {
      assert s[i + 1] == rest[i] && nodes[s[i + 1]] == NodeAt(s, i + 1);
      assert 0 < i ==> rest[0] < rest[i] && s[i] == rest[i - 1];
    }
  }

  lemma ClearDrain(nodes: seq<Node>, x: Drainer, y: Drain)
    requires DrainAgrees(nodes, x, y) && y.stage.Loaded? && Increasing(y.rest) && y.stage.entry !in y.rest
    ensures var a := y.stage.entry;
            if y.rest == [] then DrainAgrees(nodes, x.(ends := NOTHING, stage := Cleared(a)), y.(stage := Cleared(a)))
            else DrainAgrees(SetPrev(nodes, x.ends.head, None), x.(stage := Cleared(a)), y.(stage := Cleared(a)))
  {
    var a, s := y.stage.entry, [y.stage.entry] + y.rest;
    assert nodes[s[0]] == NodeAt(s, 0);
    if y.rest != [] { ClearLinked(nodes, a, y.rest); }
  }

  lemma UnlinkDrain(nodes: seq<Node>, x: Drainer, y: Drain)
    requires DrainAgrees(nodes, x, y) && y.stage.Cleared? && y.stage.entry !in y.rest
    ensures var a := y.stage.entry;
            DrainAgrees(SetNext(nodes, Some(a), None), x.(stage := Unlinked(a)), y.(stage := Unlinked(a)))
  {
    LinkedFrame(nodes, SetNext(nodes, Some(y.stage.entry), None), y.rest);
  }

  lemma LoadAgrees(m: Memory, w: World, d: nat)
    requires AgreeButTail(m, w) && Proper(w) && d < |w.drains| && w.drains[d].stage.Idle?
    ensures AgreeButTail(Access(m, d), TurnOf(w, d))
  {
    var x, y := m.drains[d], w.drains[d];
    if y.rest != [] {
      LoadDrain(m.nodes, x, y);
      forall h ensures h in y.rest <==> h == y.rest[0] || h in y.rest[1..] { HeadOrTail(y.rest, h); }
      DrainStep(m, w, d, m.nodes, Access(m, d).drains[d], TurnOf(w, d).drains[d]);
    }
  }

  lemma ClearAgrees(m: Memory, w: World, d: nat)
    requires AgreeButTail(m, w) && Proper(w) && d < |w.drains| && w.drains[d].stage.Loaded?
    ensures AgreeButTail(Access(m, d), TurnOf(w, d))
  {
    var y := w.drains[d];
    HeldOnce(w, d, y.stage.entry);
    ClearDrain(m.nodes, m.drains[d], y);
    assert y.rest != [] ==> y.rest[0] in y.rest;
    DrainStep(m, w, d, Access(m, d).nodes, Access(m, d).drains[d], y.(stage := Cleared(y.stage.entry)));
  }

  lemma UnlinkAgrees(m: Memory, w: World, d: nat)
    requires AgreeButTail(m, w) && Proper(w) && d < |w.drains| && w.drains[d].stage.Cleared?
    ensures AgreeButTail(Access(m, d), TurnOf(w, d))
  {
    var y := w.drains[d];
    HeldOnce(w, d, y.stage.entry);
    UnlinkDrain(m.nodes, m.drains[d], y);
    DrainStep(m, w, d, Access(m, d).nodes, Access(m, d).drains[d], y.(stage := Unlinked(y.stage.entry)));
  }

  lemma ReportAgrees(m: Memory, w: World, d: nat)
    requires AgreeButTail(m, w) && Proper(w) && d < |w.drains| && w.drains[d].stage.Unlinked?
    ensures AgreeButTail(Access(m, d), TurnOf(w, d))
  {
    var y, m', w' := w.drains[d], Access(m, d), TurnOf(w, d);
    var a := y.stage.entry;
    assert m'.nodes == m.nodes by { assert m.nodes[a] == DETACHED; }
    forall h | 0 <= h < |m.nodes| && Unlisted(w', h) ensures m.nodes[h] == DETACHED {
      if h != a {
        assert forall e :: 0 <= e < |w.drains| ==> (Holds(w.drains[e], h) <==> Holds(w'.drains[e], h));
        SameDrainOf(w.drains, w'.drains, h);
      }
    }
  }

  lemma TurnAgrees(m: Memory, w: World, d: nat)
    requires AgreeButTail(m, w) && Proper(w) && d < |w.drains|
    ensures AgreeButTail(Access(m, d), TurnOf(w, d))
    ensures Access(m, d).own == m.own && TurnOf(w, d).fut.waiting == w.fut.waiting
  {
    match w.drains[d].stage
    case Idle => LoadAgrees(m, w, d);
    case Loaded(_) => ClearAgrees(m, w, d);
    case Cleared(_) => UnlinkAgrees(m, w, d);
    case Unlinked(_) => ReportAgrees(m, w, d);
  }

  // ----- the futex's own list -----

  lemma PushLinked(nodes: seq<Node>, s: seq<nat>)
    requires Linked(nodes, s) && Distinct(s)
    ensures var nodes' := nodes + [Node(None, Last(s))];
            Linked(SetNext(nodes', Last(s), Some(|nodes|)), s + [|nodes|])
  {
    var n, t := |nodes|, s + [|nodes|];
    var nodes' := SetNext(nodes + [Node(None, Last(s))], Last(s), Some(n));
    forall i | 0 <= i < |t| ensures t[i] < |nodes'| && nodes'[t[i]] == NodeAt(t, i) {
      if i < |s| {
        assert t[i] == s[i] && nodes[s[i]] == NodeAt(s, i);
        assert i < |s| - 1 ==> s[i] != s[|s| - 1];
      }
    }
  }

  lemma WithoutAt(nodes: seq<Node>, s: seq<nat>, k: nat, i: nat)
    requires Linked(nodes, s) && Distinct(s) && k < |s| && i < |s| && i != k
    ensures s[k] < |nodes| && s[i] < |nodes|
    ensures Without(nodes, s[k])[s[i]].next == if i + 1 == k then NodeAt(s, k).next else NodeAt(s, i).next
    ensures Without(nodes, s[k])[s[i]].prev == if i == k + 1 then NodeAt(s, k).prev else NodeAt(s, i).prev
  {
    assert nodes[s[k]] == NodeAt(s, k) && nodes[s[i]] == NodeAt(s, i);
    assert s[i] != s[k];
    assert k + 1 < |s| && i != k + 1 ==> s[i] != s[k + 1];
    assert 0 < k && i != k - 1 ==> s[i] != s[k - 1];
  }

  lemma WithoutLinked(nodes: seq<Node>, s: seq<nat>, k: nat)
    requires Linked(nodes, s) && Distinct(s) && k < |s|
    ensures s[k] < |nodes| && nodes[s[k]] == NodeAt(s, k)
    ensures Linked(Without(nodes, s[k]), RemoveAt(s, k)) && Without(nodes, s[k])[s[k]] == DETACHED
    ensures forall h :: 0 <= h < |nodes| && h !in s ==> Without(nodes, s[k])[h] == nodes[h]
  {
    var t, nodes' := RemoveAt(s, k), Without(nodes, s[k]);
    assert |t| == |s| - 1 && forall i :: 0 <= i < |t| ==> t[i] == s[if i < k then i else i + 1];
    assert nodes[s[k]] == NodeAt(s, k);
    forall i | 0 <= i < |t| ensures t[i] < |nodes'| && nodes'[t[i]] == NodeAt(t, i) {
      WithoutAt(nodes, s, k, if i < k then i else i + 1);
    }
  }

  lemma WithoutEnds(s: seq<nat>, k: nat)
    requires k < |s|
    ensures First(RemoveAt(s, k)) == if NodeAt(s, k).prev.Some? then First(s) else NodeAt(s, k).next
    ensures Last(RemoveAt(s, k)) == if NodeAt(s, k).next.Some? then Last(s) else NodeAt(s, k).prev
  {
    var t := RemoveAt(s, k);
    assert |t| == |s| - 1 && forall i :: 0 <= i < |t| ==> t[i] == s[if i < k then i else i + 1];
  }

  /** The drains do not see a change in the futex's own list. */
  lemma DrainsAgree(m: Memory, w: World, nodes: seq<Node>)
    requires AgreeButTail(m, w) && Proper(w) && |m.nodes| <= |nodes|
    requires forall g :: 0 <= g < |m.nodes| && g !in w.fut.waiting ==> nodes[g] == m.nodes[g]
    ensures forall d :: 0 <= d < |w.drains| ==> DrainAgrees(nodes, m.drains[d], w.drains[d])
  {
    forall d | 0 <= d < |w.drains| ensures DrainAgrees(nodes, m.drains[d], w.drains[d]) {
      forall g | 0 <= g < |m.nodes| && Holds(w.drains[d], g) ensures nodes[g] == m.nodes[g] {
        HeldOnce(w, d, g);
      }
      DrainFrame(m.nodes, nodes, m.drains[d], w.drains[d]);
    }
  }

  /** Taking waiter `k` out of the futex's list and reporting it. */
  lemma UnparkAgrees(m: Memory, w: World, k: nat, tail: Ptr, result: int)
    requires AgreeButTail(m, w) && Proper(w) && k < |w.fut.waiting|
    ensures w.fut.waiting[k] < |m.nodes|
    ensures var h, rest := w.fut.waiting[k], RemoveAt(w.fut.waiting, k);
            AgreeButTail(m.(nodes := Without(m.nodes, h), own := Ends(First(rest), tail),
                            woken := m.woken + [(h, result)]),
                         w.(fut := Report(w.fut.(waiting := rest), h, result)))
  {
    var s, h, rest := w.fut.waiting, w.fut.waiting[k], RemoveAt(w.fut.waiting, k);
    WithoutLinked(m.nodes, s, k);
    var nodes, w' := Without(m.nodes, h), w.(fut := Report(w.fut.(waiting := rest), h, result));
    DrainsAgree(m, w, nodes);
    forall g | 0 <= g < |nodes| && Unlisted(w', g) ensures nodes[g] == DETACHED {
      RemovedIsGone(s, k, g);
    }
  }

  lemma NotifyAgrees(m: Memory, w: World)
    requires AgreeButTail(m, w) && Proper(w)
    ensures AgreeButTail(PopFront(m), w.(fut := WakeOne(w.fut)))
    ensures PopFront(m).own.tail == if |w.fut.waiting| == 1 then None else m.own.tail
  {
    var s := w.fut.waiting;
    if s != [] {
      assert m.nodes[s[0]] == NodeAt(s, 0);
      assert RemoveAt(s, 0) == s[1..];
      UnparkAgrees(m, w, 0, if |s| == 1 then None else m.own.tail, 0);
    }
  }

  lemma ReturnAgrees(m: Memory, w: World, expected: int)
    requires Agree(m, w) && Proper(w) && m.value != expected
    ensures Agree(Execute(m, Wait(expected)), Do(w, Wait(expected)))
  {
    var nodes := m.nodes + [DETACHED];
    LinkedFrame(m.nodes, nodes, w.fut.waiting);
    DrainsAgree(m, w, nodes);
  }

  lemma PushedNodes(m: Memory, s: seq<nat>)
    requires Linked(m.nodes, s) && m.own == Ends(First(s), Last(s))
    ensures PushBack(m).nodes == SetNext(m.nodes + [Node(None, Last(s))], Last(s), Some(|m.nodes|))
    ensures PushBack(m).own == Ends(First(s + [|m.nodes|]), Last(s + [|m.nodes|]))
    ensures forall g :: 0 <= g < |m.nodes| && g !in s ==> PushBack(m).nodes[g] == m.nodes[g]
  {
  }

  lemma ParkedUnlisted(w: World, h: nat)
    requires Unlisted(w.(fut := Park(w.fut, w.next)), h)
    ensures Unlisted(w, h) && h != w.next
  {
    var s := Park(w.fut, w.next).waiting;
    assert s[|s| - 1] == w.next;
    assert forall i :: 0 <= i < |s| - 1 ==> s[i] == w.fut.waiting[i];
  }

  lemma ParkAgrees(m: Memory, w: World)
    requires Agree(m, w) && Proper(w)
    ensures Agree(PushBack(m), w.(next := w.next + 1, fut := Park(w.fut, w.next)))
  {
    var m', w' := PushBack(m), w.(next := w.next + 1, fut := Park(w.fut, w.next));
    PushedNodes(m, w.fut.waiting);
    PushLinked(m.nodes, w.fut.waiting);
    DrainsAgree(m, w, m'.nodes);
    forall h | 0 <= h < |m'.nodes| && Unlisted(w', h) ensures m'.nodes[h] == DETACHED {
      assert Unlisted(w.(fut := Park(w.fut, w.next)), h);
      ParkedUnlisted(w, h);
    }
  }

  lemma TakeAllAgrees(m: Memory, w: World, result: int)
    requires Agree(m, w) && Proper(w)
    ensures Agree(Execute(m, TakeAll(result)), Do(w, TakeAll(result)))
  {
    var w' := Do(w, TakeAll(result));
    forall h | 0 <= h < |m.nodes| && Unlisted(w', h) ensures Unlisted(w, h) {
      assert !Holds(w'.drains[|w.drains|], h);
      assert forall e :: 0 <= e < |w.drains| ==> w'.drains[e] == w.drains[e];
    }
  }

  // ----- cancels -----

  lemma CancelParkedAgrees(m: Memory, w: World, h: nat)
    requires Agree(m, w) && Proper(w) && h in w.fut.waiting
    ensures Agree(Remove(m, h), Do(w, Cancel(h)))
  {
    var s, k := w.fut.waiting, IndexOf(w.fut.waiting, h);
    WithoutLinked(m.nodes, s, k);
    WithoutEnds(s, k);
    UnparkAgrees(m, w, k, Last(RemoveAt(s, k)), ECANCELED);
  }

  /** A waiter without links is left alone. */
  lemma {:induction false} CancelAloneAgrees(m: Memory, w: World, h: nat)
    requires Agree(m, w) && Proper(w) && h !in w.fut.waiting && !Fails(w, Cancel(h))
    requires DrainOf(w.drains, h) < |w.drains| ==> !Inside(w.drains[DrainOf(w.drains, h)], h)
    ensures Remove(m, h) == m && Do(w, Cancel(h)) == w
  {
    var d := DrainOf(w.drains, h);
    if d < |w.drains| {
      var x, s := w.drains[d], Chained(w.drains[d]);
      HeldOnce(w, d, h);
      if h in x.rest {
        var i :| 0 <= i < |s| && s[i] == h;
        assert m.nodes[s[i]] == NodeAt(s, i);
      } else if x.stage.Loaded? {
        assert m.nodes[s[0]] == NodeAt(s, 0);
      }
    }
  }

  lemma ConsWithout(a: nat, s: seq<nat>, k: nat)
    requires k < |s| && Increasing(s) && a !in s
    ensures RemoveAt([a] + s, k + 1) == [a] + RemoveAt(s, k) && Distinct([a] + s)
  {
    var t := [a] + s;
    assert t[..k + 1] == [a] + s[..k] && t[k + 2..] == s[k + 1..];
    forall i, j | 0 <= i < j < |t| ensures t[i] != t[j] {
      assert t[j] == s[j - 1];
    }
  }

  lemma ChainedWithout(y: Drain, k: nat)
    requires Increasing(y.rest) && 0 < k < |y.rest|
    requires !y.stage.Idle? ==> y.stage.entry !in y.rest
    ensures var s, j, y' := Chained(y), if y.stage.Loaded? then k + 1 else k, y.(rest := RemoveAt(y.rest, k));
            && 0 < j < |s| && |s| - j == |y.rest| - k && s[j - 1] == y.rest[k - 1] && s[j] == y.rest[k]
            && Distinct(s) && Chained(y') == RemoveAt(s, j)
            && First(y'.rest) == First(y.rest)
  {
    WithoutEnds(y.rest, k);
    if y.stage.Loaded? { ConsWithout(y.stage.entry, y.rest, k); }
  }

  lemma ShorterDrain(nodes: seq<Node>, nodes': seq<Node>, x: Drainer, y: Drain, y': Drain)
    requires DrainAgrees(nodes, x, y) && |nodes'| == |nodes| && y' == y.(rest := y'.rest)
    requires First(y'.rest) == First(y.rest) && Linked(nodes', Chained(y'))
    requires forall h :: 0 <= h < |nodes| && h !in Chained(y) ==> nodes'[h] == nodes[h]
    requires y.stage.Cleared? || y.stage.Unlinked? ==> y.stage.entry !in y.rest
    ensures DrainAgrees(nodes', x, y')
  {
  }

  /** Without a waiter that has another before it, the drain's list is in order. */
  lemma TakenOutDrain(nodes: seq<Node>, x: Drainer, y: Drain, k: nat)
    requires DrainAgrees(nodes, x, y) && Increasing(y.rest) && 0 < k < |y.rest|
    requires !y.stage.Idle? ==> y.stage.entry !in y.rest
    ensures y.rest[k] < |nodes| && nodes[y.rest[k]].prev == Some(y.rest[k - 1])
    ensures nodes[y.rest[k]].next.Some? <==> k < |y.rest| - 1
    ensures DrainAgrees(Without(nodes, y.rest[k]), x, y.(rest := RemoveAt(y.rest, k)))
    ensures Without(nodes, y.rest[k])[y.rest[k]] == DETACHED
    ensures forall h :: 0 <= h < |nodes| && h !in Chained(y) ==> Without(nodes, y.rest[k])[h] == nodes[h]
  {
    var s, j, y' := Chained(y), if y.stage.Loaded? then k + 1 else k, y.(rest := RemoveAt(y.rest, k));
    ChainedWithout(y, k);
    WithoutLinked(nodes, s, j);
    ShorterDrain(nodes, Without(nodes, y.rest[k]), x, y, y');
  }

  lemma UnlistedWithout(w: World, d: nat, k: nat, h: nat)
    requires Sorted(w) && d < |w.drains| && k < |w.drains[d].rest|
    requires Unlisted(TakenOut(w, d, k), h) && h != w.drains[d].rest[k]
    ensures Unlisted(w, h)
  {
    var ds := TakenOut(w, d, k).drains;
    RemovedIsGone(w.drains[d].rest, k, h);
    SameDrainOf(w.drains, ds, h);
  }

  lemma DetachedWithout(m: Memory, w: World, d: nat, k: nat, nodes: seq<Node>)
    requires AgreeButTail(m, w) && Proper(w) && d < |w.drains| && k < |w.drains[d].rest| && |nodes| == |m.nodes|
    requires w.drains[d].rest[k] < |nodes| && nodes[w.drains[d].rest[k]] == DETACHED
    requires forall h :: 0 <= h < |nodes| && !Holds(w.drains[d], h) ==> nodes[h] == m.nodes[h]
    ensures forall h :: 0 <= h < |nodes| && Unlisted(TakenOut(w, d, k), h) ==> nodes[h] == DETACHED
  {
    forall h | 0 <= h < |nodes| && Unlisted(TakenOut(w, d, k), h) ensures nodes[h] == DETACHED {
      if h != w.drains[d].rest[k] { UnlistedWithout(w, d, k, h); }
    }
  }

  /** Removing a drained waiter that has another before it; at the end of its list it takes the
      futex's tail along. */
  lemma TakenOutAgrees(m: Memory, w: World, d: nat, k: nat)
    requires AgreeButTail(m, w) && Proper(w) && d < |w.drains| && 0 < k < |w.drains[d].rest|
    ensures var rest := w.drains[d].rest;
            && AgreeButTail(Remove(m, rest[k]), TakenOut(w, d, k))
            && Remove(m, rest[k]).own == m.own.(tail := if k < |rest| - 1 then m.own.tail else Some(rest[k - 1]))
  {
    var y, h := w.drains[d], w.drains[d].rest[k];
    var nodes := Remove(m, h).nodes;
    HeldOnce(w, d, h);
    if !y.stage.Idle? { HeldOnce(w, d, y.stage.entry); }
    TakenOutDrain(m.nodes, m.drains[d], y, k);
    assert forall g :: g in Chained(y) ==> Holds(y, g);
    OthersAgree(m, w, d, nodes);
    DetachedWithout(m, w, d, k, nodes);
  }

  /** Every call that does not fail acts on the links as it does on the lists. */
  lemma StepAgrees(m: Memory, w: World, c: Call)
    requires Agree(m, w) && Proper(w) && !Fails(w, c)
    ensures Agree(Execute(m, c), Do(w, c)) && Proper(Do(w, c))
  {
    DoKeeps(w, c);
    match c
    case Store(_) =>
    case Wait(expected) =>
      if m.value == expected { ParkAgrees(m, w); } else { ReturnAgrees(m, w, expected); }
    case NotifyOne => NotifyAgrees(m, w);
    case TakeAll(result) => TakeAllAgrees(m, w, result);
    case Turn(d) => if d < |w.drains| { TurnAgrees(m, w, d); }
    case Cancel(h) =>
      var d := DrainOf(w.drains, h);
      if h in w.fut.waiting {
        CancelParkedAgrees(m, w, h);
      } else if d < |w.drains| && Inside(w.drains[d], h) {
        TakenOutAgrees(m, w, d, IndexOf(w.drains[d].rest, h));
      } else {
        CancelAloneAgrees(m, w, h);
      }
  }

  // ----- what a run owes its waiters -----

  /** Nobody is parked and no notify_all is under way. */
  predicate AtRest(m: Memory) {
    m.own.head.None? && forall d :: 0 <= d < |m.drains| ==> m.drains[d].stage.Idle? && m.drains[d].ends.head.None?
  }

  function Outcomes(m: Memory, h: nat): nat {
    (if h in m.returned then 1 else 0) + Times(Ids(m.woken), h)
  }

  /** No wait ends twice, and at rest every wait has ended. */
  ghost predicate Fine(m: Memory) {
    forall h: nat :: h < |m.nodes| ==> Outcomes(m, h) <= 1 && (AtRest(m) ==> Outcomes(m, h) == 1)
  }

  lemma {:induction false} EmptyDrains(ds: seq<Drain>, h: nat)
    requires forall d :: 0 <= d < |ds| ==> ds[d].stage.Idle? && ds[d].rest == []
    ensures InDrains(ds, h) == 0
  {
    if ds != [] { EmptyDrains(ds[..|ds| - 1], h); }
  }

  lemma AgreeIsFine(m: Memory, w: World)
    requires Agree(m, w) && Proper(w)
    ensures Fine(m)
  {
    forall h: nat | h < |m.nodes| ensures Outcomes(m, h) <= 1 && (AtRest(m) ==> Outcomes(m, h) == 1) {
      assert Fates(w, h) == 1;
      if AtRest(m) { EmptyDrains(w.drains, h); }
    }
  }

  /** No call of the run is a cancel of the kind that fails. */
  ghost predicate NeverFails(value: int, calls: seq<Call>) {
    forall n :: 0 <= n < |calls| ==> !Fails(Run(Start(value), calls[..n]), calls[n])
  }

  lemma {:induction false} RunAgrees(value: int, calls: seq<Call>)
    requires NeverFails(value, calls)
    ensures Agree(ExecuteAll(Fresh(value), calls), Run(Start(value), calls))
    ensures Proper(Run(Start(value), calls))
  {
    if calls != [] {
      var n := |calls| - 1;
      var before := calls[..n];
      forall i | 0 <= i < |before|
        ensures !Fails(Run(Start(value), before[..i]), before[i])
      {
        assert before[..i] == calls[..i] && before[i] == calls[i];
      }
      RunAgrees(value, before);
      StepAgrees(ExecuteAll(Fresh(value), before), Run(Start(value), before), calls[n]);
    }
  }

  /** On every run without a failing cancel the links follow the lists, no wait ends twice and none
      is lost. */
  lemma {:induction false} EveryWaitHasOneFate(value: int, calls: seq<Call>)
    requires NeverFails(value, calls)
    ensures Agree(ExecuteAll(Fresh(value), calls), Run(Start(value), calls))
    ensures OneFate(Run(Start(value), calls)) && Fine(ExecuteAll(Fresh(value), calls))
  {
    RunAgrees(value, calls);
    AgreeIsFine(ExecuteAll(Fresh(value), calls), Run(Start(value), calls));
  }
}
