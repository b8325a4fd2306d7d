// Trees of when_all, when_any and link over leaf operations (detail/op_states.hpp):
// starting a tree, with leaves that may complete while it is being started, and
// then one completion after the other, with stop requests passed down.
module Combinators {
  import opened Common

  /** A link completes like when_all; its start differs. */
  datatype Kind = All | Any | Link

  /** What a receiver is handed: a leaf's result, the results of all children,
      or the index and the result of the first child to complete. */
  datatype Value = Res(code: int) | Tuple(results: map<nat, Value>) | First(index: nat, result: Value)

  /** An operation state. A leaf's `stopped` is its stop token; an any-node's
      `stop` is its own stop source; `fires` counts calls of its receiver. */
  datatype Tree =
    | Leaf(id: nat, stopped: bool, begun: bool, done: Option<int>)
    | Node(kind: Kind, kids: seq<Tree>, order: seq<nat>, results: map<nat, Value>,
           stop: bool, started: bool, fires: nat)

  function Size(t: Tree): nat
    ensures Size(t) > 0
  {
    match t
    case Leaf(_, _, _, _) => 1
    case Node(_, kids, _, _, _, _, _) => 1 + Sizes(kids)
  }

  function Sizes(kids: seq<Tree>): nat {
    if kids == [] then 0 else Size(kids[0]) + Sizes(kids[1..])
  }

  lemma {:induction false} SizeOfKid(kids: seq<Tree>, i: nat)
    requires i < |kids|
    ensures Size(kids[i]) <= Sizes(kids)
  {
    if i > 0 {
      SizeOfKid(kids[1..], i - 1);
    }
  }

  lemma {:induction false} SizesUpdate(kids: seq<Tree>, i: nat, kid: Tree)
    requires i < |kids| && Size(kid) == Size(kids[i])
    ensures Sizes(kids[i := kid]) == Sizes(kids)
  {
    if i == 0 {
      assert kids[i := kid][1..] == kids[1..];
    } else {
      assert kids[i := kid][1..] == kids[1..][i - 1 := kid];
      SizesUpdate(kids[1..], i - 1, kid);
    }
  }

  predicate EmptyLink(t: Tree) {
    t.Node? && t.kind == Link && t.kids == []
  }

  predicate Fired(t: Tree) {
    match t
    case Leaf(_, _, _, done) => done.Some?
    case Node(_, kids, order, _, _, started, _) => started && |order| == |kids| && !EmptyLink(t)
  }

  /** What the receiver gets once the operation has completed. */
  function ValueOf(t: Tree): Value {
    match t
    case Leaf(_, _, _, done) => Res(if done.Some? then done.value else 0)
    case Node(kind, _, order, results, _, _, _) =>
      if kind == Any && order != [] && order[0] in results then First(order[0], results[order[0]])
      else Tuple(results)
  }

  // ----- the operations -----

  /** A stop request reaches every leaf and every any-node below. */
  function Stop(t: Tree): (r: Tree)
    ensures Size(r) == Size(t)
    decreases t
  {
    match t
    case Leaf(_, _, _, _) => t.(stopped := true)
    case Node(kind, kids, _, _, stop, _, _) => t.(stop := stop || kind == Any, kids := StopAll(kids))
  }

  function StopAll(kids: seq<Tree>): (r: seq<Tree>)
    ensures |r| == |kids| && Sizes(r) == Sizes(kids)
    ensures forall i :: 0 <= i < |kids| ==> r[i] == Stop(kids[i])
    decreases kids
  {
    if kids == [] then [] else [Stop(kids[0])] + StopAll(kids[1..])
  }

  /** Child `i` of a node reports `v`. */
  function Receive(n: Tree, i: nat, v: Value): (r: Tree)
    requires n.Node?
    ensures Size(r) == Size(n)
  {
    var n1 := if n.kind == Any then n.(stop := true, kids := StopAll(n.kids)) else n;
    n1.(order := n.order + [i], results := n.results[i := v],
        fires := if |n.order| + 1 == |n.kids| then n.fires + 1 else n.fires)
  }

  /** The node after child `i` has become `kid`, reporting if it has completed. */
  function Update(n: Tree, i: nat, kid: Tree): (r: Tree)
    requires n.Node? && i < |n.kids| && Size(kid) == Size(n.kids[i])
    ensures r.Node? && Size(r) == Size(n) && |r.kids| == |n.kids|
  {
    SizesUpdate(n.kids, i, kid);
    var n1 := n.(kids := n.kids[i := kid]);
    if Fired(kid) then Receive(n1, i, ValueOf(kid)) else n1
  }

  /** start(): a leaf whose token is stopped fails at once; the leaves in `sync`
      complete inside their own start. A node without children calls its receiver
      at once, except that a link only walks its children. */
  function Start(t: Tree, sync: map<nat, int>): (r: Tree)
    ensures Size(r) == Size(t)
    decreases Size(t), 0
  {
    match t
    case Leaf(id, stopped, _, done) =>
      t.(begun := true,
         done := if stopped then Some(ECANCELED) else if id in sync then Some(sync[id]) else done)
    case Node(kind, kids, _, _, _, _, fires) =>
      if kids == [] && kind != Link then t.(started := true, fires := fires + 1)
      else StartFrom(t.(started := true), 0, sync)
  }

  function StartFrom(n: Tree, i: nat, sync: map<nat, int>): (r: Tree)
    requires n.Node? && i <= |n.kids|
    ensures r.Node? && Size(r) == Size(n)
    decreases Size(n) - 1, |n.kids| - i
  {
    if i == |n.kids| then n else
    SizeOfKid(n.kids, i);
    StartFrom(Update(n, i, Start(n.kids[i], sync)), i + 1, sync)
  }

  /** The leaf at `path` has been started and has not completed. */
  predicate Pending(t: Tree, path: seq<nat>)
    decreases |path|
  {
    match t
    case Leaf(_, _, begun, done) => path == [] && begun && done.None?
    case Node(_, kids, _, _, _, _, _) => path != [] && path[0] < |kids| && Pending(kids[path[0]], path[1..])
  }

  function Complete(t: Tree, path: seq<nat>, v: int): (r: Tree)
    requires Pending(t, path)
    ensures Size(r) == Size(t)
    decreases |path|
  {
    match t
    case Leaf(_, _, _, _) => t.(done := Some(v))
    case Node(_, kids, _, _, _, _, _) => Update(t, path[0], Complete(kids[path[0]], path[1..], v))
  }

  // ----- what holds of every tree -----

  /** Nothing of the tree has been started. */
  predicate Untouched(t: Tree)
    decreases t
  {
    match t
    case Leaf(_, _, begun, done) => !begun && done.None?
    case Node(_, kids, order, results, _, started, fires) =>
      && !started && order == [] && results == map[] && fires == 0
      && forall i :: 0 <= i < |kids| ==> Untouched(kids[i])
  }

  predicate Begun(t: Tree)
    decreases t
  {
    match t
    case Leaf(_, _, begun, _) => begun
    case Node(_, kids, _, _, _, started, _) => started && forall i :: 0 <= i < |kids| ==> Begun(kids[i])
  }

  predicate Distinct(s: seq<nat>, n: nat) {
    && (forall i :: 0 <= i < |s| ==> s[i] < n)
    && (forall i, j :: 0 <= i < j < |s| ==> s[i] != s[j])
  }

  /** The stop state a node's children see. */
  function Passed(n: Tree, outer: bool): bool
    requires n.Node?
  {
    if n.kind == Any then n.stop else outer
  }

  /** A node's books match its children: `order` lists each completed child
      once, results sit at their own index, the receiver has been called iff the
      last child is in, and an any-node has asked to stop iff a child completed
      or it was asked itself. */
  ghost predicate Books(n: Tree, outer: bool)
    requires n.Node?
  {
    && Distinct(n.order, |n.kids|)
    && (forall i :: 0 <= i < |n.kids| ==> (i in n.order <==> Fired(n.kids[i])))
    && (forall i :: i in n.results <==> i in n.order)
    && (forall i :: 0 <= i < |n.kids| && i in n.results ==> n.results[i] == ValueOf(n.kids[i]))
    && n.fires == (if Fired(n) then 1 else 0)
    && n.stop == (n.kind == Any && (outer || n.order != []))
  }

  /** The invariant; `outer` says whether the tree's own token is stopped. */
  ghost predicate Good(t: Tree, outer: bool)
    decreases t
  {
    match t
    case Leaf(_, stopped, begun, done) => stopped == outer && (done.Some? ==> begun)
    case Node(_, kids, _, _, _, _, _) =>
      Books(t, outer) && forall i :: 0 <= i < |kids| ==> Good(kids[i], Passed(t, outer))
  }

  // ----- stop requests -----

  /** A stop request starts and completes nothing. */
  lemma {:induction false} StopStartsNothing(t: Tree)
    ensures Fired(Stop(t)) == Fired(t) && ValueOf(Stop(t)) == ValueOf(t)
    ensures Untouched(t) ==> Untouched(Stop(t))
    ensures Begun(t) ==> Begun(Stop(t))
    decreases t
  {
    if t.Node? {
      forall i | 0 <= i < |t.kids|
        ensures Untouched(t.kids[i]) ==> Untouched(Stop(t).kids[i])
        ensures Begun(t.kids[i]) ==> Begun(Stop(t).kids[i])
      {
        StopStartsNothing(t.kids[i]);
      }
    }
  }

  lemma {:induction false} StopKeeps(t: Tree, outer: bool)
    requires Good(t, outer)
    ensures Good(Stop(t), true)
    ensures Fired(Stop(t)) == Fired(t) && ValueOf(Stop(t)) == ValueOf(t)
    decreases t
  {
    StopStartsNothing(t);
    if t.Node? {
      var r := Stop(t);
      forall i | 0 <= i < |t.kids|
        ensures Good(r.kids[i], true)
        ensures Fired(r.kids[i]) == Fired(t.kids[i]) && ValueOf(r.kids[i]) == ValueOf(t.kids[i])
      {
        StopKeeps(t.kids[i], Passed(t, outer));
      }
      assert Books(r, true);
    }
  }

  // ----- a child reports -----

  /** A node whose child `i` has completed without reporting yet. */
  ghost predicate Owed(n: Tree, i: nat, outer: bool)
    requires n.Node? && i < |n.kids|
  {
    && n.started && Distinct(n.order, |n.kids|) && i !in n.order && Fired(n.kids[i])
    && (forall j :: 0 <= j < |n.kids| && j != i ==> (j in n.order <==> Fired(n.kids[j])))
    && (forall j :: j in n.results <==> j in n.order)
    && (forall j :: 0 <= j < |n.kids| && j in n.results ==> n.results[j] == ValueOf(n.kids[j]))
    && n.fires == 0
    && n.stop == (n.kind == Any && (outer || n.order != []))
    && forall j :: 0 <= j < |n.kids| ==> Good(n.kids[j], Passed(n, outer))
  }

  /** Taking the greatest number out of a list of distinct ones. */
  lemma DropGreatest(s: seq<nat>, n: nat, k: nat, rest: seq<nat>)
    requires Distinct(s, n) && k < |s| && s[k] == n - 1 && rest == s[..k] + s[k + 1..]
    ensures Distinct(rest, n - 1)
    ensures forall i :: 0 <= i < n - 1 ==> (i in rest <==> i in s)
  {
    forall i | 0 <= i < n - 1 && i in s ensures i in rest {
      var j :| 0 <= j < |s| && s[j] == i;
      assert if j < k then rest[j] == i else rest[j - 1] == i;
    }
  }

  lemma {:induction false} DistinctShort(s: seq<nat>, n: nat)
    requires Distinct(s, n)
    ensures |s| <= n
    ensures |s| == n <==> forall i :: 0 <= i < n ==> i in s
    decreases n
  {
    if s == [] {
      assert n > 0 ==> 0 !in s;
    } else if n - 1 in s {
      assert s[0] < n;
      var k :| 0 <= k < |s| && s[k] == n - 1;
      DropGreatest(s, n, k, s[..k] + s[k + 1..]);
      DistinctShort(s[..k] + s[k + 1..], n - 1);
    } else {
      assert s[0] < n;
      DistinctShort(s, n - 1);
    }
  }

  lemma ReceiveBooks(n: Tree, i: nat, outer: bool)
    requires n.Node? && i < |n.kids| && Owed(n, i, outer)
    ensures Books(n.(order := n.order + [i], results := n.results[i := ValueOf(n.kids[i])],
                     stop := n.kind == Any,
                     fires := if |n.order| + 1 == |n.kids| then 1 else 0), outer)
  {
    DistinctShort(n.order + [i], |n.kids|);
  }

  lemma {:induction false} StopAllKeeps(kids: seq<Tree>, was: bool, i: nat)
    requires i < |kids| && Good(kids[i], was)
    ensures Good(StopAll(kids)[i], true)
    ensures Fired(StopAll(kids)[i]) == Fired(kids[i]) && ValueOf(StopAll(kids)[i]) == ValueOf(kids[i])
    ensures Untouched(kids[i]) ==> Untouched(StopAll(kids)[i])
    ensures Begun(kids[i]) ==> Begun(StopAll(kids)[i])
  {
    StopStartsNothing(kids[i]);
    StopKeeps(kids[i], was);
  }

  /** Passing the stop request down leaves a node's books as they are. */
  lemma StoppedBooks(n: Tree, was: bool, outer: bool)
    requires n.Node? && Books(n, outer) && n.kind == Any && n.stop
    requires forall j :: 0 <= j < |n.kids| ==> Good(n.kids[j], was)
    ensures Good(n.(kids := StopAll(n.kids)), outer)
  {
    var kids := StopAll(n.kids);
    forall j | 0 <= j < |n.kids|
      ensures Good(kids[j], true) && Fired(kids[j]) == Fired(n.kids[j]) && ValueOf(kids[j]) == ValueOf(n.kids[j])
    {
      StopAllKeeps(n.kids, was, j);
    }
    assert Books(n.(kids := kids), outer);
  }

  lemma {:induction false} ReceiveKeeps(n: Tree, i: nat, outer: bool)
    requires n.Node? && i < |n.kids| && Owed(n, i, outer)
    ensures Good(Receive(n, i, ValueOf(n.kids[i])), outer)
  {
    var n1 := n.(order := n.order + [i], results := n.results[i := ValueOf(n.kids[i])],
                 stop := n.kind == Any,
                 fires := if |n.order| + 1 == |n.kids| then 1 else 0);
    ReceiveBooks(n, i, outer);
    if n.kind == Any {
      StoppedBooks(n1, Passed(n, outer), outer);
    }
  }

  lemma UnfiredKidHoldsBack(n: Tree, i: nat, outer: bool)
    requires n.Node? && i < |n.kids| && Books(n, outer) && !Fired(n.kids[i])
    ensures !Fired(n) && n.fires == 0 && i !in n.order
  {
    DistinctShort(n.order, |n.kids|);
  }

  /** A child moves on, keeping what it has already reported. */
  lemma {:induction false} UpdateKeeps(n: Tree, i: nat, kid: Tree, outer: bool)
    requires n.Node? && n.started && i < |n.kids| && Good(n, outer) && !Fired(n.kids[i])
    requires Good(kid, Passed(n, outer)) && Size(kid) == Size(n.kids[i])
    ensures Good(Update(n, i, kid), outer)
  {
    var n1 := n.(kids := n.kids[i := kid]);
    UnfiredKidHoldsBack(n, i, outer);
    if Fired(kid) {
      assert Owed(n1, i, outer);
      ReceiveKeeps(n1, i, outer);
    } else {
      assert Books(n1, outer);
    }
  }

  /** A child's move does not start or undo another child. */
  lemma {:induction false} UpdateFrame(n: Tree, i: nat, kid: Tree, outer: bool, j: nat)
    requires n.Node? && i < |n.kids| && j < |n.kids| && Size(kid) == Size(n.kids[i])
    requires Good(n, outer) && Good(kid, Passed(n, outer))
    ensures var before := n.kids[i := kid][j];
            && (Untouched(before) ==> Untouched(Update(n, i, kid).kids[j]))
            && (Begun(before) ==> Begun(Update(n, i, kid).kids[j]))
  {
    var kids := n.kids[i := kid];
    StopAllKeeps(kids, Passed(n, outer), j);
  }

  /** One turn of the start loop: child `i`, just started, takes its place. */
  lemma {:induction false} TurnKeeps(n: Tree, i: nat, kid: Tree, outer: bool)
    requires n.Node? && n.started && i < |n.kids| && Good(n, outer)
    requires forall j :: 0 <= j < i ==> Begun(n.kids[j])
    requires forall j :: i <= j < |n.kids| ==> Untouched(n.kids[j])
    requires Good(kid, Passed(n, outer)) && Begun(kid) && Size(kid) == Size(n.kids[i])
    ensures Good(Update(n, i, kid), outer) && Update(n, i, kid).started
    ensures forall j :: 0 <= j < i + 1 ==> Begun(Update(n, i, kid).kids[j])
    ensures forall j :: i + 1 <= j < |n.kids| ==> Untouched(Update(n, i, kid).kids[j])
  {
    UpdateKeeps(n, i, kid, outer);
    forall j | 0 <= j < |n.kids|
      ensures j <= i ==> Begun(Update(n, i, kid).kids[j])
      ensures j > i ==> Untouched(Update(n, i, kid).kids[j])
    {
      UpdateFrame(n, i, kid, outer, j);
    }
  }

  lemma {:induction false} StartKeeps(t: Tree, outer: bool, sync: map<nat, int>)
    requires Untouched(t) && Good(t, outer)
    ensures Good(Start(t, sync), outer) && Begun(Start(t, sync))
    decreases Size(t), 0
  {
    if t.Node? && (t.kids != [] || t.kind == Link) {
      StartFromKeeps(t.(started := true), 0, outer, sync);
    }
  }

  lemma {:induction false} StartFromKeeps(n: Tree, i: nat, outer: bool, sync: map<nat, int>)
    requires n.Node? && n.started && i <= |n.kids| && Good(n, outer)
    requires forall j :: 0 <= j < i ==> Begun(n.kids[j])
    requires forall j :: i <= j < |n.kids| ==> Untouched(n.kids[j])
    ensures Good(StartFrom(n, i, sync), outer) && Begun(StartFrom(n, i, sync))
    decreases Size(n) - 1, |n.kids| - i
  {
    if i < |n.kids| {
      SizeOfKid(n.kids, i);
      var kid := Start(n.kids[i], sync);
      StartKeeps(n.kids[i], Passed(n, outer), sync);
      TurnKeeps(n, i, kid, outer);
      var n1 := Update(n, i, kid);
      StartFromKeeps(n1, i + 1, outer, sync);
    }
  }

  lemma {:induction false} PendingIsUnfired(t: Tree, path: seq<nat>, outer: bool)
    requires Good(t, outer) && Pending(t, path)
    ensures !Fired(t)
    decreases |path|
  {
    if t.Node? {
      PendingIsUnfired(t.kids[path[0]], path[1..], Passed(t, outer));
      DistinctShort(t.order, |t.kids|);
    }
  }

  lemma {:induction false} CompleteKeeps(t: Tree, path: seq<nat>, v: int, outer: bool)
    requires Good(t, outer) && Begun(t) && Pending(t, path)
    ensures Good(Complete(t, path, v), outer) && Begun(Complete(t, path, v))
    decreases |path|
  {
    if t.Node? {
      var i := path[0];
      var kid := Complete(t.kids[i], path[1..], v);
      CompleteKeeps(t.kids[i], path[1..], v, Passed(t, outer));
      PendingIsUnfired(t.kids[i], path[1..], Passed(t, outer));
      UpdateKeeps(t, i, kid, outer);
      forall j | 0 <= j < |t.kids| ensures Begun(Update(t, i, kid).kids[j]) {
        UpdateFrame(t, i, kid, outer, j);
      }
    }
  }

  // ----- history -----

  /** Everything reported in `t` is still reported in `t'`, in the same order. */
  ghost predicate Grew(t: Tree, t': Tree)
    decreases t
  {
    match t
    case Leaf(id, stopped, begun, done) =>
      t'.Leaf? && t'.id == id && (stopped ==> t'.stopped) && (begun ==> t'.begun) && (done.Some? ==> t'.done == done)
    case Node(kind, kids, order, results, stop, started, fires) =>
      && t'.Node? && t'.kind == kind && |t'.kids| == |kids|
      && order <= t'.order && (forall i :: i in results ==> i in t'.results && t'.results[i] == results[i])
      && (stop ==> t'.stop) && (started ==> t'.started) && fires <= t'.fires
      && forall i :: 0 <= i < |kids| ==> Grew(kids[i], t'.kids[i])
  }

  lemma {:induction false} GrewRefl(t: Tree)
    ensures Grew(t, t)
    decreases t
  {
    if t.Node? {
      forall i | 0 <= i < |t.kids| ensures Grew(t.kids[i], t.kids[i]) {
        GrewRefl(t.kids[i]);
      }
    }
  }

  lemma {:induction false} GrewTrans(a: Tree, b: Tree, c: Tree)
    requires Grew(a, b) && Grew(b, c)
    ensures Grew(a, c)
    decreases a
  {
    if a.Node? {
      forall i | 0 <= i < |a.kids| ensures Grew(a.kids[i], c.kids[i]) {
        GrewTrans(a.kids[i], b.kids[i], c.kids[i]);
      }
    }
  }

  lemma {:induction false} StopGrows(t: Tree)
    ensures Grew(t, Stop(t))
    decreases t
  {
    if t.Node? {
      forall i | 0 <= i < |t.kids| ensures Grew(t.kids[i], Stop(t).kids[i]) {
        StopGrows(t.kids[i]);
      }
    }
  }

  lemma {:induction false} UpdateGrows(n: Tree, i: nat, kid: Tree)
    requires n.Node? && i < |n.kids| && Size(kid) == Size(n.kids[i]) && i !in n.results && Grew(n.kids[i], kid)
    ensures Grew(n, Update(n, i, kid))
  {
    var r := Update(n, i, kid);
    forall j | 0 <= j < |n.kids| ensures Grew(n.kids[j], r.kids[j]) {
      var was := n.kids[i := kid][j];
      GrewRefl(n.kids[j]);
      assert Grew(n.kids[j], was);
      StopGrows(was);
      GrewTrans(n.kids[j], was, Stop(was));
    }
  }

  lemma {:induction false} StartGrows(t: Tree, outer: bool, sync: map<nat, int>)
    requires Untouched(t) && Good(t, outer)
    ensures Grew(t, Start(t, sync))
    decreases Size(t), 0
  {
    if t.Node? {
      var n := t.(started := true);
      GrewRefl(t);
      assert Grew(t, n);
      if t.kids != [] || t.kind == Link {
        StartFromGrows(n, 0, outer, sync);
        GrewTrans(t, n, Start(t, sync));
      }
    }
  }

  lemma {:induction false} StartFromGrows(n: Tree, i: nat, outer: bool, sync: map<nat, int>)
    requires n.Node? && n.started && i <= |n.kids| && Good(n, outer)
    requires forall j :: 0 <= j < i ==> Begun(n.kids[j])
    requires forall j :: i <= j < |n.kids| ==> Untouched(n.kids[j])
    ensures Grew(n, StartFrom(n, i, sync))
    decreases Size(n) - 1, |n.kids| - i
  {
    if i == |n.kids| {
      GrewRefl(n);
    } else {
      SizeOfKid(n.kids, i);
      var kid := Start(n.kids[i], sync);
      StartKeeps(n.kids[i], Passed(n, outer), sync);
      TurnKeeps(n, i, kid, outer);
      var n1 := Update(n, i, kid);
      StartGrows(n.kids[i], Passed(n, outer), sync);
      UpdateGrows(n, i, kid);
      StartFromGrows(n1, i + 1, outer, sync);
      GrewTrans(n, n1, StartFrom(n, i, sync));
    }
  }

  lemma {:induction false} CompleteGrows(t: Tree, path: seq<nat>, v: int, outer: bool)
    requires Good(t, outer) && Pending(t, path)
    ensures Grew(t, Complete(t, path, v))
    decreases |path|
  {
    if t.Node? {
      var i := path[0];
      CompleteGrows(t.kids[i], path[1..], v, Passed(t, outer));
      PendingIsUnfired(t.kids[i], path[1..], Passed(t, outer));
      UpdateGrows(t, i, Complete(t.kids[i], path[1..], v));
    }
  }

  // ----- runs -----

  /** A leaf completes, or the token of the whole tree is stopped. */
  datatype Event = Finish(path: seq<nat>, v: int) | StopRequest

  predicate Possible(t: Tree, e: Event) {
    e.Finish? ==> Pending(t, e.path)
  }

  function Next(t: Tree, e: Event): Tree
    requires Possible(t, e)
  {
    match e
    case Finish(path, v) => Complete(t, path, v)
    case StopRequest => Stop(t)
  }

  predicate Runs(t: Tree, events: seq<Event>, t': Tree)
    decreases |events|
  {
    if events == [] then t == t'
    else Possible(t, events[0]) && Runs(Next(t, events[0]), events[1..], t')
  }

  /** The stop state of the tree's own token after `events`. */
  predicate StoppedBy(outer: bool, events: seq<Event>) {
    outer || StopRequest in events
  }

  lemma {:induction false} RunKeeps(t: Tree, outer: bool, events: seq<Event>, t': Tree)
    requires Good(t, outer) && Begun(t) && Runs(t, events, t')
    ensures Good(t', StoppedBy(outer, events)) && Begun(t') && Grew(t, t')
    decreases |events|
  {
    if events == [] {
      GrewRefl(t);
    } else {
      var t1 := Next(t, events[0]);
      match events[0] {
        case Finish(path, v) =>
          CompleteKeeps(t, path, v, outer);
          CompleteGrows(t, path, v, outer);
        case StopRequest =>
          StopStartsNothing(t);
          StopKeeps(t, outer);
          StopGrows(t);
      }
      var outer1 := outer || events[0] == StopRequest;
      RunKeeps(t1, outer1, events[1..], t');
      assert events == [events[0]] + events[1..];
      assert StoppedBy(outer1, events[1..]) == StoppedBy(outer, events);
      GrewTrans(t, t1, t');
    }
  }

  // ----- main results -----

  /** Every node below has called its receiver exactly once, with `order` a
      permutation of its children and every result at its own index. */
  ghost predicate Settled(t: Tree)
    decreases t
  {
    match t
    case Leaf(_, _, _, done) => done.Some?
    case Node(kind, kids, order, results, stop, _, fires) =>
      && fires == 1 && Distinct(order, |kids|) && |order| == |kids|
      && (forall i :: 0 <= i < |kids| ==> i in order && i in results && results[i] == ValueOf(kids[i]))
      && (kind == Any && kids != [] ==> stop && ValueOf(t) == First(order[0], ValueOf(kids[order[0]])))
      && forall i :: 0 <= i < |kids| ==> Settled(kids[i])
  }

  ghost predicate LeavesDone(t: Tree)
    decreases t
  {
    match t
    case Leaf(_, _, _, done) => done.Some?
    case Node(_, kids, _, _, _, _, _) => forall i :: 0 <= i < |kids| ==> LeavesDone(kids[i])
  }

  ghost predicate NoEmptyLink(t: Tree)
    decreases t
  {
    !EmptyLink(t) && (t.Node? ==> forall i :: 0 <= i < |t.kids| ==> NoEmptyLink(t.kids[i]))
  }

  lemma {:induction false} DoneIsSettled(t: Tree, outer: bool)
    requires Good(t, outer) && Begun(t)
    ensures Fired(t) <==> LeavesDone(t) && NoEmptyLink(t)
    ensures Fired(t) ==> Settled(t)
    decreases t
  {
    if t.Node? {
      forall i | 0 <= i < |t.kids|
        ensures Fired(t.kids[i]) <==> LeavesDone(t.kids[i]) && NoEmptyLink(t.kids[i])
        ensures Fired(t.kids[i]) ==> Settled(t.kids[i])
      {
        DoneIsSettled(t.kids[i], Passed(t, outer));
      }
      DistinctShort(t.order, |t.kids|);
    }
  }

  /** For every tree, every choice of leaves that complete inside start(), every
      later order of completions and stop requests: the receiver has been called
      iff all leaves are done and no link is empty, and then every node has
      called its receiver exactly once with its books complete. */
  lemma {:induction false} EveryNodeFiresOnce(t: Tree, outer: bool, sync: map<nat, int>, events: seq<Event>, t': Tree)
    requires Untouched(t) && Good(t, outer) && Runs(Start(t, sync), events, t')
    ensures Good(t', StoppedBy(outer, events))
    ensures Fired(t') <==> LeavesDone(t') && NoEmptyLink(t)
    ensures Fired(t') ==> Settled(t')
  {
    StartKeeps(t, outer, sync);
    StartGrows(t, outer, sync);
    RunKeeps(Start(t, sync), outer, events, t');
    GrewTrans(t, Start(t, sync), t');
    GrewKeepsLinks(t, t');
    DoneIsSettled(t', StoppedBy(outer, events));
  }

  lemma {:induction false} GrewKeepsLinks(t: Tree, t': Tree)
    requires Grew(t, t')
    ensures NoEmptyLink(t) <==> NoEmptyLink(t')
    decreases t
  {
    if t.Node? {
      forall i | 0 <= i < |t.kids| ensures NoEmptyLink(t.kids[i]) <==> NoEmptyLink(t'.kids[i]) {
        GrewKeepsLinks(t.kids[i], t'.kids[i]);
      }
    }
  }

  /** The failing case on its own: a link of no operations never calls its receiver, whatever
      happens afterwards, although there is nothing left for it to wait for. */
  lemma {:induction false} EmptyLinkNeverFires(sync: map<nat, int>, events: seq<Event>, t': Tree)
    requires Runs(Start(Node(Link, [], [], map[], false, false, 0), sync), events, t')
    ensures LeavesDone(t') && t'.Node? && t'.fires == 0
  {
    var t := Node(Link, [], [], map[], false, false, 0);
    EveryNodeFiresOnce(t, false, sync, events, t');
    StartGrows(t, false, sync);
    RunKeeps(Start(t, sync), false, events, t');
    assert Books(t', StoppedBy(false, events));
  }

  // ----- completion order -----

  /** There is a node at `path`. */
  predicate HasNode(t: Tree, path: seq<nat>)
    decreases |path|
  {
    t.Node? && (path != [] ==> path[0] < |t.kids| && HasNode(t.kids[path[0]], path[1..]))
  }

  function NodeAt(t: Tree, path: seq<nat>): (n: Tree)
    requires HasNode(t, path)
    ensures n.Node?
    decreases |path|
  {
    if path == [] then t else NodeAt(t.kids[path[0]], path[1..])
  }

  lemma {:induction false} NodeGrew(t: Tree, t': Tree, path: seq<nat>)
    requires Grew(t, t') && HasNode(t, path)
    ensures HasNode(t', path) && Grew(NodeAt(t, path), NodeAt(t', path))
    decreases |path|
  {
    if path != [] {
      NodeGrew(t.kids[path[0]], t'.kids[path[0]], path[1..]);
    }
  }

  lemma {:induction false} NodeBooks(t: Tree, outer: bool, path: seq<nat>) returns (passed: bool)
    requires Good(t, outer) && HasNode(t, path)
    ensures Books(NodeAt(t, path), passed)
    decreases |path|
  {
    if path == [] {
      passed := outer;
    } else {
      passed := NodeBooks(t.kids[path[0]], Passed(t, outer), path[1..]);
    }
  }

  /** Every node lists its children in the order they completed: one that had
      completed at some moment comes before one that had not. */
  lemma {:induction false} EarlierComesFirst(t: Tree, outer: bool, events: seq<Event>, t': Tree,
                                             path: seq<nat>, i: nat, j: nat)
    requires Good(t, outer) && Begun(t) && Runs(t, events, t') && HasNode(t, path)
    requires var kids := NodeAt(t, path).kids; i < |kids| && j < |kids| && Fired(kids[i]) && !Fired(kids[j])
    ensures HasNode(t', path)
    ensures var order, order' := NodeAt(t, path).order, NodeAt(t', path).order;
            && order <= order'
            && (exists a :: 0 <= a < |order| && order'[a] == i)
            && (forall b :: 0 <= b < |order'| && order'[b] == j ==> b >= |order|)
  {
    RunKeeps(t, outer, events, t');
    NodeGrew(t, t', path);
    var passed := NodeBooks(t, outer, path);
    PrefixSplits(NodeAt(t, path).order, NodeAt(t', path).order, i, j);
  }

  predicate Ascending(s: seq<nat>) {
    forall i, j :: 0 <= i < j < |s| ==> s[i] < s[j]
  }

  /** Every node lists its children by ascending index. */
  predicate InStartOrder(t: Tree)
    decreases t
  {
    t.Node? ==> Ascending(t.order) && forall i :: 0 <= i < |t.kids| ==> InStartOrder(t.kids[i])
  }

  lemma {:induction false} StopKeepsOrder(t: Tree)
    requires InStartOrder(t)
    ensures InStartOrder(Stop(t))
    decreases t
  {
    if t.Node? {
      forall i | 0 <= i < |t.kids| ensures InStartOrder(Stop(t).kids[i]) {
        StopKeepsOrder(t.kids[i]);
      }
    }
  }

  lemma {:induction false} UntouchedIsInOrder(t: Tree)
    requires Untouched(t)
    ensures InStartOrder(t)
    decreases t
  {
    if t.Node? {
      forall i | 0 <= i < |t.kids| ensures InStartOrder(t.kids[i]) {
        UntouchedIsInOrder(t.kids[i]);
      }
    }
  }

  /** Children before `i` have been started and reported in order; the others wait. */
  predicate StartedUpTo(n: Tree, i: nat)
    requires n.Node?
  {
    && Ascending(n.order) && (forall k :: 0 <= k < |n.order| ==> n.order[k] < i)
    && (forall j :: 0 <= j < |n.kids| ==> InStartOrder(n.kids[j]))
    && (forall j :: i <= j < |n.kids| ==> Untouched(n.kids[j]))
  }

  lemma {:induction false} TurnKeepsOrder(n: Tree, i: nat, kid: Tree)
    requires n.Node? && i < |n.kids| && StartedUpTo(n, i) && InStartOrder(kid) && Size(kid) == Size(n.kids[i])
    ensures StartedUpTo(Update(n, i, kid), i + 1)
  {
    var r, kids := Update(n, i, kid), n.kids[i := kid];
    forall j | 0 <= j < |n.kids|
      ensures InStartOrder(r.kids[j]) && (j > i ==> Untouched(r.kids[j]))
    {
      StopKeepsOrder(kids[j]);
      StopStartsNothing(kids[j]);
    }
  }

  /** Children that complete inside start() do so in the order they are started, in every node. */
  lemma {:induction false} StartIsInOrder(t: Tree, sync: map<nat, int>)
    requires Untouched(t)
    ensures InStartOrder(Start(t, sync))
    decreases Size(t), 0
  {
    UntouchedIsInOrder(t);
    if t.Node? && (t.kids != [] || t.kind == Link) {
      StartFromIsInOrder(t.(started := true), 0, sync);
    }
  }

  lemma {:induction false} StartFromIsInOrder(n: Tree, i: nat, sync: map<nat, int>)
    requires n.Node? && i <= |n.kids| && StartedUpTo(n, i)
    ensures InStartOrder(StartFrom(n, i, sync))
    decreases Size(n) - 1, |n.kids| - i
  {
    if i < |n.kids| {
      SizeOfKid(n.kids, i);
      var kid := Start(n.kids[i], sync);
      StartIsInOrder(n.kids[i], sync);
      TurnKeepsOrder(n, i, kid);
      StartFromIsInOrder(Update(n, i, kid), i + 1, sync);
    }
  }

  lemma PrefixSplits(order: seq<nat>, order': seq<nat>, i: nat, j: nat)
    requires order <= order' && i in order && j !in order
    ensures exists a :: 0 <= a < |order| && order'[a] == i
    ensures forall b :: 0 <= b < |order'| && order'[b] == j ==> b >= |order|
  {
    var a :| 0 <= a < |order| && order[a] == i;
    assert order'[a] == i;
    assert order == order'[..|order|];
  }

  /** A running leaf has been asked to stop iff some any-node above it has seen a
      completion, or the tree's own token was stopped. */
  ghost predicate AnyAboveReported(t: Tree, path: seq<nat>)
    decreases |path|
  {
    && path != [] && t.Node? && path[0] < |t.kids|
    && ((t.kind == Any && t.order != []) || AnyAboveReported(t.kids[path[0]], path[1..]))
  }

  function LeafAt(t: Tree, path: seq<nat>): Tree
    requires Pending(t, path)
    decreases |path|
  {
    if t.Leaf? then t else LeafAt(t.kids[path[0]], path[1..])
  }

  lemma {:induction false} StopsReachExactly(t: Tree, outer: bool, path: seq<nat>)
    requires Good(t, outer) && Pending(t, path)
    ensures LeafAt(t, path).Leaf?
    ensures LeafAt(t, path).stopped <==> outer || AnyAboveReported(t, path)
    decreases |path|
  {
    if t.Node? {
      StopsReachExactly(t.kids[path[0]], Passed(t, outer), path[1..]);
    }
  }

  // ----- receive_ in place -----

  /** The arrays and counters of one parallel operation state. */
  class ParallelState {
    const kind: Kind
    const order: array<nat>
    const results: array<Option<Value>>
    var completed: nat
    var stop: bool

    /** The state holds the books of node `n`. */
    ghost predicate Holds(n: Tree)
      reads this, order, results
    {
      && n.Node? && n.kind == kind && n.stop == stop
      && order.Length == results.Length == |n.kids| && completed <= order.Length
      && order[..completed] == n.order
      && (forall i :: 0 <= i < results.Length ==> (results[i].Some? <==> i in n.results))
      && (forall i :: 0 <= i < results.Length && i in n.results ==> results[i].value == n.results[i])
    }

    constructor (kind: Kind, size: nat)
      ensures this.kind == kind && order.Length == results.Length == size
      ensures forall n: Tree ::
                (n.Node? && n.kind == kind && |n.kids| == size && n.order == [] && n.results == map[] && !n.stop)
                ==> Holds(n)
    {
      this.kind := kind;
      order := new nat[size];
      results := new Option<Value>[size](_ => None);
      completed := 0;
      stop := false;
    }

    /** Child `i` reports: the books follow `Receive`, and the receiver is to be
        called exactly when the last child is in. */
    method ReceiveResult(ghost n: Tree, i: nat, v: Value) returns (fire: bool)
      requires Holds(n) && i < |n.kids| && i !in n.order && Distinct(n.order, |n.kids|)
      modifies this, order, results
      ensures Holds(Receive(n, i, v))
      ensures fire <==> Receive(n, i, v).fires == n.fires + 1
    {
      DistinctShort(n.order, |n.kids|);
      if kind == Any {
        stop := true;
      }
      var no := completed;
      completed := completed + 1;
      order[no] := i;
      results[i] := Some(v);
      assert order[..completed] == n.order + [i];
      fire := no + 1 == order.Length;
    }
  }
}
