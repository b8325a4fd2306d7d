// What the receivers of a tree of operations are handed: every leaf reports what it
// completed with, and every node passes on the values of its children.
module CombinatorResults {
  import opened Combinators
  import opened Common

  // ----- values -----

  /** `v` is what the completed tree stands for: a leaf's result; the index and the value of the first
      child in; or the values of all children, each at its own index and nothing else. */
  ghost predicate Means(t: Tree, v: Value)
    decreases t
  {
    match t
    case Leaf(_, _, _, done) => done.Some? && v == Res(done.value)
    case Node(kind, kids, order, _, _, _, _) =>
      if kind == Any && kids != [] then
        order != [] && order[0] < |kids| && v.First? && v.index == order[0] && Means(kids[order[0]], v.result)
      else
        v.Tuple? && forall i: nat :: (i in v.results <==> i < |kids|) && (i < |kids| ==> Means(kids[i], v.results[i]))
  }

  lemma {:induction false} FiredMeans(t: Tree, outer: bool)
    requires Good(t, outer) && Begun(t) && Fired(t)
    ensures Means(t, ValueOf(t))
    decreases t
  {
    if t.Node? {
      DistinctShort(t.order, |t.kids|);
      forall i | 0 <= i < |t.kids| ensures Means(t.kids[i], ValueOf(t.kids[i])) {
        FiredMeans(t.kids[i], Passed(t, outer));
      }
    }
  }

  // ----- leaves -----

  /** There is a leaf at `path`. */
  predicate HasLeaf(t: Tree, path: seq<nat>)
    decreases |path|
  {
    match t
    case Leaf(_, _, _, _) => path == []
    case Node(_, kids, _, _, _, _, _) => path != [] && path[0] < |kids| && HasLeaf(kids[path[0]], path[1..])
  }

  function LeafOf(t: Tree, path: seq<nat>): (leaf: Tree)
    requires HasLeaf(t, path)
    ensures leaf.Leaf?
    decreases |path|
  {
    if t.Leaf? then t else LeafOf(t.kids[path[0]], path[1..])
  }

  lemma {:induction false} StopKeepsLeaf(t: Tree, path: seq<nat>)
    requires HasLeaf(t, path)
    ensures HasLeaf(Stop(t), path)
    ensures LeafOf(Stop(t), path).id == LeafOf(t, path).id && LeafOf(Stop(t), path).done == LeafOf(t, path).done
    decreases |path|
  {
    if t.Node? { StopKeepsLeaf(t.kids[path[0]], path[1..]); }
  }

  /** A child's move leaves the leaves of the other children alone and shows its own. */
  lemma {:induction false} UpdateLeaf(n: Tree, i: nat, kid: Tree, path: seq<nat>)
    requires n.Node? && i < |n.kids| && Size(kid) == Size(n.kids[i])
    requires path != [] && path[0] < |n.kids| && HasLeaf(n.kids[i := kid][path[0]], path[1..])
    ensures HasLeaf(Update(n, i, kid), path)
    ensures LeafOf(Update(n, i, kid), path).id == LeafOf(n.kids[i := kid][path[0]], path[1..]).id
    ensures LeafOf(Update(n, i, kid), path).done == LeafOf(n.kids[i := kid][path[0]], path[1..]).done
  {
    StopKeepsLeaf(n.kids[i := kid][path[0]], path[1..]);
  }

  // ----- later completions -----

  lemma {:induction false} CompleteLeaf(t: Tree, at: seq<nat>, v: int, path: seq<nat>)
    requires Pending(t, at) && HasLeaf(t, path)
    ensures HasLeaf(Complete(t, at, v), path)
    ensures LeafOf(Complete(t, at, v), path).id == LeafOf(t, path).id
    ensures LeafOf(Complete(t, at, v), path).done == if at == path then Some(v) else LeafOf(t, path).done
    decreases |path|
  {
    if t.Node? {
      var i := at[0];
      var kid := Complete(t.kids[i], at[1..], v);
      if path[0] == i { CompleteLeaf(t.kids[i], at[1..], v, path[1..]); }
      UpdateLeaf(t, i, kid, path);
      assert at == path <==> at[0] == path[0] && at[1..] == path[1..] by {
        if at[0] == path[0] && at[1..] == path[1..] { assert at == [at[0]] + at[1..] == path; }
      }
    }
  }

  lemma {:induction false} PendingLeaf(t: Tree, path: seq<nat>)
    requires Pending(t, path)
    ensures HasLeaf(t, path) && LeafOf(t, path).done.None?
    decreases |path|
  {
    if t.Node? { PendingLeaf(t.kids[path[0]], path[1..]); }
  }

  lemma {:induction false} NextLeaf(t: Tree, e: Event, path: seq<nat>)
    requires Possible(t, e) && HasLeaf(t, path)
    ensures HasLeaf(Next(t, e), path) && LeafOf(Next(t, e), path).id == LeafOf(t, path).id
    ensures LeafOf(Next(t, e), path).done == if e.Finish? && e.path == path then Some(e.v) else LeafOf(t, path).done
  {
    match e
    case Finish(at, v) => CompleteLeaf(t, at, v, path);
    case StopRequest => StopKeepsLeaf(t, path);
  }

  /** Over a run, a leaf that has completed keeps its result, and another one gets exactly the result of
      its own completion. */
  lemma {:induction false} RunLeaf(t: Tree, events: seq<Event>, t': Tree, path: seq<nat>)
    requires Runs(t, events, t') && HasLeaf(t, path)
    ensures HasLeaf(t', path) && LeafOf(t', path).id == LeafOf(t, path).id
    ensures forall v :: Finish(path, v) in events ==> LeafOf(t, path).done.None? && LeafOf(t', path).done == Some(v)
    ensures (forall v :: Finish(path, v) !in events) ==> LeafOf(t', path).done == LeafOf(t, path).done
    ensures LeafOf(t, path).done.Some? ==> LeafOf(t', path).done == LeafOf(t, path).done
    decreases |events|
  {
    if events != [] {
      var e := events[0];
      NextLeaf(t, e, path);
      RunLeaf(Next(t, e), events[1..], t', path);
      assert events == [e] + events[1..];
      if e.Finish? && e.path == path { PendingLeaf(t, path); }
    }
  }

  // ----- completions inside start -----

  /** Whether the tree, started with its token stopped or not, completes before start returns. */
  predicate Completes(t: Tree, stopped: bool, sync: map<nat, int>)
    decreases Size(t), 0
  {
    match t
    case Leaf(id, _, _, _) => stopped || id in sync
    case Node(kind, kids, _, _, _, _, _) =>
      !EmptyLink(t) && forall i :: 0 <= i < |kids| ==>
        (SizeOfKid(kids, i); Completes(kids[i], TokenOf(kind, kids, i, stopped, sync), sync))
  }

  /** Whether child `i` finds its token stopped when it is started: the node's own token is, or the node
      is an any-node and an earlier child has completed inside its start. */
  predicate TokenOf(kind: Kind, kids: seq<Tree>, i: nat, stopped: bool, sync: map<nat, int>)
    requires i <= |kids|
    decreases Sizes(kids), i
  {
    if kind != Any || i == 0 then stopped else
    SizeOfKid(kids, i - 1);
    var before := TokenOf(kind, kids, i - 1, stopped, sync);
    before || Completes(kids[i - 1], before, sync)
  }

  /** The token of the leaf at `path` when that leaf is started. */
  predicate TokenAt(t: Tree, path: seq<nat>, stopped: bool, sync: map<nat, int>)
    requires HasLeaf(t, path)
    decreases |path|
  {
    if t.Leaf? then stopped
    else TokenAt(t.kids[path[0]], path[1..], TokenOf(t.kind, t.kids, path[0], stopped, sync), sync)
  }

  /** The same operations in the same nodes. */
  ghost predicate Alike(a: Tree, b: Tree)
    decreases a
  {
    match a
    case Leaf(id, _, _, _) => b.Leaf? && b.id == id
    case Node(kind, kids, _, _, _, _, _) =>
      b.Node? && b.kind == kind && |b.kids| == |kids| && forall i :: 0 <= i < |kids| ==> Alike(kids[i], b.kids[i])
  }

  lemma {:induction false} GrewAlike(a: Tree, b: Tree)
    requires Grew(a, b)
    ensures Alike(a, b)
    decreases a
  {
    if a.Node? {
      forall i | 0 <= i < |a.kids| ensures Alike(a.kids[i], b.kids[i]) { GrewAlike(a.kids[i], b.kids[i]); }
    }
  }

  lemma {:induction false} AlikeTrans(a: Tree, b: Tree, c: Tree)
    requires Alike(a, b) && Alike(b, c)
    ensures Alike(a, c)
    decreases a
  {
    if a.Node? {
      forall i | 0 <= i < |a.kids| ensures Alike(a.kids[i], c.kids[i]) {
        AlikeTrans(a.kids[i], b.kids[i], c.kids[i]);
      }
    }
  }

  lemma {:induction false} AlikeCompletes(a: Tree, b: Tree, stopped: bool, sync: map<nat, int>)
    requires Alike(a, b)
    ensures Completes(a, stopped, sync) <==> Completes(b, stopped, sync)
    decreases Size(a), 0
  {
    if a.Node? {
      forall i | 0 <= i < |a.kids|
        ensures Completes(a.kids[i], TokenOf(a.kind, a.kids, i, stopped, sync), sync)
                <==> Completes(b.kids[i], TokenOf(b.kind, b.kids, i, stopped, sync), sync)
      {
        SizeOfKid(a.kids, i);
        AlikeTokens(a.kind, a.kids, b.kids, i, stopped, sync);
        AlikeCompletes(a.kids[i], b.kids[i], TokenOf(a.kind, a.kids, i, stopped, sync), sync);
      }
    }
  }

  lemma {:induction false} AlikeTokens(kind: Kind, a: seq<Tree>, b: seq<Tree>, i: nat, stopped: bool,
                                       sync: map<nat, int>)
    requires i <= |a| == |b| && forall j :: 0 <= j < |a| ==> Alike(a[j], b[j])
    ensures TokenOf(kind, a, i, stopped, sync) <==> TokenOf(kind, b, i, stopped, sync)
    decreases Sizes(a), i
  {
    if kind == Any && i > 0 {
      SizeOfKid(a, i - 1);
      AlikeTokens(kind, a, b, i - 1, stopped, sync);
      AlikeCompletes(a[i - 1], b[i - 1], TokenOf(kind, a, i - 1, stopped, sync), sync);
    }
  }

  lemma {:induction false} AlikeTokenAt(a: Tree, b: Tree, path: seq<nat>, stopped: bool, sync: map<nat, int>)
    requires Alike(a, b) && HasLeaf(a, path)
    ensures HasLeaf(b, path) && LeafOf(b, path).id == LeafOf(a, path).id
    ensures TokenAt(a, path, stopped, sync) <==> TokenAt(b, path, stopped, sync)
    decreases |path|
  {
    if a.Node? {
      var i := path[0];
      AlikeTokens(a.kind, a.kids, b.kids, i, stopped, sync);
      AlikeTokenAt(a.kids[i], b.kids[i], path[1..], TokenOf(a.kind, a.kids, i, stopped, sync), sync);
    }
  }

  lemma {:induction false} UpdateAlike(t: Tree, n: Tree, i: nat, kid: Tree)
    requires n.Node? && Alike(t, n) && i < |n.kids| && Size(kid) == Size(n.kids[i]) && Alike(n.kids[i], kid)
    ensures Alike(t, Update(n, i, kid))
  {
    var r := Update(n, i, kid);
    forall j | 0 <= j < |t.kids| ensures Alike(t.kids[j], r.kids[j]) {
      var was := n.kids[i := kid][j];
      if j == i { AlikeTrans(t.kids[i], n.kids[i], kid); }
      StopGrows(was);
      GrewAlike(was, Stop(was));
      AlikeTrans(t.kids[j], was, Stop(was));
    }
  }

  /** The start of node `t` has come to child `i`: the token passed on and the children that have
      completed are the ones the definitions above say. */
  ghost predicate Reached(t: Tree, n: Tree, i: nat, outer: bool, sync: map<nat, int>) {
    && t.Node? && n.Node? && i <= |n.kids| && Alike(t, n)
    && n.started && Good(n, outer)
    && (forall j :: 0 <= j < i ==> Begun(n.kids[j]))
    && (forall j :: i <= j < |n.kids| ==> Untouched(n.kids[j]))
    && (Passed(n, outer) <==> TokenOf(t.kind, t.kids, i, outer, sync))
    && forall j :: 0 <= j < i ==>
         (Fired(n.kids[j]) <==> Completes(t.kids[j], TokenOf(t.kind, t.kids, j, outer, sync), sync))
  }

  lemma {:induction false} UpdateFired(n: Tree, i: nat, kid: Tree, j: nat)
    requires n.Node? && i < |n.kids| && j < |n.kids| && Size(kid) == Size(n.kids[i])
    ensures Fired(Update(n, i, kid).kids[j]) == Fired(n.kids[i := kid][j])
  {
    StopStartsNothing(n.kids[i := kid][j]);
  }

  lemma {:induction false} UpdatePassed(n: Tree, i: nat, kid: Tree, outer: bool)
    requires n.Node? && i < |n.kids| && Size(kid) == Size(n.kids[i])
    ensures Passed(Update(n, i, kid), outer) == (Passed(n, outer) || (n.kind == Any && Fired(kid)))
  {
  }

  lemma {:induction false} StartAlike(t: Tree, outer: bool, sync: map<nat, int>)
    requires Untouched(t) && Good(t, outer)
    ensures Alike(t, Start(t, sync))
  {
    StartGrows(t, outer, sync);
    GrewAlike(t, Start(t, sync));
  }

  lemma {:induction false} NextFired(t: Tree, n: Tree, i: nat, outer: bool, sync: map<nat, int>, kid: Tree, j: nat)
    requires Reached(t, n, i, outer, sync) && i < |n.kids| && Size(kid) == Size(n.kids[i]) && j <= i
    requires Fired(kid) <==> Completes(n.kids[i], Passed(n, outer), sync)
    ensures Fired(Update(n, i, kid).kids[j])
            <==> Completes(t.kids[j], TokenOf(t.kind, t.kids, j, outer, sync), sync)
  {
    UpdateFired(n, i, kid, j);
    if j == i { AlikeCompletes(t.kids[i], n.kids[i], Passed(n, outer), sync); }
  }

  lemma {:induction false} NextToken(t: Tree, n: Tree, i: nat, outer: bool, sync: map<nat, int>, kid: Tree)
    requires Reached(t, n, i, outer, sync) && i < |n.kids| && Size(kid) == Size(n.kids[i])
    requires Fired(kid) <==> Completes(n.kids[i], Passed(n, outer), sync)
    ensures Passed(Update(n, i, kid), outer) <==> TokenOf(t.kind, t.kids, i + 1, outer, sync)
  {
    UpdatePassed(n, i, kid, outer);
    AlikeCompletes(t.kids[i], n.kids[i], Passed(n, outer), sync);
  }

  lemma {:induction false} ReachNext(t: Tree, n: Tree, i: nat, outer: bool, sync: map<nat, int>)
    requires Reached(t, n, i, outer, sync) && i < |n.kids|
    requires Fired(Start(n.kids[i], sync)) <==> Completes(n.kids[i], Passed(n, outer), sync)
    ensures Reached(t, Update(n, i, Start(n.kids[i], sync)), i + 1, outer, sync)
  {
    var kid := Start(n.kids[i], sync);
    var n1 := Update(n, i, kid);
    assert Alike(t, n1) by {
      StartAlike(n.kids[i], Passed(n, outer), sync);
      UpdateAlike(t, n, i, kid);
    }
    assert n1.started && Good(n1, outer) && (forall j :: 0 <= j < i + 1 ==> Begun(n1.kids[j]))
        && forall j :: i + 1 <= j < |n1.kids| ==> Untouched(n1.kids[j]) by {
      StartKeeps(n.kids[i], Passed(n, outer), sync);
      TurnKeeps(n, i, kid, outer);
    }
    NextToken(t, n, i, outer, sync, kid);
    forall j | 0 <= j < i + 1
      ensures Fired(n1.kids[j]) <==> Completes(t.kids[j], TokenOf(t.kind, t.kids, j, outer, sync), sync)
    {
      NextFired(t, n, i, outer, sync, kid, j);
    }
  }

  /** A tree has completed when start returns exactly if the definition says so. */
  lemma {:induction false} StartCompletes(t: Tree, outer: bool, sync: map<nat, int>)
    requires Untouched(t) && Good(t, outer)
    ensures Fired(Start(t, sync)) <==> Completes(t, outer, sync)
    decreases Size(t), 0
  {
    if t.Node? && (t.kids != [] || t.kind == Link) {
      var n := t.(started := true);
      GrewRefl(t);
      GrewAlike(t, n);
      StartFromReaches(t, n, 0, outer, sync);
      ReachedAll(t, Start(t, sync), outer, sync);
    }
  }

  lemma {:induction false} ReachedAll(t: Tree, n: Tree, outer: bool, sync: map<nat, int>)
    requires t.Node? && n.Node? && Reached(t, n, |n.kids|, outer, sync)
    ensures Fired(n) <==> Completes(t, outer, sync)
  {
    DistinctShort(n.order, |n.kids|);
  }

  lemma {:induction false} StartFromReaches(t: Tree, n: Tree, i: nat, outer: bool, sync: map<nat, int>)
    requires Reached(t, n, i, outer, sync) && Size(n) == Size(t)
    ensures Reached(t, StartFrom(n, i, sync), |n.kids|, outer, sync)
    decreases Size(t) - 1, |n.kids| - i
  {
    if i < |n.kids| {
      SizeOfKid(n.kids, i);
      StartCompletes(n.kids[i], Passed(n, outer), sync);
      ReachNext(t, n, i, outer, sync);
      StartFromReaches(t, Update(n, i, Start(n.kids[i], sync)), i + 1, outer, sync);
    }
  }

  /** What a leaf completes with inside its own start. */
  function AtOnce(leaf: Tree, stopped: bool, sync: map<nat, int>): Option<int>
    requires leaf.Leaf?
  {
    if stopped then Some(ECANCELED) else if leaf.id in sync then Some(sync[leaf.id]) else None
  }

  /** After start every leaf has exactly the result it completed with inside its own start, if it did. */
  lemma {:induction false} StartLeaf(t: Tree, outer: bool, sync: map<nat, int>, path: seq<nat>)
    requires Untouched(t) && Good(t, outer) && HasLeaf(t, path)
    ensures HasLeaf(Start(t, sync), path) && LeafOf(Start(t, sync), path).id == LeafOf(t, path).id
    ensures LeafOf(Start(t, sync), path).done == AtOnce(LeafOf(t, path), TokenAt(t, path, outer, sync), sync)
    decreases Size(t), 0
  {
    if t.Node? {
      var n := t.(started := true);
      GrewRefl(t);
      GrewAlike(t, n);
      StartFromLeaf(t, n, 0, outer, sync, path);
      StartAlike(t, outer, sync);
      AlikeTokenAt(t, Start(t, sync), path, outer, sync);
    }
  }

  /** The leaf has its result as soon as its child of `t` has been started. */
  ghost predicate LeafReached(t: Tree, n: Tree, i: nat, outer: bool, sync: map<nat, int>, path: seq<nat>) {
    && t.Node? && HasLeaf(t, path) && HasLeaf(n, path) && LeafOf(n, path).id == LeafOf(t, path).id
    && (path[0] < i ==> LeafOf(n, path).done == AtOnce(LeafOf(t, path), TokenAt(t, path, outer, sync), sync))
  }

  lemma {:induction false} TurnLeaf(t: Tree, n: Tree, i: nat, outer: bool, sync: map<nat, int>, path: seq<nat>)
    requires Reached(t, n, i, outer, sync) && i < |n.kids| && LeafReached(t, n, i, outer, sync, path)
    requires path[0] == i ==>
               && HasLeaf(Start(n.kids[i], sync), path[1..])
               && LeafOf(Start(n.kids[i], sync), path[1..]).id == LeafOf(n, path).id
               && LeafOf(Start(n.kids[i], sync), path[1..]).done ==
                  AtOnce(LeafOf(n, path), TokenAt(n.kids[i], path[1..], Passed(n, outer), sync), sync)
    ensures LeafReached(t, Update(n, i, Start(n.kids[i], sync)), i + 1, outer, sync, path)
  {
    if path[0] == i { AlikeTokenAt(t.kids[i], n.kids[i], path[1..], Passed(n, outer), sync); }
    UpdateLeaf(n, i, Start(n.kids[i], sync), path);
  }

  lemma {:induction false} StartFromLeaf(t: Tree, n: Tree, i: nat, outer: bool, sync: map<nat, int>, path: seq<nat>)
    requires Reached(t, n, i, outer, sync) && Size(n) == Size(t) && LeafReached(t, n, i, outer, sync, path)
    ensures LeafReached(t, StartFrom(n, i, sync), |n.kids|, outer, sync, path)
    decreases Size(t) - 1, |n.kids| - i
  {
    if i < |n.kids| {
      SizeOfKid(n.kids, i);
      if path[0] == i { StartLeaf(n.kids[i], Passed(n, outer), sync, path[1..]); }
      TurnLeaf(t, n, i, outer, sync, path);
      StartCompletes(n.kids[i], Passed(n, outer), sync);
      ReachNext(t, n, i, outer, sync);
      StartFromLeaf(t, Update(n, i, Start(n.kids[i], sync)), i + 1, outer, sync, path);
    }
  }

  // ----- main results -----

  /**
   For every tree and every run: a leaf whose token was stopped when it was started has completed with
   ECANCELED; any other one with the result it had at once, or with the result of its one completion
   event; and without any of these it has not completed.
   */
  lemma {:induction false} EveryLeafReportsItsOwn(t: Tree, outer: bool, sync: map<nat, int>, events: seq<Event>,
                                                  t': Tree, path: seq<nat>)
    requires Untouched(t) && Good(t, outer) && Runs(Start(t, sync), events, t') && HasLeaf(t, path)
    ensures HasLeaf(t', path)
    ensures var id, done, stopped := LeafOf(t, path).id, LeafOf(t', path).done, TokenAt(t, path, outer, sync);
            && (stopped ==> done == Some(ECANCELED))
            && (!stopped && id in sync ==> done == Some(sync[id]))
            && (forall v :: Finish(path, v) in events ==> !stopped && id !in sync && done == Some(v))
            && (!stopped && id !in sync && (forall v :: Finish(path, v) !in events) ==> done == None)
  {
    StartLeaf(t, outer, sync, path);
    RunLeaf(Start(t, sync), events, t', path);
  }

  /** Once its receiver has been called, a tree has handed over what it stands for. */
  lemma {:induction false} EveryValueIsHandedOn(t: Tree, outer: bool, sync: map<nat, int>, events: seq<Event>, t': Tree)
    requires Untouched(t) && Good(t, outer) && Runs(Start(t, sync), events, t') && Fired(t')
    ensures Means(t', ValueOf(t'))
  {
    StartKeeps(t, outer, sync);
    RunKeeps(Start(t, sync), outer, events, t');
    FiredMeans(t', StoppedBy(outer, events));
  }
}
