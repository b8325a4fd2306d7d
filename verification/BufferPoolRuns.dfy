/**
The buffer pool together with the kernel, over whole runs. The kernel consumes the ring in
order and posts completions, the pool handles completions in that order but any time later,
and owned buffers come back in any order. Assumed of the kernel: in-order consumption, and
no completion reports more bytes than the ring holds from the kernel's cursor on.
 */
module BufferPoolRuns {
  import opened Bits
  import opened BufferPool

  /** A posted completion, with the kernel's cursor before it consumed. */
  datatype Cqe = Cqe(res: nat, bid: nat, at: Cursor)

  /**
   Shared slots and tail position, the kernel's cursor, completions not yet handled, the
   pool's mirror of the cursor, and the pieces that user code holds.
   */
  datatype Sys = Sys(m: Mode, slots: seq<nat>, tl: nat, kernel: Cursor, cqes: seq<Cqe>,
                     mirror: Cursor, held: seq<Piece>)

  datatype Step = Consume(res: nat) | Handle | GiveBack(k: nat)

  function Init(m: Mode, n: nat): Sys {
    Sys(m, seq(n, i => i), n, Cursor(0, m.size), [], Cursor(0, m.size), [])
  }

  predicate Shaped(s: Sys) {
    && OkMode(s.m) && |s.slots| >= 1
    && OkCursor(s.m, s.kernel) && OkCursor(s.m, s.mirror)
    && s.mirror.head <= s.kernel.head <= s.tl <= s.mirror.head + |s.slots|
  }

  predicate Enabled(s: Sys, x: Step)
    requires Shaped(s)
  {
    match x
    case Consume(res) => 0 < res <= Room(s.m, s.kernel.left, s.tl - s.kernel.head)
    case Handle => s.cqes != []
    case GiveBack(k) => k < |s.held| && s.held[k].owned
  }

  function Ids(s: Sys): seq<nat>
    requires Shaped(s)
  {
    Window(s.slots, s.mirror.head, s.tl)
  }

  function Next(s: Sys, x: Step): Sys
    requires Shaped(s) && Enabled(s, x)
  {
    match x
    case Consume(res) =>
      s.(cqes := s.cqes + [Cqe(res, s.slots[Slot(s.kernel.head, |s.slots|)], s.kernel)],
         kernel := KernelAfter(s.m, s.kernel, res))
    case Handle =>
      var r := Take(s.m, Ids(s), s.mirror.left, s.cqes[0].res);
      s.(cqes := s.cqes[1..], mirror := Cursor(s.mirror.head + r.used, r.left), held := s.held + r.pieces)
    case GiveBack(k) =>
      s.(slots := s.slots[Slot(s.tl, |s.slots|) := IdOf(s.m, s.held[k].data)], tl := s.tl + 1,
         held := s.held[..k] + s.held[k + 1..])
  }

  // ---- the invariant ----

  /** The completions lead from one cursor to the other, each starting where the one before ended. */
  predicate Chain(m: Mode, cs: seq<Cqe>, a: Cursor, b: Cursor)
    requires OkMode(m)
  {
    if cs == [] then a == b
    else cs[0].at == a && cs[0].res > 0 && Chain(m, cs[1..], KernelAfter(m, a, cs[0].res), b)
  }

  /** Each completion fits the ring, and the slot that it consumed first still holds the id it reported. */
  ghost predicate Backed(s: Sys)
    requires Shaped(s)
  {
    forall i :: 0 <= i < |s.cqes| ==> BackedAt(s, s.cqes[i])
  }

  predicate BackedAt(s: Sys, c: Cqe)
    requires Shaped(s)
  {
    && s.mirror.head <= c.at.head < s.tl && OkCursor(s.m, c.at)
    && c.res <= Room(s.m, c.at.left, s.tl - c.at.head)
    && c.bid == s.slots[Slot(c.at.head, |s.slots|)]
  }

  /** Every buffer id is in the ring window or owned by one held piece, exactly once in all. */
  ghost predicate Conserved(s: Sys)
    requires Shaped(s)
  {
    multiset(Ids(s)) + multiset(OwnedIds(s.m, s.held)) == multiset(seq(|s.slots|, i => i))
  }

  ghost predicate Inv(s: Sys) {
    Shaped(s) && Chain(s.m, s.cqes, s.mirror, s.kernel) && Backed(s) && Conserved(s)
  }

  // ---- kernel step ----

  lemma RoomGrows(m: Mode, left: nat, n: nat, n': nat)
    requires OkMode(m) && n <= n'
    ensures Room(m, left, n) <= Room(m, left, n')
  {
    if n < n' { MulGap(m.size, n, n'); }
  }

  /** Consuming what is there keeps the cursor sound and inside the ring. */
  lemma KernelStays(m: Mode, c: Cursor, res: nat, n: nat)
    requires OkMode(m) && OkCursor(m, c) && 0 < res <= Room(m, c.left, n)
    ensures n > 0 && OkCursor(m, KernelAfter(m, c, res))
    ensures c.head <= KernelAfter(m, c, res).head <= c.head + n
  {
    RoomStep(m, c.left, n, res);
    var ids := seq(n, _ => 0);
    TakeFollowsKernel(m, ids, c, res);
    DivModIdentity(res + m.size - 1, m.size);
  }

  lemma {:induction false} ChainSnoc(m: Mode, cs: seq<Cqe>, a: Cursor, b: Cursor, c: Cqe)
    requires OkMode(m) && Chain(m, cs, a, b) && c.at == b && c.res > 0
    ensures Chain(m, cs + [c], a, KernelAfter(m, b, c.res))
    decreases |cs|
  {
    if cs != [] {
      assert (cs + [c])[1..] == cs[1..] + [c];
      ChainSnoc(m, cs[1..], KernelAfter(m, a, cs[0].res), b, c);
    } else {
      assert (cs + [c])[1..] == [];
    }
  }

  lemma ConsumeKeeps(s: Sys, res: nat)
    requires Inv(s) && Enabled(s, Consume(res))
    ensures Inv(Next(s, Consume(res)))
  {
    var s' := Next(s, Consume(res));
    KernelStays(s.m, s.kernel, res, s.tl - s.kernel.head);
    ChainSnoc(s.m, s.cqes, s.mirror, s.kernel, s'.cqes[|s.cqes|]);
    forall i | 0 <= i < |s'.cqes| ensures BackedAt(s', s'.cqes[i]) {
      if i < |s.cqes| { assert BackedAt(s, s.cqes[i]); }
    }
  }

  // ---- handling a completion ----

  /**
   When the pool handles a completion, its private cursor is the kernel's cursor at that
   completion, the id it reads from the shared slot is the id in the completion, and the
   bytes reported are within what the ring holds from there on.
   */
  lemma MirrorAgrees(s: Sys)
    requires Inv(s) && s.cqes != []
    ensures s.mirror == s.cqes[0].at && s.slots[Slot(s.mirror.head, |s.slots|)] == s.cqes[0].bid
    ensures 0 < s.cqes[0].res <= Room(s.m, s.mirror.left, s.tl - s.mirror.head)
    ensures Next(s, Handle).mirror == KernelAfter(s.m, s.cqes[0].at, s.cqes[0].res)
  {
    assert BackedAt(s, s.cqes[0]);
    TakeFollowsKernel(s.m, Ids(s), s.mirror, s.cqes[0].res);
  }

  lemma {:induction false} ChainHeads(m: Mode, cs: seq<Cqe>, a: Cursor, b: Cursor, i: nat)
    requires OkMode(m) && Chain(m, cs, a, b) && i < |cs|
    requires forall j :: 0 <= j < |cs| ==> OkCursor(m, cs[j].at)
    ensures a.head <= cs[i].at.head
    decreases |cs|
  {
    if i > 0 {
      assert OkCursor(m, cs[0].at) && cs[1..][i - 1] == cs[i];
      KernelForward(m, a, cs[0].res);
      ChainHeads(m, cs[1..], KernelAfter(m, a, cs[0].res), b, i - 1);
    }
  }

  lemma KernelForward(m: Mode, c: Cursor, res: nat)
    requires OkMode(m) && OkCursor(m, c)
    ensures c.head <= KernelAfter(m, c, res).head
  {
    DivModIdentity(res + m.size - 1, m.size);
    DivModIdentity(m.size - c.left + res, m.size);
  }

  lemma {:induction false} ChainForward(m: Mode, cs: seq<Cqe>, a: Cursor, b: Cursor)
    requires OkMode(m) && Chain(m, cs, a, b)
    requires forall j :: 0 <= j < |cs| ==> OkCursor(m, cs[j].at)
    ensures a.head <= b.head
    decreases |cs|
  {
    if cs != [] {
      assert OkCursor(m, cs[0].at);
      KernelForward(m, a, cs[0].res);
      ChainForward(m, cs[1..], KernelAfter(m, a, cs[0].res), b);
    }
  }

  lemma {:induction false} OwnedIdsConcat(m: Mode, a: seq<Piece>, b: seq<Piece>)
    requires OkMode(m)
    ensures OwnedIds(m, a + b) == OwnedIds(m, a) + OwnedIds(m, b)
    decreases |a|
  {
    if a == [] {
      assert a + b == b;
    } else {
      assert (a + b)[1..] == a[1..] + b;
      OwnedIdsConcat(m, a[1..], b);
    }
  }

  lemma WindowSplit(slots: seq<nat>, hd: nat, mid: nat, tl: nat)
    requires |slots| >= 1 && hd <= mid <= tl
    ensures Window(slots, hd, tl) == Window(slots, hd, tl)[..mid - hd] + Window(slots, mid, tl)
  {
  }

  lemma HandleShape(s: Sys)
    requires Inv(s) && s.cqes != []
    ensures Shaped(Next(s, Handle)) && Chain(s.m, s.cqes[1..], Next(s, Handle).mirror, s.kernel)
  {
    MirrorAgrees(s);
    var c := s.cqes[0];
    KernelStays(s.m, s.mirror, c.res, s.tl - s.mirror.head);
    forall j | 0 <= j < |s.cqes[1..]| ensures OkCursor(s.m, s.cqes[1..][j].at) { assert BackedAt(s, s.cqes[j + 1]); }
    ChainForward(s.m, s.cqes[1..], Next(s, Handle).mirror, s.kernel);
  }

  lemma HandleConserves(s: Sys)
    requires Inv(s) && s.cqes != [] && Shaped(Next(s, Handle))
    ensures Conserved(Next(s, Handle))
  {
    var s' := Next(s, Handle);
    var r := Take(s.m, Ids(s), s.mirror.left, s.cqes[0].res);
    TakeOwnsFinished(s.m, Ids(s), s.mirror.left, s.cqes[0].res);
    WindowSplit(s.slots, s.mirror.head, s'.mirror.head, s.tl);
    OwnedIdsConcat(s.m, s.held, r.pieces);
    assert Ids(s) == OwnedIds(s.m, r.pieces) + Ids(s');
  }

  lemma HandleKeeps(s: Sys)
    requires Inv(s) && s.cqes != []
    ensures Inv(Next(s, Handle))
  {
    var s' := Next(s, Handle);
    HandleShape(s);
    HandleConserves(s);
    forall i | 0 <= i < |s'.cqes| ensures BackedAt(s', s'.cqes[i]) {
      assert BackedAt(s, s.cqes[i + 1]);
      forall j | 0 <= j < |s'.cqes| ensures OkCursor(s.m, s'.cqes[j].at) { assert BackedAt(s, s.cqes[j + 1]); }
      ChainHeads(s.m, s'.cqes, s'.mirror, s'.kernel, i);
    }
  }

  // ---- a buffer comes back ----

  lemma {:induction false} OwnedIdsAt(m: Mode, ps: seq<Piece>, k: nat)
    requires OkMode(m) && k < |ps| && ps[k].owned
    ensures multiset(OwnedIds(m, ps)) == multiset(OwnedIds(m, ps[..k] + ps[k + 1..])) + multiset{IdOf(m, ps[k].data)}
  {
    var id := IdOf(m, ps[k].data);
    assert ps == ps[..k] + ([ps[k]] + ps[k + 1..]);
    OwnedIdsConcat(m, ps[..k], [ps[k]] + ps[k + 1..]);
    OwnedIdsConcat(m, [ps[k]], ps[k + 1..]);
    OwnedIdsConcat(m, ps[..k], ps[k + 1..]);
    assert OwnedIds(m, [ps[k]]) == [id];
  }

  /** While a piece is owned the ring is not full, and the piece's id is one of the pool's. */
  lemma OwnedLeavesRoom(s: Sys, k: nat)
    requires Inv(s) && k < |s.held| && s.held[k].owned
    ensures s.tl < s.mirror.head + |s.slots| && IdOf(s.m, s.held[k].data) < |s.slots|
  {
    var all := seq(|s.slots|, i => i);
    OwnedIdsAt(s.m, s.held, k);
    var id := IdOf(s.m, s.held[k].data);
    assert |multiset(all)| == |Ids(s)| + |OwnedIds(s.m, s.held)|;
    assert |multiset(OwnedIds(s.m, s.held))| >= 1;
    assert id in multiset(all);
    assert id in all;
  }

  lemma GiveBackBacked(s: Sys, k: nat, i: nat)
    requires Inv(s) && Enabled(s, GiveBack(k)) && i < |s.cqes| && Shaped(Next(s, GiveBack(k)))
    ensures BackedAt(Next(s, GiveBack(k)), s.cqes[i])
  {
    var c := s.cqes[i];
    assert BackedAt(s, c);
    OwnedLeavesRoom(s, k);
    SlotsDiffer(c.at.head, s.tl, |s.slots|);
    RoomGrows(s.m, c.at.left, s.tl - c.at.head, s.tl + 1 - c.at.head);
  }

  lemma MoveOne<E>(window: multiset<E>, owned: multiset<E>, rest: multiset<E>, all: multiset<E>, id: E)
    requires window + owned == all && owned == rest + multiset{id}
    ensures (window + multiset{id}) + rest == all
  {
  }

  lemma GiveBackConserves(s: Sys, k: nat)
    requires Inv(s) && Enabled(s, GiveBack(k)) && Shaped(Next(s, GiveBack(k))) && s.tl < s.mirror.head + |s.slots|
    ensures Conserved(Next(s, GiveBack(k)))
  {
    var s', id := Next(s, GiveBack(k)), IdOf(s.m, s.held[k].data);
    WindowAppend(s.slots, s.mirror.head, s.tl, id);
    assert Ids(s') == Ids(s) + [id];
    OwnedIdsAt(s.m, s.held, k);
    MoveOne(multiset(Ids(s)), multiset(OwnedIds(s.m, s.held)), multiset(OwnedIds(s.m, s'.held)),
            multiset(seq(|s.slots|, i => i)), id);
  }

  lemma GiveBackKeeps(s: Sys, k: nat)
    requires Inv(s) && Enabled(s, GiveBack(k))
    ensures Inv(Next(s, GiveBack(k)))
  {
    var s' := Next(s, GiveBack(k));
    OwnedLeavesRoom(s, k);
    assert Shaped(s');
    GiveBackConserves(s, k);
    forall i | 0 <= i < |s'.cqes| ensures BackedAt(s', s'.cqes[i]) { GiveBackBacked(s, k, i); }
  }

  // ---- every run ----

  ghost predicate Runs(s: Sys, steps: seq<Step>, s': Sys)
    decreases |steps|
  {
    if steps == [] then s' == s
    else Shaped(s) && Enabled(s, steps[0]) && Runs(Next(s, steps[0]), steps[1..], s')
  }

  lemma InitInv(m: Mode, n: nat)
    requires OkMode(m) && n >= 1
    ensures Inv(Init(m, n))
  {
    var s := Init(m, n);
    forall i | 0 <= i < n ensures Slot(i, n) == i { DivModUnique(i, n, 0, i); }
    assert Ids(s) == seq(n, i => i);
  }

  lemma StepKeepsInv(s: Sys, x: Step)
    requires Inv(s) && Enabled(s, x)
    ensures Inv(Next(s, x))
  {
    match x
    case Consume(res) => ConsumeKeeps(s, res);
    case Handle => HandleKeeps(s);
    case GiveBack(k) => GiveBackKeeps(s, k);
  }

  lemma {:induction false} RunKeepsInv(s: Sys, steps: seq<Step>, s': Sys)
    requires Inv(s) && Runs(s, steps, s')
    ensures Inv(s')
    decreases |steps|
  {
    if steps != [] {
      StepKeepsInv(s, steps[0]);
      RunKeepsInv(Next(s, steps[0]), steps[1..], s');
    }
  }

  /**
   Main theorem, in plain, bundled and incremental modes. After any run: the pool's cursor
   plus the unhandled completions gives the kernel's cursor; the next completion starts at
   the pool's own cursor with the id the pool will read; and every buffer id is in the ring
   window or with one owner, exactly once.
   */
  lemma {:induction false} PoolMirrorsKernel(m: Mode, n: nat, steps: seq<Step>, s: Sys)
    requires OkMode(m) && n >= 1 && Runs(Init(m, n), steps, s)
    ensures Shaped(s) && s.m == m && |s.slots| == n && Chain(m, s.cqes, s.mirror, s.kernel)
    ensures s.cqes == [] ==> s.mirror == s.kernel
    ensures s.cqes != [] ==> s.cqes[0].at == s.mirror && s.cqes[0].bid == s.slots[Slot(s.mirror.head, n)]
    ensures forall id :: 0 <= id < n ==> multiset(Ids(s))[id] + multiset(OwnedIds(m, s.held))[id] == 1
  {
    InitInv(m, n);
    RunKeepsInv(Init(m, n), steps, s);
    RunKeepsSizes(Init(m, n), steps, s);
    if s.cqes != [] { MirrorAgrees(s); }
    forall id | 0 <= id < n ensures multiset(Ids(s))[id] + multiset(OwnedIds(m, s.held))[id] == 1 {
      IdsOnce(n, id);
    }
  }

  lemma {:induction false} RunKeepsSizes(s: Sys, steps: seq<Step>, s': Sys)
    requires Runs(s, steps, s')
    ensures s'.m == s.m && |s'.slots| == |s.slots|
    decreases |steps|
  {
    if steps != [] { RunKeepsSizes(Next(s, steps[0]), steps[1..], s'); }
  }

  lemma {:induction false} IdsOnce(n: nat, id: nat)
    requires id < n
    ensures multiset(seq(n, i => i))[id] == 1
    decreases n
  {
    var all, less := seq(n, i => i), seq(n - 1, i => i);
    assert all == less + [n - 1];
    if id < n - 1 { IdsOnce(n - 1, id); } else { assert n - 1 !in less; }
  }
}
