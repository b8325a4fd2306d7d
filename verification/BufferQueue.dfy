/**
The provided-buffer queue of provided_buffers.hpp: user code pushes buffers of any length,
the kernel consumes them in order, and handle_finish works out from the byte count of a
completion how many buffers it finished. `buf_lens_` is updated in place, indexed through
16-bit wrapping counters.
 */
module BufferQueue {
  import opened Bits
  import opened BufferPool

  function Sum(lens: seq<nat>): nat {
    if lens == [] then 0 else lens[0] + Sum(lens[1..])
  }

  /** Buffers finished and lengths left after a completion. */
  datatype Used = Used(num: nat, lens: seq<nat>)

  /** The loop of handle_finish over the lengths from the completion's buffer on. */
  function Use(incr: bool, lens: seq<nat>, bytes: int): Used {
    if bytes <= 0 || lens == [] then Used(0, lens)
    else if incr && bytes < lens[0] then Used(0, [lens[0] - bytes] + lens[1..])
    else
      var r := Use(incr, lens[1..], bytes - lens[0]);
      Used(r.num + 1, r.lens)
  }

  lemma {:induction false} SumSplit(lens: seq<nat>, k: nat)
    requires k <= |lens|
    ensures Sum(lens) == Sum(lens[..k]) + Sum(lens[k..])
    decreases k
  {
    if k > 0 {
      SumSplit(lens[1..], k - 1);
      assert lens[..k][1..] == lens[1..][..k - 1] && lens[1..][k - 1..] == lens[k..];
    }
  }

  lemma SumTake(lens: seq<nat>, k: nat)
    requires 0 < k <= |lens|
    ensures Sum(lens[..k]) == lens[0] + Sum(lens[1..][..k - 1])
  {
    assert lens[..k][1..] == lens[1..][..k - 1];
  }

  /** Whole-buffer mode: the finished buffers are the fewest that hold the bytes. */
  lemma {:induction false} UseWholeBuffers(lens: seq<nat>, bytes: nat)
    requires 0 < bytes <= Sum(lens)
    ensures var r := Use(false, lens, bytes);
            0 < r.num <= |lens| && Sum(lens[..r.num - 1]) < bytes <= Sum(lens[..r.num]) && r.lens == lens[r.num..]
    decreases |lens|
  {
    if bytes <= lens[0] {
      SumTake(lens, 1);
    } else {
      UseWholeBuffers(lens[1..], bytes - lens[0]);
      var n := Use(false, lens[1..], bytes - lens[0]).num;
      SumTake(lens, n + 1);
      SumTake(lens, n);
    }
  }

  /** Incremental mode: the finished buffers are filled, and the next one keeps exactly what the bytes left of it. */
  lemma {:induction false} UseIncrementally(lens: seq<nat>, bytes: nat)
    requires 0 < bytes <= Sum(lens)
    ensures var r := Use(true, lens, bytes);
            && r.num <= |lens| && Sum(lens[..r.num]) <= bytes && (0 < r.num ==> Sum(lens[..r.num - 1]) < bytes)
            && if bytes == Sum(lens[..r.num]) then r.lens == lens[r.num..]
               else r.num < |lens| && bytes < Sum(lens[..r.num + 1])
                    && r.lens == [Sum(lens[..r.num + 1]) - bytes] + lens[r.num + 1..]
    decreases |lens|
  {
    if bytes < lens[0] {
      SumTake(lens, 1);
    } else if bytes == lens[0] {
      SumTake(lens, 1);
    } else {
      var rest := lens[1..];
      UseIncrementally(rest, bytes - lens[0]);
      var n := Use(true, rest, bytes - lens[0]).num;
      SumTake(lens, n + 1);
      if n > 0 { SumTake(lens, n); }
      if n < |rest| { SumTake(lens, n + 2); }
    }
  }

  /**
   What the kernel does to the provided buffers for a completion of `bytes`, told by sums alone:
   it finishes `num` of them and leaves `rest`. Whole buffers: the fewest that hold the bytes.
   Incrementally: those that are full, the last of them with one of the bytes, and the next one
   keeps what the bytes left of it.
   */
  predicate Consumed(incr: bool, lens: seq<nat>, bytes: nat, num: nat, rest: seq<nat>) {
    && num <= |lens| && (0 < num ==> Sum(lens[..num - 1]) < bytes)
    && if !incr then 0 < num && bytes <= Sum(lens[..num]) && rest == lens[num..]
       else if bytes == Sum(lens[..num]) then rest == lens[num..]
       else && num < |lens| && Sum(lens[..num]) < bytes < Sum(lens[..num + 1])
            && rest == [Sum(lens[..num + 1]) - bytes] + lens[num + 1..]
  }

  lemma {:induction false} SumGrows(lens: seq<nat>, a: nat, b: nat)
    requires a <= b <= |lens|
    ensures Sum(lens[..a]) <= Sum(lens[..b])
  {
    SumSplit(lens[..b], a);
    assert lens[..b][..a] == lens[..a];
  }

  lemma {:induction false} ConsumedOnce(incr: bool, lens: seq<nat>, bytes: nat,
                                        m: nat, rest: seq<nat>, n: nat, rest': seq<nat>)
    requires Consumed(incr, lens, bytes, m, rest) && Consumed(incr, lens, bytes, n, rest')
    ensures m >= n
  {
    if m < n {
      SumGrows(lens, m, n - 1);
      SumGrows(lens, m + 1, n);
    }
  }

  /** The loop of handle_finish works out exactly what the kernel did. */
  lemma {:induction false} UseIsConsumption(incr: bool, lens: seq<nat>, bytes: nat, num: nat, rest: seq<nat>)
    requires 0 < bytes <= Sum(lens)
    ensures Consumed(incr, lens, bytes, num, rest) <==> Use(incr, lens, bytes) == Used(num, rest)
  {
    var r := Use(incr, lens, bytes);
    if incr { UseIncrementally(lens, bytes); } else { UseWholeBuffers(lens, bytes); }
    assert Consumed(incr, lens, bytes, r.num, r.lens);
    if Consumed(incr, lens, bytes, num, rest) {
      ConsumedOnce(incr, lens, bytes, num, rest, r.num, r.lens);
      ConsumedOnce(incr, lens, bytes, r.num, r.lens, num, rest);
    }
  }

  /** Without bundles a completion stays inside the oldest buffer and finishes at most that one. */
  lemma {:induction false} UseSingle(incr: bool, lens: seq<nat>, bytes: nat)
    requires lens != [] && 0 < bytes <= lens[0]
    ensures var r := Use(incr, lens, bytes); r.num == if !incr || bytes == lens[0] then 1 else 0
  {
    if !(incr && bytes < lens[0]) { assert Use(incr, lens[1..], bytes - lens[0]).num == 0; }
  }

  lemma {:induction false} UseLeavesBytes(lens: seq<nat>, bytes: nat)
    requires bytes <= Sum(lens)
    ensures Sum(Use(true, lens, bytes).lens) == Sum(lens) - bytes
    decreases |lens|
  {
    if bytes > 0 {
      if bytes < lens[0] {
        assert ([lens[0] - bytes] + lens[1..])[1..] == lens[1..];
      } else {
        UseLeavesBytes(lens[1..], bytes - lens[0]);
      }
    }
  }

  /** Buffers pushed later do not change what a completion that fits means. */
  lemma {:induction false} UseAppend(incr: bool, lens: seq<nat>, bytes: int, x: nat)
    requires bytes <= Sum(lens)
    ensures var r := Use(incr, lens, bytes); Use(incr, lens + [x], bytes) == Used(r.num, r.lens + [x])
    decreases |lens|
  {
    if bytes > 0 {
      assert (lens + [x])[1..] == lens[1..] + [x];
      if incr && bytes < lens[0] {
        assert [lens[0] - bytes] + (lens[1..] + [x]) == [lens[0] - bytes] + lens[1..] + [x];
      } else {
        UseAppend(incr, lens[1..], bytes - lens[0], x);
      }
    }
  }

  lemma {:induction false} UseLength(incr: bool, lens: seq<nat>, bytes: int)
    ensures var r := Use(incr, lens, bytes); r.num + |r.lens| == |lens|
    decreases |lens|
  {
    if bytes > 0 && lens != [] && !(incr && bytes < lens[0]) { UseLength(incr, lens[1..], bytes - lens[0]); }
  }

  // ---- the class ----

  /** Changing the slot at hd changes the front of the window only. */
  lemma WindowSet(slots: seq<nat>, hd: nat, tl: nat, v: nat)
    requires |slots| >= 1 && hd < tl <= hd + |slots|
    ensures Window(slots[Slot(hd, |slots|) := v], hd, tl) == [v] + Window(slots, hd + 1, tl)
    ensures Window(slots[Slot(hd, |slots|) := v], hd + 1, tl) == Window(slots, hd + 1, tl)
  {
    var n := |slots|;
    var w, w' := Window(slots, hd + 1, tl), Window(slots[Slot(hd, n) := v], hd + 1, tl);
    forall i | 0 <= i < |w| ensures w'[i] == w[i] { SlotsDiffer(hd, hd + 1 + i, n); }
    assert w' == w;
    WindowHead(slots[Slot(hd, n) := v], hd, tl);
  }

  datatype PushResult = Pushed(bid: nat) | CapacityExceeded

  class Queue {
    const incr: bool
    const lens: array<nat>
    var size: nat
    var tail: nat          // 16 bits, shared with the kernel
    ghost var tl: nat      // the position that tail stands for: the number of pushes

    ghost predicate Valid()
      reads this, lens
    {
      && IsPow2(lens.Length) && lens.Length <= U16 / 2
      && size <= lens.Length && size <= tl && tail == tl % U16
    }

    /** Remaining lengths of the buffers in the queue, oldest first. */
    ghost function Live(): seq<nat>
      requires lens.Length >= 1 && size <= tl
      reads this, lens
    {
      Window(lens[..], tl - size, tl)
    }

    constructor (capacity: nat, incr: bool)
      requires capacity <= U16 / 2
      ensures Valid() && this.incr == incr && lens.Length == BitCeil(capacity) && fresh(lens)
      ensures tl == 0 && Live() == []
    {
      BitCeilIsLeast(capacity);
      Half16();
      this.incr := incr;
      lens := new nat[BitCeil(capacity)](_ => 0);
      size, tail, tl := 0, 0, 0;
    }

    /** Ids are handed out in order, wrapping at the capacity; a full queue refuses. */
    method Push(len: nat) returns (r: PushResult)
      requires Valid()
      modifies this, lens
      ensures Valid()
      ensures old(size) == lens.Length ==> r == CapacityExceeded && tl == old(tl) && Live() == old(Live())
      ensures old(size) < lens.Length ==>
                r == Pushed(Slot(old(tl), lens.Length)) && tl == old(tl) + 1 && Live() == old(Live()) + [len]
    {
      if size >= lens.Length {
        return CapacityExceeded;
      }
      MaskedSlot(tl, lens.Length);
      WindowAppend(lens[..], tl - size, tl, len);
      var bid := And(tail, lens.Length - 1);
      lens[bid] := len;
      assert lens[..] == old(lens[..])[bid := len];
      Inc16(tl);
      tail := (tail + 1) % U16;
      size := size + 1;
      tl := tl + 1;
      return Pushed(bid);
    }

    /** One turn of the loop, on the buffer at position `at`. */
    method UseOne(idx: nat, bytes: nat, ghost at: nat) returns (left: int, finished: bool)
      requires Valid() && bytes > 0 && tl - size <= at < tl && Slot(idx, lens.Length) == Slot(at, lens.Length)
      modifies lens
      ensures Valid()
      ensures var w := old(Window(lens[..], at, tl));
              if incr && bytes < w[0] then
                left == 0 && !finished && Window(lens[..], at, tl) == [w[0] - bytes] + w[1..]
              else
                left == bytes - w[0] && finished && Window(lens[..], at + 1, tl) == w[1..]
    {
      ghost var n := lens.Length;
      AndMaskPow2(idx, n);
      WindowHead(lens[..], at, tl);
      var bid := And(idx, lens.Length - 1);
      var used := if incr && bytes < lens[bid] then bytes else lens[bid];
      ghost var rest := if incr then lens[bid] - used else 0;
      WindowSet(lens[..], at, tl, rest);
      lens[bid] := if incr then lens[bid] - used else 0;
      assert lens[..] == old(lens[..])[Slot(at, n) := rest];
      left := bytes - used;
      finished := lens[bid] == 0;
    }

    /** The loop of handle_finish. */
    method UseBytes(bid: nat, res: nat) returns (num: nat)
      requires Valid() && bid == Slot(tl - size, lens.Length) && res <= Sum(Live())
      modifies lens
      ensures Valid() && num <= size
      ensures Used(num, Window(lens[..], tl - size + num, tl)) == Use(incr, old(Live()), res)
    {
      ghost var live, first := Live(), tl - size;
      ghost var rest := live;
      DivModUnique(bid, lens.Length, 0, bid);
      num := 0;
      var idx: nat := bid;
      var bytes: int := res;
      while bytes > 0
        invariant num <= size && Valid() && Window(lens[..], first + num, tl) == rest
        invariant bytes > 0 ==> Slot(idx, lens.Length) == Slot(first + num, lens.Length) && bytes <= Sum(rest)
        invariant Use(incr, live, res) == Count(num, Use(incr, rest, bytes))
        decreases |rest|, bytes
      {
        NextIndex(idx, first + num, lens.Length);
        UseStep(incr, rest, bytes, num);
        var left, finished := UseOne(idx, bytes, first + num);
        rest := if incr && bytes < rest[0] then [rest[0] - bytes] + rest[1..] else rest[1..];
        idx := Next16(idx);
        bytes := left;
        if finished { num := num + 1; }
      }
    }

    /**
     handle_finish. The completion names the oldest buffer and reports no more bytes than
     the queue holds; then the loop ends, and the queue loses exactly the finished buffers.
     */
    method HandleFinish(hasBuffer: bool, bid: nat, res: nat) returns (num: nat)
      requires Valid() && (hasBuffer ==> bid == Slot(tl - size, lens.Length) && 0 < res <= Sum(Live()))
      modifies this`size, lens
      ensures Valid() && (!hasBuffer ==> num == 0 && Live() == old(Live()))
      ensures hasBuffer ==> Used(num, Live()) == Use(incr, old(Live()), res)
      ensures num <= old(size) && size == old(size) - num
    {
      num := 0;
      if hasBuffer {
        num := UseBytes(bid, res);
        size := size - num;
      }
    }
  }

  function Count(num: nat, r: Used): Used {
    Used(num + r.num, r.lens)
  }

  lemma UseStep(incr: bool, rest: seq<nat>, bytes: nat, num: nat)
    requires 0 < bytes <= Sum(rest)
    ensures rest != []
    ensures Count(num, Use(incr, rest, bytes)) ==
              if incr && bytes < rest[0] then Used(num, [rest[0] - bytes] + rest[1..])
              else Count(num + 1, Use(incr, rest[1..], bytes - rest[0]))
    ensures bytes - rest[0] <= Sum(rest[1..])
  {
  }

  /** 16-bit increment. */
  function Next16(x: nat): nat {
    (x + 1) % U16
  }

  /** The 16-bit index moves to the next slot even when it wraps. */
  lemma NextIndex(idx: nat, pos: nat, n: nat)
    requires IsPow2(n) && n <= U16 && Slot(idx, n) == Slot(pos, n)
    ensures Slot(Next16(idx), n) == Slot(pos + 1, n)
  {
    Pow16And64();
    WrapThenMask(idx + 1, 16, n);
    ModSucc(idx, n);
    ModSucc(pos, n);
  }

  // ---- whole runs with the kernel ----

  /** A completion posted by the kernel and not yet handled. */
  datatype Cqe = Cqe(bid: nat, res: nat)

  /**
   Capacity and mode; the queue's own view (buffers finished, lengths left); completions in
   flight; the kernel's view, which is ahead of the queue's by those completions; pushes so far.
   */
  datatype Sys = Sys(cap: nat, incr: bool, done: nat, live: seq<nat>, cqes: seq<Cqe>,
                     kdone: nat, klive: seq<nat>, pushes: nat)

  /** `Consume` is the kernel's step and says nothing of how the queue will follow it. */
  datatype Step = DoPush(len: nat) | Consume(res: nat, num: nat, rest: seq<nat>) | Handle

  predicate Enabled(s: Sys, x: Step) {
    && s.cap >= 1
    && match x
       case DoPush(_) => |s.live| < s.cap
       case Consume(res, num, rest) => 0 < res <= Sum(s.klive) && Consumed(s.incr, s.klive, res, num, rest)
       case Handle => s.cqes != []
  }

  function Next(s: Sys, x: Step): Sys
    requires Enabled(s, x)
  {
    match x
    case DoPush(len) => s.(live := s.live + [len], klive := s.klive + [len], pushes := s.pushes + 1)
    case Consume(res, num, rest) =>
      s.(cqes := s.cqes + [Cqe(Slot(s.kdone, s.cap), res)], kdone := s.kdone + num, klive := rest)
    case Handle =>
      var r := Use(s.incr, s.live, s.cqes[0].res);
      s.(cqes := s.cqes[1..], done := s.done + r.num, live := r.lens)
  }

  /** Handling the completions one after the other leads from the queue's view to the kernel's. */
  predicate Chain(cap: nat, incr: bool, cs: seq<Cqe>, done: nat, live: seq<nat>, kdone: nat, klive: seq<nat>)
    requires cap >= 1
    decreases |cs|
  {
    if cs == [] then done == kdone && live == klive
    else
      && cs[0].bid == Slot(done, cap) && 0 < cs[0].res <= Sum(live)
      && var r := Use(incr, live, cs[0].res); Chain(cap, incr, cs[1..], done + r.num, r.lens, kdone, klive)
  }

  ghost predicate Inv(s: Sys) {
    && s.cap >= 1 && |s.live| <= s.cap && s.pushes == s.done + |s.live| && s.pushes == s.kdone + |s.klive|
    && Chain(s.cap, s.incr, s.cqes, s.done, s.live, s.kdone, s.klive)
  }

  lemma {:induction false} ChainSnoc(cap: nat, incr: bool, cs: seq<Cqe>, done: nat, live: seq<nat>,
                                     kdone: nat, klive: seq<nat>, res: nat)
    requires cap >= 1 && Chain(cap, incr, cs, done, live, kdone, klive) && 0 < res <= Sum(klive)
    ensures var r := Use(incr, klive, res);
            Chain(cap, incr, cs + [Cqe(Slot(kdone, cap), res)], done, live, kdone + r.num, r.lens)
    decreases |cs|
  {
    var c := Cqe(Slot(kdone, cap), res);
    if cs == [] {
      assert (cs + [c])[1..] == [];
    } else {
      assert (cs + [c])[1..] == cs[1..] + [c];
      var r := Use(incr, live, cs[0].res);
      ChainSnoc(cap, incr, cs[1..], done + r.num, r.lens, kdone, klive, res);
    }
  }

  lemma {:induction false} ChainPush(cap: nat, incr: bool, cs: seq<Cqe>, done: nat, live: seq<nat>,
                                     kdone: nat, klive: seq<nat>, x: nat)
    requires cap >= 1 && Chain(cap, incr, cs, done, live, kdone, klive)
    ensures Chain(cap, incr, cs, done, live + [x], kdone, klive + [x])
    decreases |cs|
  {
    if cs != [] {
      UseAppend(incr, live, cs[0].res, x);
      SumSplit(live + [x], |live|);
      assert (live + [x])[..|live|] == live;
      var r := Use(incr, live, cs[0].res);
      ChainPush(cap, incr, cs[1..], done + r.num, r.lens, kdone, klive, x);
    }
  }

  lemma StepKeepsInv(s: Sys, x: Step)
    requires Inv(s) && Enabled(s, x)
    ensures Inv(Next(s, x))
  {
    match x
    case DoPush(len) => ChainPush(s.cap, s.incr, s.cqes, s.done, s.live, s.kdone, s.klive, len);
    case Consume(res, num, rest) =>
      UseIsConsumption(s.incr, s.klive, res, num, rest);
      UseLength(s.incr, s.klive, res);
      ChainSnoc(s.cap, s.incr, s.cqes, s.done, s.live, s.kdone, s.klive, res);
    case Handle => UseLength(s.incr, s.live, s.cqes[0].res);
  }

  ghost predicate Runs(s: Sys, steps: seq<Step>, s': Sys)
    decreases |steps|
  {
    if steps == [] then s' == s
    else Enabled(s, steps[0]) && Runs(Next(s, steps[0]), steps[1..], s')
  }

  lemma {:induction false} RunKeepsInv(s: Sys, steps: seq<Step>, s': Sys)
    requires Inv(s) && Runs(s, steps, s')
    ensures Inv(s') && s'.cap == s.cap
    decreases |steps|
  {
    if steps != [] {
      StepKeepsInv(s, steps[0]);
      RunKeepsInv(Next(s, steps[0]), steps[1..], s');
    }
  }

  // ---- what was pushed is what is there ----

  /** The lengths of the buffers pushed, in order. */
  function PushedLengths(steps: seq<Step>): seq<nat> {
    if steps == [] then [] else (if steps[0].DoPush? then [steps[0].len] else []) + PushedLengths(steps[1..])
  }

  /** The bytes the kernel has filled. */
  function Filled(steps: seq<Step>): nat {
    if steps == [] then 0 else (if steps[0].Consume? then steps[0].res else 0) + Filled(steps[1..])
  }

  /** Of the buffers pushed the first `done` are finished; the others are `live` as they were pushed,
      except that the first of them may have been filled in part. */
  predicate Remains(incr: bool, pushed: seq<nat>, done: nat, live: seq<nat>) {
    && done + |live| == |pushed|
    && (forall i :: 0 <= i < |live| ==> live[i] <= pushed[done + i])
    && (forall i :: 0 <= i < |live| && (i > 0 || !incr) ==> live[i] == pushed[done + i])
  }

  lemma ConsumedRemains(incr: bool, pushed: seq<nat>, done: nat, live: seq<nat>, bytes: nat, num: nat, rest: seq<nat>)
    requires Remains(incr, pushed, done, live) && Consumed(incr, live, bytes, num, rest)
    ensures Remains(incr, pushed, done + num, rest)
  {
    if num < |live| {
      SumSplit(live[..num + 1], num);
      assert live[..num + 1][..num] == live[..num] && live[..num + 1][num..] == [live[num]];
      assert Sum([live[num]]) == live[num] by { assert [live[num]][1..] == []; }
    }
  }

  lemma PushRemains(incr: bool, pushed: seq<nat>, done: nat, live: seq<nat>, x: nat)
    requires Remains(incr, pushed, done, live)
    ensures Remains(incr, pushed + [x], done, live + [x])
  {
  }

  /** Both views of the queue are remains of what was pushed. */
  predicate BothRemain(s: Sys, pushed: seq<nat>) {
    Remains(s.incr, pushed, s.done, s.live) && Remains(s.incr, pushed, s.kdone, s.klive)
  }

  lemma StepRemains(s: Sys, x: Step, pushed: seq<nat>)
    requires Inv(s) && Enabled(s, x) && BothRemain(s, pushed)
    ensures BothRemain(Next(s, x), pushed + if x.DoPush? then [x.len] else [])
  {
    assert pushed + [] == pushed;
    match x
    case DoPush(len) =>
      PushRemains(s.incr, pushed, s.done, s.live, len);
      PushRemains(s.incr, pushed, s.kdone, s.klive, len);
    case Consume(res, num, rest) => ConsumedRemains(s.incr, pushed, s.kdone, s.klive, res, num, rest);
    case Handle =>
      var r := Use(s.incr, s.live, s.cqes[0].res);
      UseIsConsumption(s.incr, s.live, s.cqes[0].res, r.num, r.lens);
      ConsumedRemains(s.incr, pushed, s.done, s.live, s.cqes[0].res, r.num, r.lens);
  }

  lemma {:induction false} RunRemains(s: Sys, steps: seq<Step>, s': Sys, pushed: seq<nat>)
    requires Inv(s) && Runs(s, steps, s') && BothRemain(s, pushed)
    ensures s'.incr == s.incr && BothRemain(s', pushed + PushedLengths(steps))
    decreases |steps|
  {
    if steps == [] {
      assert pushed + PushedLengths(steps) == pushed;
    } else {
      PushedFirst(pushed, steps);
      StepKeepsInv(s, steps[0]);
      StepRemains(s, steps[0], pushed);
      RunRemains(Next(s, steps[0]), steps[1..], s', pushed + if steps[0].DoPush? then [steps[0].len] else []);
    }
  }

  lemma {:induction false} PushedFirst(pushed: seq<nat>, steps: seq<Step>)
    requires steps != []
    ensures pushed + PushedLengths(steps) ==
            (pushed + if steps[0].DoPush? then [steps[0].len] else []) + PushedLengths(steps[1..])
  {
  }

  lemma {:induction false} SumConcat(a: seq<nat>, b: seq<nat>)
    ensures Sum(a + b) == Sum(a) + Sum(b)
  {
    SumSplit(a + b, |a|);
    assert (a + b)[..|a|] == a && (a + b)[|a|..] == b;
  }

  /** Incrementally, every byte pushed is filled or still to be filled. */
  lemma {:induction false} RunFills(s: Sys, steps: seq<Step>, s': Sys)
    requires s.incr && Runs(s, steps, s')
    ensures Sum(s.klive) + Sum(PushedLengths(steps)) == Filled(steps) + Sum(s'.klive)
    decreases |steps|
  {
    if steps != [] {
      var x := steps[0];
      var latest := if x.DoPush? then [x.len] else [];
      RunFills(Next(s, x), steps[1..], s');
      SumConcat(latest, PushedLengths(steps[1..]));
      SumConcat(s.klive, latest);
      assert s.klive + [] == s.klive;
      if x.Consume? {
        UseIsConsumption(true, s.klive, x.res, x.num, x.rest);
        UseLeavesBytes(s.klive, x.res);
      }
    }
  }

  /** Over every run the queue's view and the kernel's are what is left of the buffers pushed; in
      incremental mode the bytes filled and those left add up to the bytes pushed. */
  lemma {:induction false} NothingPushedIsLost(cap: nat, incr: bool, steps: seq<Step>, s: Sys)
    requires cap >= 1 && Runs(Sys(cap, incr, 0, [], [], 0, [], 0), steps, s)
    ensures s.incr == incr && Remains(incr, PushedLengths(steps), s.done, s.live)
    ensures Remains(incr, PushedLengths(steps), s.kdone, s.klive)
    ensures incr ==> Sum(PushedLengths(steps)) == Filled(steps) + Sum(s.klive)
  {
    RunRemains(Sys(cap, incr, 0, [], [], 0, [], 0), steps, s, []);
    assert [] + PushedLengths(steps) == PushedLengths(steps);
    if incr { RunFills(Sys(cap, incr, 0, [], [], 0, [], 0), steps, s); }
  }

  /**
   Main theorem. After any run of pushes, in-order consumption and handling: pushes are the
   finished buffers plus the queue's size; the next completion names the queue's oldest
   buffer and fits its bytes, which is what handle_finish needs; the kernel never finishes a
   buffer that was not pushed; and a push that is allowed uses a slot that no live buffer has,
   neither of the queue nor of the kernel.
   */
  lemma {:induction false} QueueTracksKernel(cap: nat, incr: bool, steps: seq<Step>, s: Sys)
    requires cap >= 1 && Runs(Sys(cap, incr, 0, [], [], 0, [], 0), steps, s)
    ensures s.pushes == s.done + |s.live| && s.done <= s.kdone <= s.pushes && |s.live| <= cap
    ensures s.cqes != [] ==> s.cqes[0].bid == Slot(s.pushes - |s.live|, cap) && 0 < s.cqes[0].res <= Sum(s.live)
    ensures s.cqes == [] ==> s.live == s.klive && s.done == s.kdone
    ensures |s.live| < cap ==> forall p :: s.done <= p < s.pushes ==> Slot(p, cap) != Slot(s.pushes, cap)
  {
    RunKeepsInv(Sys(cap, incr, 0, [], [], 0, [], 0), steps, s);
    ChainForward(cap, s.incr, s.cqes, s.done, s.live, s.kdone, s.klive);
    if |s.live| < cap {
      forall p | s.done <= p < s.pushes ensures Slot(p, cap) != Slot(s.pushes, cap) { SlotsDiffer(p, s.pushes, cap); }
    }
  }

  lemma {:induction false} ChainForward(cap: nat, incr: bool, cs: seq<Cqe>, done: nat, live: seq<nat>,
                                        kdone: nat, klive: seq<nat>)
    requires cap >= 1 && Chain(cap, incr, cs, done, live, kdone, klive)
    ensures done <= kdone
    decreases |cs|
  {
    if cs != [] {
      var r := Use(incr, live, cs[0].res);
      ChainForward(cap, incr, cs[1..], done + r.num, r.lens, kdone, klive);
    }
  }
}
