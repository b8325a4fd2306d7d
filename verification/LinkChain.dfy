// The submission side of a ring without SQPOLL and the start of a link of
// operations (detail/ring.hpp, detail/op_states.hpp). The kernel takes the
// linked entries as one chain only if they go out next to each other in a
// single submission.
module LinkChain {
  import opened Common

  datatype Sqe = Blank | Entry(op: nat, link: bool)

  /** Where an entry went: the submission call and its index within it. */
  datatype Slot = Slot(batch: nat, index: nat)

  /** Entry `e` is at slot `p` of the submissions `all`. */
  predicate IsAt(all: seq<seq<Sqe>>, p: Slot, e: Sqe) {
    p.batch < |all| && p.index < |all[p.batch]| && all[p.batch][p.index] == e
  }

  /** Later submissions leave what is already placed where it is. */
  predicate Extends(all: seq<seq<Sqe>>, all': seq<seq<Sqe>>) {
    |all| <= |all'| && forall b :: 0 <= b < |all| ==> all[b] <= all'[b]
  }

  lemma ExtendsTransitive(a: seq<seq<Sqe>>, b: seq<seq<Sqe>>, c: seq<seq<Sqe>>)
    requires Extends(a, b) && Extends(b, c)
    ensures Extends(a, c)
  {
    forall k | 0 <= k < |a| ensures a[k] <= c[k] {
      assert a[k] <= b[k] <= c[k];
    }
  }

  /** The link as the kernel must see it: every operation has an entry, the
      entries are neighbours in one submission, all but the last linked. */
  predicate IsChain(all: seq<seq<Sqe>>, ops: seq<nat>, at: seq<Option<Slot>>) {
    && |at| == |ops|
    && forall i :: 0 <= i < |ops| ==>
         && at[0].Some? && at[i].Some?
         && at[i].value == Slot(at[0].value.batch, at[0].value.index + i)
         && IsAt(all, at[i].value, Entry(ops[i], i < |ops| - 1))
  }

  predicate NoneStopped(stopped: seq<bool>) {
    forall i :: 0 <= i < |stopped| ==> !stopped[i]
  }

  /** The operations started so far: an entry for each unless it was stopped. */
  predicate Placed(all: seq<seq<Sqe>>, ops: seq<nat>, stopped: seq<bool>, at: seq<Option<Slot>>) {
    && |at| <= |ops| == |stopped|
    && (forall j :: 0 <= j < |at| ==> (at[j].None? <==> stopped[j]))
    && (forall j :: 0 <= j < |at| && at[j].Some? ==> IsAt(all, at[j].value, Entry(ops[j], j < |ops| - 1)))
  }

  /** The first `room` entries follow `first`; the others went out later. */
  predicate SplitAt(at: seq<Option<Slot>>, first: Slot, room: nat) {
    forall j :: 0 <= j < |at| ==>
      && at[j].Some?
      && if j < room then at[j].value == Slot(first.batch, first.index + j) else at[j].value.batch > first.batch
  }

  lemma PlacedAppend(all: seq<seq<Sqe>>, all': seq<seq<Sqe>>, ops: seq<nat>, stopped: seq<bool>,
                     at: seq<Option<Slot>>, slot: Option<Slot>)
    requires Placed(all, ops, stopped, at) && Extends(all, all') && |at| < |ops|
    requires slot.None? <==> stopped[|at|]
    requires slot.Some? ==> IsAt(all', slot.value, Entry(ops[|at|], |at| < |ops| - 1))
    ensures Placed(all', ops, stopped, at + [slot])
  {
    forall j | 0 <= j < |at| && at[j].Some? ensures IsAt(all', at[j].value, Entry(ops[j], j < |ops| - 1)) {
      assert all[at[j].value.batch] <= all'[at[j].value.batch];
    }
  }

  class Ring {
    const entries: nat
    const submitBatch: nat
    var sq: seq<Sqe>
    var submitted: seq<seq<Sqe>>
    var count: nat

    ghost predicate Valid()
      reads this
    {
      count <= |sq| <= entries && count < submitBatch && 0 < entries
    }

    /** Every submission so far, the open one last. */
    ghost function All(): seq<seq<Sqe>>
      reads this
    {
      submitted + [sq]
    }

    constructor (size: nat, batch: nat)
      requires 0 < size && 0 < batch
      ensures Valid() && entries == size && submitBatch == batch && sq == [] && submitted == []
    {
      entries, submitBatch := size, batch;
      sq, submitted, count := [], [], 0;
    }

    method SubmitAll()
      requires Valid()
      modifies this
      ensures Valid() && sq == [] && count == 0 && submitted == old(submitted) + [old(sq)]
      ensures Extends(old(All()), All())
    {
      count := 0;
      submitted := submitted + [sq];
      sq := [];
    }

    /** Counts one started operation and submits when the batch is full. */
    method MaybeSubmit()
      requires Valid() && count < |sq|
      modifies this
      ensures Valid() && Extends(old(All()), All())
      ensures if old(count) + 1 < submitBatch
              then sq == old(sq) && submitted == old(submitted) && count == old(count) + 1
              else sq == [] && submitted == old(submitted) + [old(sq)] && count == 0
    {
      count := count + 1;
      if count >= submitBatch {
        count := 0;
        submitted := submitted + [sq];
        sq := [];
      }
    }

    /** Makes room for `n` entries; the loop only ends because they can fit. */
    method ReserveSpace(n: nat)
      requires Valid() && n <= entries
      modifies this
      ensures Valid() && n <= entries - |sq| && Extends(old(All()), All())
      ensures if n <= entries - |old(sq)|
              then sq == old(sq) && submitted == old(submitted) && count == old(count)
              else sq == [] && submitted == old(submitted) + [old(sq)] && count == 0
    {
      while entries - |sq| < n
        invariant Valid() && Extends(old(All()), All())
        invariant || (sq == old(sq) && submitted == old(submitted) && count == old(count))
                  || (n > entries - |old(sq)| && sq == [] && submitted == old(submitted) + [old(sq)] && count == 0)
        decreases |sq|
      {
        SubmitAll();
      }
    }

    /** The same loop cut off after `turns` rounds, for any `n`: it has ended exactly when there was
        room, or one submission made it; for more entries than the queue has, no number of rounds
        ends it, and every round submits once more. */
    method ReserveWithin(n: nat, turns: nat) returns (ended: bool)
      requires Valid()
      modifies this
      ensures Valid() && Extends(old(All()), All())
      ensures ended <==> n <= entries - |old(sq)| || (n <= entries && 0 < turns)
      ensures ended ==> n <= entries - |sq|
      ensures n > entries ==> |submitted| == |old(submitted)| + turns && (0 < turns ==> sq == [])
    {
      var left := turns;
      while entries - |sq| < n && 0 < left
        invariant 0 <= left <= turns && Valid() && Extends(old(All()), All())
        invariant |submitted| == |old(submitted)| + (turns - left)
        invariant if left == turns then sq == old(sq) else sq == [] && n > entries - |old(sq)|
        decreases left
      {
        ghost var before := All();
        SubmitAll();
        ExtendsTransitive(old(All()), before, All());
        left := left - 1;
      }
      ended := entries - |sq| >= n;
    }

    /** The next free entry, submitting first when the queue is full. */
    method GetSqe() returns (k: nat)
      requires Valid()
      modifies this
      ensures Valid() && k < |sq| && sq == sq[..k] + [Blank] && count <= k && Extends(old(All()), All())
      ensures if |old(sq)| < entries
              then k == |old(sq)| && sq[..k] == old(sq) && submitted == old(submitted) && count == old(count)
              else k == 0 && submitted == old(submitted) + [old(sq)]
    {
      while |sq| == entries
        invariant Valid() && Extends(old(All()), All())
        invariant || (sq == old(sq) && submitted == old(submitted) && count == old(count))
                  || (|old(sq)| == entries && sq == [] && submitted == old(submitted) + [old(sq)])
        decreases |sq|
      {
        SubmitAll();
      }
      k := |sq|;
      sq := sq + [Blank];
    }

    /** Starting one leaf operation; a stopped one fails without an entry. */
    method StartOp(op: nat, stopped: bool, link: bool) returns (at: Option<Slot>)
      requires Valid()
      modifies this
      ensures Valid() && Extends(old(All()), All())
      ensures stopped ==> at == None && sq == old(sq) && submitted == old(submitted) && count == old(count)
      ensures !stopped ==> at.Some? && IsAt(All(), at.value, Entry(op, link)) && at.value.batch >= |old(submitted)|
      ensures !stopped && |old(sq)| < entries ==>
                && at.value == Slot(|old(submitted)|, |old(sq)|)
                && if old(count) + 1 < submitBatch
                   then submitted == old(submitted) && |sq| == |old(sq)| + 1 && count == old(count) + 1
                   else |submitted| == |old(submitted)| + 1
    {
      if stopped {
        return None;
      }
      var k := GetSqe();
      ghost var before := All();
      sq := sq[k := Entry(op, link)];
      at := Some(Slot(|submitted|, k));
      assert Extends(old(All()), All()) by {
        forall b | 0 <= b < |old(All())| ensures old(All())[b] <= All()[b] {
          assert old(All())[b] <= before[b];
        }
      }
      ghost var mid := All();
      MaybeSubmit();
      ExtendsTransitive(old(All()), mid, All());
      assert mid[at.value.batch] <= All()[at.value.batch];
    }

    /** Starting a link: reserve room, then start every operation, the link flag
        on all but the last. The link goes out as one chain exactly when no
        operation is already stopped and the batch does not fill up before the
        last one is started. */
    method StartLink(ops: seq<nat>, stopped: seq<bool>) returns (at: seq<Option<Slot>>)
      requires Valid() && |ops| <= entries && |stopped| == |ops|
      modifies this
      ensures Valid() && Extends(old(All()), All())
      ensures Placed(All(), ops, stopped, at) && |at| == |ops|
      ensures IsChain(All(), ops, at) <==>
              && NoneStopped(stopped)
              && (if |ops| <= entries - |old(sq)| then old(count) else 0) + |ops| - 1 < submitBatch
    {
      ReserveSpace(|ops|);
      ghost var first, c := Slot(|submitted|, |sq|), count;
      at := [];
      while |at| < |ops|
        invariant |at| <= |ops| && Valid() && Extends(old(All()), All())
        invariant Placed(All(), ops, stopped, at)
        invariant |submitted| >= first.batch
        invariant NoneStopped(stopped[..|at|]) ==>
                    && SplitAt(at, first, submitBatch - c)
                    && if c + |at| < submitBatch
                       then |submitted| == first.batch && |sq| == first.index + |at| && count == c + |at|
                       else |submitted| > first.batch
      {
        ghost var before := All();
        var slot := StartOp(ops[|at|], stopped[|at|], |at| < |ops| - 1);
        ExtendsTransitive(old(All()), before, All());
        PlacedAppend(before, All(), ops, stopped, at, slot);
        assert NoneStopped(stopped[..|at| + 1]) ==> NoneStopped(stopped[..|at|]) && !stopped[|at|] by {
          assert stopped[..|at| + 1][|at|] == stopped[|at|];
          assert stopped[..|at|] == stopped[..|at| + 1][..|at|];
        }
        at := at + [slot];
      }
      assert stopped[..|at|] == stopped;
      ChainExactly(All(), ops, stopped, at, first, submitBatch - c);
    }
  }

  /** With every entry placed, the chain is whole iff nothing was stopped and
      the submission did not change on the way. */
  lemma ChainExactly(all: seq<seq<Sqe>>, ops: seq<nat>, stopped: seq<bool>, at: seq<Option<Slot>>,
                     first: Slot, room: nat)
    requires Placed(all, ops, stopped, at) && |at| == |ops| && 0 < room
    requires NoneStopped(stopped) ==> SplitAt(at, first, room)
    ensures IsChain(all, ops, at) <==> NoneStopped(stopped) && |ops| <= room
  {
    if IsChain(all, ops, at) && ops != [] {
      forall i | 0 <= i < |ops| ensures !stopped[i] {
        assert at[i].Some?;
      }
      assert at[|ops| - 1].value.batch == at[0].value.batch == first.batch;
    }
  }

  /** With a batch no smaller than the queue the condition always holds, so in
      the default configuration a link of unstopped operations is never split. */
  method StartLinkUnsplit(ring: Ring, ops: seq<nat>) returns (at: seq<Option<Slot>>)
    requires ring.Valid() && |ops| <= ring.entries <= ring.submitBatch
    modifies ring
    ensures ring.Valid() && IsChain(ring.All(), ops, at)
  {
    at := ring.StartLink(ops, seq(|ops|, _ => false));
  }
}
