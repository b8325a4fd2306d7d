/**
The channel of channel.hpp: a ring buffer and two intrusive lists of parked operations.
Each method is one section under the channel's mutex, so a run is a sequence of these
methods. `woken` logs the finish handles on which `schedule()` was called, in order.
Every method is proved to follow the value-level functions of ChannelSpec.
 */
module Channel {
  import opened Bits
  import opened ChannelSpec
  import opened Common
  import opened IntrusiveList
  import RingBuffer

  /** A parked push: its item until it is moved out, and the result it will report. */
  datatype PushInfo<T> = PushInfo(item: Option<T>, result: int)

  datatype PopInfo<T> = PopInfo(result: int, item: Option<T>)

  type PushHandle<T> = Entry<PushInfo<T>>
  type PopHandle<T> = Entry<PopInfo<T>>

  /** Taking the same position out of both keeps items and handles together. */
  lemma StillPaired<T>(parked: seq<(PushHandle<T>, T)>, handles: seq<PushHandle<T>>, k: nat)
    requires |parked| == |handles| && k < |parked|
    requires forall i {:trigger parked[i]} :: 0 <= i < |parked| ==> parked[i].0 == handles[i]
    ensures |RemoveAt(parked, k)| == |RemoveAt(handles, k)|
    ensures forall i {:trigger RemoveAt(parked, k)[i]} :: 0 <= i < |parked| - 1 ==>
              && RemoveAt(parked, k)[i].0 == RemoveAt(handles, k)[i]
              && RemoveAt(parked, k)[i] == parked[if i < k then i else i + 1]
  {
  }

  class Channel<T> {
    const ring: RingBuffer.Ring<T>
    const pushers: DoubleLinkList<PushInfo<T>>
    const poppers: DoubleLinkList<PopInfo<T>>
    var closed: bool
    var woken: seq<Wake<T, PushHandle<T>, PopHandle<T>>>
    ghost var parked: seq<(PushHandle<T>, T)>

    ghost predicate Waiting()
      reads this, pushers, pushers.entries, poppers, poppers.entries
    {
      && pushers.Valid() && poppers.Valid()
      && |parked| == |pushers.entries|
      && (forall i {:trigger parked[i]} :: 0 <= i < |parked| ==>
            parked[i].0 == pushers.entries[i] && parked[i].0.payload == PushInfo(Some(parked[i].1), ENOTRECOVERABLE))
      && (forall i {:trigger poppers.entries[i]} :: 0 <= i < |poppers.entries| ==>
            poppers.entries[i].payload == PopInfo(ENOTRECOVERABLE, None))
    }

    ghost function Abs(): Chan<T, PushHandle<T>, PopHandle<T>>
      reads this, ring, poppers
    {
      Chan(ring.cap, ring.contents, parked, poppers.entries, closed)
    }

    ghost predicate Valid()
      reads this, ring, ring.slots, pushers, pushers.entries, poppers, poppers.entries
    {
      ring.Valid() && Waiting() && Wf(Abs())
    }

    constructor (capacity: nat)
      requires capacity <= U64 / 2
      ensures Valid() && woken == [] && fresh(ring) && fresh(ring.slots) && fresh(pushers) && fresh(poppers)
      ensures Abs() == Chan(if capacity == 0 then 0 else BitCeil(capacity), [], [], [], false)
    {
      ring := new RingBuffer.Ring(capacity);
      pushers := new DoubleLinkList();
      poppers := new DoubleLinkList();
      closed := false;
      woken := [];
      parked := [];
    }

    /** Hands the item to the longest-waiting pop. */
    method HandOver(item: T)
      requires Valid() && poppers.entries != []
      modifies this`woken, poppers, poppers.entries
      ensures Valid()
      ensures Abs() == old(Abs()).(poppers := old(poppers.entries)[1..])
      ensures woken == old(woken) + [WakePop(old(poppers.entries)[0], OK, Some(item))]
    {
      assert ring.contents == [];
      var h := poppers.PopFront();
      h.payload := PopInfo(OK, Some(item));
      woken := woken + [WakePop(h, OK, Some(item))];
    }

    /** try_push_inner_ */
    method TryPushInner(item: T) returns (ok: bool)
      requires Valid() && !closed
      modifies this`woken, ring, ring.slots, poppers, poppers.entries
      ensures Valid()
      ensures var e := PushInner(old(Abs()), item);
              Abs() == e.chan && woken == old(woken) + e.wakes && ok == (e.code == OK)
    {
      var noPoppers := poppers.Empty();
      if !noPoppers {
        HandOver(item);
        return true;
      }
      var n := ring.Size();
      if n != ring.cap {
        ring.Push(item);
        return true;
      }
      return false;
    }

    /** Moves the item out of the longest-waiting push and completes that push. */
    method TakePush() returns (item: T)
      requires Valid() && pushers.entries != []
      modifies this`woken, this`parked, pushers, pushers.entries
      ensures Valid()
      ensures Abs() == old(Abs()).(pushers := old(parked)[1..]) && item == old(parked)[0].1
      ensures woken == old(woken) + [WakePush(old(parked)[0].0, OK)]
    {
      assert |ring.contents| == ring.cap;
      var h := pushers.PopFront();
      assert h.payload.item == Some(parked[0].1);
      item := h.payload.item.value;
      h.payload := PushInfo(None, OK);
      parked := parked[1..];
      woken := woken + [WakePush(h, OK)];
    }

    /** pop_and_push_ fed by the longest-waiting push */
    method Refill() returns (item: T)
      requires Valid() && pushers.entries != []
      modifies this`woken, this`parked, ring, ring.slots, pushers, pushers.entries
      ensures Valid()
      ensures var e := PopInner(old(Abs()));
              Abs() == e.chan && woken == old(woken) + e.wakes && Some(item) == e.item
    {
      var x := TakePush();
      if ring.cap == 0 {
        return x;
      }
      item := ring.Pop();
      ring.Push(x);
    }

    /** try_pop_inner_ */
    method TryPopInner() returns (item: Option<T>)
      requires Valid()
      modifies this`woken, this`parked, ring, ring.slots, pushers, pushers.entries
      ensures Valid()
      ensures var e := PopInner(old(Abs()));
              Abs() == e.chan && woken == old(woken) + e.wakes && item == e.item
    {
      var noPushers := pushers.Empty();
      if !noPushers {
        var x := Refill();
        return Some(x);
      }
      var n := ring.Size();
      if n != 0 {
        var r := ring.Pop();
        return Some(r);
      }
      return None;
    }

    // ---- the public operations, each under the mutex ----

    method TryPush(item: T) returns (code: int)
      requires Valid()
      modifies this`woken, ring, ring.slots, poppers, poppers.entries
      ensures Valid()
      ensures var e := ChannelSpec.TryPush(old(Abs()), item);
              Abs() == e.chan && woken == old(woken) + e.wakes && code == e.code
    {
      if closed {
        return EPIPE;
      }
      var ok := TryPushInner(item);
      return if ok then OK else EAGAIN;
    }

    method TryPop() returns (code: int, item: Option<T>)
      requires Valid()
      modifies this`woken, this`parked, ring, ring.slots, pushers, pushers.entries
      ensures Valid()
      ensures var e := ChannelSpec.TryPop(old(Abs()));
              Abs() == e.chan && woken == old(woken) + e.wakes && code == e.code && item == e.item
    {
      PopIsDequeue(Abs());
      item := TryPopInner();
      code := if item.Some? then OK else if closed then EPIPE else EAGAIN;
    }

    /** Parks a detached handle behind the other parked pushes. */
    method Park(h: PushHandle<T>, item: T)
      requires Valid() && !closed && |ring.contents| == ring.cap && poppers.entries == []
      requires h !in pushers.entries && h.Detached() && h.payload == PushInfo(Some(item), ENOTRECOVERABLE)
      modifies this`parked, h, pushers, pushers.entries
      ensures Valid() && h.payload == old(h.payload)
      ensures Abs() == old(Abs()).(pushers := old(parked) + [(h, item)])
    {
      pushers.PushBack(h);
      parked := parked + [(h, item)];
    }

    /** request_push_: moves the item out of the handle when it is accepted at once, else parks the handle. */
    method RequestPush(h: PushHandle<T>) returns (code: int)
      requires Valid() && h !in pushers.entries && h.Detached()
      requires h.payload.item.Some? && h.payload.result == ENOTRECOVERABLE
      modifies this`woken, this`parked, ring, ring.slots, poppers, poppers.entries, h, pushers, pushers.entries
      ensures Valid()
      ensures var e := Push(old(Abs()), h, old(h.payload.item.value));
              Abs() == e.chan && woken == old(woken) + e.wakes && code == e.code
      ensures h.payload == if code == OK then PushInfo(None, ENOTRECOVERABLE) else old(h.payload)
    {
      var item := h.payload.item.value;
      if closed {
        return EPIPE;
      }
      var ok := TryPushInner(item);
      if ok {
        h.payload := PushInfo(None, ENOTRECOVERABLE);
        return OK;
      }
      assert poppers.entries == [];
      Park(h, item);
      return EAGAIN;
    }

    /** force_push: as request_push_, with a handle of its own; panics on a closed channel. */
    method ForcePush(item: T) returns (panicked: bool, h: PushHandle<T>)
      requires Valid()
      modifies this`woken, this`parked, ring, ring.slots, poppers, poppers.entries, pushers, pushers.entries
      ensures Valid() && fresh(h) && panicked == old(closed)
      ensures panicked ==> Abs() == old(Abs()) && woken == old(woken)
      ensures !panicked ==> var e := Push(old(Abs()), h, item); Abs() == e.chan && woken == old(woken) + e.wakes
    {
      h := new Entry(PushInfo(Some(item), ENOTRECOVERABLE));
      if closed {
        return true, h;
      }
      var ok := TryPushInner(item);
      if ok {
        return false, h;
      }
      assert poppers.entries == [];
      Park(h, item);
      return false, h;
    }

    method ParkPop(h: PopHandle<T>)
      requires Valid() && !closed && ring.contents == [] && parked == []
      requires h !in poppers.entries && h.Detached() && h.payload == PopInfo(ENOTRECOVERABLE, None)
      modifies h`next, h`prev, poppers, poppers.entries`next, poppers.entries`prev
      ensures Valid() && Abs() == old(Abs()).(poppers := old(poppers.entries) + [h])
    {
      poppers.PushBack(h);
    }

    /** request_pop_ */
    method RequestPop(h: PopHandle<T>) returns (code: int, item: Option<T>)
      requires Valid() && h !in poppers.entries && h.Detached() && h.payload == PopInfo(ENOTRECOVERABLE, None)
      modifies this`woken, this`parked, ring, ring.slots, pushers, pushers.entries, h, poppers, poppers.entries
      ensures Valid() && h.payload == old(h.payload)
      ensures var e := Pop(old(Abs()), h);
              Abs() == e.chan && woken == old(woken) + e.wakes && code == e.code && item == e.item
    {
      ghost var before := Abs();
      item := TryPopInner();
      if item.Some? {
        return OK, item;
      }
      FailedPop(before);
      if closed {
        return EPIPE, None;
      }
      ParkPop(h);
      return EAGAIN, None;
    }

    /** cancel_push_: unlinks the handle if it is still parked. */
    method UnparkPush(h: PushHandle<T>) returns (won: bool, ghost k: nat)
      requires Valid() && (h in pushers.entries || h.Detached())
      modifies this`parked, h`next, h`prev, pushers, pushers.entries`next, pushers.entries`prev
      ensures Valid()
      ensures won <==> h in old(pushers.entries)
      ensures won ==> && k < |old(parked)| && old(parked)[k].0 == h && Abs() == CancelPushAt(old(Abs()), k)
                      && h !in pushers.entries && h.payload.result == ENOTRECOVERABLE
      ensures !won ==> Abs() == old(Abs()) && unchanged(h)
    {
      ghost var was, handles := parked, pushers.entries;
      won, k := pushers.Remove(h);
      if won {
        parked := RemoveAt(parked, k);
        StillPaired(was, handles, k);
      }
    }

    /** cancel_pop_ */
    method UnparkPop(h: PopHandle<T>) returns (won: bool, ghost k: nat)
      requires Valid() && (h in poppers.entries || h.Detached())
      modifies h`next, h`prev, poppers, poppers.entries`next, poppers.entries`prev
      ensures Valid()
      ensures won <==> h in old(poppers.entries)
      ensures won ==> && k < |old(poppers.entries)| && old(poppers.entries)[k] == h
                      && Abs() == CancelPopAt(old(Abs()), k)
                      && h !in poppers.entries && h.payload == PopInfo(ENOTRECOVERABLE, None)
      ensures !won ==> Abs() == old(Abs()) && unchanged(h)
    {
      won, k := poppers.Remove(h);
    }

    /**
     The cancellation callback of a push: a parked push is completed with its item
     unmoved; a cancel that comes too late changes nothing.
     */
    method CancelPush(h: PushHandle<T>) returns (won: bool, ghost k: nat)
      requires Valid() && (h in pushers.entries || h.Detached())
      modifies this`woken, this`parked, h, pushers, pushers.entries`next, pushers.entries`prev
      ensures Valid()
      ensures won <==> h in old(pushers.entries)
      ensures won ==> && k < |old(parked)| && old(parked)[k].0 == h && Abs() == CancelPushAt(old(Abs()), k)
                      && h.payload == PushInfo(old(h.payload.item), ECANCELED)
                      && woken == old(woken) + [WakePush(h, ECANCELED)]
      ensures !won ==> Abs() == old(Abs()) && woken == old(woken) && unchanged(h)
    {
      won, k := UnparkPush(h);
      if won {
        assert h.payload.result == ENOTRECOVERABLE;
        h.payload := h.payload.(result := ECANCELED);
        woken := woken + [WakePush(h, ECANCELED)];
      }
    }

    method CancelPop(h: PopHandle<T>) returns (won: bool, ghost k: nat)
      requires Valid() && (h in poppers.entries || h.Detached())
      modifies this`woken, h, poppers, poppers.entries`next, poppers.entries`prev
      ensures Valid()
      ensures won <==> h in old(poppers.entries)
      ensures won ==> && k < |old(poppers.entries)| && old(poppers.entries)[k] == h
                      && Abs() == CancelPopAt(old(Abs()), k)
                      && h.payload == PopInfo(ECANCELED, None)
                      && woken == old(woken) + [WakePop(h, ECANCELED, None)]
      ensures !won ==> Abs() == old(Abs()) && woken == old(woken) && unchanged(h)
    {
      won, k := UnparkPop(h);
      if won {
        assert h.payload.result == ENOTRECOVERABLE;
        h.payload := h.payload.(result := ECANCELED);
        woken := woken + [WakePop(h, ECANCELED, None)];
      }
    }

    static method FailNextPop(list: DoubleLinkList<PopInfo<T>>) returns (h: Entry?<PopInfo<T>>)
      requires list.Valid()
      modifies list, list.entries`next, list.entries`prev, list.First()`payload
      ensures list.Valid()
      ensures old(list.entries) == [] ==> h == null && list.entries == []
      ensures old(list.entries) != [] ==> && h == old(list.entries)[0] && list.entries == old(list.entries)[1..]
                                          && h.payload == PopInfo(EPIPE, None)
    {
      h := list.PopFront();
      if h != null {
        h.payload := PopInfo(EPIPE, None);
      }
    }

    /** The first draining loop of push_close_inner_: every parked pop fails with EPIPE. */
    static method FailPops(list: DoubleLinkList<PopInfo<T>>) returns (wakes: seq<Wake<T, PushHandle<T>, PopHandle<T>>>)
      requires list.Valid()
      modifies list, list.entries
      ensures list.Valid() && list.entries == [] && wakes == ClosedPops(old(list.entries))
      ensures forall i :: 0 <= i < |old(list.entries)| ==> old(list.entries)[i].payload == PopInfo(EPIPE, None)
    {
      ghost var was := list.entries;
      wakes := [];
      var h := FailNextPop(list);
      while h != null
        invariant list.Valid() && |wakes| <= |was|
        invariant h == null ==> |wakes| == |was| && list.entries == []
        invariant h != null ==> |wakes| < |was| && h == was[|wakes|] && list.entries == was[|wakes| + 1..]
        invariant forall i :: 0 <= i < |wakes| ==> wakes[i] == WakePop(was[i], EPIPE, None)
        invariant forall i {:trigger was[i]} :: 0 <= i < |was| && (i < |wakes| || was[i] == h) ==>
                    was[i].payload == PopInfo(EPIPE, None)
        decreases |was| - |wakes|
      {
        wakes := wakes + [WakePop(h, EPIPE, None)];
        h := FailNextPop(list);
      }
      assert wakes == ClosedPops(was);
    }

    static method FailNextPush(list: DoubleLinkList<PushInfo<T>>) returns (h: Entry?<PushInfo<T>>)
      requires list.Valid()
      modifies list, list.entries`next, list.entries`prev, list.First()`payload
      ensures list.Valid()
      ensures old(list.entries) == [] ==> h == null && list.entries == []
      ensures old(list.entries) != [] ==>
                && h == old(list.entries)[0] && list.entries == old(list.entries)[1..]
                && h.payload == PushInfo(old(list.entries[0].payload.item), EPIPE)
    {
      h := list.PopFront();
      if h != null {
        h.payload := h.payload.(result := EPIPE);
      }
    }

    /** The second draining loop: every parked push fails with EPIPE and keeps its item. */
    static method FailPushes(list: DoubleLinkList<PushInfo<T>>)
      returns (wakes: seq<Wake<T, PushHandle<T>, PopHandle<T>>>)
      requires list.Valid()
      modifies list, list.entries
      ensures list.Valid() && list.entries == [] && |wakes| == |old(list.entries)|
      ensures forall i :: 0 <= i < |wakes| ==> wakes[i] == WakePush(old(list.entries)[i], EPIPE)
      ensures forall i :: 0 <= i < |old(list.entries)| ==>
                old(list.entries)[i].payload == PushInfo(old(list.entries[i].payload.item), EPIPE)
    {
      ghost var was := list.entries;
      wakes := [];
      var h := FailNextPush(list);
      while h != null
        invariant list.Valid() && |wakes| <= |was|
        invariant h == null ==> |wakes| == |was| && list.entries == []
        invariant h != null ==> |wakes| < |was| && h == was[|wakes|] && list.entries == was[|wakes| + 1..]
        invariant forall i :: 0 <= i < |wakes| ==> wakes[i] == WakePush(was[i], EPIPE)
        invariant forall i {:trigger was[i]} :: 0 <= i < |was| ==> was[i].payload.item == old(was[i].payload.item)
        invariant forall i {:trigger was[i]} :: 0 <= i < |was| && (i < |wakes| || was[i] == h) ==>
                    was[i].payload.result == EPIPE
        decreases |was| - |wakes|
      {
        wakes := wakes + [WakePush(h, EPIPE)];
        h := FailNextPush(list);
      }
    }

    /** Both drains: every waiter fails once, pops first. */
    method FailWaiters()
      requires Waiting()
      modifies this`woken, this`parked, pushers, pushers.entries, poppers, poppers.entries
      ensures Waiting() && parked == [] && poppers.entries == []
      ensures woken == old(woken) + (ClosedPops(old(poppers.entries)) + ClosedPushes(old(parked)))
    {
      var pops := FailPops(poppers);
      var pushes := FailPushes(pushers);
      assert pushes == ClosedPushes(parked);
      parked := [];
      woken := woken + (pops + pushes);
    }

    /** push_close_inner_ */
    method PushClose()
      requires Valid()
      modifies this, pushers, pushers.entries, poppers, poppers.entries
      ensures Valid() && closed && ring.contents == old(ring.contents)
      ensures var e := Close(old(Abs())); Abs() == e.chan && woken == old(woken) + e.wakes
    {
      if closed {
        return;
      }
      assert poppers.entries != [] ==> ring.contents == [];
      assert pushers.entries != [] ==> |ring.contents| == ring.cap;
      closed := true;
      FailWaiters();
    }

    /** The destructor: close, then destroy what is still buffered. No slot stays constructed. */
    method Destroy()
      requires Valid()
      modifies this, pushers, pushers.entries, poppers, poppers.entries, ring, ring.slots
      ensures woken == old(woken) + Close(old(Abs())).wakes
      ensures pushers.entries == [] && poppers.entries == []
      ensures forall j :: 0 <= j < ring.cap ==> ring.slots[j] == None
    {
      PushClose();
      ring.DestructAll();
    }
  }
}
