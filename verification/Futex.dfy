// The user-space futex of futex.hpp: a mutex-protected list of parked waiters.
// Every method of the class is one mutex section with the scheduling of the handle
// it unlinked. notify_all takes several: it moves the list out under the mutex and
// then drains it without, so other calls come in between.
module Futex {
  import opened Common
  import opened IntrusiveList

  /** The futex word, the parked waiters, and the waiters scheduled so far, each
      with the result it will report. */
  datatype Fut<H> = Fut(value: int, waiting: seq<H>, woken: seq<(H, int)>)

  function Park<H>(f: Fut<H>, h: H): Fut<H> {
    f.(waiting := f.waiting + [h])
  }

  function Report<H>(f: Fut<H>, h: H, result: int): Fut<H> {
    f.(woken := f.woken + [(h, result)])
  }

  function WakeOne<H>(f: Fut<H>): Fut<H> {
    if f.waiting == [] then f else Report(f.(waiting := f.waiting[1..]), f.waiting[0], 0)
  }

  function CancelAt<H>(f: Fut<H>, k: nat): Fut<H>
    requires k < |f.waiting|
  {
    Report(f.(waiting := RemoveAt(f.waiting, k)), f.waiting[k], ECANCELED)
  }

  function Reports<H>(hs: seq<H>, result: int): (r: seq<(H, int)>)
    ensures |r| == |hs| && forall i :: 0 <= i < |r| ==> r[i] == (hs[i], result)
  {
    seq(|hs|, i requires 0 <= i < |hs| => (hs[i], result))
  }

  /** A waiter's link entry; its payload is the result it will report. */
  type Handle = Entry<int>

  class Futex {
    const waiters: DoubleLinkList<int>
    var value: int
    var woken: seq<(Handle, int)>

    ghost function Abs(): Fut<Handle>
      reads this, waiters
    {
      Fut(value, waiters.entries, woken)
    }

    ghost predicate Valid()
      reads this, waiters, waiters.entries
    {
      && waiters.Valid()
      && forall i {:trigger waiters.entries[i]} :: 0 <= i < |waiters.entries| ==>
           waiters.entries[i].payload == ENOTRECOVERABLE
    }

    constructor (value: int)
      ensures Valid() && fresh(waiters) && Abs() == Fut(value, [], [])
    {
      waiters := new DoubleLinkList();
      this.value := value;
      woken := [];
    }

    /** request_wait_: parks the handle iff the word still has the old value. */
    method RequestWait(h: Handle, expected: int) returns (r: int)
      requires Valid() && h !in waiters.entries && h.Detached() && h.payload == ENOTRECOVERABLE
      modifies h`next, h`prev, waiters, waiters.entries`next, waiters.entries`prev
      ensures Valid()
      ensures r == EAGAIN <==> value == expected
      ensures r == EAGAIN ==> Abs() == Park(old(Abs()), h)
      ensures r != EAGAIN ==> r == 0 && Abs() == old(Abs()) && unchanged(h)
    {
      if value != expected {
        return 0;
      }
      waiters.PushBack(h);
      return EAGAIN;
    }

    method NotifyOne()
      requires Valid()
      modifies this`woken, waiters, waiters.entries
      ensures Valid() && Abs() == WakeOne(old(Abs()))
      ensures old(waiters.entries) != [] ==> old(waiters.entries)[0].payload == 0
    {
      var h := waiters.PopFront();
      if h != null {
        h.payload := 0;
        woken := woken + [(h, 0)];
      }
    }

    /** The cancellation callback: it reports -ECANCELED iff it unlinks the handle. */
    method CancelWait(h: Handle) returns (won: bool, ghost k: nat)
      requires Valid() && (h in waiters.entries || h.Detached())
      modifies this`woken, h, waiters, waiters.entries`next, waiters.entries`prev
      ensures Valid()
      ensures won <==> h in old(waiters.entries)
      ensures won ==> && k < |old(waiters.entries)| && old(waiters.entries)[k] == h
                      && Abs() == CancelAt(old(Abs()), k) && h.payload == ECANCELED && h.Detached()
      ensures !won ==> Abs() == old(Abs()) && unchanged(h)
    {
      won, k := waiters.Remove(h);
      if won {
        h.payload := ECANCELED;
        woken := woken + [(h, ECANCELED)];
      }
    }

    /** The mutex section of notify_all_: the whole list is moved out. */
    method TakeAll() returns (handles: DoubleLinkList<int>)
      requires Valid()
      modifies waiters
      ensures Valid() && Abs() == old(Abs()).(waiting := [])
      ensures fresh(handles) && handles.Valid() && handles.entries == old(waiters.entries)
    {
      handles := new DoubleLinkList();
      handles.MoveFrom(waiters);
    }

    /** One turn of the drain, without the mutex, when nothing comes in between its accesses. */
    method DrainOne(handles: DoubleLinkList<int>, result: int) returns (more: bool)
      requires handles.Valid() && handles != waiters
      modifies this`woken, handles, handles.entries
      ensures handles.Valid() && (more <==> old(handles.entries) != [])
      ensures more ==> && handles.entries == old(handles.entries)[1..] && old(handles.entries)[0].payload == result
                       && Abs() == Report(old(Abs()), old(handles.entries)[0], result)
      ensures !more ==> handles.entries == [] && Abs() == old(Abs())
    {
      var h := handles.PopFront();
      more := h != null;
      if h != null {
        h.payload := result;
        woken := woken + [(h, result)];
      }
    }

    /** notify_all_, when nothing comes in between: every waiter is reported once, in order. */
    method NotifyAll(result: int)
      requires Valid()
      modifies this`woken, waiters, waiters.entries
      ensures Valid() && Abs() == Fut(value, [], old(woken) + Reports(old(waiters.entries), result))
    {
      ghost var was := waiters.entries;
      var handles := TakeAll();
      ghost var n := 0;
      var more := true;
      while more
        invariant n <= |was| && handles.Valid() && fresh(handles) && handles.entries == was[n..]
        invariant waiters.entries == [] && waiters.Valid()
        invariant |woken| == |old(woken)| + n && woken[..|old(woken)|] == old(woken)
        invariant forall i :: 0 <= i < n ==> woken[|old(woken)| + i] == (was[i], result)
        invariant !more ==> n == |was|
        decreases more, |was| - n
      {
        more := DrainOne(handles, result);
        if more {
          n := n + 1;
        }
      }
      assert woken == old(woken) + Reports(was, result);
    }

    /** ~Futex: whoever still waits is told that the futex is gone. */
    method Destroy()
      requires Valid()
      modifies this`woken, waiters, waiters.entries
      ensures Valid() && Abs() == Fut(value, [], old(woken) + Reports(old(waiters.entries), EIDRM))
    {
      NotifyAll(EIDRM);
    }

    /**
     The cancellation callback of a waiter that a drain holds and is not popping: remove is called on
     the wrong list. It loses if the waiter is the only one left there, wins properly if the waiter has
     neighbours on both sides, and otherwise tears the two lists.
     */
    method CancelDrained(h: Handle, handles: DoubleLinkList<int>, ghost k: nat) returns (won: bool)
      requires Valid() && handles.Valid() && handles != waiters && k < |handles.entries| && handles.entries[k] == h
      requires forall i, j :: 0 <= i < |waiters.entries| && 0 <= j < |handles.entries| ==>
                 waiters.entries[i] != handles.entries[j]
      modifies this`woken, h`payload, waiters`head, waiters`tail, handles`entries, handles.entries`next,
               handles.entries`prev
      ensures var m := |old(handles.entries)|;
              && (won <==> m > 1)
              && (m == 1 ==> waiters.Valid() && handles.Valid() && Abs() == old(Abs())
                             && handles.entries == old(handles.entries))
              && (0 < k < m - 1 ==> waiters.Valid() && handles.Valid() && Abs() == Report(old(Abs()), h, ECANCELED)
                                    && handles.entries == RemoveAt(old(handles.entries), k))
              && ((exists s, t :: waiters.Describes(s) && handles.Describes(t)) <==> m == 1 || 0 < k < m - 1)
              && (k == 0 && m > 1 ==> woken == old(woken) + [(h, ECANCELED)] && handles.head == h)
    {
      won := waiters.RemoveElsewhere(h, handles, k);
      if won {
        h.payload := ECANCELED;
        woken := woken + [(h, ECANCELED)];
      }
    }
  }
}
