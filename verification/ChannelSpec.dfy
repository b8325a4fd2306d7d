/**
What one lock-protected operation of the channel (channel.hpp) does to its state, on
values. `P` and `Q` identify parked pushes and pops. The class in Channel.dfy is proved
to follow these functions; ChannelRuns.dfy reasons about sequences of them.
 */
module ChannelSpec {
  import opened Common

  const OK: int := 0

  /** Buffer contents, parked pushes with their items, parked pops, closed flag. */
  datatype Chan<T, P, Q> = Chan(cap: nat, buf: seq<T>, pushers: seq<(P, T)>, poppers: seq<Q>, closed: bool)

  /** A parked operation that the call has completed and handed to its runtime. */
  datatype Wake<T, P, Q> = WakePush(push: P, code: int) | WakePop(pop: Q, result: int, item: Option<T>)

  /** New state, completed waiters in order, result code of the caller, item handed to the caller. */
  datatype Effect<T, P, Q> = Effect(chan: Chan<T, P, Q>, wakes: seq<Wake<T, P, Q>>, code: int, item: Option<T>)

  ghost predicate Wf<T, P, Q>(s: Chan<T, P, Q>) {
    && |s.buf| <= s.cap
    && (s.pushers != [] ==> |s.buf| == s.cap && s.poppers == [] && !s.closed)
    && (s.poppers != [] ==> s.buf == [] && !s.closed)
  }

  function Items<T, P>(pushers: seq<(P, T)>): (r: seq<T>)
    ensures |r| == |pushers|
    ensures forall i :: 0 <= i < |r| ==> r[i] == pushers[i].1
  {
    seq(|pushers|, i requires 0 <= i < |pushers| => pushers[i].1)
  }

  /** The one FIFO queue that the channel stands for. */
  function Queue<T, P, Q>(s: Chan<T, P, Q>): seq<T> {
    s.buf + Items(s.pushers)
  }

  /** try_push_inner_: hand over to a parked pop, else use a free slot, else EAGAIN. */
  function PushInner<T, P, Q>(s: Chan<T, P, Q>, item: T): Effect<T, P, Q> {
    if s.poppers != [] then
      Effect(s.(poppers := s.poppers[1..]), [WakePop(s.poppers[0], OK, Some(item))], OK, None)
    else if |s.buf| < s.cap then
      Effect(s.(buf := s.buf + [item]), [], OK, None)
    else
      Effect(s, [], EAGAIN, None)
  }

  /** try_pop_inner_: refill from the first parked push, else take from the buffer. (A parked push means a full
      buffer, so the buffer is empty there only when the capacity is zero.) */
  function PopInner<T, P, Q>(s: Chan<T, P, Q>): Effect<T, P, Q> {
    if s.pushers != [] then
      var (p, item) := s.pushers[0];
      var s' := s.(pushers := s.pushers[1..]);
      if s.cap == 0 || s.buf == [] then
        Effect(s', [WakePush(p, OK)], OK, Some(item))
      else
        Effect(s'.(buf := s.buf[1..] + [item]), [WakePush(p, OK)], OK, Some(s.buf[0]))
    else if s.buf != [] then
      Effect(s.(buf := s.buf[1..]), [], OK, Some(s.buf[0]))
    else
      Effect(s, [], EAGAIN, None)
  }

  function TryPush<T, P, Q>(s: Chan<T, P, Q>, item: T): Effect<T, P, Q> {
    if s.closed then Effect(s, [], EPIPE, None) else PushInner(s, item)
  }

  function TryPop<T, P, Q>(s: Chan<T, P, Q>): Effect<T, P, Q> {
    var e := PopInner(s);
    if e.code != OK && s.closed then e.(code := EPIPE) else e
  }

  /** request_push_ and force_push: park the item when it can be neither delivered nor stored. */
  function Push<T, P, Q>(s: Chan<T, P, Q>, p: P, item: T): Effect<T, P, Q> {
    var e := TryPush(s, item);
    if e.code == EAGAIN then e.(chan := s.(pushers := s.pushers + [(p, item)])) else e
  }

  function Pop<T, P, Q>(s: Chan<T, P, Q>, q: Q): Effect<T, P, Q> {
    var e := TryPop(s);
    if e.code == EAGAIN then e.(chan := s.(poppers := s.poppers + [q])) else e
  }

  function CancelPushAt<T, P, Q>(s: Chan<T, P, Q>, k: nat): Chan<T, P, Q>
    requires k < |s.pushers|
  {
    s.(pushers := s.pushers[..k] + s.pushers[k + 1..])
  }

  function CancelPopAt<T, P, Q>(s: Chan<T, P, Q>, k: nat): Chan<T, P, Q>
    requires k < |s.poppers|
  {
    s.(poppers := s.poppers[..k] + s.poppers[k + 1..])
  }

  function ClosedPops<T, P, Q>(poppers: seq<Q>): (r: seq<Wake<T, P, Q>>)
    ensures |r| == |poppers|
    ensures forall i :: 0 <= i < |r| ==> r[i] == WakePop(poppers[i], EPIPE, None)
  {
    seq(|poppers|, i requires 0 <= i < |poppers| => WakePop(poppers[i], EPIPE, None))
  }

  function ClosedPushes<T, P, Q>(pushers: seq<(P, T)>): (r: seq<Wake<T, P, Q>>)
    ensures |r| == |pushers|
    ensures forall i :: 0 <= i < |r| ==> r[i] == WakePush(pushers[i].0, EPIPE)
  {
    seq(|pushers|, i requires 0 <= i < |pushers| => WakePush(pushers[i].0, EPIPE))
  }

  /** push_close_inner_: every waiter fails with EPIPE, pops first; a second close does nothing. */
  function Close<T, P, Q>(s: Chan<T, P, Q>): Effect<T, P, Q> {
    if s.closed then Effect(s, [], OK, None)
    else Effect(Chan(s.cap, s.buf, [], [], true), ClosedPops(s.poppers) + ClosedPushes(s.pushers), OK, None)
  }

  // ---- the channel is one FIFO queue ----

  /** A push enqueues its item at the back, or hands it straight to the longest-waiting pop. */
  lemma PushIsEnqueue<T, P, Q>(s: Chan<T, P, Q>, p: P, item: T)
    requires Wf(s) && !s.closed
    ensures var e := Push(s, p, item);
            && Wf(e.chan)
            && (s.poppers == [] ==> Queue(e.chan) == Queue(s) + [item] && e.wakes == [])
            && (s.poppers != [] ==>
                  Queue(s) == Queue(e.chan) == [] && e.wakes == [WakePop(s.poppers[0], OK, Some(item))])
  {
    var e := Push(s, p, item);
    assert e.chan.pushers != s.pushers ==> Items(e.chan.pushers) == Items(s.pushers) + [item];
    if e.chan.pushers != s.pushers {
      assert Queue(e.chan) == Queue(s) + [item];
    } else if s.poppers == [] {
      assert s.pushers == [] && Queue(e.chan) == Queue(s) + [item];
    }
  }

  /** A pop takes the front of the queue, and fails exactly when the queue is empty. */
  lemma PopIsDequeue<T, P, Q>(s: Chan<T, P, Q>)
    requires Wf(s)
    ensures var e := TryPop(s);
            && Wf(e.chan)
            && (Queue(s) != [] ==> e.code == OK && e.item == Some(Queue(s)[0]) && Queue(e.chan) == Queue(s)[1..])
            && (Queue(s) == [] ==> e.chan == s && e.item == None && e.code == if s.closed then EPIPE else EAGAIN)
  {
    if s.pushers != [] {
      RefillIsDequeue(s);
    } else {
      assert Queue(s) == s.buf && Queue(TryPop(s).chan) == TryPop(s).chan.buf;
    }
  }

  /** A pop that finds nothing leaves everything as it was. */
  lemma FailedPop<T, P, Q>(s: Chan<T, P, Q>)
    requires PopInner(s).item.None?
    ensures PopInner(s) == Effect(s, [], EAGAIN, None) && s.pushers == [] && s.buf == []
  {
  }

  lemma RefillIsDequeue<T, P, Q>(s: Chan<T, P, Q>)
    requires Wf(s) && s.pushers != []
    ensures var e := PopInner(s);
            Wf(e.chan) && e.code == OK && e.item == Some(Queue(s)[0]) && Queue(e.chan) == Queue(s)[1..]
  {
    var e, x, rest := PopInner(s), s.pushers[0].1, Items(s.pushers[1..]);
    ItemsHead(s.pushers);
    if s.cap == 0 {
      assert s.buf == [];
      assert Queue(s) == [x] + rest && Queue(e.chan) == rest;
    } else {
      Shift(s.buf, x, rest);
    }
  }

  lemma ItemsHead<T, P>(pushers: seq<(P, T)>)
    requires pushers != []
    ensures Items(pushers) == [pushers[0].1] + Items(pushers[1..])
  {
  }

  lemma Shift<T>(b: seq<T>, x: T, rest: seq<T>)
    requires b != []
    ensures (b + ([x] + rest))[1..] == (b[1..] + [x]) + rest
  {
  }

  /** Cancelling a parked push takes exactly its own item out of the queue. */
  lemma CancelIsRemoval<T, P, Q>(s: Chan<T, P, Q>, k: nat)
    requires Wf(s) && k < |s.pushers|
    ensures Wf(CancelPushAt(s, k))
    ensures var at := |s.buf| + k; Queue(CancelPushAt(s, k)) == Queue(s)[..at] + Queue(s)[at + 1..]
  {
    var s' := CancelPushAt(s, k);
    var at := |s.buf| + k;
    assert Items(s'.pushers) == Items(s.pushers)[..k] + Items(s.pushers)[k + 1..];
    assert Queue(s)[..at] == s.buf + Items(s.pushers)[..k];
    assert Queue(s)[at + 1..] == Items(s.pushers)[k + 1..];
  }
}
