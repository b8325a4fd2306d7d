// What a caller of the channel is told, over whole runs: which calls are refused after
// a close and how, when a call completes at once and when it waits.
module ChannelAnswers {
  import opened ChannelRuns
  import opened ChannelSpec
  import opened Common

  lemma {:induction false} RunSnoc<T>(cap: nat, calls: seq<Call<T>>, c: Call<T>)
    ensures Run(cap, calls + [c]) == Do(Run(cap, calls), c)
  {
    assert (calls + [c])[..|calls|] == calls;
  }

  // ---- closing ----

  lemma {:induction false} RecordKeepsChan<T>(w: World<T>, wakes: seq<Wake<T, nat, nat>>)
    ensures Record(w, wakes).chan == w.chan && Record(w, wakes).panicked == w.panicked
    ensures Record(w, wakes).clock == w.clock && Record(w, wakes).accepted == w.accepted
    decreases |wakes|
  {
    if wakes != [] { RecordKeepsChan(RecordOne(w, wakes[0]), wakes[1..]); }
  }

  lemma PushKeepsClosed<T>(w: World<T>, item: T, parks: bool)
    ensures var w' := AfterPush(w, item, parks);
            w'.chan.closed == w.chan.closed && w'.chan.cap == w.chan.cap && w'.panicked == w.panicked
  {
    var e := PushEffect(w, item, parks);
    RecordKeepsChan(NotePush(w, e, item, parks), e.wakes);
  }

  lemma PopKeepsClosed<T>(w: World<T>, parks: bool)
    ensures var w' := AfterPop(w, parks);
            w'.chan.closed == w.chan.closed && w'.chan.cap == w.chan.cap && w'.panicked == w.panicked
  {
    var e := PopEffect(w, parks);
    RecordKeepsChan(NotePop(w, e, parks), e.wakes);
  }

  lemma DoCloses<T>(w: World<T>, c: Call<T>)
    requires !w.panicked
    ensures Do(w, c).chan.closed <==> w.chan.closed || c == CloseCall
    ensures Do(w, c).panicked <==> w.chan.closed && c.ForcePushCall?
    ensures Do(w, c).chan.cap == w.chan.cap
  {
    match c
    case TryPushCall(item) => PushKeepsClosed(w, item, false);
    case PushCall(item) => PushKeepsClosed(w, item, true);
    case ForcePushCall(item) => PushKeepsClosed(w, item, true);
    case TryPopCall => PopKeepsClosed(w, false);
    case PopCall => PopKeepsClosed(w, true);
    case CancelPushCall(id) =>
      var k := IndexOfPush(w.chan.pushers, id);
      if k < |w.chan.pushers| { RecordKeepsChan(w.(chan := CancelPushAt(w.chan, k)), [WakePush(id, ECANCELED)]); }
    case CancelPopCall(id) =>
      var k := IndexOfPop(w.chan.poppers, id);
      if k < |w.chan.poppers| { RecordKeepsChan(w.(chan := CancelPopAt(w.chan, k)), [WakePop(id, ECANCELED, None)]); }
    case CloseCall => RecordKeepsChan(w.(chan := Close(w.chan).chan), Close(w.chan).wakes);
  }

  /** Some forced push comes after a close. */
  predicate ForcedAfterClose<T(==)>(calls: seq<Call<T>>) {
    exists i, j :: 0 <= i < j < |calls| && calls[i] == CloseCall && calls[j].ForcePushCall?
  }

  lemma ForcedAfterCloseSnoc<T>(calls: seq<Call<T>>, c: Call<T>)
    ensures ForcedAfterClose(calls + [c]) <==> ForcedAfterClose(calls) || (CloseCall in calls && c.ForcePushCall?)
  {
    var all := calls + [c];
    if ForcedAfterClose(calls) {
      var i, j :| 0 <= i < j < |calls| && calls[i] == CloseCall && calls[j].ForcePushCall?;
      assert all[i] == CloseCall && all[j].ForcePushCall?;
    } else if CloseCall in calls && c.ForcePushCall? {
      var i :| 0 <= i < |calls| && calls[i] == CloseCall;
      assert all[i] == CloseCall && all[|calls|].ForcePushCall?;
    }
  }

  /** A channel is closed exactly once somebody has closed it, and panics exactly on a forced push after that. */
  lemma {:induction false} ClosedExactly<T>(cap: nat, calls: seq<Call<T>>)
    ensures Run(cap, calls).chan.closed <==> CloseCall in calls
    ensures Run(cap, calls).panicked <==> ForcedAfterClose(calls)
    ensures Run(cap, calls).chan.cap == cap
    decreases |calls|
  {
    if calls != [] {
      var n := |calls| - 1;
      ClosedExactly(cap, calls[..n]);
      assert calls == calls[..n] + [calls[n]];
      ForcedAfterCloseSnoc(calls[..n], calls[n]);
      var w := Run(cap, calls[..n]);
      if w.panicked {
        ForcedNeedsClose(calls[..n]);
      } else {
        DoCloses(w, calls[n]);
      }
    }
  }

  lemma ForcedNeedsClose<T>(calls: seq<Call<T>>)
    requires ForcedAfterClose(calls)
    ensures CloseCall in calls
  {
  }

  // ---- pushes ----

  predicate IsPush<T>(c: Call<T>) {
    c.TryPushCall? || c.PushCall? || c.ForcePushCall?
  }

  /** What one push call may find and is told. */
  ghost predicate PushAnswered<T>(w: World<T>, w': World<T>, c: Call<T>, closed: bool)
    requires IsPush(c)
  {
    var id, room := w.clock, |Queue(w.chan)| < w.chan.cap || w.chan.poppers != [];
    var waits := !closed && !room && !c.TryPushCall?;
    && w'.clock == id + 1
    && w'.accepted == (if closed || (!room && c.TryPushCall?) then w.accepted else w.accepted + [(id, c.item)])
    && (waits <==> w'.chan.pushers == w.chan.pushers + [(id, c.item)])
    && (waits <==> id !in w'.pushDone)
    && (!waits ==> w'.pushDone[id] == if closed then EPIPE else if room then OK else EAGAIN)
    && (closed ==> w'.chan == w.chan && w'.delivered == w.delivered && w'.popDone == w.popDone)
  }

  lemma AnswerPush<T>(w: World<T>, item: T, parks: bool, c: Call<T>)
    requires Inv(w) && IsPush(c) && c.item == item && parks == !c.TryPushCall?
    ensures PushAnswered(w, AfterPush(w, item, parks), c, w.chan.closed)
  {
    PushCases(w, item, parks);
    Unreported(w);
    assert |Queue(w.chan)| == |w.chan.buf| + |w.chan.pushers|;
  }

  /** Every push, over every run: refused with EPIPE once the channel is closed, completed at once if a
      pop waits or there is room, parked or refused with EAGAIN otherwise. */
  lemma {:induction false} EveryPushIsAnswered<T>(cap: nat, calls: seq<Call<T>>, c: Call<T>)
    requires IsPush(c) && !ForcedAfterClose(calls + [c])
    ensures PushAnswered(Run(cap, calls), Run(cap, calls + [c]), c, CloseCall in calls)
    ensures Run(cap, calls).chan.cap == cap
  {
    ClosedExactly(cap, calls);
    ForcedAfterCloseSnoc(calls, c);
    RunKeepsInv(cap, calls);
    RunSnoc(cap, calls, c);
    AnswerPush(Run(cap, calls), c.item, !c.TryPushCall?, c);
  }

  // ---- pops ----

  predicate IsPop<T>(c: Call<T>) {
    c.TryPopCall? || c.PopCall?
  }

  ghost predicate PopAnswered<T>(w: World<T>, w': World<T>, c: Call<T>, closed: bool)
    requires IsPop(c)
  {
    var id, queue := w.clock, Queue(w.chan);
    var waits := queue == [] && !closed && c.PopCall?;
    && w'.clock == id + 1
    && (waits <==> w'.chan.poppers == w.chan.poppers + [id])
    && (waits <==> id !in w'.popDone)
    && (!waits ==> w'.popDone[id] == if queue != [] then (OK, Some(queue[0]))
                                     else if closed then (EPIPE, None) else (EAGAIN, None))
    && (queue == [] && !waits ==> w'.chan == w.chan)
    && (queue != [] ==> Queue(w'.chan) == queue[1..])
  }

  lemma AnswerPop<T>(w: World<T>, parks: bool, c: Call<T>)
    requires Inv(w) && IsPop(c) && parks == c.PopCall?
    ensures PopAnswered(w, AfterPop(w, parks), c, w.chan.closed)
  {
    PopCases(w, parks);
    PopIsDequeue(w.chan);
    PopBalance(w, parks);
    Unreported(w);
  }

  /** Every pop, over every run: it gets the front of the queue; if there is none, EPIPE once the channel
      is closed, and else it waits or gets EAGAIN. */
  lemma {:induction false} EveryPopIsAnswered<T>(cap: nat, calls: seq<Call<T>>, c: Call<T>)
    requires IsPop(c) && !ForcedAfterClose(calls)
    ensures PopAnswered(Run(cap, calls), Run(cap, calls + [c]), c, CloseCall in calls)
  {
    ClosedExactly(cap, calls);
    RunKeepsInv(cap, calls);
    RunSnoc(cap, calls, c);
    AnswerPop(Run(cap, calls), c.PopCall?, c);
  }

  // ---- cancels and closes ----

  /** A cancel that finds its push parked takes it out and reports ECANCELED; any other changes nothing. */
  lemma {:induction false} EveryCancelIsAnswered<T>(cap: nat, calls: seq<Call<T>>, id: nat)
    requires !ForcedAfterClose(calls)
    ensures var w, w' := Run(cap, calls), Run(cap, calls + [CancelPushCall(id)]);
            if Has(w.chan.pushers, id)
            then !Has(w'.chan.pushers, id) && w'.pushDone == w.pushDone[id := ECANCELED] && w'.popDone == w.popDone
            else w' == w
    ensures var w, w' := Run(cap, calls), Run(cap, calls + [CancelPopCall(id)]);
            if id in w.chan.poppers
            then id !in w'.chan.poppers && w'.popDone == w.popDone[id := (ECANCELED, None)]
                 && w'.pushDone == w.pushDone && Queue(w'.chan) == Queue(w.chan)
            else w' == w
  {
    var w := Run(cap, calls);
    ClosedExactly(cap, calls);
    RunKeepsInv(cap, calls);
    RunSnoc(cap, calls, CancelPushCall(id));
    RunSnoc(cap, calls, CancelPopCall(id));
    AnswerCancelPush(w, id);
    AnswerCancelPop(w, id);
  }

  lemma HasIsId<T>(s: seq<(nat, T)>, id: nat)
    ensures Has(s, id) <==> id in PushIds(s)
  {
  }

  lemma AnswerCancelPush<T>(w: World<T>, id: nat)
    requires Inv(w) && !w.panicked
    ensures var w' := Do(w, CancelPushCall(id));
            if Has(w.chan.pushers, id)
            then !Has(w'.chan.pushers, id) && w'.pushDone == w.pushDone[id := ECANCELED] && w'.popDone == w.popDone
            else w' == w
  {
    var k := IndexOfPush(w.chan.pushers, id);
    if k < |w.chan.pushers| {
      CancelPushShape(w, id, k);
      PushIdsRemove(w.chan.pushers, k);
      HasIsId(CancelPushAt(w.chan, k).pushers, id);
    }
  }

  lemma AnswerCancelPop<T>(w: World<T>, id: nat)
    requires Inv(w) && !w.panicked
    ensures var w' := Do(w, CancelPopCall(id));
            if id in w.chan.poppers
            then id !in w'.chan.poppers && w'.popDone == w.popDone[id := (ECANCELED, None)]
                 && w'.pushDone == w.pushDone && Queue(w'.chan) == Queue(w.chan)
            else w' == w
  {
    var k := IndexOfPop(w.chan.poppers, id);
    if k < |w.chan.poppers| {
      RecordSingle(w.(chan := CancelPopAt(w.chan, k)), [WakePop(id, ECANCELED, None)]);
      PopIdsRemove(w.chan.poppers, k);
    }
  }

  /** The first close fails every parked operation with EPIPE and leaves the buffer to be popped; a
      later one changes nothing. */
  lemma {:induction false} EveryCloseIsAnswered<T>(cap: nat, calls: seq<Call<T>>)
    requires !ForcedAfterClose(calls)
    ensures var w, w' := Run(cap, calls), Run(cap, calls + [CloseCall]);
            if CloseCall in calls then w' == w
            else && w'.chan.closed && w'.chan.pushers == [] && w'.chan.poppers == [] && w'.chan.buf == w.chan.buf
                 && w'.pushDone == w.pushDone + AllTo(PushIds(w.chan.pushers), EPIPE)
                 && w'.popDone == w.popDone + AllTo(PopIds(w.chan.poppers), (EPIPE, None))
                 && w'.delivered == w.delivered && w'.accepted == w.accepted
  {
    ClosedExactly(cap, calls);
    RunKeepsInv(cap, calls);
    RunSnoc(cap, calls, CloseCall);
    if CloseCall !in calls { CloseRecorded(Run(cap, calls)); }
  }
}
