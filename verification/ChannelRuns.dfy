/**
Whole runs of a channel: any number of callers issue pushes, pops, forced pushes, cancels
and closes, each of which is one lock-protected section, in any order. Push and pop calls
are numbered in lock order; the number also identifies the parked operation.
 */
module ChannelRuns {
  import opened ChannelSpec
  import opened Common

  datatype Call<T> =
    | TryPushCall(item: T)
    | PushCall(item: T)
    | ForcePushCall(item: T)
    | TryPopCall
    | PopCall
    | CancelPushCall(id: nat)
    | CancelPopCall(id: nat)
    | CloseCall

  /**
   `accepted` lists the pushes that entered the channel (id, item), `withdrawn` those of
   them cancelled or cut off by close, `delivered` the items received (pop id, item), all
   in lock order. `pushDone` and `popDone` hold the outcome each operation reported.
   */
  datatype World<T> = World(
    chan: Chan<T, nat, nat>,
    clock: nat,
    panicked: bool,
    accepted: seq<(nat, T)>,
    withdrawn: set<nat>,
    delivered: seq<(nat, T)>,
    pushDone: map<nat, int>,
    popDone: map<nat, (int, Option<T>)>)

  // ---- recording what a call completed ----

  function RecordOne<T>(w: World<T>, k: Wake<T, nat, nat>): World<T> {
    match k
    case WakePush(p, code) =>
      w.(pushDone := w.pushDone[p := code],
         withdrawn := if code == OK then w.withdrawn else w.withdrawn + {p})
    case WakePop(q, code, item) =>
      w.(popDone := w.popDone[q := (code, item)],
         delivered := if item.Some? then w.delivered + [(q, item.value)] else w.delivered)
  }

  function Record<T>(w: World<T>, wakes: seq<Wake<T, nat, nat>>): World<T>
    decreases |wakes|
  {
    if wakes == [] then w else Record(RecordOne(w, wakes[0]), wakes[1..])
  }

  /** A push call: accepted unless refused; done unless parked. */
  function NotePush<T>(w: World<T>, e: Effect<T, nat, nat>, item: T, parks: bool): World<T> {
    var id, parked := w.clock, e.code == EAGAIN && parks;
    w.(chan := e.chan, clock := id + 1,
       accepted := if e.code == OK || parked then w.accepted + [(id, item)] else w.accepted,
       pushDone := if parked then w.pushDone else w.pushDone[id := e.code])
  }

  function NotePop<T>(w: World<T>, e: Effect<T, nat, nat>, parks: bool): World<T> {
    var id, parked := w.clock, e.code == EAGAIN && parks;
    w.(chan := e.chan, clock := id + 1,
       delivered := if e.item.Some? then w.delivered + [(id, e.item.value)] else w.delivered,
       popDone := if parked then w.popDone else w.popDone[id := (e.code, e.item)])
  }

  function PushEffect<T>(w: World<T>, item: T, parks: bool): Effect<T, nat, nat> {
    if parks then Push(w.chan, w.clock, item) else TryPush(w.chan, item)
  }

  function PopEffect<T>(w: World<T>, parks: bool): Effect<T, nat, nat> {
    if parks then Pop(w.chan, w.clock) else TryPop(w.chan)
  }

  function AfterPush<T>(w: World<T>, item: T, parks: bool): World<T> {
    var e := PushEffect(w, item, parks);
    Record(NotePush(w, e, item, parks), e.wakes)
  }

  function AfterPop<T>(w: World<T>, parks: bool): World<T> {
    var e := PopEffect(w, parks);
    Record(NotePop(w, e, parks), e.wakes)
  }

  function IndexOfPush<T>(s: seq<(nat, T)>, id: nat): (k: nat)
    ensures k <= |s| && (k < |s| ==> s[k].0 == id)
    ensures forall i :: 0 <= i < k ==> s[i].0 != id
  {
    if s == [] || s[0].0 == id then 0 else 1 + IndexOfPush(s[1..], id)
  }

  function IndexOfPop(s: seq<nat>, id: nat): (k: nat)
    ensures k <= |s| && (k < |s| ==> s[k] == id)
    ensures forall i :: 0 <= i < k ==> s[i] != id
  {
    if s == [] || s[0] == id then 0 else 1 + IndexOfPop(s[1..], id)
  }

  function Do<T>(w: World<T>, c: Call<T>): World<T> {
    if w.panicked then w else
    match c
    case TryPushCall(item) => AfterPush(w, item, false)
    case PushCall(item) => AfterPush(w, item, true)
    case ForcePushCall(item) =>
      if w.chan.closed then w.(panicked := true)
      else AfterPush(w, item, true)
    case TryPopCall => AfterPop(w, false)
    case PopCall => AfterPop(w, true)
    case CancelPushCall(id) =>
      var k := IndexOfPush(w.chan.pushers, id);
      if k == |w.chan.pushers| then w
      else Record(w.(chan := CancelPushAt(w.chan, k)), [WakePush(id, ECANCELED)])
    case CancelPopCall(id) =>
      var k := IndexOfPop(w.chan.poppers, id);
      if k == |w.chan.poppers| then w
      else Record(w.(chan := CancelPopAt(w.chan, k)), [WakePop(id, ECANCELED, None)])
    case CloseCall =>
      var e := Close(w.chan);
      Record(w.(chan := e.chan), e.wakes)
  }

  function Start<T>(cap: nat): World<T> {
    World(Chan(cap, [], [], [], false), 0, false, [], {}, [], map[], map[])
  }

  // ---- the invariant ----

  function Values<T>(s: seq<(nat, T)>): (r: seq<T>)
    ensures |r| == |s| && forall i :: 0 <= i < |s| ==> r[i] == s[i].1
  {
    seq(|s|, i requires 0 <= i < |s| => s[i].1)
  }

  /** The pushes that were not withdrawn, still in lock order. */
  function Kept<T>(accepted: seq<(nat, T)>, withdrawn: set<nat>): seq<(nat, T)> {
    if accepted == [] then []
    else
      var last := accepted[|accepted| - 1];
      Kept(accepted[..|accepted| - 1], withdrawn) + if last.0 in withdrawn then [] else [last]
  }

  ghost predicate Ascending<T>(s: seq<(nat, T)>) {
    forall i, j :: 0 <= i < j < |s| ==> s[i].0 < s[j].0
  }

  ghost predicate AscendingIds(s: seq<nat>) {
    forall i, j :: 0 <= i < j < |s| ==> s[i] < s[j]
  }

  ghost predicate Below<T>(s: seq<(nat, T)>, bound: nat) {
    forall i :: 0 <= i < |s| ==> s[i].0 < bound
  }

  /** Items in = items out + items queued, in order, and parked pushes are the youngest. */
  ghost predicate Flow<T>(accepted: seq<(nat, T)>, withdrawn: set<nat>, clock: nat,
                          out: seq<T>, queue: seq<T>, pushers: seq<(nat, T)>)
  {
    var kept := Kept(accepted, withdrawn);
    && Ascending(accepted) && Below(accepted, clock)
    && (forall id: nat :: id in withdrawn ==> id < clock)
    && Values(kept) == out + queue
    && |pushers| <= |kept|
    && kept[|kept| - |pushers|..] == pushers
  }

  /** Waiting pushes and pops queue up, and pops are served, in the order they took the lock. */
  ghost predicate Service<T>(clock: nat, pushers: seq<(nat, T)>, delivered: seq<(nat, T)>, poppers: seq<nat>) {
    && Ascending(pushers) && Below(pushers, clock)
    && Ascending(delivered) && Below(delivered, clock)
    && AscendingIds(poppers)
    && (forall i :: 0 <= i < |poppers| ==> poppers[i] < clock && Below(delivered, poppers[i]))
  }

  ghost function PushIds<T>(s: seq<(nat, T)>): set<nat> {
    set i | 0 <= i < |s| :: s[i].0
  }

  ghost function PopIds(s: seq<nat>): set<nat> {
    set q | q in s
  }

  /** Of all the operations so far, each has one outcome or is parked in one list: four sets, one partition. */
  ghost predicate Fates(clock: nat, pushDone: set<nat>, pushParked: set<nat>, popDone: set<nat>, popParked: set<nat>) {
    && pushDone !! pushParked !! popDone !! popParked
    && (forall id: nat :: id < clock <==> id in pushDone || id in pushParked || id in popDone || id in popParked)
  }

  ghost predicate FlowInv<T>(w: World<T>) {
    Wf(w.chan) && Flow(w.accepted, w.withdrawn, w.clock, Values(w.delivered), Queue(w.chan), w.chan.pushers)
  }

  ghost predicate ServiceInv<T>(w: World<T>) {
    Service(w.clock, w.chan.pushers, w.delivered, w.chan.poppers)
  }

  ghost predicate FateInv<T>(w: World<T>) {
    Fates(w.clock, w.pushDone.Keys, PushIds(w.chan.pushers), w.popDone.Keys, PopIds(w.chan.poppers))
  }

  ghost predicate Inv<T>(w: World<T>) {
    FlowInv(w) && ServiceInv(w) && FateInv(w)
  }

  // ---- sequence facts ----

  lemma {:induction false} KeptAppend<T>(accepted: seq<(nat, T)>, x: (nat, T), withdrawn: set<nat>)
    ensures Kept(accepted + [x], withdrawn) == Kept(accepted, withdrawn) + if x.0 in withdrawn then [] else [x]
  {
    assert (accepted + [x])[..|accepted|] == accepted;
  }

  lemma ValuesConcat<T>(a: seq<(nat, T)>, b: seq<(nat, T)>)
    ensures Values(a + b) == Values(a) + Values(b)
  {
  }

  /** What is kept is an ascending selection of what was accepted. */
  lemma {:induction false} KeptAscending<T>(accepted: seq<(nat, T)>, withdrawn: set<nat>, bound: nat)
    requires Ascending(accepted) && Below(accepted, bound)
    ensures Ascending(Kept(accepted, withdrawn)) && Below(Kept(accepted, withdrawn), bound)
    ensures forall i :: 0 <= i < |Kept(accepted, withdrawn)| ==> Kept(accepted, withdrawn)[i].0 !in withdrawn
  {
    if accepted != [] {
      var n := |accepted| - 1;
      KeptAscending(accepted[..n], withdrawn, accepted[n].0);
    }
  }

  /** Withdrawing the push at position j of what is kept removes exactly that position. */
  lemma {:induction false} KeptWithdraw<T>(accepted: seq<(nat, T)>, withdrawn: set<nat>, j: nat)
    requires Ascending(accepted) && j < |Kept(accepted, withdrawn)|
    ensures var kept := Kept(accepted, withdrawn);
            Kept(accepted, withdrawn + {kept[j].0}) == kept[..j] + kept[j + 1..]
  {
    var n := |accepted| - 1;
    var front, last := accepted[..n], accepted[n];
    var kept, kf := Kept(accepted, withdrawn), Kept(front, withdrawn);
    KeptAscending(front, withdrawn, last.0);
    if j < |kf| {
      KeptWithdraw(front, withdrawn, j);
      assert last.0 != kf[j].0;
      assert kept[j] == kf[j];
      if last.0 !in withdrawn {
        assert kept[..j] + kept[j + 1..] == (kf[..j] + kf[j + 1..]) + [last];
      }
    } else {
      KeptUnchanged(front, withdrawn, last.0);
      assert kept[..j] + kept[j + 1..] == kf;
    }
  }

  /** Withdrawing an id above all of them changes nothing. */
  lemma {:induction false} KeptUnchanged<T>(accepted: seq<(nat, T)>, withdrawn: set<nat>, id: nat)
    requires Below(accepted, id)
    ensures Kept(accepted, withdrawn + {id}) == Kept(accepted, withdrawn)
  {
    if accepted != [] {
      KeptUnchanged(accepted[..|accepted| - 1], withdrawn, id);
    }
  }

  lemma {:induction false} RecordSingle<T>(w: World<T>, wakes: seq<Wake<T, nat, nat>>)
    requires |wakes| == 1
    ensures Record(w, wakes) == RecordOne(w, wakes[0])
  {
    assert wakes[1..] == [];
  }

  lemma FlowEnqueue<T>(a: seq<(nat, T)>, wd: set<nat>, clock: nat, out: seq<T>, queue: seq<T>, ps: seq<(nat, T)>,
                       item: T, out': seq<T>, queue': seq<T>, ps': seq<(nat, T)>)
    requires Flow(a, wd, clock, out, queue, ps)
    requires out' + queue' == out + queue + [item]
    requires ps' == ps + [(clock, item)] || ps' == []
    ensures Flow(a + [(clock, item)], wd, clock + 1, out', queue', ps')
  {
    KeptAppend(a, (clock, item), wd);
    ValuesConcat(Kept(a, wd), [(clock, item)]);
    StillLast(Kept(a, wd), ps, (clock, item), ps');
  }

  /** The last of a list are still its last when both grow by the same element. */
  lemma StillLast<E>(kept: seq<E>, ps: seq<E>, x: E, ps': seq<E>)
    requires |ps| <= |kept| && kept[|kept| - |ps|..] == ps && (ps' == ps + [x] || ps' == [])
    ensures |ps'| <= |kept + [x]| && (kept + [x])[|kept + [x]| - |ps'|..] == ps'
  {
  }

  lemma FlowDequeue<T>(a: seq<(nat, T)>, wd: set<nat>, clock: nat, out: seq<T>, queue: seq<T>, ps: seq<(nat, T)>,
                       out': seq<T>, queue': seq<T>, ps': seq<(nat, T)>)
    requires Flow(a, wd, clock, out, queue, ps)
    requires out' + queue' == out + queue
    requires ps' == ps || (ps != [] && ps' == ps[1..])
    ensures Flow(a, wd, clock + 1, out', queue', ps')
  {
  }

  lemma PushIdsAppend<T>(s: seq<(nat, T)>, x: (nat, T))
    ensures PushIds(s + [x]) == PushIds(s) + {x.0}
  {
    assert (s + [x])[|s|] == x;
    forall id | id in PushIds(s) ensures id in PushIds(s + [x]) {
      var i :| 0 <= i < |s| && s[i].0 == id;
      assert (s + [x])[i] == s[i];
    }
  }

  lemma PushIdsRemove<T>(s: seq<(nat, T)>, k: nat)
    requires Ascending(s) && k < |s|
    ensures s[k].0 in PushIds(s) && PushIds(s[..k] + s[k + 1..]) == PushIds(s) - {s[k].0}
  {
    var r := s[..k] + s[k + 1..];
    forall id | id in PushIds(s) && id != s[k].0 ensures id in PushIds(r) {
      var i :| 0 <= i < |s| && s[i].0 == id;
      assert r[if i < k then i else i - 1] == s[i];
    }
  }

  lemma PopIdsRemove(s: seq<nat>, k: nat)
    requires AscendingIds(s) && k < |s|
    ensures s[k] in PopIds(s) && PopIds(s[..k] + s[k + 1..]) == PopIds(s) - {s[k]}
  {
    var r := s[..k] + s[k + 1..];
    forall id | id in PopIds(s) && id != s[k] ensures id in PopIds(r) {
      var i :| 0 <= i < |s| && s[i] == id;
      assert r[if i < k then i else i - 1] == s[i];
    }
  }

  lemma FateNew(clock: nat, a: set<nat>, b: set<nat>, c: set<nat>, d: set<nat>)
    requires Fates(clock, a, b, c, d)
    ensures Fates(clock + 1, a + {clock}, b, c, d) && Fates(clock + 1, a, b + {clock}, c, d)
    ensures Fates(clock + 1, a, b, c + {clock}, d) && Fates(clock + 1, a, b, c, d + {clock})
  {
  }

  lemma FateMove(clock: nat, a: set<nat>, b: set<nat>, c: set<nat>, d: set<nat>, x: nat)
    requires Fates(clock, a, b, c, d)
    ensures x in b ==> Fates(clock, a + {x}, b - {x}, c, d)
    ensures x in d ==> Fates(clock, a, b, c + {x}, d - {x})
  {
  }

  // ---- pushes ----

  /** A push is refused, or stores or parks its item, or hands it to the first parked pop. */
  lemma PushCases<T>(w: World<T>, item: T, parks: bool)
    requires Wf(w.chan)
    ensures var e := PushEffect(w, item, parks);
            var w', w1 := AfterPush(w, item, parks), NotePush(w, e, item, parks);
            if w.chan.poppers == [] then e.wakes == [] && w' == w1
            else e.code == OK && w' == RecordOne(w1, WakePop(w.chan.poppers[0], OK, Some(item)))
  {
    var e := PushEffect(w, item, parks);
    if e.wakes != [] { RecordSingle(NotePush(w, e, item, parks), e.wakes); }
  }

  /** An accepted item goes to the end of what has been delivered and what is queued. */
  lemma PushOutQueue<T>(w: World<T>, item: T, parks: bool)
    requires Wf(w.chan) && AfterPush(w, item, parks).accepted != w.accepted
    ensures var w' := AfterPush(w, item, parks);
            && Wf(w'.chan)
            && Values(w'.delivered) + Queue(w'.chan) == Values(w.delivered) + Queue(w.chan) + [item]
            && (w'.chan.pushers == w.chan.pushers + [(w.clock, item)] || w'.chan.pushers == [])
  {
    PushCases(w, item, parks);
    PushIsEnqueue(w.chan, w.clock, item);
    if w.chan.poppers != [] {
      ValuesConcat(w.delivered, [(w.chan.poppers[0], item)]);
    }
  }

  /** An accepted push is logged last; a refused one changes nothing but the clock. */
  lemma PushAccepts<T>(w: World<T>, item: T, parks: bool)
    requires Wf(w.chan)
    ensures var w' := AfterPush(w, item, parks);
            && w'.clock == w.clock + 1 && w'.withdrawn == w.withdrawn
            && if w'.accepted != w.accepted then w'.accepted == w.accepted + [(w.clock, item)]
               else w'.chan == w.chan && w'.delivered == w.delivered
  {
    PushCases(w, item, parks);
  }

  lemma PushFlow<T>(w: World<T>, item: T, parks: bool)
    requires FlowInv(w)
    ensures FlowInv(AfterPush(w, item, parks))
  {
    var w' := AfterPush(w, item, parks);
    PushAccepts(w, item, parks);
    if w'.accepted != w.accepted {
      PushOutQueue(w, item, parks);
      FlowEnqueue(w.accepted, w.withdrawn, w.clock, Values(w.delivered), Queue(w.chan), w.chan.pushers,
                  item, Values(w'.delivered), Queue(w'.chan), w'.chan.pushers);
    } else {
      FlowWaits(w.accepted, w.withdrawn, w.clock, Values(w.delivered), Queue(w.chan), w.chan.pushers);
    }
  }

  lemma FlowWaits<T>(a: seq<(nat, T)>, wd: set<nat>, clock: nat, out: seq<T>, queue: seq<T>, ps: seq<(nat, T)>)
    requires Flow(a, wd, clock, out, queue, ps)
    ensures Flow(a, wd, clock + 1, out, queue, ps)
  {
  }

  lemma PushService<T>(w: World<T>, item: T, parks: bool)
    requires Wf(w.chan) && ServiceInv(w)
    ensures ServiceInv(AfterPush(w, item, parks))
  {
    PushCases(w, item, parks);
  }

  lemma PushFates<T>(w: World<T>, item: T, parks: bool)
    requires Wf(w.chan) && ServiceInv(w) && FateInv(w)
    ensures FateInv(AfterPush(w, item, parks))
  {
    PushCases(w, item, parks);
    var w' := AfterPush(w, item, parks);
    var a, b, c, d := w.pushDone.Keys, PushIds(w.chan.pushers), w.popDone.Keys, PopIds(w.chan.poppers);
    FateNew(w.clock, a, b, c, d);
    if w.chan.poppers != [] {
      PopIdsRemove(w.chan.poppers, 0);
      FateMove(w'.clock, a + {w.clock}, b, c, d, w.chan.poppers[0]);
      assert w'.pushDone.Keys == a + {w.clock} && w'.popDone.Keys == c + {w.chan.poppers[0]};
    } else {
      PushIdsAppend(w.chan.pushers, (w.clock, item));
      assert w'.pushDone.Keys == a + {w.clock} || w'.pushDone.Keys == a;
    }
  }

  // ---- pops ----

  /** A pop leaves the waiting pushes alone when there are none, else lets the first of them in. */
  lemma PopCases<T>(w: World<T>, parks: bool)
    requires Wf(w.chan)
    ensures var e := PopEffect(w, parks); var w' := AfterPop(w, parks); var w1 := NotePop(w, e, parks);
            if w.chan.pushers == [] then e.wakes == [] && w' == w1 && e.chan.pushers == []
            else e.code == OK && e.chan.pushers == w.chan.pushers[1..] && e.chan.poppers == []
                 && w' == RecordOne(w1, WakePush(w.chan.pushers[0].0, OK))
  {
    var e := PopEffect(w, parks);
    if e.wakes != [] { RecordSingle(NotePop(w, e, parks), e.wakes); }
  }

  lemma PopTakesFront<T>(w: World<T>, parks: bool)
    requires Wf(w.chan)
    ensures var e := PopEffect(w, parks);
            Wf(e.chan) && Queue(w.chan) == (if e.item.Some? then [e.item.value] else []) + Queue(e.chan)
  {
    PopIsDequeue(w.chan);
  }

  lemma PopBalance<T>(w: World<T>, parks: bool)
    requires Wf(w.chan)
    ensures var w' := AfterPop(w, parks); var e := PopEffect(w, parks);
            && w'.accepted == w.accepted && w'.withdrawn == w.withdrawn && w'.clock == w.clock + 1 && w'.chan == e.chan
            && w'.delivered == w.delivered + if e.item.Some? then [(w.clock, e.item.value)] else []
  {
    PopCases(w, parks);
  }

  lemma PopOutQueue<T>(w: World<T>, parks: bool)
    requires Wf(w.chan)
    ensures Values(AfterPop(w, parks).delivered) + Queue(PopEffect(w, parks).chan)
            == Values(w.delivered) + Queue(w.chan)
  {
    PopBalance(w, parks);
    PopTakesFront(w, parks);
    var e := PopEffect(w, parks);
    if e.item.Some? {
      ValuesConcat(w.delivered, [(w.clock, e.item.value)]);
      MovesOver(Values(w.delivered), e.item.value, Queue(e.chan));
    }
  }

  lemma MovesOver<T>(out: seq<T>, x: T, queue: seq<T>)
    ensures (out + [x]) + queue == out + ([x] + queue)
  {
  }

  lemma PopFlow<T>(w: World<T>, parks: bool)
    requires FlowInv(w)
    ensures FlowInv(AfterPop(w, parks))
  {
    var c, w' := PopEffect(w, parks).chan, AfterPop(w, parks);
    PopOutQueue(w, parks);
    PopPushers(w, parks);
    FlowDequeue(w.accepted, w.withdrawn, w.clock, Values(w.delivered), Queue(w.chan), w.chan.pushers,
                Values(w'.delivered), Queue(c), c.pushers);
    PopBalance(w, parks);
    PopTakesFront(w, parks);
  }

  lemma PopPushers<T>(w: World<T>, parks: bool)
    requires Wf(w.chan)
    ensures var c := PopEffect(w, parks).chan;
            c.pushers == w.chan.pushers || (w.chan.pushers != [] && c.pushers == w.chan.pushers[1..])
  {
  }

  /** An item goes to a new pop only when no older pop waits. */
  lemma PopPoppers<T>(w: World<T>, parks: bool)
    requires Wf(w.chan)
    ensures var e := PopEffect(w, parks);
            && (e.item.Some? ==> w.chan.poppers == [] && e.chan.poppers == [])
            && (e.chan.poppers == w.chan.poppers || e.chan.poppers == w.chan.poppers + [w.clock])
  {
  }

  lemma PopService<T>(w: World<T>, parks: bool)
    requires Wf(w.chan) && ServiceInv(w)
    ensures ServiceInv(AfterPop(w, parks))
  {
    PopBalance(w, parks);
    PopPushers(w, parks);
    PopPoppers(w, parks);
  }

  lemma PopFatesTaken<T>(w: World<T>, parks: bool)
    requires Wf(w.chan) && ServiceInv(w) && FateInv(w) && w.chan.pushers != []
    ensures FateInv(AfterPop(w, parks))
  {
    PopCases(w, parks);
    PopPoppers(w, parks);
    var w' := AfterPop(w, parks);
    var a, b, c, d := w.pushDone.Keys, PushIds(w.chan.pushers), w.popDone.Keys, PopIds(w.chan.poppers);
    FateNew(w.clock, a, b, c, d);
    PushIdsRemove(w.chan.pushers, 0);
    FateMove(w'.clock, a, b, c + {w.clock}, d, w.chan.pushers[0].0);
    assert w'.popDone.Keys == c + {w.clock} && w'.pushDone.Keys == a + {w.chan.pushers[0].0};
  }

  lemma PopFates<T>(w: World<T>, parks: bool)
    requires Wf(w.chan) && ServiceInv(w) && FateInv(w)
    ensures FateInv(AfterPop(w, parks))
  {
    if w.chan.pushers != [] {
      PopFatesTaken(w, parks);
    } else {
      PopCases(w, parks);
      PopPoppers(w, parks);
      var w' := AfterPop(w, parks);
      var a, b, c, d := w.pushDone.Keys, PushIds(w.chan.pushers), w.popDone.Keys, PopIds(w.chan.poppers);
      FateNew(w.clock, a, b, c, d);
      assert PopIds(w.chan.poppers + [w.clock]) == d + {w.clock};
      assert w'.popDone.Keys == c + {w.clock} || w'.popDone.Keys == c;
    }
  }

  // ---- cancels ----

  lemma FlowRemove<T>(a: seq<(nat, T)>, wd: set<nat>, clock: nat, out: seq<T>, queue: seq<T>, ps: seq<(nat, T)>, k: nat)
    requires Flow(a, wd, clock, out, queue, ps) && k < |ps| <= |queue|
    ensures var at := |queue| - |ps| + k;
            Flow(a, wd + {ps[k].0}, clock, out, queue[..at] + queue[at + 1..], ps[..k] + ps[k + 1..])
  {
    var kept := Kept(a, wd);
    var j := |kept| - |ps| + k;
    assert kept[j] == ps[k];
    KeptWithdraw(a, wd, j);
    KeptAscending(a, wd, clock);
    ValuesRemove(kept, out, queue, j);
    SuffixRemove(kept, ps, k);
    LengthsAdd(kept, out, queue);
  }

  lemma LengthsAdd<T>(kept: seq<(nat, T)>, out: seq<T>, queue: seq<T>)
    requires Values(kept) == out + queue
    ensures |kept| == |out| + |queue|
  {
  }

  lemma ValuesRemove<T>(kept: seq<(nat, T)>, out: seq<T>, queue: seq<T>, j: nat)
    requires Values(kept) == out + queue && |out| <= j < |kept|
    ensures var at := j - |out|; Values(kept[..j] + kept[j + 1..]) == out + (queue[..at] + queue[at + 1..])
  {
    ValuesConcat(kept[..j], kept[j + 1..]);
    assert Values(kept[..j]) == (out + queue)[..j] && Values(kept[j + 1..]) == (out + queue)[j + 1..];
  }

  lemma SuffixRemove<E>(kept: seq<E>, ps: seq<E>, k: nat)
    requires k < |ps| <= |kept| && kept[|kept| - |ps|..] == ps
    ensures var j := |kept| - |ps| + k; var r := kept[..j] + kept[j + 1..];
            r[|r| - (|ps| - 1)..] == ps[..k] + ps[k + 1..]
  {
    var j := |kept| - |ps| + k;
    assert kept[j - k..j] == ps[..k] && kept[j + 1..] == ps[k + 1..];
  }

  lemma {:induction false} CancelPushShape<T>(w: World<T>, id: nat, k: nat)
    requires Wf(w.chan) && !w.panicked && k == IndexOfPush(w.chan.pushers, id) < |w.chan.pushers|
    ensures Do(w, CancelPushCall(id)) == w.(chan := CancelPushAt(w.chan, k), pushDone := w.pushDone[id := ECANCELED],
                                            withdrawn := w.withdrawn + {id})
  {
    RecordSingle(w.(chan := CancelPushAt(w.chan, k)), [WakePush(id, ECANCELED)]);
  }

  lemma CancelPushFlow<T>(w: World<T>, k: nat)
    requires FlowInv(w) && k < |w.chan.pushers|
    ensures var c := CancelPushAt(w.chan, k);
            && Wf(c)
            && Flow(w.accepted, w.withdrawn + {w.chan.pushers[k].0}, w.clock, Values(w.delivered), Queue(c), c.pushers)
  {
    CancelIsRemoval(w.chan, k);
    FlowRemove(w.accepted, w.withdrawn, w.clock, Values(w.delivered), Queue(w.chan), w.chan.pushers, k);
  }

  lemma CancelPushFates<T>(w: World<T>, k: nat)
    requires ServiceInv(w) && FateInv(w) && k < |w.chan.pushers|
    ensures var id := w.chan.pushers[k].0; var c := CancelPushAt(w.chan, k);
            && Service(w.clock, c.pushers, w.delivered, c.poppers)
            && Fates(w.clock, w.pushDone[id := ECANCELED].Keys, PushIds(c.pushers), w.popDone.Keys, PopIds(c.poppers))
  {
    var id := w.chan.pushers[k].0;
    PushIdsRemove(w.chan.pushers, k);
    FateMove(w.clock, w.pushDone.Keys, PushIds(w.chan.pushers), w.popDone.Keys, PopIds(w.chan.poppers), id);
    assert w.pushDone[id := ECANCELED].Keys == w.pushDone.Keys + {id};
  }

  lemma CancelPushKeeps<T>(w: World<T>, id: nat)
    requires Inv(w) && !w.panicked
    ensures Inv(Do(w, CancelPushCall(id)))
  {
    var k := IndexOfPush(w.chan.pushers, id);
    if k < |w.chan.pushers| {
      CancelPushShape(w, id, k);
      CancelPushFlow(w, k);
      CancelPushFates(w, k);
    }
  }

  lemma CancelPopFates<T>(w: World<T>, k: nat)
    requires ServiceInv(w) && FateInv(w) && k < |w.chan.poppers|
    ensures var id := w.chan.poppers[k]; var c := CancelPopAt(w.chan, k);
            && Service(w.clock, c.pushers, w.delivered, c.poppers)
            && Fates(w.clock, w.pushDone.Keys, PushIds(c.pushers), w.popDone[id := (ECANCELED, None)].Keys,
                     PopIds(c.poppers))
  {
    var id := w.chan.poppers[k];
    PopIdsRemove(w.chan.poppers, k);
    FateMove(w.clock, w.pushDone.Keys, PushIds(w.chan.pushers), w.popDone.Keys, PopIds(w.chan.poppers), id);
    assert w.popDone[id := (ECANCELED, None)].Keys == w.popDone.Keys + {id};
  }

  lemma CancelPopKeeps<T>(w: World<T>, id: nat)
    requires Inv(w) && !w.panicked
    ensures Inv(Do(w, CancelPopCall(id)))
  {
    var k := IndexOfPop(w.chan.poppers, id);
    if k < |w.chan.poppers| {
      var w1 := w.(chan := CancelPopAt(w.chan, k));
      RecordSingle(w1, [WakePop(id, ECANCELED, None)]);
      CancelPopFates(w, k);
      assert Queue(w1.chan) == Queue(w.chan);
    }
  }

  // ---- close ----

  /** Withdrawing the youngest m of what is kept truncates it. */
  lemma {:induction false} KeptTruncate<T>(a: seq<(nat, T)>, wd: set<nat>, m: nat)
    requires Ascending(a) && m <= |Kept(a, wd)|
    ensures var kept := Kept(a, wd); Kept(a, wd + PushIds(kept[|kept| - m..])) == kept[..|kept| - m]
    decreases m
  {
    var kept := Kept(a, wd);
    var n := |kept| - 1;
    if m == 0 {
      assert wd + PushIds(kept[|kept|..]) == wd;
    } else {
      KeptWithdraw(a, wd, n);
      assert kept[..n] + kept[n + 1..] == kept[..n];
      KeptTruncate(a, wd + {kept[n].0}, m - 1);
      YoungestIds(kept, wd, m);
    }
  }

  /** Withdrawing the youngest, and then the others of the `m` youngest. */
  lemma YoungestIds<T>(kept: seq<(nat, T)>, wd: set<nat>, m: nat)
    requires 0 < m <= |kept|
    ensures var n := |kept| - 1;
            && kept[..n][..n - (m - 1)] == kept[..|kept| - m]
            && wd + {kept[n].0} + PushIds(kept[..n][n - (m - 1)..]) == wd + PushIds(kept[|kept| - m..])
  {
    var n, k := |kept| - 1, |kept| - m;
    var others := kept[k..n];
    assert others + [kept[n]] == kept[k..];
    assert kept[..n][k..] == others;
    PushIdsAppend(others, kept[n]);
  }

  /** Cutting off all parked pushes leaves exactly the buffered items. */
  lemma FlowTruncate<T>(a: seq<(nat, T)>, wd: set<nat>, clock: nat, out: seq<T>, queue: seq<T>, ps: seq<(nat, T)>)
    requires Flow(a, wd, clock, out, queue, ps) && |ps| <= |queue|
    ensures Flow(a, wd + PushIds(ps), clock, out, queue[..|queue| - |ps|], [])
  {
    KeptTruncate(a, wd, |ps|);
    KeptAscending(a, wd, clock);
  }

  lemma {:induction false} RecordConcat<T>(w: World<T>, x: seq<Wake<T, nat, nat>>, y: seq<Wake<T, nat, nat>>)
    ensures Record(w, x + y) == Record(Record(w, x), y)
    decreases |x|
  {
    if x == [] {
      assert x + y == y;
    } else {
      assert (x + y)[1..] == x[1..] + y;
      RecordConcat(RecordOne(w, x[0]), x[1..], y);
    }
  }

  lemma {:induction false} RecordClosedPops<T>(w: World<T>, qs: seq<nat>)
    ensures Record(w, ClosedPops<T, nat, nat>(qs)) == w.(popDone := w.popDone + AllTo(PopIds(qs), (EPIPE, None)))
    decreases |qs|
  {
    if qs == [] {
      assert w.popDone + AllTo(PopIds(qs), (EPIPE, None)) == w.popDone;
    } else {
      var wakes: seq<Wake<T, nat, nat>> := ClosedPops<T, nat, nat>(qs);
      assert wakes[1..] == ClosedPops<T, nat, nat>(qs[1..]);
      RecordClosedPops(RecordOne(w, wakes[0]), qs[1..]);
      assert PopIds(qs) == {qs[0]} + PopIds(qs[1..]);
      UpdateThenMerge(w.popDone, qs[0], PopIds(qs[1..]), (EPIPE, None));
    }
  }

  ghost function AllTo<V>(s: set<nat>, v: V): map<nat, V> {
    map q | q in s :: v
  }

  lemma UpdateThenMerge<V>(m: map<nat, V>, x: nat, s: set<nat>, v: V)
    ensures m[x := v] + AllTo(s, v) == m + AllTo({x} + s, v)
  {
  }

  lemma {:induction false} RecordClosedPushes<T>(w: World<T>, ps: seq<(nat, T)>)
    ensures Record(w, ClosedPushes<T, nat, nat>(ps)) == w.(pushDone := w.pushDone + AllTo(PushIds(ps), EPIPE),
                                              withdrawn := w.withdrawn + PushIds(ps))
    decreases |ps|
  {
    if ps == [] {
      assert w.pushDone + AllTo(PushIds(ps), EPIPE) == w.pushDone && w.withdrawn + PushIds(ps) == w.withdrawn;
    } else {
      var wakes: seq<Wake<T, nat, nat>> := ClosedPushes<T, nat, nat>(ps);
      assert wakes[1..] == ClosedPushes<T, nat, nat>(ps[1..]);
      RecordClosedPushes(RecordOne(w, wakes[0]), ps[1..]);
      PushIdsCons(ps);
      UpdateThenMerge(w.pushDone, ps[0].0, PushIds(ps[1..]), EPIPE);
      assert w.withdrawn + {ps[0].0} + PushIds(ps[1..]) == w.withdrawn + PushIds(ps);
    }
  }

  lemma PushIdsCons<T>(ps: seq<(nat, T)>)
    requires ps != []
    ensures PushIds(ps) == {ps[0].0} + PushIds(ps[1..])
  {
    forall id | id in PushIds(ps) && id != ps[0].0 ensures id in PushIds(ps[1..]) {
      var i :| 0 <= i < |ps| && ps[i].0 == id;
      assert ps[1..][i - 1] == ps[i];
    }
  }

  /** What a first close does to the books. */
  lemma CloseRecorded<T>(w: World<T>)
    requires !w.chan.closed && !w.panicked && Wf(w.chan)
    ensures Do(w, CloseCall) ==
            w.(chan := Close(w.chan).chan,
               popDone := w.popDone + AllTo(PopIds(w.chan.poppers), (EPIPE, None)),
               pushDone := w.pushDone + AllTo(PushIds(w.chan.pushers), EPIPE),
               withdrawn := w.withdrawn + PushIds(w.chan.pushers))
  {
    var ps, qs := w.chan.pushers, w.chan.poppers;
    var w1 := w.(chan := Close(w.chan).chan);
    RecordConcat(w1, ClosedPops<T, nat, nat>(qs), ClosedPushes<T, nat, nat>(ps));
    RecordClosedPops(w1, qs);
    RecordClosedPushes(Record(w1, ClosedPops<T, nat, nat>(qs)), ps);
  }

  lemma MergedKeys<V>(m: map<nat, V>, s: set<nat>, v: V)
    ensures (m + AllTo(s, v)).Keys == m.Keys + s
  {
  }

  lemma FateClose(clock: nat, a: set<nat>, b: set<nat>, c: set<nat>, d: set<nat>)
    requires Fates(clock, a, b, c, d)
    ensures Fates(clock, a + b, {}, c + d, {})
  {
  }

  lemma CloseKeeps<T>(w: World<T>)
    requires Inv(w) && !w.panicked
    ensures Inv(Do(w, CloseCall))
  {
    if !w.chan.closed {
      CloseRecorded(w);
      CloseFlow(w);
      CloseFates(w);
    }
  }

  lemma CloseFlow<T>(w: World<T>)
    requires FlowInv(w)
    ensures var c := Close(w.chan).chan;
            && Wf(c)
            && (!w.chan.closed ==>
                  Flow(w.accepted, w.withdrawn + PushIds(w.chan.pushers), w.clock, Values(w.delivered), Queue(c),
                       c.pushers))
  {
    FlowTruncate(w.accepted, w.withdrawn, w.clock, Values(w.delivered), Queue(w.chan), w.chan.pushers);
    assert Queue(w.chan)[..|w.chan.buf|] == w.chan.buf;
    var c := Close(w.chan).chan;
    assert c.pushers == [] ==> Queue(c) == c.buf;
  }

  lemma CloseFates<T>(w: World<T>)
    requires FateInv(w)
    ensures Fates(w.clock, (w.pushDone + AllTo(PushIds(w.chan.pushers), EPIPE)).Keys, PushIds<T>([]),
                  (w.popDone + AllTo(PopIds(w.chan.poppers), (EPIPE, None))).Keys, PopIds([]))
  {
    MergedKeys(w.pushDone, PushIds(w.chan.pushers), EPIPE);
    MergedKeys(w.popDone, PopIds(w.chan.poppers), (EPIPE, None));
    FateClose(w.clock, w.pushDone.Keys, PushIds(w.chan.pushers), w.popDone.Keys, PopIds(w.chan.poppers));
    assert PushIds<T>([]) == {} == PopIds([]);
  }

  // ---- what the reported outcomes mean ----

  ghost predicate Has<T>(s: seq<(nat, T)>, id: nat) {
    exists i :: 0 <= i < |s| && s[i].0 == id
  }

  /** A pop reports success exactly when it is listed as the receiver of that very item. */
  ghost predicate PopReports<T>(delivered: seq<(nat, T)>, popDone: map<nat, (int, Option<T>)>) {
    && (forall i :: 0 <= i < |delivered| ==>
          delivered[i].0 in popDone && popDone[delivered[i].0] == (OK, Some(delivered[i].1)))
    && (forall q :: q in popDone && (popDone[q].0 == OK || popDone[q].1.Some?) ==> Has(delivered, q))
  }

  /** A push reports success only if it was accepted, and failure after acceptance only if it was withdrawn. */
  ghost predicate PushReports<T>(accepted: seq<(nat, T)>, withdrawn: set<nat>, pushDone: map<nat, int>) {
    && (forall i :: 0 <= i < |accepted| ==>
          (accepted[i].0 in withdrawn <==> accepted[i].0 in pushDone && pushDone[accepted[i].0] != OK))
    && (forall p :: p in pushDone && pushDone[p] == OK ==> Has(accepted, p))
  }

  ghost predicate ReportInv<T>(w: World<T>) {
    PopReports(w.delivered, w.popDone) && PushReports(w.accepted, w.withdrawn, w.pushDone)
  }

  lemma PopReportsFail<T>(delivered: seq<(nat, T)>, done: map<nat, (int, Option<T>)>, q: nat, code: int)
    requires PopReports(delivered, done) && q !in done && code != OK
    ensures PopReports(delivered, done[q := (code, None)])
  {
  }

  lemma PopReportsGain<T>(delivered: seq<(nat, T)>, done: map<nat, (int, Option<T>)>, q: nat, x: T)
    requires PopReports(delivered, done) && q !in done
    ensures PopReports(delivered + [(q, x)], done[q := (OK, Some(x))])
  {
    var d := delivered + [(q, x)];
    assert d[|delivered|] == (q, x);
    forall r | r in done && Has(delivered, r) ensures Has(d, r) {
      var i :| 0 <= i < |delivered| && delivered[i].0 == r;
      assert d[i].0 == r;
    }
  }

  lemma PushReportsAccept<T>(a: seq<(nat, T)>, wd: set<nat>, done: map<nat, int>, id: nat, x: T)
    requires PushReports(a, wd, done) && id !in done && id !in wd && Below(a, id)
    ensures PushReports(a + [(id, x)], wd, done) && PushReports(a + [(id, x)], wd, done[id := OK])
  {
    var a' := a + [(id, x)];
    assert a'[|a|] == (id, x);
    forall p | Has(a, p) ensures Has(a', p) {
      var i :| 0 <= i < |a| && a[i].0 == p;
      assert a'[i].0 == p;
    }
  }

  lemma PushReportsRefuse<T>(a: seq<(nat, T)>, wd: set<nat>, done: map<nat, int>, id: nat, code: int)
    requires PushReports(a, wd, done) && Below(a, id) && code != OK && id !in done
    ensures PushReports(a, wd, done[id := code])
  {
  }

  lemma PushReportsWake<T>(a: seq<(nat, T)>, wd: set<nat>, done: map<nat, int>, p: nat, code: int)
    requires PushReports(a, wd, done) && Has(a, p) && p !in done && p !in wd
    ensures PushReports(a, if code == OK then wd else wd + {p}, done[p := code])
  {
  }

  lemma {:induction false} KeptFrom<T>(a: seq<(nat, T)>, wd: set<nat>, j: nat)
    requires j < |Kept(a, wd)|
    ensures Has(a, Kept(a, wd)[j].0) && Kept(a, wd)[j].0 !in wd
  {
    var n := |a| - 1;
    if j < |Kept(a[..n], wd)| {
      KeptFrom(a[..n], wd, j);
      var i :| 0 <= i < n && a[..n][i].0 == Kept(a, wd)[j].0;
      assert a[i].0 == Kept(a, wd)[j].0;
    } else {
      assert a[n].0 == Kept(a, wd)[j].0;
    }
  }

  /** A parked push was accepted, has not been withdrawn and has not reported. */
  lemma ParkedPush<T>(w: World<T>, k: nat)
    requires FlowInv(w) && FateInv(w) && k < |w.chan.pushers|
    ensures var p := w.chan.pushers[k].0; Has(w.accepted, p) && p !in w.withdrawn && p !in w.pushDone
  {
    var kept := Kept(w.accepted, w.withdrawn);
    var j := |kept| - |w.chan.pushers| + k;
    assert kept[j] == w.chan.pushers[k];
    KeptFrom(w.accepted, w.withdrawn, j);
    assert w.chan.pushers[k].0 in PushIds(w.chan.pushers);
  }

  lemma Unreported<T>(w: World<T>)
    requires Inv(w)
    ensures w.clock !in w.pushDone && w.clock !in w.popDone && w.clock !in w.withdrawn
    ensures w.chan.poppers != [] ==> w.chan.poppers[0] !in w.popDone && w.chan.poppers[0] != w.clock
  {
    if w.chan.poppers != [] { assert w.chan.poppers[0] in PopIds(w.chan.poppers); }
  }

  lemma PushReported<T>(w: World<T>, item: T, parks: bool)
    requires Inv(w) && ReportInv(w)
    ensures ReportInv(AfterPush(w, item, parks))
  {
    PushCases(w, item, parks);
    Unreported(w);
    var e := PushEffect(w, item, parks);
    if e.code == OK || (e.code == EAGAIN && parks) {
      PushReportsAccept(w.accepted, w.withdrawn, w.pushDone, w.clock, item);
    } else {
      PushReportsRefuse(w.accepted, w.withdrawn, w.pushDone, w.clock, e.code);
    }
    if w.chan.poppers != [] {
      PopReportsGain(w.delivered, w.popDone, w.chan.poppers[0], item);
    }
  }

  lemma PopCode<T>(w: World<T>, parks: bool)
    requires Wf(w.chan)
    ensures var e := PopEffect(w, parks); (e.code == OK <==> e.item.Some?)
  {
    PopIsDequeue(w.chan);
  }

  lemma PopReported<T>(w: World<T>, parks: bool)
    requires Inv(w) && ReportInv(w)
    ensures ReportInv(AfterPop(w, parks))
  {
    PopCases(w, parks);
    PopCode(w, parks);
    Unreported(w);
    var e := PopEffect(w, parks);
    if e.code == OK {
      PopReportsGain(w.delivered, w.popDone, w.clock, e.item.value);
    } else {
      PopReportsFail(w.delivered, w.popDone, w.clock, e.code);
    }
    if w.chan.pushers != [] {
      ParkedPush(w, 0);
      PushReportsWake(w.accepted, w.withdrawn, w.pushDone, w.chan.pushers[0].0, OK);
    }
  }

  lemma CancelPushReported<T>(w: World<T>, id: nat)
    requires FlowInv(w) && FateInv(w) && ReportInv(w) && !w.panicked
    ensures ReportInv(Do(w, CancelPushCall(id)))
  {
    var k := IndexOfPush(w.chan.pushers, id);
    if k < |w.chan.pushers| {
      CancelPushShape(w, id, k);
      ParkedPush(w, k);
      PushReportsWake(w.accepted, w.withdrawn, w.pushDone, id, ECANCELED);
    }
  }

  lemma CancelPopReported<T>(w: World<T>, id: nat)
    requires FateInv(w) && ReportInv(w) && !w.panicked
    ensures ReportInv(Do(w, CancelPopCall(id)))
  {
    var j := IndexOfPop(w.chan.poppers, id);
    if j < |w.chan.poppers| {
      RecordSingle(w.(chan := CancelPopAt(w.chan, j)), [WakePop(id, ECANCELED, None)]);
      assert id in PopIds(w.chan.poppers);
      PopReportsFail(w.delivered, w.popDone, id, ECANCELED);
    }
  }

  lemma PopReportsMerge<T>(delivered: seq<(nat, T)>, done: map<nat, (int, Option<T>)>, s: set<nat>)
    requires PopReports(delivered, done) && s !! done.Keys
    ensures PopReports(delivered, done + AllTo(s, (EPIPE, None)))
  {
  }

  lemma PushReportsMerge<T>(a: seq<(nat, T)>, wd: set<nat>, done: map<nat, int>, s: set<nat>)
    requires PushReports(a, wd, done) && s !! done.Keys
    ensures PushReports(a, wd + s, done + AllTo(s, EPIPE))
  {
  }

  lemma CloseReported<T>(w: World<T>)
    requires Inv(w) && ReportInv(w) && !w.panicked
    ensures ReportInv(Do(w, CloseCall))
  {
    if !w.chan.closed {
      CloseRecorded(w);
      PopReportsMerge(w.delivered, w.popDone, PopIds(w.chan.poppers));
      PushReportsMerge(w.accepted, w.withdrawn, w.pushDone, PushIds(w.chan.pushers));
    }
  }

  // ---- every run ----

  lemma DoKeepsInv<T>(w: World<T>, c: Call<T>)
    requires Inv(w)
    ensures Inv(Do(w, c))
  {
    if !w.panicked {
      match c
      case TryPushCall(item) => PushFlow(w, item, false); PushService(w, item, false); PushFates(w, item, false);
      case PushCall(item) => PushFlow(w, item, true); PushService(w, item, true); PushFates(w, item, true);
      case ForcePushCall(item) =>
        if !w.chan.closed { PushFlow(w, item, true); PushService(w, item, true); PushFates(w, item, true); }
      case TryPopCall => PopFlow(w, false); PopService(w, false); PopFates(w, false);
      case PopCall => PopFlow(w, true); PopService(w, true); PopFates(w, true);
      case CancelPushCall(id) => CancelPushKeeps(w, id);
      case CancelPopCall(id) => CancelPopKeeps(w, id);
      case CloseCall => CloseKeeps(w);
    }
  }

  lemma DoKeepsReports<T>(w: World<T>, c: Call<T>)
    requires Inv(w) && ReportInv(w)
    ensures ReportInv(Do(w, c))
  {
    if !w.panicked {
      match c
      case TryPushCall(item) => PushReported(w, item, false);
      case PushCall(item) => PushReported(w, item, true);
      case ForcePushCall(item) => PushReported(w, item, true);
      case TryPopCall => PopReported(w, false);
      case PopCall => PopReported(w, true);
      case CancelPushCall(id) => CancelPushReported(w, id);
      case CancelPopCall(id) => CancelPopReported(w, id);
      case CloseCall => CloseReported(w);
    }
  }

  /** The state after a sequence of calls in lock order. */
  function Run<T>(cap: nat, calls: seq<Call<T>>): World<T>
    decreases |calls|
  {
    if calls == [] then Start(cap)
    else Do(Run(cap, calls[..|calls| - 1]), calls[|calls| - 1])
  }

  lemma {:induction false} RunKeepsInv<T>(cap: nat, calls: seq<Call<T>>)
    ensures Inv(Run(cap, calls)) && ReportInv(Run(cap, calls))
    decreases |calls|
  {
    if calls != [] {
      var n := |calls| - 1;
      RunKeepsInv(cap, calls[..n]);
      DoKeepsInv(Run(cap, calls[..n]), calls[n]);
      DoKeepsReports(Run(cap, calls[..n]), calls[n]);
    }
  }

  ghost predicate Extends<T>(w: World<T>, w': World<T>) {
    w.pushDone.Items <= w'.pushDone.Items && w.popDone.Items <= w'.popDone.Items
  }

  /** Reported outcomes are final: no later call changes or withdraws one. */
  lemma DoExtendsOutcomes<T>(w: World<T>, c: Call<T>)
    requires Inv(w)
    ensures Extends(w, Do(w, c))
  {
    if !w.panicked {
      match c
      case TryPushCall(item) => PushExtends(w, item, false);
      case PushCall(item) => PushExtends(w, item, true);
      case ForcePushCall(item) => PushExtends(w, item, true);
      case TryPopCall => PopExtends(w, false);
      case PopCall => PopExtends(w, true);
      case CancelPushCall(id) => CancelExtends(w, id);
      case CancelPopCall(id) => CancelPopExtends(w, id);
      case CloseCall =>
        if !w.chan.closed { CloseRecorded(w); }
    }
  }

  lemma PushExtends<T>(w: World<T>, item: T, parks: bool)
    requires Inv(w)
    ensures Extends(w, AfterPush(w, item, parks))
  {
    PushCases(w, item, parks);
    Unreported(w);
  }

  lemma CancelExtends<T>(w: World<T>, id: nat)
    requires FlowInv(w) && FateInv(w) && !w.panicked
    ensures Extends(w, Do(w, CancelPushCall(id)))
  {
    var k := IndexOfPush(w.chan.pushers, id);
    if k < |w.chan.pushers| { CancelPushShape(w, id, k); ParkedPush(w, k); }
  }

  lemma CancelPopExtends<T>(w: World<T>, id: nat)
    requires FateInv(w) && !w.panicked
    ensures Extends(w, Do(w, CancelPopCall(id)))
  {
    var j := IndexOfPop(w.chan.poppers, id);
    if j < |w.chan.poppers| {
      RecordSingle(w.(chan := CancelPopAt(w.chan, j)), [WakePop(id, ECANCELED, None)]);
      assert id in PopIds(w.chan.poppers);
    }
  }

  lemma PopExtends<T>(w: World<T>, parks: bool)
    requires Inv(w)
    ensures Extends(w, AfterPop(w, parks))
  {
    PopCases(w, parks);
    Unreported(w);
    if w.chan.pushers != [] { ParkedPush(w, 0); }
  }

  /**
   Main theorem. After any run: the items received so far, followed by the items in the
   buffer and the items of parked pushes, are the items of all pushes that entered the
   channel and did not report failure, in lock order, each once. The i-th successful pop
   in lock order received the i-th of them.
   */
  lemma {:induction false} ChannelIsFifo<T>(cap: nat, calls: seq<Call<T>>)
    ensures var w := Run(cap, calls); var kept := Kept(w.accepted, w.withdrawn);
            && Values(kept) == Values(w.delivered) + w.chan.buf + Items(w.chan.pushers)
            && Ascending(kept) && Ascending(w.delivered)
            && (forall i :: 0 <= i < |kept| ==>
                  Has(w.accepted, kept[i].0) && (kept[i].0 in w.pushDone ==> w.pushDone[kept[i].0] == OK))
            && (forall i :: 0 <= i < |w.delivered| ==>
                  w.delivered[i].0 in w.popDone && w.popDone[w.delivered[i].0] == (OK, Some(kept[i].1)))
  {
    RunKeepsInv(cap, calls);
    var w := Run(cap, calls);
    var kept := Kept(w.accepted, w.withdrawn);
    KeptAscending(w.accepted, w.withdrawn, w.clock);
    forall i | 0 <= i < |kept|
      ensures Has(w.accepted, kept[i].0) && (kept[i].0 in w.pushDone ==> w.pushDone[kept[i].0] == OK)
    {
      KeptFrom(w.accepted, w.withdrawn, i);
    }
    forall i | 0 <= i < |w.delivered|
      ensures w.delivered[i].0 in w.popDone && w.popDone[w.delivered[i].0] == (OK, Some(kept[i].1))
    {
      assert Values(kept)[i] == Values(w.delivered)[i];
    }
  }

  /** Every push or pop issued in a run has exactly one outcome or is parked in exactly one list. */
  lemma {:induction false} EveryCallHasOneFate<T>(cap: nat, calls: seq<Call<T>>, id: nat)
    ensures var w := Run(cap, calls);
            var a, b, c, d := id in w.pushDone, Has(w.chan.pushers, id), id in w.popDone, id in w.chan.poppers;
            && (id < w.clock <==> a || b || c || d)
            && !(a && b) && !(a && c) && !(a && d) && !(b && c) && !(b && d) && !(c && d)
  {
    RunKeepsInv(cap, calls);
    var w := Run(cap, calls);
    assert id in PushIds(w.chan.pushers) <==> Has(w.chan.pushers, id);
    assert id in PopIds(w.chan.poppers) <==> id in w.chan.poppers;
  }

  lemma {:induction false} RunStep<T>(cap: nat, calls: seq<Call<T>>, c: Call<T>)
    ensures Extends(Run(cap, calls), Run(cap, calls + [c]))
  {
    assert (calls + [c])[..|calls|] == calls;
    RunKeepsInv(cap, calls);
    DoExtendsOutcomes(Run(cap, calls), c);
  }

  /** Outcomes are final over whole runs. */
  lemma {:induction false} OutcomesAreFinal<T>(cap: nat, calls: seq<Call<T>>, more: seq<Call<T>>)
    ensures Extends(Run(cap, calls), Run(cap, calls + more))
    decreases |more|
  {
    if more == [] {
      assert calls + more == calls;
    } else {
      var n := |more| - 1;
      OutcomesAreFinal(cap, calls, more[..n]);
      RunStep(cap, calls + more[..n], more[n]);
      assert calls + more[..n] + [more[n]] == calls + more;
    }
  }
}
