// The finish handles that turn an operation's completion entries into calls of
// user code (detail/finish_handles.hpp), for single-shot, multishot and
// zero-copy operations.
module Completion {
  datatype Cqe = Cqe(res: int, more: bool, notif: bool)

  datatype Kind = Single | MultiShot | ZeroCopy

  /** What a handle does to the outside: it disarms its stop callback, calls its
      receiver or its per-completion callback with a handled entry, releases the
      zero-copy buffer, or deletes itself. */
  datatype Call = Disarm | Receiver(cqe: Cqe) | Callback(cqe: Cqe) | Free(res: int) | Delete

  function Finish(c: Cqe): seq<Call> {
    [Disarm, Receiver(c)]
  }

  function Notify(res: int): seq<Call> {
    [Free(res), Delete]
  }

  /** The calls made for one entry. */
  function Calls(kind: Kind, c: Cqe): seq<Call> {
    match kind
    case Single => Finish(c)
    case MultiShot => if c.more then [Callback(c)] else Finish(c)
    case ZeroCopy =>
      if c.more then Finish(c) else if c.notif then Notify(c.res) else Finish(c) + Notify(0)
  }

  /** Whether one entry is reported as the end of the operation. */
  predicate Ends(kind: Kind, c: Cqe) {
    kind == Single || !c.more
  }

  function AllCalls(kind: Kind, stream: seq<Cqe>): seq<Call> {
    if stream == [] then [] else AllCalls(kind, stream[..|stream| - 1]) + Calls(kind, stream[|stream| - 1])
  }

  class FinishHandle {
    const kind: Kind
    var log: seq<Call>
    var alive: bool

    constructor (kind: Kind)
      ensures this.kind == kind && log == [] && alive
    {
      this.kind := kind;
      log, alive := [], true;
    }

    /** handle(): only ever called on a handle that has not deleted itself. */
    method Handle(c: Cqe) returns (finished: bool)
      requires alive
      modifies this
      ensures log == old(log) + Calls(kind, c) && finished == Ends(kind, c)
      ensures alive <==> Delete !in Calls(kind, c)
    {
      match kind
      case Single =>
        Invoke(c);
        return true;
      case MultiShot =>
        if c.more {
          log := log + [Callback(c)];
          return false;
        }
        Invoke(c);
        return true;
      case ZeroCopy =>
        if c.more {
          Invoke(c);
          return false;
        }
        if c.notif {
          Release(c.res);
        } else {
          ghost var before := log;
          Invoke(c);
          Release(0);
          assert log == before + (Finish(c) + Notify(0));
        }
        return true;
    }

    method Invoke(c: Cqe)
      requires alive
      modifies this
      ensures log == old(log) + Finish(c) && alive
    {
      log := log + [Disarm];
      log := log + [Receiver(c)];
    }

    method Release(res: int)
      requires alive
      modifies this
      ensures log == old(log) + Notify(res) && !alive
    {
      log := log + [Free(res)];
      log := log + [Delete];
      alive := false;
    }
  }

  // ----- the kernel's contract -----

  /** The streams of entries an operation can produce. */
  predicate Legal(kind: Kind, stream: seq<Cqe>) {
    match kind
    case Single => |stream| == 1
    case MultiShot =>
      && stream != [] && !stream[|stream| - 1].more
      && forall i :: 0 <= i < |stream| - 1 ==> stream[i].more
    case ZeroCopy =>
      || (|stream| == 1 && !stream[0].more && !stream[0].notif)
      || (|stream| == 2 && stream[0].more && !stream[1].more && stream[1].notif)
  }

  /** What must come of them: every entry but the last of a multishot goes to
      the callback in order, then the receiver is called once; a zero-copy
      buffer is released once, after the receiver, and the handle goes last. */
  function Expected(kind: Kind, stream: seq<Cqe>): seq<Call>
    requires Legal(kind, stream)
  {
    var n := |stream| - 1;
    match kind
    case Single => [Disarm, Receiver(stream[0])]
    case MultiShot => seq(n, i requires 0 <= i < n => Callback(stream[i])) + [Disarm, Receiver(stream[n])]
    case ZeroCopy => [Disarm, Receiver(stream[0]), Free(if n == 1 then stream[1].res else 0), Delete]
  }

  lemma {:induction false} CallbacksOnly(stream: seq<Cqe>)
    requires forall i :: 0 <= i < |stream| ==> stream[i].more
    ensures AllCalls(MultiShot, stream) == seq(|stream|, i requires 0 <= i < |stream| => Callback(stream[i]))
  {
    if stream != [] {
      CallbacksOnly(stream[..|stream| - 1]);
    }
  }

  lemma {:induction false} LegalStreamsCall(kind: Kind, stream: seq<Cqe>)
    requires Legal(kind, stream)
    ensures AllCalls(kind, stream) == Expected(kind, stream)
  {
    var n := |stream| - 1;
    match kind
    case Single => assert stream[..n] == [];
    case MultiShot =>
      CallbacksOnly(stream[..n]);
      assert seq(n, i requires 0 <= i < n => Callback(stream[..n][i]))
          == seq(n, i requires 0 <= i < n => Callback(stream[i]));
    case ZeroCopy =>
      if n == 0 {
        assert stream[..n] == [];
      } else {
        assert AllCalls(ZeroCopy, stream[..1]) == Finish(stream[0]) by {
          assert stream[..1][..0] == [];
          assert stream[..1][0] == stream[0];
        }
      }
  }

  /** Handling a whole legal stream: the handle is never touched after deleting
      itself, the calls are the expected ones, and the end is reported once, on
      the last entry, so the pending counter drops exactly once. */
  method Drive(h: FinishHandle, stream: seq<Cqe>) returns (ends: nat)
    requires h.alive && h.log == [] && Legal(h.kind, stream)
    modifies h
    ensures h.log == Expected(h.kind, stream)
    ensures ends == 1
    ensures h.alive <==> h.kind != ZeroCopy
  {
    ends := 0;
    for i := 0 to |stream|
      invariant i < |stream| ==> h.alive && ends == 0
      invariant i == |stream| ==> ends == 1 && (h.alive <==> h.kind != ZeroCopy)
      invariant h.log == AllCalls(h.kind, stream[..i])
    {
      assert stream[..i + 1][..i] == stream[..i];
      var finished := h.Handle(stream[i]);
      if finished {
        ends := ends + 1;
      }
    }
    assert stream[..|stream|] == stream;
    LegalStreamsCall(h.kind, stream);
  }

  // ----- the contract is what is needed -----

  function Count(calls: seq<Call>, receivers: bool): nat {
    if calls == [] then 0
    else Count(calls[..|calls| - 1], receivers)
         + if (if receivers then calls[|calls| - 1].Receiver? else calls[|calls| - 1].Free?) then 1 else 0
  }

  lemma {:induction false} CountConcat(a: seq<Call>, b: seq<Call>, receivers: bool)
    ensures Count(a + b, receivers) == Count(a, receivers) + Count(b, receivers)
  {
    if b == [] {
      assert a + b == a;
    } else {
      assert (a + b)[..|a + b| - 1] == a + b[..|b| - 1];
      CountConcat(a, b[..|b| - 1], receivers);
    }
  }

  lemma CountOfTwo(x: Call, y: Call)
    ensures Count([x, y], true) == (if x.Receiver? then 1 else 0) + (if y.Receiver? then 1 else 0)
    ensures Count([x, y], false) == (if x.Free? then 1 else 0) + (if y.Free? then 1 else 0)
  {
    assert [x, y][..1] == [x] && [x][..0] == [];
    assert Count([x], true) == if x.Receiver? then 1 else 0;
    assert Count([x], false) == if x.Free? then 1 else 0;
  }

  lemma CountOfCalls(kind: Kind, c: Cqe)
    ensures Count(Calls(kind, c), true) ==
            (match kind case Single => 1 case MultiShot => if c.more then 0 else 1
             case ZeroCopy => if c.more || !c.notif then 1 else 0)
    ensures Count(Calls(kind, c), false) == if kind == ZeroCopy && !c.more then 1 else 0
  {
    var calls := Calls(kind, c);
    CountOfTwo(Disarm, Receiver(c));
    CountOfTwo(Free(c.res), Delete);
    CountOfTwo(Free(0), Delete);
    if kind == MultiShot && c.more {
      assert calls[..0] == [];
    } else if kind == ZeroCopy && !c.more && !c.notif {
      CountConcat(Finish(c), Notify(0), true);
      CountConcat(Finish(c), Notify(0), false);
    }
  }

  /** Receiver called once, end reported once and on the last entry, and for
      zero-copy the buffer released once. */
  predicate Clean(kind: Kind, stream: seq<Cqe>) {
    && stream != [] && Ends(kind, stream[|stream| - 1])
    && (forall i :: 0 <= i < |stream| - 1 ==> !Ends(kind, stream[i]))
    && Count(AllCalls(kind, stream), true) == 1
    && Count(AllCalls(kind, stream), false) == if kind == ZeroCopy then 1 else 0
  }

  /** With no end before, a multishot has called no receiver and a zero-copy
      operation has called one per entry. */
  lemma {:induction false} BeforeTheEnd(kind: Kind, stream: seq<Cqe>)
    requires forall i :: 0 <= i < |stream| ==> !Ends(kind, stream[i])
    ensures Count(AllCalls(kind, stream), false) == 0
    ensures Count(AllCalls(kind, stream), true) == if kind == ZeroCopy then |stream| else 0
  {
    if stream != [] {
      var n := |stream| - 1;
      BeforeTheEnd(kind, stream[..n]);
      CountOfCalls(kind, stream[n]);
      CountConcat(AllCalls(kind, stream[..n]), Calls(kind, stream[n]), true);
      CountConcat(AllCalls(kind, stream[..n]), Calls(kind, stream[n]), false);
    }
  }

  /** The handles behave on exactly the streams the contract allows. */
  lemma CleanExactly(kind: Kind, stream: seq<Cqe>)
    ensures Clean(kind, stream) <==> Legal(kind, stream)
  {
    if stream != [] && forall i :: 0 <= i < |stream| - 1 ==> !Ends(kind, stream[i]) {
      var n := |stream| - 1;
      BeforeTheEnd(kind, stream[..n]);
      CountOfCalls(kind, stream[n]);
      CountConcat(AllCalls(kind, stream[..n]), Calls(kind, stream[n]), true);
      CountConcat(AllCalls(kind, stream[..n]), Calls(kind, stream[n]), false);
    }
  }

  /** An operation that fails to start is completed by hand with one plain entry
      (op_states.hpp), which every kind of handle accepts. */
  lemma {:induction false} FailureIsClean(kind: Kind, res: int)
    ensures Clean(kind, [Cqe(res, false, false)])
    ensures AllCalls(kind, [Cqe(res, false, false)]) ==
            [Disarm, Receiver(Cqe(res, false, false))] + if kind == ZeroCopy then [Free(0), Delete] else []
  {
    var stream := [Cqe(res, false, false)];
    CleanExactly(kind, stream);
    LegalStreamsCall(kind, stream);
  }
}
