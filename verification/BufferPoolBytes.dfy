/**
Which bytes a pool hands out. The kernel fills the buffers in ring order, each from its
first byte on; the pieces that the pool hands out, laid end to end, are those same bytes
in that order, none twice and none left out.
 */
module BufferPoolBytes {
  import opened Bits
  import opened BufferPool
  import opened BufferPoolRuns

  /** The addresses from `a` on, `n` of them. */
  function Range(a: nat, n: nat): seq<nat> {
    seq(n, i requires 0 <= i => a + i)
  }

  /** The addresses of the pieces, one piece after the other. */
  function Spread(ps: seq<Piece>): seq<nat> {
    if ps == [] then [] else Range(ps[0].data, ps[0].len) + Spread(ps[1..])
  }

  /** The addresses of the first `n` buffers ever placed in the ring. */
  function Whole(placed: seq<nat>, size: nat, n: nat): seq<nat>
    requires n <= |placed|
  {
    if n == 0 then [] else Whole(placed, size, n - 1) + Range(placed[n - 1] * size, size)
  }

  predicate OnRing(m: Mode, c: Cursor, n: nat) {
    OkMode(m) && OkCursor(m, c) && c.head <= n && (c.left < m.size ==> c.head < n)
  }

  /** What has been consumed at a cursor: whole buffers, and the first bytes of the current one. */
  function Consumed(placed: seq<nat>, m: Mode, c: Cursor): seq<nat>
    requires OnRing(m, c, |placed|)
  {
    Whole(placed, m.size, c.head) + if c.left == m.size then [] else Range(placed[c.head] * m.size, m.size - c.left)
  }

  lemma RangeJoin(a: nat, n: nat, k: nat)
    ensures Range(a, n) + Range(a + n, k) == Range(a, n + k)
  {
  }

  lemma {:induction false} SpreadConcat(a: seq<Piece>, b: seq<Piece>)
    ensures Spread(a + b) == Spread(a) + Spread(b)
  {
    if a == [] {
      assert a + b == b;
    } else {
      assert (a + b)[1..] == a[1..] + b;
      SpreadConcat(a[1..], b);
    }
  }

  lemma {:induction false} WholeFrame(placed: seq<nat>, more: seq<nat>, size: nat, n: nat)
    requires n <= |placed|
    ensures Whole(placed + more, size, n) == Whole(placed, size, n)
  {
    if n > 0 { WholeFrame(placed, more, size, n - 1); }
  }

  // ---- one completion ----

  /** A piece that begins where the cursor stands: it ends inside the buffer, or at its end and owned. */
  predicate NextPiece(m: Mode, id: nat, left: nat, p: Piece) {
    p.data == id * m.size + m.size - left && 0 < p.len <= left && (p.owned <==> p.len == left)
  }

  lemma PieceExtends(placed: seq<nat>, m: Mode, c: Cursor, p: Piece)
    requires OkMode(m) && OkCursor(m, c) && c.head < |placed| && NextPiece(m, placed[c.head], c.left, p)
    requires m.incr || p.owned
    ensures var c' := if p.owned then Cursor(c.head + 1, m.size) else Cursor(c.head, c.left - p.len);
            OkCursor(m, c') && Consumed(placed, m, c) + Range(p.data, p.len) == Consumed(placed, m, c')
  {
    var base := placed[c.head] * m.size;
    RangeJoin(base, m.size - c.left, p.len);
    assert Range(base, 0) == [];
  }

  /** The first turn of the walk, and what is left for the others. */
  lemma {:induction false} TakeHead(m: Mode, ids: seq<nat>, left: nat, bytes: nat)
    requires OkMode(m) && 1 <= left <= m.size && (!m.incr ==> left == m.size) && ids != [] && bytes > 0
    ensures var r := Take(m, ids, left, bytes);
            && r.pieces != [] && NextPiece(m, ids[0], left, r.pieces[0]) && (m.incr || r.pieces[0].owned)
            && if !r.pieces[0].owned then r == Taken([r.pieces[0]], 0, left - r.pieces[0].len)
               else var rest := Take(m, ids[1..], m.size, if bytes > left then bytes - left else 0);
                    r.pieces[1..] == rest.pieces && r.used == rest.used + 1 && r.left == rest.left
  {
    if bytes <= left { TakeNothing(m, ids[1..]); }
  }

  lemma {:induction false} LaidOut(before: seq<nat>, mid: seq<nat>, after: seq<nat>, ps: seq<Piece>)
    requires ps != [] && before + Range(ps[0].data, ps[0].len) == mid && mid + Spread(ps[1..]) == after
    ensures before + Spread(ps) == after
  {
  }

  /** The pieces `ps` are exactly the bytes from cursor `c` to cursor `c'`. */
  ghost predicate Between(m: Mode, placed: seq<nat>, c: Cursor, ps: seq<Piece>, c': Cursor) {
    OnRing(m, c, |placed|) && OnRing(m, c', |placed|) && Consumed(placed, m, c) + Spread(ps) == Consumed(placed, m, c')
  }

  lemma BetweenNone(m: Mode, placed: seq<nat>, c: Cursor)
    requires OnRing(m, c, |placed|)
    ensures Between(m, placed, c, [], c)
  {
    assert Consumed(placed, m, c) + [] == Consumed(placed, m, c);
  }

  lemma BetweenCons(m: Mode, placed: seq<nat>, c: Cursor, c1: Cursor, ps: seq<Piece>, c2: Cursor)
    requires OnRing(m, c, |placed|) && c.head < |placed| && ps != []
    requires NextPiece(m, placed[c.head], c.left, ps[0]) && (m.incr || ps[0].owned)
    requires c1 == if ps[0].owned then Cursor(c.head + 1, m.size) else Cursor(c.head, c.left - ps[0].len)
    requires Between(m, placed, c1, ps[1..], c2)
    ensures Between(m, placed, c, ps, c2)
  {
    PieceExtends(placed, m, c, ps[0]);
    LaidOut(Consumed(placed, m, c), Consumed(placed, m, c1), Consumed(placed, m, c2), ps);
  }

  lemma {:induction false} TakePart(m: Mode, placed: seq<nat>, c: Cursor, bytes: nat)
    requires OnRing(m, c, |placed|) && c.head < |placed| && bytes > 0
    requires var r := Take(m, placed[c.head..], c.left, bytes); r.pieces != [] && !r.pieces[0].owned
    ensures var r := Take(m, placed[c.head..], c.left, bytes);
            Between(m, placed, c, r.pieces, Cursor(c.head + r.used, r.left))
  {
    var r := Take(m, placed[c.head..], c.left, bytes);
    TakeHead(m, placed[c.head..], c.left, bytes);
    assert r.pieces[1..] == [];
    BetweenNone(m, placed, Cursor(c.head, r.left));
    BetweenCons(m, placed, c, Cursor(c.head, r.left), r.pieces, Cursor(c.head, r.left));
  }

  function RestOf(c: Cursor, bytes: nat): nat {
    if bytes > c.left then bytes - c.left else 0
  }

  /** What the walk hands out from cursor `c` on. */
  function Walk(m: Mode, placed: seq<nat>, c: Cursor, bytes: nat): Taken
    requires OnRing(m, c, |placed|)
  {
    Take(m, placed[c.head..], c.left, bytes)
  }

  ghost predicate Spreads(m: Mode, placed: seq<nat>, c: Cursor, bytes: nat)
    requires OnRing(m, c, |placed|)
  {
    var r := Walk(m, placed, c, bytes);
    Between(m, placed, c, r.pieces, Cursor(c.head + r.used, r.left))
  }

  lemma {:induction false} WalkOn(m: Mode, placed: seq<nat>, c: Cursor, bytes: nat)
    requires OnRing(m, c, |placed|) && c.head < |placed| && bytes > 0
    requires var r := Walk(m, placed, c, bytes); r.pieces != [] && r.pieces[0].owned
    ensures var r, rest := Walk(m, placed, c, bytes), Walk(m, placed, Cursor(c.head + 1, m.size), RestOf(c, bytes));
            && NextPiece(m, placed[c.head], c.left, r.pieces[0])
            && r.pieces[1..] == rest.pieces && r.used == rest.used + 1 && r.left == rest.left
  {
    assert placed[c.head..][1..] == placed[c.head + 1..];
    TakeHead(m, placed[c.head..], c.left, bytes);
  }

  lemma {:induction false} TakeWhole(m: Mode, placed: seq<nat>, c: Cursor, bytes: nat)
    requires OnRing(m, c, |placed|) && c.head < |placed| && bytes > 0
    requires var r := Walk(m, placed, c, bytes); r.pieces != [] && r.pieces[0].owned
    requires Spreads(m, placed, Cursor(c.head + 1, m.size), RestOf(c, bytes))
    ensures Spreads(m, placed, c, bytes)
  {
    var r := Walk(m, placed, c, bytes);
    WalkOn(m, placed, c, bytes);
    BetweenCons(m, placed, c, Cursor(c.head + 1, m.size), r.pieces, Cursor(c.head + r.used, r.left));
  }

  /** The walk over one completion hands out exactly the bytes between the two cursors. */
  lemma {:induction false} TakeSpreads(m: Mode, placed: seq<nat>, c: Cursor, bytes: nat)
    requires OnRing(m, c, |placed|)
    ensures Spreads(m, placed, c, bytes)
    decreases |placed| - c.head
  {
    if bytes == 0 || c.head == |placed| {
      BetweenNone(m, placed, c);
    } else {
      TakeHead(m, placed[c.head..], c.left, bytes);
      if Walk(m, placed, c, bytes).pieces[0].owned {
        TakeSpreads(m, placed, Cursor(c.head + 1, m.size), RestOf(c, bytes));
        TakeWhole(m, placed, c, bytes);
      } else {
        TakePart(m, placed, c, bytes);
      }
    }
  }

  // ---- whole runs ----

  /** A system with its history: the ids in the order they were placed in the ring, and all pieces
      handed out, in order. */
  datatype Logged = Logged(sys: Sys, placed: seq<nat>, out: seq<Piece>)

  function Begin(m: Mode, n: nat): Logged {
    Logged(Init(m, n), seq(n, i => i), [])
  }

  function Follow(l: Logged, x: Step): Logged
    requires Shaped(l.sys) && Enabled(l.sys, x)
  {
    var s := Next(l.sys, x);
    match x
    case Consume(_) => l.(sys := s)
    case Handle => l.(sys := s, out := l.out + s.held[|l.sys.held|..])
    case GiveBack(k) => l.(sys := s, placed := l.placed + [IdOf(s.m, l.sys.held[k].data)])
  }

  ghost predicate Follows(l: Logged, steps: seq<Step>, l': Logged)
    decreases |steps|
  {
    if steps == [] then l' == l
    else Shaped(l.sys) && Enabled(l.sys, steps[0]) && Follows(Follow(l, steps[0]), steps[1..], l')
  }

  /** The ring window is the end of what was placed, and what was handed out is what the pool's
      cursor has passed. */
  ghost predicate InStep(l: Logged) {
    && Inv(l.sys) && |l.placed| == l.sys.tl && OnRing(l.sys.m, l.sys.mirror, |l.placed|)
    && Ids(l.sys) == l.placed[l.sys.mirror.head..]
    && Spread(l.out) == Consumed(l.placed, l.sys.m, l.sys.mirror)
  }

  /** What handling does, told by the walk. */
  lemma HandleWalks(l: Logged)
    requires InStep(l) && Enabled(l.sys, Handle)
    ensures var s := l.sys; var r := Walk(s.m, l.placed, s.mirror, s.cqes[0].res);
            && Next(s, Handle).mirror == Cursor(s.mirror.head + r.used, r.left)
            && Follow(l, Handle).out == l.out + r.pieces
  {
    var s := l.sys;
    var r := Walk(s.m, l.placed, s.mirror, s.cqes[0].res);
    assert (s.held + r.pieces)[|s.held|..] == r.pieces;
  }

  lemma WindowLater(s: Sys, s': Sys, placed: seq<nat>)
    requires Shaped(s) && Shaped(s') && s'.slots == s.slots && s'.tl == s.tl == |placed|
    requires s.mirror.head <= s'.mirror.head && Ids(s) == placed[s.mirror.head..]
    ensures Ids(s') == placed[s'.mirror.head..]
  {
    WindowSplit(s.slots, s.mirror.head, s'.mirror.head, s.tl);
  }

  lemma {:induction false} LongerSpread(m: Mode, placed: seq<nat>, c: Cursor, out: seq<Piece>, ps: seq<Piece>,
                                        c': Cursor)
    requires Between(m, placed, c, ps, c') && Spread(out) == Consumed(placed, m, c)
    ensures Spread(out + ps) == Consumed(placed, m, c')
  {
    SpreadConcat(out, ps);
  }

  lemma HandleInStep(l: Logged)
    requires InStep(l) && Enabled(l.sys, Handle)
    ensures InStep(Follow(l, Handle))
  {
    var s, s' := l.sys, Next(l.sys, Handle);
    HandleKeeps(s);
    TakeSpreads(s.m, l.placed, s.mirror, s.cqes[0].res);
    HandleWalks(l);
    LongerSpread(s.m, l.placed, s.mirror, l.out, Walk(s.m, l.placed, s.mirror, s.cqes[0].res).pieces, s'.mirror);
    WindowLater(s, s', l.placed);
  }

  lemma ConsumedFrame(placed: seq<nat>, id: nat, m: Mode, c: Cursor)
    requires OnRing(m, c, |placed|)
    ensures Consumed(placed + [id], m, c) == Consumed(placed, m, c)
  {
    WholeFrame(placed, [id], m.size, c.head);
  }

  lemma GiveBackWindow(s: Sys, k: nat, placed: seq<nat>)
    requires Inv(s) && Enabled(s, GiveBack(k)) && s.tl == |placed| && Ids(s) == placed[s.mirror.head..]
    ensures Shaped(Next(s, GiveBack(k)))
    ensures Ids(Next(s, GiveBack(k))) == (placed + [IdOf(s.m, s.held[k].data)])[s.mirror.head..]
  {
    OwnedLeavesRoom(s, k);
    WindowAppend(s.slots, s.mirror.head, s.tl, IdOf(s.m, s.held[k].data));
  }

  lemma GiveBackInStep(l: Logged, k: nat)
    requires InStep(l) && Enabled(l.sys, GiveBack(k))
    ensures InStep(Follow(l, GiveBack(k)))
  {
    var s := l.sys;
    GiveBackKeeps(s, k);
    GiveBackWindow(s, k, l.placed);
    ConsumedFrame(l.placed, IdOf(s.m, s.held[k].data), s.m, s.mirror);
  }

  lemma FollowInStep(l: Logged, x: Step)
    requires InStep(l) && Enabled(l.sys, x)
    ensures InStep(Follow(l, x))
  {
    match x
    case Consume(res) => ConsumeKeeps(l.sys, res);
    case Handle => HandleInStep(l);
    case GiveBack(k) => GiveBackInStep(l, k);
  }

  lemma {:induction false} FollowsInStep(l: Logged, steps: seq<Step>, l': Logged)
    requires InStep(l) && Follows(l, steps, l')
    ensures InStep(l')
    decreases |steps|
  {
    if steps != [] {
      FollowInStep(l, steps[0]);
      FollowsInStep(Follow(l, steps[0]), steps[1..], l');
    }
  }

  lemma BeginInStep(m: Mode, n: nat)
    requires OkMode(m) && n >= 1
    ensures InStep(Begin(m, n))
  {
    InitInv(m, n);
    forall i | 0 <= i < n ensures Slot(i, n) == i { DivModUnique(i, n, 0, i); }
  }

  /**
   Over every run, in every mode: the pieces handed out so far, laid end to end, are the buffers in
   the order in which they were in the ring, each from its first byte to its last, up to the pool's
   cursor in the current one. With all completions handled, that is the kernel's cursor.
   */
  lemma {:induction false} EveryByteOnceInOrder(m: Mode, n: nat, steps: seq<Step>, l: Logged)
    requires OkMode(m) && n >= 1 && Follows(Begin(m, n), steps, l)
    ensures l.sys.m == m && OnRing(m, l.sys.mirror, |l.placed|)
    ensures Spread(l.out) == Consumed(l.placed, m, l.sys.mirror)
    ensures l.sys.cqes == [] ==> l.sys.mirror == l.sys.kernel
  {
    BeginInStep(m, n);
    FollowsInStep(Begin(m, n), steps, l);
    FollowsKeepsMode(Begin(m, n), steps, l);
  }

  lemma {:induction false} FollowsKeepsMode(l: Logged, steps: seq<Step>, l': Logged)
    requires Follows(l, steps, l')
    ensures l'.sys.m == l.sys.m
    decreases |steps|
  {
    if steps != [] { FollowsKeepsMode(Follow(l, steps[0]), steps[1..], l'); }
  }

  /** A completion's first piece starts where the kernel began to write, in the buffer it named; a piece
      is owned exactly if it ends at the end of its buffer. */
  lemma {:induction false} HandledWhereWritten(s: Sys)
    requires Inv(s) && s.cqes != []
    ensures var c, ps := s.cqes[0], Next(s, Handle).held[|s.held|..];
            ps != [] && ps[0].data == c.bid * s.m.size + (s.m.size - c.at.left)
    ensures forall p :: p in Next(s, Handle).held[|s.held|..] ==> (p.owned <==> (p.data + p.len) % s.m.size == 0)
  {
    MirrorAgrees(s);
    var c := s.cqes[0];
    var r := Take(s.m, Ids(s), s.mirror.left, c.res);
    assert Next(s, Handle).held[|s.held|..] == r.pieces;
    assert s.m.size * 0 == 0;
    assert Ids(s) != [] && Ids(s)[0] == c.bid;
    TakeHead(s.m, Ids(s), s.mirror.left, c.res);
    OwnedAtTheEnd(s.m, Ids(s), s.mirror.left, c.res);
  }

  lemma EndsAtBoundary(m: Mode, id: nat, left: nat, p: Piece)
    requires OkMode(m) && 1 <= left <= m.size && NextPiece(m, id, left, p)
    ensures p.owned <==> (p.data + p.len) % m.size == 0
  {
    var off := m.size - left + p.len;
    assert id * m.size == m.size * id && m.size * (id + 1) == m.size * id + m.size;
    if p.owned {
      DivModUnique(p.data + p.len, m.size, id + 1, 0);
    } else {
      DivModUnique(p.data + p.len, m.size, id, off);
    }
  }

  lemma {:induction false} OwnedAtTheEnd(m: Mode, ids: seq<nat>, left: nat, bytes: nat)
    requires OkMode(m) && 1 <= left <= m.size && (!m.incr ==> left == m.size)
    ensures forall p :: p in Take(m, ids, left, bytes).pieces ==> (p.owned <==> (p.data + p.len) % m.size == 0)
    decreases |ids|
  {
    if bytes > 0 && ids != [] {
      TakeHead(m, ids, left, bytes);
      var ps := Take(m, ids, left, bytes).pieces;
      EndsAtBoundary(m, ids[0], left, ps[0]);
      if ps[0].owned { OwnedAtTheEnd(m, ids[1..], m.size, if bytes > left then bytes - left else 0); }
      assert ps == [ps[0]] + ps[1..];
    }
  }
}
