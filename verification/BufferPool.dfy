/**
The provided-buffer pool of provided_buffers.hpp. The pool mirrors, in user space, how far
the kernel has consumed the shared buffer ring: `br_head_` (16 bits, wrapping) and
`curr_buf_len_`. This file has the value-level meaning of one completion, its closed form
(what the kernel itself does), and the class that updates the ring in place.
 */
module BufferPool {
  import opened Bits

  /** A piece of buffer memory handed out; offsets are relative to buffers_base_. Owned pieces go back to the pool. */
  datatype Piece = Piece(data: nat, len: nat, owned: bool)

  /** How far the ring has been consumed: buffers finished, and bytes left in the current one. */
  datatype Cursor = Cursor(head: nat, left: nat)

  /** Settings of a pool: buffer size and whether buffers are consumed incrementally. */
  datatype Mode = Mode(size: nat, incr: bool)

  predicate OkMode(m: Mode) {
    1 <= m.size < 0x1_0000_0000
  }

  predicate OkCursor(m: Mode, c: Cursor) {
    1 <= c.left <= m.size && (!m.incr ==> c.left == m.size)
  }

  // ---- what the kernel does, in closed form ----

  /** Bytes that the next completion may report when n buffers are in the ring from the cursor on. */
  function Room(m: Mode, left: nat, n: nat): int
    requires OkMode(m)
  {
    m.size * n - (m.size - left)
  }

  /**
   The kernel consumes the ring in order: byte by byte when incremental, else in whole
   buffers (one, or as many as a bundle needs).
   */
  function KernelAfter(m: Mode, c: Cursor, res: nat): Cursor
    requires OkMode(m)
  {
    if m.incr then
      var used := m.size - c.left + res;
      if used < 0 then c
      else
        DivModIdentity(used, m.size);
        Cursor(c.head + used / m.size, m.size - used % m.size)
    else
      DivModIdentity(res + m.size - 1, m.size);
      Cursor(c.head + (res + m.size - 1) / m.size, m.size)
  }

  // ---- what the pool does, buffer by buffer ----

  datatype Taken = Taken(pieces: seq<Piece>, used: nat, left: nat)

  /** What one turn of the loop hands out of the buffer `id`; the piece is owned when it finishes the buffer. */
  function FirstPiece(m: Mode, id: nat, left: nat, bytes: nat): Piece
    requires OkMode(m) && 1 <= left <= m.size
  {
    var len := if m.incr && bytes < left then bytes else left;
    Piece(id * m.size + (m.size - left), len, len == left)
  }

  /** The loop of handle_finish over the buffer ids from the cursor on. */
  function Take(m: Mode, ids: seq<nat>, left: nat, bytes: int): Taken
    requires OkMode(m) && 1 <= left <= m.size
    decreases |ids|, left
  {
    if bytes <= 0 || ids == [] then Taken([], 0, left)
    else
      var p := FirstPiece(m, ids[0], left, bytes);
      if p.owned then
        var r := Take(m, ids[1..], m.size, bytes - p.len);
        Taken([p] + r.pieces, r.used + 1, r.left)
      else
        Taken([p], 0, left - p.len)
  }

  lemma StepBack(x: nat, d: nat)
    requires d >= 1 && x >= d
    ensures x / d == (x - d) / d + 1 && x % d == (x - d) % d
  {
    DivModIdentity(x - d, d);
    var q := (x - d) / d;
    assert d * (q + 1) == d * q + d;
    DivModUnique(x, d, q + 1, (x - d) % d);
  }

  /** The closed form for a completion that moves no further than the first buffer. */
  lemma KernelInFirst(m: Mode, c: Cursor, bytes: nat)
    requires OkMode(m) && OkCursor(m, c) && bytes <= c.left
    ensures KernelAfter(m, c, bytes) ==
            if bytes == 0 then c
            else if m.incr && bytes < c.left then Cursor(c.head, c.left - bytes) else Cursor(c.head + 1, m.size)
  {
    var used := m.size - c.left + bytes;
    if bytes < c.left {
      DivModUnique(used, m.size, 0, used);
    } else {
      DivModUnique(used, m.size, 1, 0);
    }
    if bytes == 0 {
      DivModUnique(m.size - 1, m.size, 0, m.size - 1);
    } else {
      DivModUnique(bytes + m.size - 1, m.size, 1, bytes - 1);
    }
  }

  /** Beyond the first buffer the closed form counts on from the next one. */
  lemma KernelBeyondFirst(m: Mode, c: Cursor, bytes: nat)
    requires OkMode(m) && OkCursor(m, c) && bytes > c.left
    ensures KernelAfter(m, c, bytes) == KernelAfter(m, Cursor(c.head + 1, m.size), bytes - c.left)
  {
    StepBack(m.size - c.left + bytes, m.size);
    StepBack(bytes + m.size - 1, m.size);
  }

  /** The pool's loop lands exactly where the kernel's closed form says. */
  lemma {:induction false} TakeFollowsKernel(m: Mode, ids: seq<nat>, c: Cursor, bytes: nat)
    requires OkMode(m) && OkCursor(m, c) && bytes <= Room(m, c.left, |ids|)
    ensures var r := Take(m, ids, c.left, bytes);
            && r.used <= |ids| && 1 <= r.left <= m.size
            && Cursor(c.head + r.used, r.left) == KernelAfter(m, c, bytes)
    decreases |ids|
  {
    if bytes == 0 {
      KernelInFirst(m, c, bytes);
    } else {
      assert ids != [] by { assert m.size * 0 == 0; }
      if bytes <= c.left {
        KernelInFirst(m, c, bytes);
        TakeNothing(m, ids[1..]);
      } else {
        KernelBeyondFirst(m, c, bytes);
        assert m.size * |ids| == m.size * (|ids| - 1) + m.size;
        TakeFollowsKernel(m, ids[1..], Cursor(c.head + 1, m.size), bytes - c.left);
      }
    }
  }

  lemma {:induction false} TakeNothing(m: Mode, ids: seq<nat>)
    requires OkMode(m)
    ensures Take(m, ids, m.size, 0) == Taken([], 0, m.size)
  {
  }

  // ---- what is handed out ----

  function Lengths(ps: seq<Piece>): nat {
    if ps == [] then 0 else ps[0].len + Lengths(ps[1..])
  }

  /** The buffer that a piece lies in: add_buffer_back divides the offset by the buffer size. */
  function IdOf(m: Mode, data: nat): nat
    requires OkMode(m)
  {
    DivModIdentity(data, m.size);
    data / m.size
  }

  /** The ids of the owned pieces, in order. */
  function OwnedIds(m: Mode, ps: seq<Piece>): seq<nat>
    requires OkMode(m)
  {
    if ps == [] then []
    else (if ps[0].owned then [IdOf(m, ps[0].data)] else []) + OwnedIds(m, ps[1..])
  }

  lemma InteriorPointer(m: Mode, id: nat, off: nat)
    requires OkMode(m) && off < m.size
    ensures IdOf(m, id * m.size + off) == id
  {
    assert id * m.size == m.size * id;
    DivModUnique(id * m.size + off, m.size, id, off);
  }

  /** Exactly the buffers that were finished are handed out as owned, and their interior pointers map back to
      their ids. */
  lemma {:induction false} TakeOwnsFinished(m: Mode, ids: seq<nat>, left: nat, bytes: int)
    requires OkMode(m) && 1 <= left <= m.size
    ensures var r := Take(m, ids, left, bytes); r.used <= |ids| && OwnedIds(m, r.pieces) == ids[..r.used]
    decreases |ids|
  {
    if bytes > 0 && ids != [] {
      InteriorPointer(m, ids[0], m.size - left);
      var len := if m.incr && bytes < left then bytes else left;
      if len == left {
        TakeOwnsFinished(m, ids[1..], m.size, bytes - len);
        var r := Take(m, ids[1..], m.size, bytes - len);
        var p := Piece(ids[0] * m.size + (m.size - left), len, true);
        assert ([p] + r.pieces)[1..] == r.pieces;
        assert ids[..r.used + 1] == [ids[0]] + ids[1..][..r.used];
      } else {
        assert Take(m, ids, left, bytes).pieces[1..] == [];
      }
    }
  }

  /** What is handed out covers the reported bytes: exactly in incremental mode, and by the fewest whole
      buffers otherwise. */
  lemma {:induction false} TakeCoversBytes(m: Mode, ids: seq<nat>, left: nat, bytes: nat)
    requires OkMode(m) && 1 <= left <= m.size && (!m.incr ==> left == m.size) && bytes <= Room(m, left, |ids|)
    ensures var r := Take(m, ids, left, bytes);
            if m.incr then Lengths(r.pieces) == bytes
            else Lengths(r.pieces) == m.size * r.used && bytes <= m.size * r.used < bytes + m.size
    decreases |ids|
  {
    if bytes > 0 {
      assert ids != [] by { assert m.size * 0 == 0; }
      var r := Take(m, ids, left, bytes);
      if m.incr && bytes < left {
        assert r.pieces[1..] == [];
      } else if bytes <= left {
        TakeNothing(m, ids[1..]);
        LastPiece(m, ids, left, bytes);
      } else {
        var rest := Take(m, ids[1..], m.size, bytes - left);
        MulNext(m.size, |ids| - 1);
        TakeCoversBytes(m, ids[1..], m.size, bytes - left);
        assert r.pieces[1..] == rest.pieces;
        MulNext(m.size, rest.used);
      }
    } else {
      assert m.size * 0 == 0;
    }
  }

  lemma MulNext(d: nat, k: nat)
    ensures d * (k + 1) == d * k + d
  {
  }

  /** A completion that ends inside or at the end of the first buffer, or takes it whole. */
  lemma {:induction false} LastPiece(m: Mode, ids: seq<nat>, left: nat, bytes: nat)
    requires OkMode(m) && 1 <= left <= m.size && ids != [] && 0 < bytes <= left && !(m.incr && bytes < left)
    ensures var r := Take(m, ids, left, bytes); r.used == 1 && Lengths(r.pieces) == left
  {
    var p := FirstPiece(m, ids[0], left, bytes);
    assert Take(m, ids[1..], m.size, bytes - left) == Taken([], 0, m.size);
    assert Take(m, ids, left, bytes).pieces == [p] && [p][1..] == [];
  }

  // ---- the ring and the class ----

  /** The ids in the ring positions from hd up to tl; positions index the slots modulo their number. */
  function Window(slots: seq<nat>, hd: nat, tl: nat): seq<nat>
    requires |slots| >= 1 && hd <= tl
  {
    seq(tl - hd, i requires 0 <= i < tl - hd => slots[Slot(hd + i, |slots|)])
  }

  function Slot(pos: nat, n: nat): (r: nat)
    requires n >= 1
    ensures r < n
  {
    DivModIdentity(pos, n);
    pos % n
  }

  /** Two ring positions less than n apart use different slots. */
  lemma SlotsDiffer(a: nat, b: nat, n: nat)
    requires n >= 1 && a < b < a + n
    ensures Slot(a, n) != Slot(b, n)
  {
    if Slot(a, n) == Slot(b, n) {
      DivModIdentity(a, n);
      DivModIdentity(b, n);
      var p, q := a / n, b / n;
      if p < q { MulGap(n, p, q); } else if q < p { MulGap(n, q, p); }
    }
  }

  lemma WindowHead(slots: seq<nat>, hd: nat, tl: nat)
    requires |slots| >= 1 && hd < tl
    ensures Window(slots, hd, tl) == [slots[Slot(hd, |slots|)]] + Window(slots, hd + 1, tl)
  {
  }

  /** Writing the slot at tl appends to the window and leaves its other entries alone. */
  lemma WindowAppend(slots: seq<nat>, hd: nat, tl: nat, id: nat)
    requires |slots| >= 1 && hd <= tl < hd + |slots|
    ensures Window(slots[Slot(tl, |slots|) := id], hd, tl + 1) == Window(slots, hd, tl) + [id]
  {
    var w, w' := Window(slots, hd, tl), Window(slots[Slot(tl, |slots|) := id], hd, tl + 1);
    forall i | 0 <= i < |w| ensures w'[i] == w[i] { SlotsDiffer(hd + i, tl, |slots|); }
  }

  /** A 16-bit counter masks to the slot of the unbounded position it stands for. */
  lemma {:induction false} MaskedSlot(pos: nat, n: nat)
    requires IsPow2(n) && n <= U16
    ensures And(pos % U16, n - 1) == Slot(pos, n)
  {
    Pow16And64();
    AndMaskPow2(pos % U16, n);
    WrapThenMask(pos, 16, n);
  }

  lemma Inc16(pos: nat)
    ensures (pos % U16 + 1) % U16 == (pos + 1) % U16
  {
  }

  /** What is done so far, followed by the rest. */
  function Then(done: seq<Piece>, k: nat, rest: Taken): Taken {
    Taken(done + rest.pieces, k + rest.used, rest.left)
  }

  /** One turn of the loop: the first remaining buffer is finished, or a part of it is handed out. */
  lemma TakeStep(m: Mode, ids: seq<nat>, left: nat, bytes: nat, done: seq<Piece>, k: nat)
    requires OkMode(m) && 1 <= left <= m.size && bytes > 0 && ids != []
    ensures var p := FirstPiece(m, ids[0], left, bytes);
            Then(done, k, Take(m, ids, left, bytes)) ==
              if p.owned then Then(done + [p], k + 1, Take(m, ids[1..], m.size, bytes - p.len))
              else Then(done + [p], k, Take(m, ids, left - p.len, bytes - p.len))
  {
    var p := FirstPiece(m, ids[0], left, bytes);
    if p.owned {
      var r := Take(m, ids[1..], m.size, bytes - p.len);
      assert done + ([p] + r.pieces) == done + [p] + r.pieces;
    }
  }

  lemma RoomStep(m: Mode, left: nat, n: nat, bytes: int)
    requires OkMode(m) && 1 <= left <= m.size && 0 < bytes <= Room(m, left, n)
    ensures n > 0 && bytes - left <= Room(m, m.size, n - 1)
  {
    assert m.size * 0 == 0;
    if n > 0 { assert m.size * n == m.size * (n - 1) + m.size; }
  }

  class Pool {
    const mode: Mode
    const bufs: array<nat>    // the ids in the slots of the shared ring
    var tail: nat             // 16 bits, shared with the kernel
    var head: nat             // 16 bits, private
    var left: nat
    ghost var hd: nat         // the positions that head and tail stand for
    ghost var tl: nat

    ghost predicate Valid()
      reads this, bufs
    {
      && OkMode(mode) && OkCursor(mode, Cursor(hd, left))
      && IsPow2(bufs.Length) && bufs.Length <= U16 / 2
      && hd <= tl <= hd + bufs.Length
      && head == hd % U16 && tail == tl % U16
    }

    ghost function Ids(): seq<nat>
      requires bufs.Length >= 1 && hd <= tl
      reads this, bufs
    {
      Window(bufs[..], hd, tl)
    }

    /** All buffers start out in the ring, in order. */
    constructor (numBuffers: nat, mode: Mode)
      requires numBuffers <= U16 / 2 && OkMode(mode)
      ensures Valid() && this.mode == mode && bufs.Length == BitCeil(numBuffers) && fresh(bufs)
      ensures hd == 0 && tl == bufs.Length && left == mode.size
      ensures Ids() == seq(bufs.Length, i => i)
    {
      BitCeilIsLeast(numBuffers);
      Half16();
      var n := BitCeil(numBuffers);
      this.mode := mode;
      bufs := new nat[n](i => 0);
      head, left, hd, tl := 0, mode.size, 0, n;
      tail := n;
      new;
      var bid := 0;
      while bid < n
        modifies bufs
        invariant bid <= n && forall j :: 0 <= j < bid ==> bufs[j] == j
      {
        MaskedSlot(bid, n);
        DivModUnique(bid, n, 0, bid);
        DivModUnique(bid, U16, 0, bid);
        bufs[And(bid, n - 1)] := bid;
        bid := bid + 1;
      }
      DivModUnique(n, U16, 0, n);
      forall i | 0 <= i < n ensures Slot(i, n) == i { DivModUnique(i, n, 0, i); }
    }

    /** One turn of the loop of handle_finish. */
    method TakeOne(bytes: nat) returns (p: Piece)
      requires Valid() && bytes > 0 && hd < tl
      modifies this`head, this`left, this`hd
      ensures Valid() && p == FirstPiece(mode, old(Ids())[0], old(left), bytes)
      ensures p.data == old(Ids())[0] * mode.size + (mode.size - old(left))
      ensures p.owned ==> hd == old(hd) + 1 && left == mode.size && Ids() == old(Ids())[1..]
      ensures !p.owned ==> hd == old(hd) && left == old(left) - p.len
    {
      MaskedSlot(hd, bufs.Length);
      var bid := bufs[And(head, bufs.Length - 1)];
      p := FirstPiece(mode, bid, left, bytes);
      left := left - p.len;
      if left == 0 {
        WindowHead(bufs[..], hd, tl);
        Inc16(hd);
        head := (head + 1) % U16;
        left := mode.size;
        hd := hd + 1;
      }
    }

    /** The loop of handle_finish. */
    method TakeBytes(res: nat) returns (pieces: seq<Piece>)
      requires Valid() && res <= Room(mode, left, tl - hd)
      modifies this`head, this`left, this`hd
      ensures Valid() && hd >= old(hd) && Taken(pieces, hd - old(hd), left) == Take(mode, old(Ids()), old(left), res)
      ensures hd - old(hd) <= |old(Ids())| && Ids() == old(Ids())[hd - old(hd)..]
    {
      ghost var ids, c := Ids(), Cursor(hd, left);
      ghost var total := Take(mode, ids, left, res);
      ghost var k := 0;
      var bytes: int := res;
      pieces := [];
      while bytes > 0
        invariant hd == c.head + k && k <= |ids| && Ids() == ids[k..]
        invariant Valid() && (bytes > 0 ==> bytes <= Room(mode, left, |ids| - k))
        invariant Then(pieces, k, Take(mode, ids[k..], left, bytes)) == total
        decreases bytes
      {
        RoomStep(mode, left, |ids| - k, bytes);
        TakeStep(mode, ids[k..], left, bytes, pieces, k);
        assert k < |ids| ==> ids[k..][1..] == ids[k + 1..];
        var p := TakeOne(bytes);
        pieces := pieces + [p];
        bytes := bytes - p.len;
        if p.owned { k := k + 1; }
      }
    }

    /**
     handle_finish. A completion without a buffer changes nothing. Otherwise the mirror ends
     up where the kernel did, and the finished buffers leave the ring for their new owners.
     */
    method HandleFinish(hasBuffer: bool, res: nat) returns (pieces: seq<Piece>)
      requires Valid() && (hasBuffer ==> 0 < res <= Room(mode, left, tl - hd))
      modifies this`head, this`left, this`hd
      ensures Valid() && (!hasBuffer ==> pieces == [] && hd == old(hd) && left == old(left))
      ensures hasBuffer ==> Cursor(hd, left) == KernelAfter(mode, Cursor(old(hd), old(left)), res)
      ensures hasBuffer ==> pieces == Take(mode, old(Ids()), old(left), res).pieces
      ensures old(Ids()) == OwnedIds(mode, pieces) + Ids()
    {
      if !hasBuffer {
        return [];
      }
      TakeFollowsKernel(mode, Ids(), Cursor(hd, left), res);
      TakeOwnsFinished(mode, Ids(), left, res);
      pieces := TakeBytes(res);
    }

    /** Stores an id behind the window. */
    method StoreAtTail(bid: nat)
      requires Valid() && tl < hd + bufs.Length
      modifies bufs
      ensures Valid() && Window(bufs[..], hd, tl + 1) == old(Ids()) + [bid]
    {
      MaskedSlot(tl, bufs.Length);
      WindowAppend(bufs[..], hd, tl, bid);
      bufs[And(tail, bufs.Length - 1)] := bid;
      assert bufs[..] == old(bufs[..])[Slot(tl, bufs.Length) := bid];
    }

    /** add_buffer_back, called when an owned piece is reset: its buffer rejoins the ring at the tail. */
    method AddBufferBack(data: nat, size: nat)
      requires Valid() && size <= mode.size && tl < hd + bufs.Length && IdOf(mode, data) < bufs.Length
      modifies this`tail, this`tl, bufs
      ensures Valid() && hd == old(hd) && left == old(left) && Ids() == old(Ids()) + [IdOf(mode, data)]
    {
      DivModIdentity(data, mode.size);
      StoreAtTail(data / mode.size);
      Inc16(tl);
      tail := (tail + 1) % U16;
      tl := tl + 1;
    }
  }

  /** The owning handle of detail/buffers.hpp: returns its buffer to the pool exactly once. */
  class ManagedBuffer {
    var data: nat
    var size: nat
    var pool: Pool?

    constructor (p: Piece, pool: Pool)
      ensures data == p.data && size == p.len && this.pool == if p.owned then pool else null
    {
      data, size := p.data, p.len;
      this.pool := if p.owned then pool else null;
    }

    /** This handle may return its buffer now. */
    ghost predicate Returnable()
      reads this, pool, if pool == null then {} else {pool.bufs}
    {
      pool != null ==>
        && pool.Valid() && size <= pool.mode.size
        && pool.tl < pool.hd + pool.bufs.Length && IdOf(pool.mode, data) < pool.bufs.Length
    }

    /** Also the destructor. A second reset finds no pool and returns nothing. */
    method Reset()
      requires Returnable()
      modifies this, pool, if pool == null then {} else {pool.bufs}
      ensures data == 0 && size == 0 && pool == null
      ensures old(pool) != null ==>
                old(pool).Valid() && old(pool).Ids() == old(pool.Ids()) + [IdOf(old(pool).mode, old(data))]
    {
      if pool != null {
        pool.AddBufferBack(data, size);
      }
      data, size, pool := 0, 0, null;
    }

    /** Move assignment: the old buffer goes back first, ownership moves, self-assignment changes nothing. */
    method MoveAssign(other: ManagedBuffer)
      requires Returnable()
      modifies this, other, pool, if pool == null then {} else {pool.bufs}
      ensures other == this ==> data == old(data) && size == old(size) && pool == old(pool)
      ensures other != this ==>
                && data == old(other.data) && size == old(other.size) && pool == old(other.pool)
                && other.data == 0 && other.size == 0 && other.pool == null
                && (old(pool) != null ==>
                      old(pool).Valid() && old(pool).Ids() == old(pool.Ids()) + [IdOf(old(pool).mode, old(data))])
    {
      if this != other {
        Reset();
        data, size, pool := other.data, other.size, other.pool;
        other.data, other.size, other.pool := 0, 0, null;
      }
    }
  }

  lemma Half16()
    ensures IsPow2(U16 / 2)
  {
    Pow16And64();
    assert Pow2(16) == 2 * Pow2(15);
    assert U16 / 2 == Pow2(15);
  }
}
