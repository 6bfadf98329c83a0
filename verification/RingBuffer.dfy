/** The ring of counted packet buffers of `src/reaserch/goRingBuffer.go`. */
module RingBuffer {
  import opened Machine
  import Counting

  class PktBuf {
    const id: nat
    var rb: Ring?
    var ref: int

    constructor (id: nat)
      ensures this.id == id && ref == 0 && rb == null
    {
      this.id, rb, ref := id, null, 0;
    }
  }

  /** Position `i` of the queue that starts at slot `r`. */
  function Slot(r: nat, i: nat, count: nat): nat
    requires r < count && i <= count
  {
    if r + i < count then r + i else r + i - count
  }

  /** The slots of the ring from `r` up to `w` hold `queue`; one slot stays unused. */
  ghost predicate IsRing(buf: seq<PktBuf?>, r: nat, w: nat, queue: seq<PktBuf>) {
    && r < |buf| <= 0xFFFF && |queue| < |buf|
    && w == Slot(r, |queue|, |buf|)
    && forall i :: 0 <= i < |queue| ==> buf[Slot(r, i, |buf|)] == queue[i]
  }

  /** `(x + 1) % count` on a `uint16`. */
  function Step(x: U16, count: U16): U16
    requires x < count
  {
    ToU16(x + 1) % count
  }

  lemma {:induction false} Remainder(a: nat, m: nat)
    requires 0 < m && a <= m
    ensures a % m == if a < m then a else 0
  {
  }

  lemma {:induction false} StepIsSlot(x: U16, count: U16)
    requires x < count
    ensures Step(x, count) == Slot(x, 1, count)
  {
    Remainder(x + 1, count);
  }

  lemma {:induction false} PushKeepsRing(buf: seq<PktBuf?>, r: nat, w: nat, queue: seq<PktBuf>, pb: PktBuf)
    requires IsRing(buf, r, w, queue)
    ensures Slot(w, 1, |buf|) == r <==> |queue| == |buf| - 1
    ensures |queue| < |buf| - 1 ==> IsRing(buf[w := pb], r, Slot(w, 1, |buf|), queue + [pb])
  {
  }

  lemma {:induction false} PopKeepsRing(buf: seq<PktBuf?>, r: nat, w: nat, queue: seq<PktBuf>)
    requires IsRing(buf, r, w, queue)
    ensures r == w <==> queue == []
    ensures queue != [] ==> buf[r] == queue[0] && IsRing(buf, Slot(r, 1, |buf|), w, queue[1..])
  {
    forall i | 0 <= i < |queue| - 1 ensures buf[Slot(Slot(r, 1, |buf|), i, |buf|)] == queue[1..][i] {
      assert Slot(Slot(r, 1, |buf|), i, |buf|) == Slot(r, i + 1, |buf|);
    }
    assert queue != [] ==> buf[Slot(r, 0, |buf|)] == queue[0];
  }

  class Ring {
    var r: U16
    var w: U16
    const count: U16
    const buf: array<PktBuf?>
    ghost var queue: seq<PktBuf>

    ghost predicate Valid()
      reads this, buf
    {
      count == buf.Length && IsRing(buf[..], r, w, queue)
    }

    /** `NewRingBuffer`. */
    constructor (size: nat)
      requires 1 <= size <= 0xFFFF
      ensures Valid() && fresh(buf) && queue == [] && count == size
    {
      r, w, count, queue := 0, 0, size, [];
      buf := new PktBuf?[size](_ => null);
    }

    /** First in: refused exactly when all slots but one are in use. */
    method RBPutBuf(pb: PktBuf) returns (ok: bool)
      requires Valid()
      modifies `w, `queue, buf, pb`rb
      ensures Valid() && pb.rb == this
      ensures ok <==> |old(queue)| < count - 1
      ensures queue == if ok then old(queue) + [pb] else old(queue)
    {
      ghost var was: seq<PktBuf?> := buf[..];
      PushKeepsRing(was, r, w, queue, pb);
      pb.rb := this;
      var idx := Step(w, count);
      StepIsSlot(w, count);
      if idx != r {
        buf[w] := pb;
        assert buf[..] == was[w := pb];
        w := idx;
        queue := queue + [pb];
        return true;
      }
      return false;
    }

    /** First out: nothing exactly when the queue is empty. */
    method RBGetBuf() returns (pb: PktBuf?)
      requires Valid()
      modifies `r, `queue
      ensures Valid()
      ensures pb == null <==> old(queue) == []
      ensures pb != null ==> [pb] + queue == old(queue)
      ensures pb == null ==> queue == []
    {
      PopKeepsRing(buf[..], r, w, queue);
      var idx := r;
      if idx != w {
        r := Step(r, count);
        StepIsSlot(idx, count);
        pb := buf[idx];
        queue := queue[1..];
      } else {
        pb := null;
      }
    }

    /** The ring of a pool: it never holds a buffer twice, nor one of another pool. */
    ghost predicate Serves(pool: set<PktBuf>)
      reads this, buf
    {
      Valid() && Counting.Distinct(queue) && |pool| == count - 1 && forall i :: 0 <= i < |queue| ==> queue[i] in pool
    }

    /** `GetBuf`: the oldest returned buffer, held once. */
    method GetBuf(ghost pool: set<PktBuf>) returns (pb: PktBuf?)
      requires Serves(pool) && forall b :: b in queue ==> b.ref == 0
      modifies `r, `queue, pool`ref
      ensures Serves(pool)
      ensures pb == null <==> old(queue) == []
      ensures pb == null ==> queue == old(queue)
      ensures pb != null ==> [pb] + queue == old(queue) && pb in pool && pb !in queue && pb.ref == 1
      ensures forall b :: b in pool && b != pb ==> b.ref == old(b.ref)
    {
      pb := RBGetBuf();
      if pb != null {
        assert pb == old(queue)[0];
        assert forall i :: 0 <= i < |queue| ==> queue[i] == old(queue)[i + 1];
        pb.ref := pb.ref + 1;
      }
    }

    /** `PutBuf` on a held buffer of the pool: the last release returns it, and then the ring is
        never full. */
    method PutBuf(pb: PktBuf, ghost pool: set<PktBuf>) returns (ok: bool)
      requires Serves(pool) && pb in pool && pb !in queue && pb.ref > 0
      modifies `w, `queue, buf, pb`rb, pb`ref
      ensures Serves(pool)
      ensures pb.ref == old(pb.ref) - 1
      ensures ok <==> pb.ref == 0
      ensures queue == if ok then old(queue) + [pb] else old(queue)
    {
      pb.ref := pb.ref - 1;
      if pb.ref == 0 {
        RoomForOneMore(queue, pool, pb);
        ok := RBPutBuf(pb);
        assert forall i :: 0 <= i < |old(queue)| ==> queue[i] == old(queue)[i] && old(queue)[i] in old(queue);
      } else {
        ok := false;
      }
    }
  }

  /** Pigeonhole: a queue without repetition that lacks a buffer of the pool is not full. */
  lemma {:induction false} RoomForOneMore<T>(queue: seq<T>, pool: set<T>, x: T)
    requires Counting.Distinct(queue) && x in pool && x !in queue
    requires forall i :: 0 <= i < |queue| ==> queue[i] in pool
    ensures |queue| < |pool|
  {
    var inside := set y | y in queue;
    Counting.DistinctSize(queue);
    assert inside <= pool - {x};
    Counting.SubsetSize(inside, pool - {x});
    assert |pool - {x}| == |pool| - 1;
  }

  /** `CreateRingBuffer`: the ring serves a pool of `n` new buffers, numbered in order, all free;
      no put is refused. */
  method CreateRingBuffer(n: nat) returns (rb: Ring, ghost pool: set<PktBuf>)
    requires n + 1 <= 0xFFFF
    ensures fresh(rb) && fresh(rb.buf) && fresh(pool) && rb.Serves(pool)
    ensures |rb.queue| == n && rb.count == n + 1
    ensures forall i :: 0 <= i < n ==> rb.queue[i].id == i && rb.queue[i].ref == 0 && rb.queue[i].rb == rb
  {
    rb := new Ring(n + 1);
    pool := {};
    var i := 0;
    while i < n
      invariant 0 <= i <= n && rb.Valid() && fresh(rb) && fresh(rb.buf) && rb.count == n + 1
      invariant |rb.queue| == i && |pool| == i && fresh(pool)
      invariant forall k :: 0 <= k < i ==> rb.queue[k] in pool
      invariant forall k :: 0 <= k < i ==> rb.queue[k].id == k && rb.queue[k].ref == 0 && rb.queue[k].rb == rb
    {
      var pb := new PktBuf(i);
      var ok := rb.RBPutBuf(pb);
      pool := pool + {pb};
      i := i + 1;
    }
    assert forall k, m :: 0 <= k < m < n ==> rb.queue[k].id != rb.queue[m].id;
  }
}
