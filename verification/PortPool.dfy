/** The port numbers of `src/fdb/port.go`: a free list threaded through an array, where slot 0
    holds the first free number and each free slot holds the next one. */
module PortPool {
  import Counting

  const MAXPORT := 128

  /** The slot whose link leads to position `i` of the list. */
  function Before(free: seq<nat>, i: nat): nat
    requires i <= |free|
  {
    if i == 0 then 0 else free[i - 1]
  }

  /** The links from slot 0 go through `free`, in order and without repetition, and end in 0. */
  ghost predicate IsChain(pool: seq<nat>, free: seq<nat>) {
    && |pool| == MAXPORT
    && Counting.Distinct(free)
    && (forall i :: 0 <= i < |free| ==> 1 <= free[i] < MAXPORT)
    && (forall i :: 0 <= i <= |free| ==> pool[Before(free, i)] == if i < |free| then free[i] else 0)
  }

  /** Where `k` links from slot 0 lead. */
  function Follow(pool: seq<nat>, k: nat): nat
    requires |pool| > 0
  {
    if k == 0 then pool[0] else
    var slot := Follow(pool, k - 1);
    if slot < |pool| then pool[slot] else 0
  }

  /** The chain reaches the free numbers one after the other, and then 0. */
  lemma {:induction false} ChainReaches(pool: seq<nat>, free: seq<nat>, k: nat)
    requires IsChain(pool, free) && k <= |free|
    ensures Follow(pool, k) == if k < |free| then free[k] else 0
  {
    assert pool[Before(free, k)] == if k < |free| then free[k] else 0;
    if k > 0 {
      ChainReaches(pool, free, k - 1);
    }
  }

  /** An array holds one free list: the list is a function of the array. */
  lemma {:induction false} ChainIsUnique(pool: seq<nat>, a: seq<nat>, b: seq<nat>)
    requires IsChain(pool, a) && IsChain(pool, b)
    ensures a == b
  {
    if |a| < |b| {
      ChainReaches(pool, a, |a|);
      ChainReaches(pool, b, |a|);
    } else if |b| < |a| {
      ChainReaches(pool, a, |b|);
      ChainReaches(pool, b, |b|);
    }
    forall i | 0 <= i < |a| && i < |b| ensures a[i] == b[i] {
      ChainReaches(pool, a, i);
      ChainReaches(pool, b, i);
    }
  }

  /** Taking the first number off the chain. */
  lemma {:induction false} PopKeepsChain(pool: seq<nat>, free: seq<nat>)
    requires IsChain(pool, free) && |free| > 0
    ensures pool[0] == free[0] && IsChain(pool[0 := pool[free[0]]], free[1..])
  {
    var rest, pool' := free[1..], pool[0 := pool[free[0]]];
    assert pool[Before(free, 0)] == free[0];
    assert pool[Before(free, 1)] == if 1 < |free| then free[1] else 0;
    forall i | 0 <= i <= |rest| ensures pool'[Before(rest, i)] == if i < |rest| then rest[i] else 0 {
      assert pool[Before(free, i + 1)] == if i + 1 < |free| then free[i + 1] else 0;
    }
  }

  /** Putting a number that is not free in front of it. */
  lemma {:induction false} PushKeepsChain(pool: seq<nat>, free: seq<nat>, id: nat)
    requires IsChain(pool, free) && 1 <= id < MAXPORT && id !in free
    ensures IsChain(pool[id := pool[0]][0 := id], [id] + free)
  {
    var free', pool' := [id] + free, pool[id := pool[0]][0 := id];
    assert pool[Before(free, 0)] == if 0 < |free| then free[0] else 0;
    forall i | 0 <= i <= |free'| ensures pool'[Before(free', i)] == if i < |free'| then free'[i] else 0 {
      if i > 1 {
        assert Before(free', i) == free[i - 2] == Before(free, i - 1);
        assert pool[Before(free, i - 1)] == if i - 1 < |free| then free[i - 1] else 0;
      }
    }
  }

  lemma {:induction false} NothingFree(pool: seq<nat>)
    requires |pool| == MAXPORT && pool[0] == 0
    ensures IsChain(pool, [])
  {
    assert forall i :: 0 <= i <= 0 ==> Before([], i) == 0;
  }

  /** The list of all numbers, as `initPortPool` leaves it. */
  function Downward(n: nat): (free: seq<nat>)
    ensures |free| == n
    ensures forall i :: 0 <= i < n ==> free[i] == n - i
  {
    seq(n, i requires 0 <= i < n => n - i)
  }

  class PortPools {
    const portIdPool: array<nat>
    var allocNum: int
    ghost var free: seq<nat>

    ghost predicate Valid()
      reads this, portIdPool
    {
      IsChain(portIdPool[..], free)
    }

    /** The zeroed array, and `initPortPool`. */
    constructor ()
      ensures Valid() && fresh(portIdPool)
      ensures free == Downward(MAXPORT - 1) && allocNum == 0
    {
      portIdPool := new nat[MAXPORT](_ => 0);
      allocNum, free := 0, [];
      new;
      NothingFree(portIdPool[..]);
      var port := 1;
      while port < MAXPORT
        invariant 1 <= port <= MAXPORT && Valid()
        invariant free == Downward(port - 1)
        invariant allocNum == 0
      {
        PortIdFree(port);
        assert free == Downward(port);
        port := port + 1;
      }
    }

    /** 0 exactly when no number is free. */
    method PortIdAlloc() returns (portId: nat)
      requires Valid()
      modifies `free, portIdPool
      ensures Valid()
      ensures portId == 0 <==> old(free) == []
      ensures old(free) == [] ==> free == []
      ensures old(free) != [] ==> portId == old(free)[0] && free == old(free)[1..]
    {
      ghost var was: seq<nat> := portIdPool[..];
      assert was[Before(free, 0)] == if 0 < |free| then free[0] else 0;
      portId := portIdPool[0];
      if free != [] {
        PopKeepsChain(was, free);
      }
      portIdPool[0] := portIdPool[portId];
      assert portIdPool[..] == was[0 := was[portId]];
      if free != [] {
        free := free[1..];
      }
    }

    method PortIdFree(portId: nat)
      requires Valid() && 1 <= portId < MAXPORT && portId !in free
      modifies `free, portIdPool
      ensures Valid() && free == [portId] + old(free)
    {
      ghost var was: seq<nat> := portIdPool[..];
      PushKeepsChain(was, free, portId);
      portIdPool[portId] := portIdPool[0];
      portIdPool[0] := portId;
      ghost var linked: seq<nat> := was[portId := was[0]];
      assert portIdPool[..] == linked[0 := portId];
      free := [portId] + free;
    }

    method IncPortNum()
      modifies `allocNum
      ensures allocNum == old(allocNum) + 1
    {
      allocNum := allocNum + 1;
    }

    /** The source panics when the count would become negative. */
    method DecPortNum()
      requires allocNum > 0
      modifies `allocNum
      ensures allocNum == old(allocNum) - 1
    {
      allocNum := allocNum - 1;
    }
  }
}
