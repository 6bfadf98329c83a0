/** Reassembly over whole arrival orders: a payload is cut into pieces, the pieces arrive in
    any order, some perhaps more than once, and the queue of `src/nat/fragment.go` is followed
    call by call. Nothing depends on the packet buffers, which are left out here. */
module Reassembly {
  import Counting
  import opened Machine
  import opened FragmentQueue

  /** Offset of piece `i` in the payload. */
  function Start(pieces: seq<seq<Byte>>, i: nat): nat
    requires i <= |pieces|
  {
    if i == 0 then 0 else Start(pieces, i - 1) + |pieces[i - 1]|
  }

  function Payload(pieces: seq<seq<Byte>>): seq<Byte> {
    if |pieces| == 0 then [] else pieces[0] + Payload(pieces[1..])
  }

  /** Two or more non-empty pieces whose total length fits the 16-bit marks. */
  ghost predicate IsCut(pieces: seq<seq<Byte>>) {
    && |pieces| >= 2
    && (forall i :: 0 <= i < |pieces| ==> |pieces[i]| > 0)
    && Start(pieces, |pieces|) <= 0xFFFF
  }

  /** The numbers of the pieces in the order in which they arrive; a piece may arrive often or
      not at all. */
  ghost predicate IsArrivals(order: seq<nat>, k: nat) {
    forall n :: 0 <= n < |order| ==> order[n] < k
  }

  /** Every piece arrives exactly once. */
  ghost predicate IsOrder(order: seq<nat>, k: nat) {
    && |order| == k
    && (forall n :: 0 <= n < k ==> order[n] < k)
    && (forall m, n :: 0 <= m < n < k ==> order[m] != order[n])
  }

  lemma {:induction false} StartsIncrease(pieces: seq<seq<Byte>>, i: nat, j: nat)
    requires IsCut(pieces) && i < j <= |pieces|
    ensures Start(pieces, i) + |pieces[i]| <= Start(pieces, j) <= Start(pieces, |pieces|)
    decreases |pieces| - i
  {
    StartsGrow(pieces, i + 1, j);
    StartsGrow(pieces, j, |pieces|);
  }

  lemma {:induction false} StartsGrow(pieces: seq<seq<Byte>>, i: nat, j: nat)
    requires i <= j <= |pieces|
    ensures Start(pieces, i) <= Start(pieces, j)
    decreases j - i
  {
    if i < j {
      StartsGrow(pieces, i, j - 1);
    }
  }

  /** The fragment that carries piece `i`, whatever buffer it is in. */
  function Frag(pieces: seq<seq<Byte>>, i: nat): Fragment<()>
    requires IsCut(pieces) && i < |pieces|
  {
    StartsIncrease(pieces, i, |pieces|);
    StartsGrow(pieces, i, |pieces|);
    CreateFragment(Start(pieces, i), |pieces[i]|, i < |pieces| - 1, ())
  }

  lemma {:induction false} FragsAreDisjoint(pieces: seq<seq<Byte>>, i: nat, j: nat)
    requires IsCut(pieces) && i < |pieces| && j < |pieces|
    ensures Frag(pieces, i).offset < Frag(pieces, i).last
    ensures i < j ==> Frag(pieces, i).last <= Frag(pieces, j).offset < Frag(pieces, j).last
    ensures j < i ==> Frag(pieces, j).last <= Frag(pieces, i).offset
  {
    StartsIncrease(pieces, i, |pieces|);
    StartsIncrease(pieces, j, |pieces|);
    if i < j {
      StartsIncrease(pieces, i, j);
    } else if j < i {
      StartsIncrease(pieces, j, i);
    }
  }

  lemma {:induction false} FragEnd(pieces: seq<seq<Byte>>, i: nat)
    requires IsCut(pieces) && i < |pieces|
    ensures Frag(pieces, i).last == Frag(pieces, i).offset + Frag(pieces, i).len == Start(pieces, i + 1)
    ensures Frag(pieces, i).offset < Frag(pieces, i).last
  {
    StartsIncrease(pieces, i, |pieces|);
  }

  lemma {:induction false} StartsDetermine(pieces: seq<seq<Byte>>, i: nat, j: nat)
    requires IsCut(pieces) && i <= |pieces| && j <= |pieces|
    ensures Start(pieces, i) == Start(pieces, j) ==> i == j
  {
    if i < j {
      StartsIncrease(pieces, i, j);
    } else if j < i {
      StartsIncrease(pieces, j, i);
    }
  }

  // ----- The run -----

  /** The queue after the first `n` arrivals. */
  function After(pieces: seq<seq<Byte>>, order: seq<nat>, n: nat): Queue<()>
    requires IsCut(pieces) && IsArrivals(order, |pieces|) && n <= |order|
  {
    if n == 0 then EmptyQueue() else Process(After(pieces, order, n - 1), Frag(pieces, order[n - 1])).0
  }

  /** What the call for arrival `n` (counted from 0) reports. */
  function Report(pieces: seq<seq<Byte>>, order: seq<nat>, n: nat): Outcome
    requires IsCut(pieces) && IsArrivals(order, |pieces|) && n < |order|
  {
    Process(After(pieces, order, n), Frag(pieces, order[n])).1
  }

  /** The pieces the queue holds after `n` arrivals: those that have come and do not lie before
      the one that came first. */
  ghost function Kept(order: seq<nat>, n: nat): set<nat>
    requires 0 < n <= |order|
  {
    set m | 0 <= m < n && order[m] >= order[0] :: order[m]
  }

  /** The list holds exactly the fragments of the pieces in `kept`. */
  ghost predicate HoldsPieces(pieces: seq<seq<Byte>>, list: seq<Fragment<()>>, kept: set<nat>)
    requires IsCut(pieces)
  {
    && (forall i :: i in kept ==> i < |pieces| && Frag(pieces, i) in list)
    && (forall f :: f in list ==> exists i :: i in kept && f == Frag(pieces, i))
  }

  ghost predicate HasAll(kept: set<nat>, k: nat) {
    forall i :: 0 <= i < k ==> i in kept
  }

  // ----- Tilings -----

  /** A gap-free list of these fragments is the list of all of them, in payload order. */
  lemma {:induction false} TilingIsInOrder(pieces: seq<seq<Byte>>, list: seq<Fragment<()>>, kept: set<nat>, n: nat)
    requires IsCut(pieces) && HoldsPieces(pieces, list, kept)
    requires Tiles(list) && n < |list|
    ensures n < |pieces| && list[n] == Frag(pieces, n) && n in kept
  {
    assert list[n] in list;
    var j :| j in kept && list[n] == Frag(pieces, j);
    if n == 0 {
      FragsAreDisjoint(pieces, 0, j);
    } else {
      TilingIsInOrder(pieces, list, kept, n - 1);
      assert list[n - 1].last == list[n].offset;
      FragEnd(pieces, n - 1);
      StartsDetermine(pieces, n, j);
    }
  }

  lemma {:induction false} Nonempty(pieces: seq<seq<Byte>>, list: seq<Fragment<()>>, kept: set<nat>,
      n: nat) returns (j: nat)
    requires IsCut(pieces) && HoldsPieces(pieces, list, kept) && n < |list|
    ensures j in kept && list[n] == Frag(pieces, j)
    ensures list[n].offset == Start(pieces, j)
    ensures list[n].offset < list[n].last == Start(pieces, j + 1)
  {
    assert list[n] in list;
    j :| j in kept && list[n] == Frag(pieces, j);
    FragEnd(pieces, j);
  }

  /** With every piece in, each fragment of the sorted list starts where the one before it ends. */
  lemma {:induction false} NoGap(pieces: seq<seq<Byte>>, list: seq<Fragment<()>>, kept: set<nat>, n: nat)
    requires IsCut(pieces) && Ordered(list) && HoldsPieces(pieces, list, kept) && HasAll(kept, |pieces|)
    requires n + 1 < |list|
    ensures list[n].last == list[n + 1].offset
  {
    var j := Nonempty(pieces, list, kept, n);
    var m := Nonempty(pieces, list, kept, n + 1);
    StartsGrow(pieces, m + 1, |pieces|);
    assert list[n].last <= list[n + 1].offset;
    assert Frag(pieces, j + 1) in list;
    var p :| 0 <= p < |list| && list[p] == Frag(pieces, j + 1);
    FragEnd(pieces, j + 1);
    if p <= n {
      BeforeNeighbour(list, n, p);
      assert false;
    }
    NextIsNearest(list, n + 1);
  }

  lemma {:induction false} BeforeNeighbour<P>(list: seq<Fragment<P>>, n: nat, p: nat)
    requires Ordered(list) && p <= n < |list|
    ensures list[p].last <= list[n].last
  {
    assert list[n].offset <= list[n].last;
  }

  lemma {:induction false} FirstIsFirst(pieces: seq<seq<Byte>>, list: seq<Fragment<()>>, kept: set<nat>)
    requires IsCut(pieces) && Ordered(list) && HoldsPieces(pieces, list, kept) && 0 in kept
    ensures |list| > 0 && list[0].offset == 0
  {
    assert Frag(pieces, 0) in list;
    var p :| 0 <= p < |list| && list[p] == Frag(pieces, 0);
    var j := Nonempty(pieces, list, kept, 0);
    NextIsNearest(list, 0);
  }

  /** With every piece in, the sorted list has no gap. */
  lemma {:induction false} FullListTiles(pieces: seq<seq<Byte>>, list: seq<Fragment<()>>, kept: set<nat>)
    requires IsCut(pieces) && Ordered(list) && HoldsPieces(pieces, list, kept) && HasAll(kept, |pieces|)
    ensures Tiles(list)
  {
    FirstIsFirst(pieces, list, kept);
    forall n | 0 <= n < |list| - 1 ensures list[n].last == list[n + 1].offset {
      NoGap(pieces, list, kept, n);
    }
  }

  /** A gap-free list that contains the last piece contains all of them, and no more. */
  lemma {:induction false} TilingHasAll(pieces: seq<seq<Byte>>, list: seq<Fragment<()>>, kept: set<nat>)
    requires IsCut(pieces) && HoldsPieces(pieces, list, kept) && |pieces| - 1 in kept
    requires Tiles(list)
    ensures HasAll(kept, |pieces|) && |list| == |pieces|
  {
    var k := |pieces| - 1;
    assert Frag(pieces, k) in list;
    var p :| 0 <= p < |list| && list[p] == Frag(pieces, k);
    TilingIsInOrder(pieces, list, kept, p);
    FragsAreDisjoint(pieces, p, k);
    TilingIsInOrder(pieces, list, kept, |list| - 1);
    forall i | 0 <= i < |pieces| ensures i in kept {
      TilingIsInOrder(pieces, list, kept, i);
    }
  }

  lemma {:induction false} TilesIffAllIn(pieces: seq<seq<Byte>>, list: seq<Fragment<()>>, kept: set<nat>)
    requires IsCut(pieces) && Ordered(list) && HoldsPieces(pieces, list, kept)
    ensures |pieces| - 1 in kept && Tiles(list) <==> HasAll(kept, |pieces|)
  {
    if |pieces| - 1 in kept && Tiles(list) {
      TilingHasAll(pieces, list, kept);
    }
    if HasAll(kept, |pieces|) {
      FullListTiles(pieces, list, kept);
    }
  }

  // ----- One arrival -----

  /** A middle piece before which the queue holds nothing is refused, be it there already or
      not. */
  lemma {:induction false} EarlierPieceRefused(pieces: seq<seq<Byte>>, q: Queue<()>, kept: set<nat>, i: nat)
    requires IsCut(pieces) && i + 1 < |pieces|
    requires Valid(q) && !q.complete && kept != {} && HoldsPieces(pieces, q.list, kept)
    requires forall j :: j in kept ==> i <= j
    ensures Process(q, Frag(pieces, i)) == (q, Rejected)
  {
    var x :| x in kept;
    assert Frag(pieces, x) in q.list;
    FragEnd(pieces, i);
    AllEndAfter(pieces, q.list, kept, i);
    MiddlePieceOutcome(q, Frag(pieces, i));
    ProcessKeepsValid(q, Frag(pieces, i));
  }

  lemma {:induction false} AllEndAfter(pieces: seq<seq<Byte>>, list: seq<Fragment<()>>, kept: set<nat>, i: nat)
    requires IsCut(pieces) && i < |pieces| && HoldsPieces(pieces, list, kept)
    requires forall j :: j in kept ==> i <= j
    ensures forall f :: f in list ==> f.last > Frag(pieces, i).offset
  {
    forall f | f in list ensures f.last > Frag(pieces, i).offset {
      var j :| j in kept && f == Frag(pieces, j);
      FragsAreDisjoint(pieces, i, j);
    }
  }

  /** Any other piece that is in the queue already aborts. */
  lemma {:induction false} RepeatedPieceAborts(pieces: seq<seq<Byte>>, q: Queue<()>, kept: set<nat>, first: nat,
      i: nat)
    requires IsCut(pieces) && Valid(q) && !q.complete && HoldsPieces(pieces, q.list, kept)
    requires first in kept && i in kept && (first < i || i + 1 == |pieces|)
    ensures Process(q, Frag(pieces, i)).1 == Panicked
  {
    var nfrag := Frag(pieces, i);
    assert nfrag in q.list && Frag(pieces, first) in q.list;
    FragEnd(pieces, i);
    if nfrag.more {
      FragsAreDisjoint(pieces, first, i);
      assert Overlaps(nfrag, nfrag);
      MiddlePieceOutcome(q, nfrag);
    } else {
      LastPieceOutcome(q, nfrag);
    }
  }

  lemma {:induction false} NoOverlap(pieces: seq<seq<Byte>>, list: seq<Fragment<()>>, kept: set<nat>, i: nat)
    requires IsCut(pieces) && i < |pieces| && HoldsPieces(pieces, list, kept) && i !in kept
    ensures forall f :: f in list ==> !Overlaps(f, Frag(pieces, i))
    ensures i == |pieces| - 1 ==> forall f :: f in list ==> f.last <= Frag(pieces, i).offset
  {
    FragEnd(pieces, i);
    forall f | f in list
      ensures !Overlaps(f, Frag(pieces, i)) && (i == |pieces| - 1 ==> f.last <= Frag(pieces, i).offset)
    {
      var j :| j in kept && f == Frag(pieces, j);
      FragsAreDisjoint(pieces, i, j);
    }
  }

  /** A later piece is accepted. */
  lemma {:induction false} LaterPieceAccepted(pieces: seq<seq<Byte>>, q: Queue<()>, kept: set<nat>, first: nat, i: nat)
    requires IsCut(pieces) && i < |pieces|
    requires Valid(q) && !q.complete && HoldsPieces(pieces, q.list, kept)
    requires first in kept && first < i && i !in kept
    ensures Process(q, Frag(pieces, i)).1.Accepted()
  {
    var nfrag := Frag(pieces, i);
    assert Frag(pieces, first) in q.list;
    FragEnd(pieces, i);
    NoOverlap(pieces, q.list, kept, i);
    FragsAreDisjoint(pieces, first, i);
    if nfrag.more {
      MiddlePieceOutcome(q, nfrag);
    } else {
      LastPieceOutcome(q, nfrag);
    }
  }

  lemma {:induction false} AcceptedPieceHeld(pieces: seq<seq<Byte>>, q: Queue<()>, kept: set<nat>, i: nat)
    requires IsCut(pieces) && i < |pieces|
    requires Valid(q) && HoldsPieces(pieces, q.list, kept)
    requires Process(q, Frag(pieces, i)).1.Accepted()
    ensures Valid(Process(q, Frag(pieces, i)).0)
    ensures HoldsPieces(pieces, Process(q, Frag(pieces, i)).0.list, kept + {i})
  {
    FragEnd(pieces, i);
    var nfrag := Frag(pieces, i);
    ProcessKeepsValid(q, nfrag);
    var k := AcceptedInsertion(q, nfrag);
    InsertedMembers(q.list, k, nfrag);
    HoldsOneMore(pieces, q.list, Inserted(q.list, k, nfrag), kept, i);
  }

  lemma {:induction false} HoldsOneMore(pieces: seq<seq<Byte>>, list: seq<Fragment<()>>, list': seq<Fragment<()>>,
      kept: set<nat>, i: nat)
    requires IsCut(pieces) && i < |pieces| && HoldsPieces(pieces, list, kept)
    requires forall f :: f in list' <==> f in list || f == Frag(pieces, i)
    ensures HoldsPieces(pieces, list', kept + {i})
  {
    forall f | f in list' ensures exists j :: j in kept + {i} && f == Frag(pieces, j) {
      if f in list {
        var j :| j in kept && f == Frag(pieces, j);
        assert j in kept + {i};
      } else {
        assert i in kept + {i};
      }
    }
  }

  // ----- The whole run -----

  /** What arrival `n` makes the queue report, from the order of arrivals alone. */
  ghost function Expected(order: seq<nat>, k: nat, n: nat): Outcome
    requires n < |order|
  {
    if n == 0 then Pending
    else if HasAll(Kept(order, n), k) || order[n] < order[0] then Rejected
    else if order[n] in Kept(order, n) then
      if order[n] == order[0] && order[n] + 1 < k then Rejected else Panicked
    else if HasAll(Kept(order, n + 1), k) then Done
    else Pending
  }

  /** None of the first `n` arrivals aborts. */
  ghost predicate NoneAborts(order: seq<nat>, k: nat, n: nat)
    requires n <= |order|
  {
    forall m :: 0 <= m < n ==> Expected(order, k, m) != Panicked
  }

  ghost predicate Invariant(pieces: seq<seq<Byte>>, order: seq<nat>, n: nat, q: Queue<()>)
    requires IsCut(pieces) && 0 < n <= |order|
  {
    && Valid(q)
    && HoldsPieces(pieces, q.list, Kept(order, n))
    && (q.lastIn <==> |pieces| - 1 in Kept(order, n) && order[0] != |pieces| - 1)
    && (q.complete <==> HasAll(Kept(order, n), |pieces|))
  }

  lemma {:induction false} KeptGrows(order: seq<nat>, n: nat)
    requires 0 < n < |order|
    ensures Kept(order, n + 1) == Kept(order, n) + if order[n] >= order[0] then {order[n]} else {}
    ensures order[0] in Kept(order, n)
    ensures forall j :: j in Kept(order, n) ==> order[0] <= j
  {
  }

  lemma {:induction false} FirstArrival(pieces: seq<seq<Byte>>, order: seq<nat>)
    requires IsCut(pieces) && IsArrivals(order, |pieces|) && |order| > 0
    ensures Report(pieces, order, 0) == Pending
    ensures Invariant(pieces, order, 1, After(pieces, order, 1))
  {
    var q: Queue<()> := EmptyQueue();
    assert After(pieces, order, 0) == q;
    var nfrag := Frag(pieces, order[0]);
    FragEnd(pieces, order[0]);
    ProcessKeepsValid(q, nfrag);
    var q' := Process(q, nfrag).0;
    assert After(pieces, order, 1) == q';
    assert q'.list == [nfrag];
    assert Kept(order, 1) == {order[0]};
    assert !(0 in Kept(order, 1) && 1 in Kept(order, 1));
  }

  /** A refused piece, or one that comes when the queue is complete, changes nothing. */
  lemma {:induction false} RefusedArrival(pieces: seq<seq<Byte>>, order: seq<nat>, n: nat)
    requires IsCut(pieces) && IsArrivals(order, |pieces|) && 0 < n < |order|
    requires Invariant(pieces, order, n, After(pieces, order, n)) && Expected(order, |pieces|, n) == Rejected
    ensures Report(pieces, order, n) == Rejected
    ensures Invariant(pieces, order, n + 1, After(pieces, order, n + 1))
  {
    var q := After(pieces, order, n);
    KeptGrows(order, n);
    if !q.complete {
      EarlierPieceRefused(pieces, q, Kept(order, n), order[n]);
    }
    assert After(pieces, order, n + 1) == q;
    assert Kept(order, n + 1) == Kept(order, n);
  }

  lemma {:induction false} AbortingArrival(pieces: seq<seq<Byte>>, order: seq<nat>, n: nat)
    requires IsCut(pieces) && IsArrivals(order, |pieces|) && 0 < n < |order|
    requires Invariant(pieces, order, n, After(pieces, order, n)) && Expected(order, |pieces|, n) == Panicked
    ensures Report(pieces, order, n) == Panicked
  {
    KeptGrows(order, n);
    RepeatedPieceAborts(pieces, After(pieces, order, n), Kept(order, n), order[0], order[n]);
  }

  lemma {:induction false} AcceptedInvariant(pieces: seq<seq<Byte>>, order: seq<nat>, n: nat, q': Queue<()>,
      r: Outcome)
    requires IsCut(pieces) && IsArrivals(order, |pieces|) && 0 < n < |order| && order[n] > order[0]
    requires Valid(q') && HoldsPieces(pieces, q'.list, Kept(order, n + 1))
    requires q'.lastIn <==> |pieces| - 1 in Kept(order, n + 1)
    requires r.Accepted() && (r == Done <==> q'.lastIn && Tiles(q'.list)) && (q'.complete <==> r == Done)
    ensures Invariant(pieces, order, n + 1, q')
    ensures r == if HasAll(Kept(order, n + 1), |pieces|) then Done else Pending
  {
    TilesIffAllIn(pieces, q'.list, Kept(order, n + 1));
  }

  /** An accepted piece comes after the first arrival and is not there yet. */
  lemma {:induction false} AcceptedArrival(pieces: seq<seq<Byte>>, order: seq<nat>, n: nat)
    requires IsCut(pieces) && IsArrivals(order, |pieces|) && 0 < n < |order|
    requires Invariant(pieces, order, n, After(pieces, order, n)) && Expected(order, |pieces|, n).Accepted()
    ensures order[n] > order[0] && order[n] !in Kept(order, n)
    ensures Report(pieces, order, n).Accepted()
    ensures |After(pieces, order, n).list| > 0
  {
    KeptGrows(order, n);
    LaterPieceAccepted(pieces, After(pieces, order, n), Kept(order, n), order[0], order[n]);
    assert Frag(pieces, order[0]) in After(pieces, order, n).list;
  }

  lemma {:induction false} AcceptedQueue(pieces: seq<seq<Byte>>, order: seq<nat>, n: nat, q: Queue<()>, q': Queue<()>)
    requires IsCut(pieces) && IsArrivals(order, |pieces|) && 0 < n < |order| && order[n] > order[0]
    requires Valid(q) && HoldsPieces(pieces, q.list, Kept(order, n))
    requires q' == Process(q, Frag(pieces, order[n])).0 && Process(q, Frag(pieces, order[n])).1.Accepted()
    ensures Valid(q') && HoldsPieces(pieces, q'.list, Kept(order, n + 1))
  {
    KeptGrows(order, n);
    AcceptedPieceHeld(pieces, q, Kept(order, n), order[n]);
  }

  lemma {:induction false} AcceptedFlags(pieces: seq<seq<Byte>>, q: Queue<()>, i: nat)
    requires IsCut(pieces) && i < |pieces| && Valid(q) && |q.list| > 0
    requires Process(q, Frag(pieces, i)).1.Accepted()
    ensures var (q', r) := Process(q, Frag(pieces, i));
      && (q'.lastIn <==> q.lastIn || i == |pieces| - 1)
      && (r == Done <==> q'.lastIn && Tiles(q'.list))
      && (q'.complete <==> r == Done)
  {
    AcceptedCounters(q, Frag(pieces, i));
    FragEnd(pieces, i);
    DoneIffTiled(q, Frag(pieces, i));
  }

  lemma {:induction false} LastInGrows(pieces: seq<seq<Byte>>, order: seq<nat>, n: nat, before: bool, after: bool)
    requires IsCut(pieces) && 0 < n < |order| && order[n] > order[0]
    requires before <==> |pieces| - 1 in Kept(order, n) && order[0] != |pieces| - 1
    requires after <==> before || order[n] == |pieces| - 1
    requires order[n] < |pieces|
    ensures after <==> |pieces| - 1 in Kept(order, n + 1)
  {
    KeptGrows(order, n);
  }

  lemma {:induction false} AcceptedFrom(pieces: seq<seq<Byte>>, order: seq<nat>, n: nat, q: Queue<()>, q': Queue<()>,
      r: Outcome)
    requires IsCut(pieces) && IsArrivals(order, |pieces|) && 0 < n < |order| && order[n] > order[0]
    requires Invariant(pieces, order, n, q) && |q.list| > 0
    requires (q', r) == Process(q, Frag(pieces, order[n])) && r.Accepted()
    ensures Invariant(pieces, order, n + 1, q')
    ensures r == if HasAll(Kept(order, n + 1), |pieces|) then Done else Pending
  {
    AcceptedQueue(pieces, order, n, q, q');
    AcceptedFlags(pieces, q, order[n]);
    LastInGrows(pieces, order, n, q.lastIn, q'.lastIn);
    AcceptedInvariant(pieces, order, n, q', r);
  }

  /** One more arrival that is accepted. */
  lemma {:induction false} AcceptedStep(pieces: seq<seq<Byte>>, order: seq<nat>, n: nat)
    requires IsCut(pieces) && IsArrivals(order, |pieces|) && 0 < n < |order|
    requires Invariant(pieces, order, n, After(pieces, order, n)) && Expected(order, |pieces|, n).Accepted()
    ensures Report(pieces, order, n) == Expected(order, |pieces|, n)
    ensures Invariant(pieces, order, n + 1, After(pieces, order, n + 1))
  {
    AcceptedArrival(pieces, order, n);
    AcceptedFrom(pieces, order, n, After(pieces, order, n), After(pieces, order, n + 1), Report(pieces, order, n));
  }

  /** One more arrival: the report, and the invariant unless it aborts. */
  lemma {:induction false} NextArrival(pieces: seq<seq<Byte>>, order: seq<nat>, n: nat)
    requires IsCut(pieces) && IsArrivals(order, |pieces|) && 0 < n < |order|
    requires Invariant(pieces, order, n, After(pieces, order, n))
    ensures Report(pieces, order, n) == Expected(order, |pieces|, n)
    ensures Expected(order, |pieces|, n) != Panicked ==> Invariant(pieces, order, n + 1, After(pieces, order, n + 1))
  {
    match Expected(order, |pieces|, n) {
      case Rejected => RefusedArrival(pieces, order, n);
      case Panicked => AbortingArrival(pieces, order, n);
      case _ => AcceptedStep(pieces, order, n);
    }
  }

  lemma {:induction false} RunInvariant(pieces: seq<seq<Byte>>, order: seq<nat>, n: nat)
    requires IsCut(pieces) && IsArrivals(order, |pieces|) && 0 < n <= |order| && NoneAborts(order, |pieces|, n)
    ensures Invariant(pieces, order, n, After(pieces, order, n))
  {
    if n == 1 {
      FirstArrival(pieces, order);
    } else {
      RunInvariant(pieces, order, n - 1);
      NextArrival(pieces, order, n - 1);
    }
  }

  /** Up to the first abort every report is the expected one. */
  lemma {:induction false} ReportsAreExpected(pieces: seq<seq<Byte>>, order: seq<nat>, n: nat)
    requires IsCut(pieces) && IsArrivals(order, |pieces|) && n < |order|
    requires NoneAborts(order, |pieces|, n)
    ensures Report(pieces, order, n) == Expected(order, |pieces|, n)
  {
    if n == 0 {
      FirstArrival(pieces, order);
    } else {
      RunInvariant(pieces, order, n);
      NextArrival(pieces, order, n);
    }
  }

  /** The queue completes exactly when every piece has come and piece 0 came first, and then
      holds the fragments in payload order. */
  lemma {:induction false} CompleteInOrder(pieces: seq<seq<Byte>>, order: seq<nat>, n: nat)
    requires IsCut(pieces) && IsArrivals(order, |pieces|) && 0 < n <= |order| && NoneAborts(order, |pieces|, n)
    ensures After(pieces, order, n).complete <==> order[0] == 0 && forall i: nat :: i < |pieces| ==> i in order[..n]
    ensures After(pieces, order, n).complete ==> After(pieces, order, n).list == InOrder(pieces)
  {
    RunInvariant(pieces, order, n);
    AllKeptIff(order, |pieces|, n);
    if After(pieces, order, n).complete {
      FullListInOrder(pieces, After(pieces, order, n).list, Kept(order, n));
    }
  }

  lemma {:induction false} AllKeptIff(order: seq<nat>, k: nat, n: nat)
    requires 0 < n <= |order| && 0 < k
    ensures HasAll(Kept(order, n), k) <==> order[0] == 0 && forall i: nat :: i < k ==> i in order[..n]
  {
    if HasAll(Kept(order, n), k) {
      assert 0 in Kept(order, n);
      forall i: nat | i < k ensures i in order[..n] {
        assert i in Kept(order, n);
      }
    } else if order[0] == 0 {
      var i :| 0 <= i < k && i !in Kept(order, n);
      assert i !in order[..n];
    }
  }

  lemma {:induction false} FullListInOrder(pieces: seq<seq<Byte>>, list: seq<Fragment<()>>, kept: set<nat>)
    requires IsCut(pieces) && Ordered(list) && HoldsPieces(pieces, list, kept) && HasAll(kept, |pieces|)
    ensures list == InOrder(pieces)
  {
    FullListTiles(pieces, list, kept);
    TilingHasAll(pieces, list, kept);
    forall i | 0 <= i < |pieces| ensures list[i] == Frag(pieces, i) {
      TilingIsInOrder(pieces, list, kept, i);
    }
  }

  /** All fragments, in payload order. */
  function InOrder(pieces: seq<seq<Byte>>): seq<Fragment<()>>
    requires IsCut(pieces)
  {
    seq(|pieces|, i requires 0 <= i < |pieces| => Frag(pieces, i))
  }

  // ----- Every piece once -----

  /** With every piece arriving once, all have come only at the end, and none aborts. */
  lemma {:induction false} OrderExpected(order: seq<nat>, k: nat, n: nat)
    requires IsOrder(order, k) && k >= 2 && n < k
    ensures Expected(order, k, n)
      == if order[n] < order[0] then Rejected else if n == k - 1 && order[0] == 0 then Done else Pending
  {
    if n > 0 {
      assert order[n] !in Kept(order, n);
      if n < k - 1 {
        assert order[n + 1] !in Kept(order, n + 1);
      } else if order[0] == 0 {
        forall i | 0 <= i < k ensures i in Kept(order, k) {
          Counting.DistinctHitsAll(order, k, i);
        }
      } else {
        assert 0 !in Kept(order, k);
      }
    }
  }

  lemma {:induction false} OrderNeverAborts(order: seq<nat>, k: nat)
    requires IsOrder(order, k) && k >= 2
    ensures NoneAborts(order, k, k)
  {
    forall n | 0 <= n < k ensures Expected(order, k, n) != Panicked {
      OrderExpected(order, k, n);
    }
  }
}
