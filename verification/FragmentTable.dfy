/** The table of reassembly queues and the fragment part of `ipHandler` in `src/nat/snat.go`:
    traffic of many datagrams, interleaved, is sorted into queues by fragment key. */
module FragmentTable {
  import opened Machine
  import opened FragmentQueue
  import opened Reassembly
  import opened ArrivalOrders

  datatype FragInfo = FragInfo(proto: Byte, id: U16, sip: U32, dip: U32)

  datatype Arrival<P> = Arrival(key: FragInfo, offset: U16, len: U16, more: bool, pkb: P) {
    function Fragment(): Fragment<P> {
      CreateFragment(offset, len, more, pkb)
    }
  }

  // ----- Specification -----

  function QueueOf<P>(t: map<FragInfo, Queue<P>>, key: FragInfo): Queue<P> {
    if key in t then t[key] else EmptyQueue()
  }

  /** One fragment: find or create the queue of its key, and hand the fragment to it. */
  function Handle<P>(t: map<FragInfo, Queue<P>>, a: Arrival<P>): (map<FragInfo, Queue<P>>, Outcome) {
    var (q, r) := Process(QueueOf(t, a.key), a.Fragment());
    (t[a.key := q], r)
  }

  /** The table after the whole of `traffic`. */
  function TableAfter<P>(traffic: seq<Arrival<P>>): map<FragInfo, Queue<P>> {
    if |traffic| == 0 then map[]
    else Handle(TableAfter(traffic[..|traffic| - 1]), traffic[|traffic| - 1]).0
  }

  /** What the handler reports for the last fragment of `traffic`. */
  function LastReport<P>(traffic: seq<Arrival<P>>): Outcome
    requires |traffic| > 0
  {
    Handle(TableAfter(traffic[..|traffic| - 1]), traffic[|traffic| - 1]).1
  }

  /** The part of the traffic that carries `key`. */
  function Of<P>(traffic: seq<Arrival<P>>, key: FragInfo): seq<Arrival<P>> {
    if |traffic| == 0 then []
    else
      var before := Of(traffic[..|traffic| - 1], key);
      if traffic[|traffic| - 1].key == key then before + [traffic[|traffic| - 1]] else before
  }

  // ----- Main results -----

  /** Datagrams do not interfere: the queue of a key is what its own fragments alone make it. */
  lemma {:induction false} QueuesAreIndependent<P>(traffic: seq<Arrival<P>>, key: FragInfo)
    ensures QueueOf(TableAfter(traffic), key) == QueueOf(TableAfter(Of(traffic, key)), key)
    decreases |traffic|
  {
    if |traffic| > 0 {
      var before, a := traffic[..|traffic| - 1], traffic[|traffic| - 1];
      QueuesAreIndependent(before, key);
      if a.key == key {
        assert Of(traffic, key)[..|Of(traffic, key)| - 1] == Of(before, key);
      }
    }
  }

  /** And so is every report. */
  lemma {:induction false} ReportsAreIndependent<P>(traffic: seq<Arrival<P>>)
    requires |traffic| > 0
    ensures |Of(traffic, traffic[|traffic| - 1].key)| > 0
    ensures LastReport(traffic) == LastReport(Of(traffic, traffic[|traffic| - 1].key))
  {
    var before, a := traffic[..|traffic| - 1], traffic[|traffic| - 1];
    QueuesAreIndependent(before, a.key);
    assert Of(traffic, a.key)[..|Of(traffic, a.key)| - 1] == Of(before, a.key);
  }

  /** A queue is never removed from the table, so once a datagram is complete every further
      fragment with its key is refused, for ever. */
  lemma {:induction false} CompletedKeyRefuses<P>(traffic: seq<Arrival<P>>, more: seq<Arrival<P>>, key: FragInfo)
    requires QueueOf(TableAfter(traffic), key).complete
    ensures QueueOf(TableAfter(traffic + more), key) == QueueOf(TableAfter(traffic), key)
    ensures |more| > 0 && more[|more| - 1].key == key ==> LastReport(traffic + more) == Rejected
    decreases |more|
  {
    if more == [] {
      assert traffic + more == traffic;
    } else {
      var rest := more[..|more| - 1];
      assert (traffic + more)[..|traffic + more| - 1] == traffic + rest;
      CompletedKeyRefuses(traffic, rest, key);
    }
  }

  /** The traffic has not aborted. */
  ghost predicate Survives<P>(traffic: seq<Arrival<P>>)
    decreases |traffic|
  {
    |traffic| == 0 || (LastReport(traffic) != Panicked && Survives(traffic[..|traffic| - 1]))
  }

  /** Whatever fragments arrive, of whatever datagrams: as long as their ends fit 16 bits and none
      has aborted, every queue is valid; so a complete one covers its datagram without a gap. */
  lemma {:induction false} QueuesStayValid<P>(traffic: seq<Arrival<P>>, key: FragInfo)
    requires Survives(traffic)
    requires forall a :: a in traffic ==> a.offset + a.len <= 0xFFFF
    ensures Valid(QueueOf(TableAfter(traffic), key))
    ensures QueueOf(TableAfter(traffic), key).complete ==> Tiles(QueueOf(TableAfter(traffic), key).list)
    decreases |traffic|
  {
    if |traffic| > 0 {
      var before, a := traffic[..|traffic| - 1], traffic[|traffic| - 1];
      QueuesStayValid(before, key);
      if a.key == key {
        assert a in traffic;
        ProcessKeepsValid(QueueOf(TableAfter(before), key), a.Fragment());
      }
    }
  }

  // ----- Datagrams among other traffic -----

  /** A fragment of a cut payload, as it arrives under `key`. */
  function ArrivalOf<P>(pieces: seq<seq<Byte>>, key: FragInfo, a: Arrived<P>): Arrival<P>
    requires IsCut(pieces) && a.piece < |pieces|
  {
    var f := FragOf(pieces, a);
    Arrival(key, f.offset, f.len, f.more, f.pkb)
  }

  /** The first `n` fragments, in arrival order. */
  function Arrivals<P>(pieces: seq<seq<Byte>>, order: seq<Arrived<P>>, key: FragInfo, n: nat): (s: seq<Arrival<P>>)
    requires IsCut(pieces) && IsArrivals(Numbers(order), |pieces|) && n <= |order|
    ensures |s| == n
  {
    if n == 0 then []
    else
      assert Numbers(order)[n - 1] < |pieces|;
      Arrivals(pieces, order, key, n - 1) + [ArrivalOf(pieces, key, order[n - 1])]
  }

  /** One more fragment of the same key. */
  lemma {:induction false} QueueStep<P>(s: seq<Arrival<P>>, a: Arrival<P>)
    ensures QueueOf(TableAfter(s + [a]), a.key) == Process(QueueOf(TableAfter(s), a.key), a.Fragment()).0
    ensures LastReport(s + [a]) == Process(QueueOf(TableAfter(s), a.key), a.Fragment()).1
  {
    assert (s + [a])[..|s|] == s;
  }

  lemma {:induction false} ArrivalIsFrag<P>(pieces: seq<seq<Byte>>, key: FragInfo, a: Arrived<P>)
    requires IsCut(pieces) && a.piece < |pieces|
    ensures ArrivalOf(pieces, key, a).Fragment() == FragOf(pieces, a)
  {
    FragEnd(pieces, a.piece);
  }

  lemma {:induction false} ArrivalsFillQueue<P>(pieces: seq<seq<Byte>>, order: seq<Arrived<P>>, key: FragInfo, n: nat)
    requires IsCut(pieces) && IsArrivals(Numbers(order), |pieces|) && n <= |order|
    ensures QueueOf(TableAfter(Arrivals(pieces, order, key, n)), key) == Filled(pieces, order, n)
  {
    if n > 0 {
      assert Numbers(order)[n - 1] < |pieces|;
      var a := ArrivalOf(pieces, key, order[n - 1]);
      ArrivalsFillQueue(pieces, order, key, n - 1);
      ArrivalIsFrag(pieces, key, order[n - 1]);
      QueueStep(Arrivals(pieces, order, key, n - 1), a);
    }
  }

  lemma {:induction false} ArrivalsReport<P>(pieces: seq<seq<Byte>>, order: seq<Arrived<P>>, key: FragInfo, n: nat)
    requires IsCut(pieces) && IsArrivals(Numbers(order), |pieces|) && 0 < n <= |order|
    ensures LastReport(Arrivals(pieces, order, key, n)) == Reported(pieces, order, n - 1)
  {
    assert Numbers(order)[n - 1] < |pieces|;
    var a := ArrivalOf(pieces, key, order[n - 1]);
    ArrivalsFillQueue(pieces, order, key, n - 1);
    ArrivalIsFrag(pieces, key, order[n - 1]);
    QueueStep(Arrivals(pieces, order, key, n - 1), a);
  }

  /** In interleaved traffic queue and report are those of the key's own arrivals. */
  lemma {:induction false} InterleavedArrivals<P>(
    traffic: seq<Arrival<P>>, pieces: seq<seq<Byte>>, order: seq<Arrived<P>>, n: nat, key: FragInfo)
    requires IsCut(pieces) && IsArrivals(Numbers(order), |pieces|) && 0 < n <= |order|
    requires |traffic| > 0 && key == traffic[|traffic| - 1].key && Of(traffic, key) == Arrivals(pieces, order, key, n)
    ensures QueueOf(TableAfter(traffic), key) == Filled(pieces, order, n)
    ensures LastReport(traffic) == Reported(pieces, order, n - 1)
  {
    ReportsAreIndependent(traffic);
    QueuesAreIndependent(traffic, key);
    ArrivalsFillQueue(pieces, order, key, n);
    ArrivalsReport(pieces, order, key, n);
  }

  /** Reassembly in interleaved traffic: whatever else arrives in between, if the fragments with
      `key` so far are the first `n` arrivals of a cut payload in some order, with or without
      repeats, and none before the last aborted, the last of them is reported as the order
      alone tells; and when all pieces are in the queue holds them in payload order, each in the
      buffer in which it came first. */
  lemma {:induction false} InterleavedReassembly<P>(
    traffic: seq<Arrival<P>>, pieces: seq<seq<Byte>>, order: seq<Arrived<P>>, n: nat, key: FragInfo)
    requires IsCut(pieces) && IsArrivals(Numbers(order), |pieces|) && 0 < n <= |order|
    requires |traffic| > 0 && key == traffic[|traffic| - 1].key && Of(traffic, key) == Arrivals(pieces, order, key, n)
    requires NoneAborts(Numbers(order), |pieces|, n - 1)
    ensures LastReport(traffic) == Expected(Numbers(order), |pieces|, n - 1)
    ensures LastReport(traffic) == Done ==> InOrderFrom(pieces, order, n, QueueOf(TableAfter(traffic), key).list)
  {
    InterleavedArrivals(traffic, pieces, order, n, key);
    ReportsWithRepeats(pieces, order, n - 1);
    if LastReport(traffic) == Done {
      DoneIsComplete(pieces, order, n);
    }
  }

  lemma {:induction false} DoneIsComplete<P>(pieces: seq<seq<Byte>>, order: seq<Arrived<P>>, n: nat)
    requires IsCut(pieces) && IsArrivals(Numbers(order), |pieces|) && 0 < n <= |order|
    requires NoneAborts(Numbers(order), |pieces|, n - 1) && Expected(Numbers(order), |pieces|, n - 1) == Done
    ensures InOrderFrom(pieces, order, n, Filled(pieces, order, n).list)
  {
    AllKeptIff(Numbers(order), |pieces|, n);
    ReassembledWithRepeats(pieces, order, n);
  }

  /** And with every piece arriving once: nothing aborts, a piece is refused exactly when it lies
      before the first arrival, and completion is reported exactly for the final one when piece
      0 came first. */
  lemma {:induction false} InterleavedOnce<P>(
    traffic: seq<Arrival<P>>, pieces: seq<seq<Byte>>, order: seq<Arrived<P>>, n: nat, key: FragInfo)
    requires IsCut(pieces) && IsOrder(Numbers(order), |pieces|) && 0 < n <= |order|
    requires |traffic| > 0 && key == traffic[|traffic| - 1].key && Of(traffic, key) == Arrivals(pieces, order, key, n)
    ensures LastReport(traffic) != Panicked
    ensures LastReport(traffic) == Rejected <==> order[n - 1].piece < order[0].piece
    ensures LastReport(traffic) == Done <==> n == |order| && order[0].piece == 0
  {
    InterleavedArrivals(traffic, pieces, order, n, key);
    ReportsInEveryOrder(pieces, order, n - 1);
  }

  // ----- The code -----

  datatype Verdict = Drop | Stolen | Continue

  class FragTable {
    var fragQueueMap: map<FragInfo, FragQueue>

    /** Distinct keys have distinct queues, and a queue does not hold a buffer twice. */
    ghost predicate Valid()
      reads this, fragQueueMap.Values
    {
      && (forall k, m :: k in fragQueueMap && m in fragQueueMap && k != m ==> fragQueueMap[k] != fragQueueMap[m])
      && (forall k :: k in fragQueueMap ==> Separate(fragQueueMap[k].list))
    }

    ghost function View(): map<FragInfo, Queue<PktBuf>>
      reads this, fragQueueMap.Values
    {
      map k | k in fragQueueMap :: fragQueueMap[k].View()
    }

    constructor ()
      ensures Valid() && View() == map[]
    {
      fragQueueMap := map[];
    }

    /** `fragQueueFind`, or `newfragQueue` and `fragQueueAdd`. */
    method FindOrAdd(key: FragInfo) returns (fq: FragQueue)
      requires Valid()
      modifies this
      ensures Valid() && key in fragQueueMap && fragQueueMap[key] == fq
      ensures fq.View() == old(QueueOf(View(), key))
      ensures forall k :: k in fragQueueMap <==> k in old(fragQueueMap) || k == key
      ensures forall k :: k in old(fragQueueMap) ==> fragQueueMap[k] == old(fragQueueMap[k])
      ensures fq in old(fragQueueMap.Values) || fresh(fq)
    {
      if key in fragQueueMap {
        fq := fragQueueMap[key];
      } else {
        fq := new FragQueue();
        fragQueueMap := fragQueueMap[key := fq];
      }
    }

    /** Find the queue of the fragment's key, and hand the fragment to it. */
    method Submit(a: Arrival<PktBuf>) returns (fq: FragQueue, r: Outcome)
      requires Valid()
      requires forall f :: f in QueueOf(View(), a.key).list ==> f.pkb != a.pkb
      modifies this, fragQueueMap.Values
      ensures r == Done ==> fq.complete && |fq.list| > 0
      ensures forall f :: f in fq.list ==> f == a.Fragment() || f in old(QueueOf(View(), a.key)).list
      ensures Valid()
      ensures a.key in fragQueueMap && fragQueueMap[a.key] == fq
      ensures fq.View() == Process(old(QueueOf(View(), a.key)), a.Fragment()).0
      ensures r == Process(old(QueueOf(View(), a.key)), a.Fragment()).1
      ensures forall k :: k in fragQueueMap <==> k in old(fragQueueMap) || k == a.key
      ensures forall k :: k in old(fragQueueMap) && k != a.key ==>
        fragQueueMap[k] == old(fragQueueMap[k]) && fragQueueMap[k].View() == old(fragQueueMap[k].View())
    {
      ghost var t := View();
      fq := FindOrAdd(a.key);
      r := fq.ProcessFragment(a.offset, a.len, a.more, a.pkb);
      ProcessKeepsSeparate(QueueOf(t, a.key), a.Fragment());
    }

    /** `Submit`, seen from the table. */
    method Deliver(a: Arrival<PktBuf>) returns (fq: FragQueue, r: Outcome)
      requires Valid()
      requires forall f :: f in QueueOf(View(), a.key).list ==> f.pkb != a.pkb
      modifies this, fragQueueMap.Values
      ensures Valid() && View() == Handle(old(View()), a).0 && r == Handle(old(View()), a).1
      ensures a.key in fragQueueMap && fragQueueMap[a.key] == fq
      ensures r == Done ==> fq.complete && |fq.list| > 0
      ensures forall f :: f in fq.list ==> f == a.Fragment() || f in old(QueueOf(View(), a.key)).list
    {
      ghost var t := View();
      fq, r := Submit(a);
      HandledTable(t, View(), a);
    }

    /** Linking buffers does not touch the table. */
    twostate lemma ViewUntouched()
      requires unchanged(this) && forall fq :: fq in fragQueueMap.Values ==> unchanged(fq)
      ensures View() == old(View()) && (old(Valid()) ==> Valid())
    {
    }

    /** The fragment part of `ipHandler`; a panic of the queue is passed on. */
    method HandleFragment(a: Arrival<PktBuf>) returns (v: Verdict, head: PktBuf?, aborts: bool, ghost r: Outcome)
      requires Valid()
      requires forall f :: f in QueueOf(View(), a.key).list ==> f.pkb != a.pkb
      modifies this, fragQueueMap.Values
      modifies ({a.pkb} + set f | f in QueueOf(View(), a.key).list :: f.pkb)`next
      ensures Valid() && View() == Handle(old(View()), a).0 && r == Handle(old(View()), a).1
      ensures v == if r == Rejected then Drop else if r == Done then Continue else Stolen
      ensures aborts == (r == Panicked)
      ensures r == Done ==> a.key in fragQueueMap && IsChainOf(head, fragQueueMap[a.key].list)
    {
      head := null;
      var fq, outcome := Deliver(a);
      r := outcome;
      aborts := outcome == Panicked;
      v := if outcome == Rejected then Drop else if outcome == Done then Continue else Stolen;
      if outcome == Done {
        label Before:
        head := fq.Completed();
        ViewUntouched@Before();
      }
    }
  }

  lemma {:induction false} HandledTable<P>(t: map<FragInfo, Queue<P>>, u: map<FragInfo, Queue<P>>, a: Arrival<P>)
    requires forall k :: k in u <==> k in t || k == a.key
    requires u[a.key] == Process(QueueOf(t, a.key), a.Fragment()).0
    requires forall k :: k in t && k != a.key ==> u[k] == t[k]
    ensures u == Handle(t, a).0
  {
  }

  ghost predicate Separate<P>(list: seq<Fragment<P>>) {
    forall i, j :: 0 <= i < j < |list| ==> list[i].pkb != list[j].pkb
  }

  lemma {:induction false} ProcessKeepsSeparate<P>(q: Queue<P>, nfrag: Fragment<P>)
    requires Separate(q.list)
    requires forall f :: f in q.list ==> f.pkb != nfrag.pkb
    ensures Separate(Process(q, nfrag).0.list)
    ensures forall f :: f in Process(q, nfrag).0.list ==> f == nfrag || f in q.list
    ensures Process(q, nfrag).1 == Done ==> Process(q, nfrag).0.complete && |Process(q, nfrag).0.list| > 0
  {
  }
}
