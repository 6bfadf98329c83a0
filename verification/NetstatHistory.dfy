/** What the state of a tracked connection says about the packets seen so far: its counters, its
    handshake, how long it has been idle, and when it leaves the table. */
module NetstatHistory {
  import opened Conntrack
  import opened Netstat

  // ----- One event, one connection -----

  /** The packet is for a TCP connection (protocol 6), and a SYN with no other flag. */
  predicate PureSyn(seg: Segment) {
    seg.tuple.proto == 6 && seg.flags == 2
  }

  /** It carries a FIN or a RST (bits 0 and 2). */
  predicate Closes(seg: Segment) {
    seg.tuple.proto == 6 && (seg.flags % 2 == 1 || seg.flags / 4 % 2 == 1)
  }

  /** It carries a SYN and an ACK (bits 1 and 4). */
  predicate SynAck(seg: Segment) {
    seg.tuple.proto == 6 && seg.flags / 2 % 2 == 1 && seg.flags / 16 % 2 == 1
  }

  /** It is an ACK with no other flag. */
  predicate PureAck(seg: Segment) {
    seg.tuple.proto == 6 && seg.flags == 16
  }

  /** A packet without a connection opens one if it is a datagram (protocol 17), or an outbound pure
      SYN. */
  predicate Starts(seg: Segment) {
    seg.tuple.proto == 17 || (PureSyn(seg) && seg.outBound)
  }

  /** The packet is counted for connection `id`: it belongs to it while it is live and not being
      deleted, and is no pure SYN, or it opens it. */
  ghost predicate CountsFor(s: State, ev: Event, id: nat) {
    && ev.Packet?
    && if id < |s.conns| then
         && s.conns[id].timer.Armed? && s.conns[id].status != CtDel && !PureSyn(ev.seg)
         && (ev.seg.tuple == s.conns[id].origin || ev.seg.tuple == Invert(s.conns[id].origin))
       else id == |s.conns| && ev.seg.tuple !in s.table && Starts(ev.seg)
  }

  ghost function DirectionFor(s: State, ev: Event, id: nat): Dir
    requires CountsFor(s, ev, id)
  {
    if id < |s.conns| && ev.seg.tuple != s.conns[id].origin then Reply else Origin
  }

  /** How an event changes a connection that exists. */
  function ConnAfter(s: State, ev: Event, id: nat): Conn
    requires id < |s.conns|
  {
    match ev
    case Packet(seg) => if Found(s, seg.tuple) == id then Handled(s.conns[id], seg, s.now + 1) else s.conns[id]
    case Fire(i) => if i == id then TimedOut(s.conns[id], s.now) else s.conns[id]
    case Elapse(d) => s.conns[id]
  }

  lemma {:induction false} NextConn(s: State, ev: Event, id: nat)
    requires id < |s.conns|
    ensures id < |Next(s, ev).conns| && Next(s, ev).conns[id] == ConnAfter(s, ev, id)
  {
  }

  /** Connections are born one at a time, from a packet without a connection. */
  lemma {:induction false} Birth(s: State, ev: Event, id: nat)
    requires Inv(s) && |s.conns| <= id < |Next(s, ev).conns|
    ensures id == |s.conns| && CountsFor(s, ev, id)
    ensures Next(s, ev).conns[id] == Opened(ev.seg, s.now + 1)
  {
  }

  /** Only a birth counts for a connection that does not exist yet. */
  lemma {:induction false} NoBirth(s: State, ev: Event, id: nat)
    requires Inv(s) && |Next(s, ev).conns| <= id
    ensures |s.conns| <= id && !CountsFor(s, ev, id)
  {
  }

  lemma {:induction false} FoundIsOwner(s: State, t: Tuple, id: nat)
    requires Inv(s) && id < |s.conns|
    ensures Found(s, t) == id <==> Live(s, id) && s.conns[id].Owns(t)
  {
  }

  // ----- The history, as functions of the run alone -----

  /** The bytes counted for connection `id` in direction `dir` during the first `n` events. */
  ghost function Counted(run: Run, n: nat, id: nat, dir: Dir): nat
    requires Reaches(run, n)
  {
    if n == 0 then 0
    else
      var s, ev := run.states[n - 1], run.events[n - 1];
      Counted(run, n - 1, id, dir) + if CountsFor(s, ev, id) && DirectionFor(s, ev, id) == dir then ev.seg.len else 0
  }

  /** When a byte was last counted for connection `id`. */
  ghost function LastCounted(run: Run, n: nat, id: nat): nat
    requires Reaches(run, n)
  {
    if n == 0 then 0
    else if CountsFor(run.states[n - 1], run.events[n - 1], id) then run.states[n].now
    else LastCounted(run, n - 1, id)
  }

  // ----- Counters -----

  lemma {:induction false} NothingBeforeBirth(run: Run, n: nat, id: nat)
    requires IsRun(run, n) && |run.states[n].conns| <= id
    ensures Counted(run, n, id, Origin) == Counted(run, n, id, Reply) == 0
  {
    if n > 0 {
      RunKeeps(run, n - 1);
      NoBirth(run.states[n - 1], run.events[n - 1], id);
      NothingBeforeBirth(run, n - 1, id);
    }
  }

  lemma {:induction false} StatsAfter(s: State, ev: Event, id: nat)
    requires Inv(s) && id < |s.conns|
    ensures ConnAfter(s, ev, id).stats ==
      if CountsFor(s, ev, id) then s.conns[id].stats.Count(DirectionFor(s, ev, id), ev.seg.len) else s.conns[id].stats
  {
    if ev.Packet? {
      FoundIsOwner(s, ev.seg.tuple, id);
    }
  }

  /** The byte counters of a connection are the lengths of its packets, added up per direction. */
  lemma {:induction false} CountersAreSums(run: Run, n: nat, id: nat)
    requires IsRun(run, n) && id < |run.states[n].conns|
    ensures run.states[n].conns[id].stats == Stats(Counted(run, n, id, Origin), Counted(run, n, id, Reply))
  {
    var s, ev := run.states[n - 1], run.events[n - 1];
    RunKeeps(run, n - 1);
    if id < |s.conns| {
      CountersAreSums(run, n - 1, id);
      NextConn(s, ev, id);
      StatsAfter(s, ev, id);
    } else {
      NothingBeforeBirth(run, n - 1, id);
      Birth(s, ev, id);
    }
  }

  /** The time that the first `n` events take. */
  function TimeTaken(run: Run, n: nat): nat
    requires Reaches(run, n)
  {
    if n == 0 then 0
    else
      TimeTaken(run, n - 1)
      + match run.events[n - 1]
        case Packet(_) => 1
        case Fire(_) => 0
        case Elapse(d) => d
  }

  lemma {:induction false} ClockIsSum(run: Run, n: nat)
    requires IsRun(run, n)
    ensures run.states[n].now == TimeTaken(run, n)
  {
    if n > 0 {
      ClockIsSum(run, n - 1);
    }
  }

  // ----- Status -----

  function Rank(status: Status): nat {
    match status
    case CtNew => 0
    case CtReply => 1
    case CtEstablished => 2
    case CtDel => 3
  }

  lemma {:induction false} ConnForward(s: State, ev: Event, id: nat)
    requires id < |s.conns|
    ensures Rank(s.conns[id].status) <= Rank(ConnAfter(s, ev, id).status)
    ensures ConnAfter(s, ev, id).origin == s.conns[id].origin
  {
  }

  /** The status of a connection never decreases, and its origin key never changes. */
  lemma {:induction false} StatusNeverDecreases(run: Run, n: nat, m: nat, id: nat)
    requires n <= m && IsRun(run, m) && id < |run.states[n].conns|
    ensures id < |run.states[m].conns|
    ensures Rank(run.states[n].conns[id].status) <= Rank(run.states[m].conns[id].status)
    ensures run.states[n].conns[id].origin == run.states[m].conns[id].origin
    decreases m
  {
    if n < m {
      StatusNeverDecreases(run, n, m - 1, id);
      NextConn(run.states[m - 1], run.events[m - 1], id);
      ConnForward(run.states[m - 1], run.events[m - 1], id);
    }
  }

  // ----- The handshake -----

  /** Event `k` was counted for connection `id`, in direction `dir`. */
  ghost predicate CountedAt(run: Run, k: nat, id: nat, dir: Dir) {
    Reaches(run, k) && k < |run.events|
    && CountsFor(run.states[k], run.events[k], id) && DirectionFor(run.states[k], run.events[k], id) == dir
  }

  /** Event `k` is the segment that opened connection `id`. */
  ghost predicate OpenedAt(run: Run, k: nat, id: nat) {
    Reaches(run, k) && k < |run.events| && |run.states[k].conns| == id && CountsFor(run.states[k], run.events[k], id)
  }

  /** The last event of a run, seen from a connection that exists after it. */
  lemma {:induction false} LastStep(run: Run, n: nat, id: nat)
    requires n > 0 && IsRun(run, n) && id < |run.states[n].conns|
    ensures Inv(run.states[n - 1])
    ensures id < |run.states[n - 1].conns| ==>
      && run.states[n].conns[id] == ConnAfter(run.states[n - 1], run.events[n - 1], id)
      && run.states[n].conns[id].origin == run.states[n - 1].conns[id].origin
    ensures id >= |run.states[n - 1].conns| ==>
      OpenedAt(run, n - 1, id) && run.states[n].conns[id] == Opened(run.events[n - 1].seg, run.states[n - 1].now + 1)
  {
    RunKeeps(run, n - 1);
    if id < |run.states[n - 1].conns| {
      NextConn(run.states[n - 1], run.events[n - 1], id);
      ConnForward(run.states[n - 1], run.events[n - 1], id);
    } else {
      Birth(run.states[n - 1], run.events[n - 1], id);
    }
  }

  /** A packet with an unknown key opens a connection exactly if it is a datagram or an outbound pure
      SYN; one with a known key opens none. */
  lemma {:induction false} OpensExactly(run: Run, n: nat, seg: Segment)
    requires IsRun(run, n + 1) && run.events[n] == Packet(seg)
    ensures |run.states[n + 1].conns|
      == |run.states[n].conns| + if seg.tuple !in run.states[n].table && Starts(seg) then 1 else 0
    ensures seg.tuple !in run.states[n].table && Starts(seg) ==>
      && run.states[n + 1].conns[|run.states[n].conns|].status == CtNew
      && LeadsTo(run.states[n + 1], seg.tuple, |run.states[n].conns|)
      && LeadsTo(run.states[n + 1], Invert(seg.tuple), |run.states[n].conns|)
  {
    RunKeeps(run, n);
  }

  /** Event `i` opened connection `id` with its origin key; for TCP it was an outbound pure SYN. */
  ghost predicate Opening(run: Run, i: nat, id: nat, origin: Tuple) {
    && OpenedAt(run, i, id)
    && run.events[i].seg.tuple == origin
    && (origin.proto == 6 ==> run.events[i].seg.flags == 2 && run.events[i].seg.outBound)
  }

  /** Every connection was opened by such a packet. */
  lemma {:induction false} OpeningPacket(run: Run, n: nat, id: nat) returns (i: nat)
    requires IsRun(run, n) && id < |run.states[n].conns|
    ensures i < n && Opening(run, i, id, run.states[n].conns[id].origin)
  {
    LastStep(run, n, id);
    if id < |run.states[n - 1].conns| {
      i := OpeningPacket(run, n - 1, id);
    } else {
      i := n - 1;
    }
  }

  /** What made the status of a TCP connection rise in the last event. */
  lemma {:induction false} RiseIsCounted(s: State, ev: Event, id: nat)
    requires Inv(s) && id < |s.conns|
    requires s.conns[id].origin.proto == TCP
    requires ConnAfter(s, ev, id).status != s.conns[id].status && ConnAfter(s, ev, id).status != CtDel
    ensures CountsFor(s, ev, id) && ev.seg.tuple.proto == TCP
    ensures ConnAfter(s, ev, id).status == CtReply ==> SynAck(ev.seg) && DirectionFor(s, ev, id) == Reply
    ensures ConnAfter(s, ev, id).status == CtEstablished ==> PureAck(ev.seg) && s.conns[id].status == CtReply
  {
    if ev.Packet? {
      FoundIsOwner(s, ev.seg.tuple, id);
    }
  }

  /** If the last event raised the status of a TCP connection, it was the right counted packet. */
  lemma {:induction false} LastRise(run: Run, n: nat, id: nat)
    requires n > 0 && IsRun(run, n) && id < |run.states[n].conns|
    requires run.states[n].conns[id].origin.proto == TCP
    requires run.states[n].conns[id].status == CtReply || run.states[n].conns[id].status == CtEstablished
    ensures id < |run.states[n - 1].conns|
    ensures run.states[n - 1].conns[id].origin == run.states[n].conns[id].origin
    ensures run.states[n - 1].conns[id].status == run.states[n].conns[id].status || CountedEither(run, n - 1, id)
    ensures run.states[n - 1].conns[id].status == run.states[n].conns[id].status
      || (run.states[n].conns[id].status == CtReply && SynAck(run.events[n - 1].seg)
        && CountedAt(run, n - 1, id, Reply))
      || (run.states[n].conns[id].status == CtEstablished && PureAck(run.events[n - 1].seg)
        && run.states[n - 1].conns[id].status == CtReply)
  {
    LastStep(run, n, id);
    if run.states[n - 1].conns[id].status != run.states[n].conns[id].status {
      RiseIsCounted(run.states[n - 1], run.events[n - 1], id);
    }
  }

  ghost predicate CountedEither(run: Run, k: nat, id: nat) {
    Reaches(run, k) && k < |run.events| && CountsFor(run.states[k], run.events[k], id)
  }

  /** A connection that is waiting for its last acknowledgement has seen the SYN-ACK on the
      inverse key. */
  lemma {:induction false} SynAckSeen(run: Run, n: nat, id: nat) returns (i: nat, j: nat)
    requires IsRun(run, n) && id < |run.states[n].conns|
    requires run.states[n].conns[id].origin.proto == TCP && run.states[n].conns[id].status == CtReply
    ensures i < j < n && Opening(run, i, id, run.states[n].conns[id].origin)
    ensures CountedAt(run, j, id, Reply) && SynAck(run.events[j].seg)
  {
    LastRise(run, n, id);
    if run.states[n - 1].conns[id].status == CtReply {
      i, j := SynAckSeen(run, n - 1, id);
    } else {
      i := OpeningPacket(run, n - 1, id);
      j := n - 1;
    }
  }

  /** An established TCP connection has seen, in this order, an outbound pure SYN on its origin
      key, a SYN-ACK on the inverse key, and a pure ACK. */
  lemma {:induction false} HandshakeSeen(run: Run, n: nat, id: nat) returns (i: nat, j: nat, k: nat)
    requires IsRun(run, n) && id < |run.states[n].conns|
    requires run.states[n].conns[id].origin.proto == TCP && run.states[n].conns[id].status == CtEstablished
    ensures i < j < k < n && Opening(run, i, id, run.states[n].conns[id].origin)
    ensures CountedAt(run, j, id, Reply) && SynAck(run.events[j].seg)
    ensures CountedEither(run, k, id) && PureAck(run.events[k].seg)
  {
    LastRise(run, n, id);
    if run.states[n - 1].conns[id].status == CtEstablished {
      i, j, k := HandshakeSeen(run, n - 1, id);
    } else {
      i, j := SynAckSeen(run, n - 1, id);
      k := n - 1;
    }
  }

  /** A counted FIN or RST closes a TCP connection. */
  lemma {:induction false} FinCloses(s: State, ev: Event, id: nat)
    requires Inv(s) && id < |s.conns| && s.conns[id].origin.proto == TCP
    requires CountsFor(s, ev, id) && Closes(ev.seg)
    ensures ConnAfter(s, ev, id).status == CtDel
  {
    FoundIsOwner(s, ev.seg.tuple, id);
  }

  /** Nothing is counted for a connection before it is opened. */
  lemma {:induction false} NotBefore(run: Run, k: nat, n: nat, id: nat)
    requires k < n && IsRun(run, n) && |run.states[n].conns| <= id
    ensures !CountsFor(run.states[k], run.events[k], id)
    decreases n
  {
    RunKeeps(run, n - 1);
    NoBirth(run.states[n - 1], run.events[n - 1], id);
    if k < n - 1 {
      NotBefore(run, k, n - 1, id);
    }
  }

  /** The last event did not carry a FIN or RST for a TCP connection that is not being deleted. */
  lemma {:induction false} LastNoFin(run: Run, n: nat, id: nat)
    requires n > 0 && IsRun(run, n) && id < |run.states[n].conns|
    requires run.states[n].conns[id].origin.proto == TCP && run.states[n].conns[id].status != CtDel
    ensures CountsFor(run.states[n - 1], run.events[n - 1], id) ==> !Closes(run.events[n - 1].seg)
    ensures id < |run.states[n - 1].conns| ==>
      run.states[n - 1].conns[id].origin.proto == TCP && run.states[n - 1].conns[id].status != CtDel
  {
    var s, ev := run.states[n - 1], run.events[n - 1];
    LastStep(run, n, id);
    if id < |s.conns| {
      ConnForward(s, ev, id);
      if CountsFor(s, ev, id) && Closes(ev.seg) {
        FinCloses(s, ev, id);
      }
    }
  }

  /** While it is not being deleted, no FIN or RST has been counted for a TCP connection. */
  lemma {:induction false} NoFinSeen(run: Run, n: nat, id: nat, k: nat)
    requires IsRun(run, n) && id < |run.states[n].conns| && k < n
    requires run.states[n].conns[id].origin.proto == TCP && run.states[n].conns[id].status != CtDel
    requires CountsFor(run.states[k], run.events[k], id)
    ensures !Closes(run.events[k].seg)
    decreases n
  {
    LastNoFin(run, n, id);
    if k < n - 1 {
      if id < |run.states[n - 1].conns| {
        NoFinSeen(run, n - 1, id, k);
      } else {
        NotBefore(run, k, n - 1, id);
      }
    }
  }

  // ----- The status, from the history alone -----

  /** A SYN-ACK on the inverse key has been counted. */
  ghost predicate Answered(run: Run, n: nat, id: nat)
    requires Reaches(run, n)
  {
    n > 0 && (Answered(run, n - 1, id) || (CountedAt(run, n - 1, id, Reply) && SynAck(run.events[n - 1].seg)))
  }

  /** And after it a pure ACK. */
  ghost predicate Shaken(run: Run, n: nat, id: nat)
    requires Reaches(run, n)
  {
    n > 0 && (Shaken(run, n - 1, id)
              || (Answered(run, n - 1, id) && CountedEither(run, n - 1, id) && PureAck(run.events[n - 1].seg)))
  }

  lemma {:induction false} UnansweredBeforeBirth(run: Run, n: nat, id: nat)
    requires IsRun(run, n) && |run.states[n].conns| <= id
    ensures !Answered(run, n, id) && !Shaken(run, n, id)
  {
    if n > 0 {
      RunKeeps(run, n - 1);
      NoBirth(run.states[n - 1], run.events[n - 1], id);
      UnansweredBeforeBirth(run, n - 1, id);
    }
  }

  function TcpStatus(answered: bool, shaken: bool): Status {
    if shaken then CtEstablished else if answered then CtReply else CtNew
  }

  /** One event, seen from a TCP connection that it does not close. */
  lemma {:induction false} StatusStep(s: State, ev: Event, id: nat, answered: bool, shaken: bool)
    requires Inv(s) && id < |s.conns| && s.conns[id].origin.proto == 6
    requires s.conns[id].status == TcpStatus(answered, shaken) && (shaken ==> answered)
    requires ConnAfter(s, ev, id).status != CtDel
    ensures var answers := CountsFor(s, ev, id) && DirectionFor(s, ev, id) == Reply && SynAck(ev.seg);
      var acks := CountsFor(s, ev, id) && PureAck(ev.seg);
      ConnAfter(s, ev, id).status == TcpStatus(answered || answers, shaken || (answered && acks))
  {
    if ev.Packet? {
      FoundIsOwner(s, ev.seg.tuple, id);
    }
  }

  lemma {:induction false} ShakenIsAnswered(run: Run, n: nat, id: nat)
    requires Reaches(run, n)
    ensures Shaken(run, n, id) ==> Answered(run, n, id)
  {
    if n > 0 {
      ShakenIsAnswered(run, n - 1, id);
    }
  }

  lemma {:induction false} HandshakeStep(run: Run, n: nat, id: nat)
    requires n > 0 && Reaches(run, n)
    ensures var s, ev := run.states[n - 1], run.events[n - 1];
      var answers := CountsFor(s, ev, id) && DirectionFor(s, ev, id) == Reply && SynAck(ev.seg);
      var acks := CountsFor(s, ev, id) && PureAck(ev.seg);
      && Answered(run, n, id) == (Answered(run, n - 1, id) || answers)
      && Shaken(run, n, id) == (Shaken(run, n - 1, id) || (Answered(run, n - 1, id) && acks))
  {
  }

  /** The status of a TCP connection says how far its handshake has come. */
  ghost predicate SaysHandshake(run: Run, n: nat, id: nat)
    requires Reaches(run, n) && id < |run.states[n].conns|
  {
    run.states[n].conns[id].status == TcpStatus(Answered(run, n, id), Shaken(run, n, id))
  }

  lemma {:induction false} TcpStatusKept(run: Run, n: nat, id: nat)
    requires n > 0 && Reaches(run, n) && Inv(run.states[n - 1])
    requires id < |run.states[n - 1].conns| && id < |run.states[n].conns|
    requires run.states[n].conns[id] == ConnAfter(run.states[n - 1], run.events[n - 1], id)
    requires run.states[n - 1].conns[id].origin.proto == 6 && run.states[n].conns[id].status != CtDel
    requires SaysHandshake(run, n - 1, id)
    ensures SaysHandshake(run, n, id)
  {
    ShakenIsAnswered(run, n - 1, id);
    HandshakeStep(run, n, id);
    StatusStep(run.states[n - 1], run.events[n - 1], id, Answered(run, n - 1, id), Shaken(run, n - 1, id));
  }

  lemma {:induction false} TcpStatusBorn(run: Run, n: nat, id: nat)
    requires n > 0 && IsRun(run, n - 1) && Reaches(run, n) && |run.states[n - 1].conns| <= id < |run.states[n].conns|
    requires OpenedAt(run, n - 1, id) && run.states[n].conns[id].status == CtNew
    requires run.states[n].conns[id].origin.proto == 6
    ensures SaysHandshake(run, n, id)
  {
    UnansweredBeforeBirth(run, n - 1, id);
    HandshakeStep(run, n, id);
  }

  /** A TCP connection that is not being deleted is established exactly if a SYN-ACK on its inverse
      key has been counted for it and a pure ACK after that, waits for that ACK exactly if only the
      SYN-ACK has come, and is new exactly if not even that. */
  lemma {:induction false} TcpStatusExactly(run: Run, n: nat, id: nat)
    requires IsRun(run, n) && id < |run.states[n].conns|
    requires run.states[n].conns[id].origin.proto == 6 && run.states[n].conns[id].status != CtDel
    ensures run.states[n].conns[id].status == TcpStatus(Answered(run, n, id), Shaken(run, n, id))
  {
    LastStep(run, n, id);
    if id < |run.states[n - 1].conns| {
      ConnForward(run.states[n - 1], run.events[n - 1], id);
      TcpStatusExactly(run, n - 1, id);
      TcpStatusKept(run, n, id);
    } else {
      TcpStatusBorn(run, n, id);
    }
  }

  lemma {:induction false} UdpStep(s: State, ev: Event, id: nat)
    requires Inv(s) && id < |s.conns| && s.conns[id].origin.proto == 17
    requires s.conns[id].status == CtNew || s.conns[id].status == CtEstablished
    requires ConnAfter(s, ev, id).status != CtDel
    ensures ConnAfter(s, ev, id).status
      == if CountsFor(s, ev, id) && DirectionFor(s, ev, id) == Reply then CtEstablished else s.conns[id].status
  {
    if ev.Packet? {
      FoundIsOwner(s, ev.seg.tuple, id);
    }
  }

  /** A UDP connection that is not being deleted is established exactly if a byte has been counted
      for it in the reply direction, and new otherwise. */
  lemma {:induction false} UdpStatusExactly(run: Run, n: nat, id: nat)
    requires IsRun(run, n) && id < |run.states[n].conns|
    requires run.states[n].conns[id].origin.proto == 17 && run.states[n].conns[id].status != CtDel
    ensures run.states[n].conns[id].status == if Counted(run, n, id, Reply) > 0 then CtEstablished else CtNew
  {
    LastStep(run, n, id);
    var s, ev := run.states[n - 1], run.events[n - 1];
    if id < |s.conns| {
      ConnForward(s, ev, id);
      UdpStatusExactly(run, n - 1, id);
      UdpStep(s, ev, id);
    } else {
      NothingBeforeBirth(run, n - 1, id);
    }
  }
}
