/** The connection tracker of `src/netstat/net.go` and `src/netstat/conntrack.go`: a table keyed
    by both directions of a flow, driven by packets and timers on a nanosecond clock. */
module Netstat {
  import opened Machine
  import opened Conntrack

  datatype Conn = Conn(status: Status, stats: Stats, origin: Tuple, timer: Timer, outBound: bool) {
    /** `Dir`. */
    function DirOf(t: Tuple): Dir {
      if origin == t then Origin else Reply
    }

    predicate Owns(t: Tuple) {
      t == origin || t == Invert(origin)
    }
  }

  datatype Segment = Segment(tuple: Tuple, flags: Byte, len: nat, outBound: bool)

  // ----- TCP flags -----

  predicate IsSyn(flags: Byte) {
    flags == 2
  }

  predicate IsAck(flags: Byte) {
    flags == 16
  }

  predicate IsSynAck(flags: Byte) {
    flags / 2 % 2 == 1 && flags / 16 % 2 == 1
  }

  predicate FinOrRst(flags: Byte) {
    flags / 4 % 2 == 1 || flags % 2 == 1
  }

  // ----- One connection -----

  /** `Reset` keeps the callback, and does nothing to a timer that has fired. */
  function Reset(t: Timer, deadline: nat): Timer {
    if t.Armed? then Armed(deadline, t.run) else t
  }

  /** `Stop` followed, if it succeeds, by a new timer. */
  function Replace(t: Timer, deadline: nat, run: Callback): Timer {
    if t.Armed? then Armed(deadline, run) else t
  }

  /** A pure SYN of a known connection. */
  function SynRepeated(c: Conn, now: nat): Conn {
    if c.status == CtNew then c.(timer := Reset(c.timer, now + CT_TCP_SYN_TIMEOUT)) else c
  }

  /** Any other segment of a known TCP connection, once it is counted. */
  function TcpCounted(c: Conn, s: Segment, now: nat): Conn {
    if FinOrRst(s.flags) then
      c.(status := CtDel, timer := Replace(c.timer, now + CT_DEL_TIMEOUT, TimeoutDel))
    else if c.status == CtEstablished then c
    else if IsSynAck(s.flags) then
      if c.DirOf(s.tuple) == Reply && c.timer.Armed? then
        c.(status := CtReply, timer := Reset(c.timer, now + CT_TCP_SYN_RCVD_TIMEOUT))
      else c
    else if IsAck(s.flags) && c.status == CtReply && c.timer.Armed? then
      c.(status := CtEstablished, timer := Armed(now + CT_TCP_ESTABLISHED_TIMEOUT, EstablishedTimeout(c.stats)))
    else c
  }

  /** A datagram of a known UDP flow, once it is counted. */
  function UdpCounted(c: Conn, s: Segment, now: nat): Conn {
    if c.status != CtEstablished && c.DirOf(s.tuple) == Reply && c.timer.Armed? then
      c.(status := CtEstablished, timer := Armed(now + CT_UDP_ESTABLISHED_TIMEOUT, EstablishedTimeout(c.stats)))
    else c
  }

  /** Whether a segment adds to the byte counters of a known connection. */
  predicate Countable(c: Conn, s: Segment) {
    c.status != CtDel && !(s.tuple.proto == TCP && IsSyn(s.flags))
  }

  /** `tcpHandler` and `udpHandler` for a known connection. */
  function Handled(c: Conn, s: Segment, now: nat): Conn {
    if Countable(c, s) then
      var counted := c.(stats := c.stats.Count(c.DirOf(s.tuple), s.len));
      if s.tuple.proto == TCP then TcpCounted(counted, s, now) else UdpCounted(counted, s, now)
    else if s.tuple.proto == TCP && IsSyn(s.flags) then SynRepeated(c, now)
    else c
  }

  /** Whether a segment without a connection opens one: any datagram, or a pure outbound SYN. */
  predicate Opens(s: Segment) {
    s.tuple.proto == UDP || (s.tuple.proto == TCP && IsSyn(s.flags) && s.outBound)
  }

  function Opened(s: Segment, now: nat): Conn {
    var timeout := if s.tuple.proto == TCP then CT_TCP_SYN_TIMEOUT else CT_UDP_NEW_TIMEOUT;
    Conn(CtNew, Stats(0, 0).Count(Origin, s.len), s.tuple, Armed(now + timeout, TimeoutDel), s.outBound)
  }

  predicate Known(proto: Byte) {
    proto == TCP || proto == UDP
  }

  /** `ctTimeoutDel` and `ctESTABLISHEDTimeout`; the latter panics for an unknown protocol, which
      leaves only the timer fired. */
  function TimedOut(c: Conn, now: nat): Conn {
    if c.timer.Idle? then c
    else if c.timer.run.TimeoutDel? then c.(status := CtDel, timer := Idle)
    else if c.status == CtDel then c.(timer := Idle)
    else if c.timer.run.snapshot == c.stats then
      c.(status := CtDel, timer := Armed(now + CT_DEL_TIMEOUT, TimeoutDel))
    else if Known(c.origin.proto) then
      c.(timer := Armed(now + EstablishTimeout(c.origin.proto), EstablishedTimeout(c.stats)))
    else c.(timer := Idle)
  }

  // ----- The table -----

  /** `table` maps both keys of a connection to its number; `conns` lists all ever created. */
  datatype State = State(table: map<Tuple, nat>, conns: seq<Conn>, now: nat)

  const EMPTY := State(map[], [], 0)

  /** A packet takes its handler one tick of the clock; a timer fires at its deadline. */
  datatype Event =
    | Packet(seg: Segment)
    | Fire(id: nat)
    | Elapse(d: nat)

  predicate Live(s: State, id: nat) {
    id < |s.conns| && s.conns[id].timer.Armed?
  }

  ghost predicate NoDeadlineBefore(s: State, time: nat) {
    forall id: nat :: Live(s, id) ==> time <= s.conns[id].timer.deadline
  }

  /** Time never passes the deadline of a running timer, and every packet has a header. */
  ghost predicate Enabled(s: State, ev: Event) {
    match ev
    case Packet(seg) => seg.len > 0 && NoDeadlineBefore(s, s.now + 1)
    case Fire(id) => Live(s, id) && s.conns[id].timer.deadline <= s.now
    case Elapse(d) => NoDeadlineBefore(s, s.now + d)
  }

  /** The connection that a segment belongs to, or the number the next one will get. */
  function Found(s: State, t: Tuple): nat {
    if t in s.table then s.table[t] else |s.conns|
  }

  /** `CreateConntrack` and `addConntrack`. */
  function Added(s: State, c: Conn): State {
    s.(table := s.table[c.origin := |s.conns|][Invert(c.origin) := |s.conns|], conns := s.conns + [c])
  }

  function Received(s: State, seg: Segment): State {
    var id := Found(s, seg.tuple);
    if id < |s.conns| then s.(conns := s.conns[id := Handled(s.conns[id], seg, s.now)])
    else if Opens(seg) then Added(s, Opened(seg, s.now))
    else s
  }

  function Fired(s: State, id: nat): State
    requires id < |s.conns|
  {
    var c := s.conns[id];
    var removed := if c.timer.Armed? && c.timer.run.TimeoutDel? then {c.origin, Invert(c.origin)} else {};
    s.(table := s.table - removed, conns := s.conns[id := TimedOut(c, s.now)])
  }

  function Next(s: State, ev: Event): State {
    match ev
    case Packet(seg) => Received(s.(now := s.now + 1), seg)
    case Fire(id) => if id < |s.conns| then Fired(s, id) else s
    case Elapse(d) => s.(now := s.now + d)
  }

  // ----- Runs -----

  /** A run lists the states it goes through: event `i` leads from state `i` to state `i + 1`. */
  datatype Run = Run(events: seq<Event>, states: seq<State>)

  /** The run has at least `n` events. */
  predicate Reaches(run: Run, n: nat) {
    n <= |run.events| && n < |run.states|
  }

  /** The first `n` events can happen one after the other, from the empty table. */
  ghost predicate IsRun(run: Run, n: nat) {
    && Reaches(run, n)
    && if n == 0 then run.states[0] == EMPTY
       else
         && IsRun(run, n - 1)
         && Enabled(run.states[n - 1], run.events[n - 1])
         && run.states[n] == Next(run.states[n - 1], run.events[n - 1])
  }

  lemma {:induction false} RunPrefix(run: Run, n: nat, m: nat)
    requires n <= m && IsRun(run, m)
    ensures IsRun(run, n)
    decreases m
  {
    if n < m {
      RunPrefix(run, n, m - 1);
    }
  }

  // ----- The invariant -----

  predicate LeadsTo(s: State, t: Tuple, id: nat) {
    t in s.table && s.table[t] == id
  }

  /** A connection that is not being deleted has a running timer of the right kind. */
  predicate ConnOk(c: Conn, now: nat) {
    && Known(c.origin.proto)
    && (c.origin.proto == TCP ==> c.outBound)
    && (c.status != CtDel ==> c.timer.Armed?)
    && (c.timer.Armed? ==> now <= c.timer.deadline)
    && (c.timer.Armed? ==> (c.timer.run.EstablishedTimeout? <==> c.status == CtEstablished))
  }

  ghost predicate Inv(s: State) {
    && (forall id: nat :: Live(s, id) ==>
          LeadsTo(s, s.conns[id].origin, id) && LeadsTo(s, Invert(s.conns[id].origin), id))
    && (forall t :: t in s.table ==> Live(s, s.table[t]) && s.conns[s.table[t]].Owns(t))
    && (forall id :: 0 <= id < |s.conns| ==> ConnOk(s.conns[id], s.now))
  }

  lemma {:induction false} HandledOk(c: Conn, seg: Segment, now: nat)
    requires ConnOk(c, now) && c.timer.Armed? && c.Owns(seg.tuple)
    ensures ConnOk(Handled(c, seg, now), now)
    ensures Handled(c, seg, now).timer.Armed? && Handled(c, seg, now).origin == c.origin
  {
  }

  lemma {:induction false} TimedOutOk(c: Conn, now: nat)
    requires ConnOk(c, now)
    ensures ConnOk(TimedOut(c, now), now) && TimedOut(c, now).origin == c.origin
    ensures c.timer.Armed? ==> (TimedOut(c, now).timer.Idle? <==> c.timer.run.TimeoutDel?)
  {
  }

  lemma {:induction false} LaterOk(s: State, time: nat)
    requires Inv(s) && NoDeadlineBefore(s, time)
    ensures Inv(s.(now := time))
  {
    var s' := s.(now := time);
    assert forall id: nat :: Live(s', id) <==> Live(s, id);
    forall id | 0 <= id < |s'.conns| ensures ConnOk(s'.conns[id], time) {
      assert ConnOk(s.conns[id], s.now);
      assert s.conns[id].timer.Armed? ==> Live(s, id);
    }
  }

  /** Changing one live connection into another with the same keys. */
  lemma {:induction false} UpdateKeeps(s: State, id: nat, c: Conn)
    requires Inv(s) && Live(s, id)
    requires c.origin == s.conns[id].origin && c.timer.Armed? && ConnOk(c, s.now)
    ensures Inv(s.(conns := s.conns[id := c]))
  {
    var s' := s.(conns := s.conns[id := c]);
    assert forall i: nat :: Live(s', i) <==> Live(s, i);
  }

  lemma {:induction false} AddKeeps(s: State, c: Conn)
    requires Inv(s) && c.origin !in s.table && c.timer.Armed? && ConnOk(c, s.now)
    ensures Inv(Added(s, c))
  {
    var s' := Added(s, c);
    InvertTwice(c.origin);
    forall t | t in s'.table ensures Live(s', s'.table[t]) && s'.conns[s'.table[t]].Owns(t) {
      assert t in s.table ==> Live(s, s.table[t]);
    }
    forall id: nat | Live(s', id)
      ensures LeadsTo(s', s'.conns[id].origin, id) && LeadsTo(s', Invert(s'.conns[id].origin), id)
    {
      assert id < |s.conns| ==> Live(s, id);
      OthersKeys(s, c.origin, id);
    }
  }

  /** Keys of a live connection are in the table in both directions. */
  lemma {:induction false} OthersKeys(s: State, t: Tuple, id: nat)
    requires Inv(s) && t !in s.table
    ensures Live(s, id) ==> !s.conns[id].Owns(t) && !s.conns[id].Owns(Invert(t))
  {
    if Live(s, id) {
      InvertTwice(t);
      InvertTwice(s.conns[id].origin);
    }
  }

  lemma {:induction false} RemoveKeeps(s: State, id: nat, c: Conn)
    requires Inv(s) && Live(s, id)
    requires c.origin == s.conns[id].origin && c.timer.Idle? && ConnOk(c, s.now)
    ensures Inv(s.(table := s.table - {c.origin, Invert(c.origin)}, conns := s.conns[id := c]))
  {
    var s' := s.(table := s.table - {c.origin, Invert(c.origin)}, conns := s.conns[id := c]);
    InvertTwice(c.origin);
    forall i: nat | Live(s', i)
      ensures LeadsTo(s', s'.conns[i].origin, i) && LeadsTo(s', Invert(s'.conns[i].origin), i)
    {
      assert Live(s, i) && i != id;
    }
    forall t | t in s'.table ensures Live(s', s'.table[t]) && s'.conns[s'.table[t]].Owns(t) {
      assert Live(s, s.table[t]);
    }
  }

  lemma {:induction false} ReceivedKeeps(s: State, seg: Segment)
    requires Inv(s)
    ensures Inv(Received(s, seg))
  {
    var id := Found(s, seg.tuple);
    if id < |s.conns| {
      HandledOk(s.conns[id], seg, s.now);
      UpdateKeeps(s, id, Handled(s.conns[id], seg, s.now));
    } else if Opens(seg) {
      AddKeeps(s, Opened(seg, s.now));
    }
  }

  lemma {:induction false} FiredKeeps(s: State, id: nat)
    requires Inv(s) && Live(s, id)
    ensures Inv(Fired(s, id))
  {
    var c := TimedOut(s.conns[id], s.now);
    TimedOutOk(s.conns[id], s.now);
    if c.timer.Idle? {
      RemoveKeeps(s, id, c);
    } else {
      UpdateKeeps(s, id, c);
      assert s.table - {} == s.table;
    }
  }

  lemma {:induction false} PacketKeeps(s: State, seg: Segment)
    requires Inv(s) && NoDeadlineBefore(s, s.now + 1)
    ensures Inv(Next(s, Packet(seg)))
  {
    var later := s.(now := s.now + 1);
    LaterOk(s, s.now + 1);
    ReceivedKeeps(later, seg);
    assert Next(s, Packet(seg)) == Received(later, seg);
  }

  lemma {:induction false} NextKeeps(s: State, ev: Event)
    requires Inv(s) && Enabled(s, ev)
    ensures Inv(Next(s, ev))
  {
    match ev {
      case Packet(seg) => PacketKeeps(s, seg);
      case Fire(id) => FiredKeeps(s, id);
      case Elapse(d) => LaterOk(s, s.now + d);
    }
  }

  lemma {:induction false} RunKeeps(run: Run, n: nat)
    requires IsRun(run, n)
    ensures Inv(run.states[n])
  {
    if n > 0 {
      RunKeeps(run, n - 1);
      NextKeeps(run.states[n - 1], run.events[n - 1]);
    }
  }

  // ----- Every reachable state -----

  /** In every reachable state both keys of a live connection lead to it; every key leads to a
      live connection that owns it; the table is closed under `invert`; no two live connections
      share a key; and a connection is live while it is not being deleted. */
  lemma {:induction false} TableAgreement(run: Run, n: nat)
    requires IsRun(run, n)
    ensures var s := run.states[n];
      && (forall id: nat, t :: Live(s, id) && s.conns[id].Owns(t) ==> LeadsTo(s, t, id))
      && (forall t :: t in s.table ==> Live(s, s.table[t]) && s.conns[s.table[t]].Owns(t))
      && (forall t :: t in s.table ==> LeadsTo(s, Invert(t), s.table[t]))
      && (forall id: nat :: id < |s.conns| && s.conns[id].status != CtDel ==> Live(s, id))
  {
    RunKeeps(run, n);
    var s := run.states[n];
    forall t | t in s.table ensures LeadsTo(s, Invert(t), s.table[t]) {
      InvertTwice(s.conns[s.table[t]].origin);
    }
  }

  /** `delConntrack` removes the two keys of its own connection and nothing else. */
  lemma {:induction false} DeleteIsPrivate(run: Run, n: nat, id: nat)
    requires IsRun(run, n) && Enabled(run.states[n], Fire(id))
    requires run.states[n].conns[id].timer.run.TimeoutDel?
    ensures var s := run.states[n];
      Fired(s, id).table == map t | t in s.table && s.table[t] != id :: s.table[t]
  {
    RunKeeps(run, n);
  }

  /** `getProtoEstablishTimeout` never panics: what times out is TCP or UDP. */
  lemma {:induction false} NeverUnknownProtocol(run: Run, n: nat, id: nat)
    requires IsRun(run, n) && id < |run.states[n].conns|
    ensures Known(run.states[n].conns[id].origin.proto)
  {
    RunKeeps(run, n);
  }
}
