/** How long a tracked connection has been idle when it is given up, and when it leaves the table. */
module NetstatTiming {
  import opened Machine
  import opened Conntrack
  import opened Netstat
  import opened NetstatHistory

  // ----- Idleness -----

  /** The timer of an established connection, against the time `last` of its last counted byte:
      the snapshot is up to date exactly when nothing was counted since the timer was started. */
  predicate Timed(c: Conn, last: nat, now: nat) {
    c.status == CtEstablished && Known(c.origin.proto) && c.timer.Armed? && c.timer.run.EstablishedTimeout? ==>
      var timeout, snapshot := EstablishTimeout(c.origin.proto), c.timer.run.snapshot;
      && last <= now
      && c.timer.deadline <= now + timeout
      && c.timer.deadline < last + 2 * timeout
      && (snapshot == c.stats <==> last + timeout <= c.timer.deadline)
      && snapshot.origin <= c.stats.origin && snapshot.reply <= c.stats.reply
  }

  lemma {:induction false} HandledTimed(c: Conn, seg: Segment, last: nat, now: nat)
    requires ConnOk(c, now) && c.Owns(seg.tuple) && seg.len > 0 && Timed(c, last, now)
    ensures Timed(Handled(c, seg, now + 1), if c.status != CtDel && !PureSyn(seg) then now + 1 else last, now + 1)
  {
  }

  lemma {:induction false} TimedOutTimed(c: Conn, last: nat, now: nat)
    requires ConnOk(c, now) && Timed(c, last, now) && c.timer.Armed? && c.timer.deadline <= now
    ensures Timed(TimedOut(c, now), last, now)
    ensures c.status == CtEstablished ==>
      && now - last < 2 * EstablishTimeout(c.origin.proto)
      && (TimedOut(c, now).status == CtDel <==> now - last >= EstablishTimeout(c.origin.proto))
  {
  }

  /** One event, seen from one connection. */
  lemma {:induction false} EventTimed(s: State, ev: Event, id: nat, last: nat)
    requires Inv(s) && Enabled(s, ev) && id < |s.conns| && Timed(s.conns[id], last, s.now)
    ensures Timed(ConnAfter(s, ev, id), if CountsFor(s, ev, id) then s.now + 1 else last, Next(s, ev).now)
  {
    match ev {
      case Packet(seg) =>
        FoundIsOwner(s, seg.tuple, id);
        if Found(s, seg.tuple) == id {
          HandledTimed(s.conns[id], seg, last, s.now);
        }
      case Fire(i) =>
        if i == id {
          TimedOutTimed(s.conns[id], last, s.now);
        }
      case Elapse(d) =>
    }
  }

  lemma {:induction false} ClockAfterPacket(run: Run, n: nat)
    requires n > 0 && IsRun(run, n) && run.events[n - 1].Packet?
    ensures run.states[n].now == run.states[n - 1].now + 1
  {
  }

  lemma {:induction false} RunTimed(run: Run, n: nat, id: nat)
    requires IsRun(run, n) && id < |run.states[n].conns|
    ensures Timed(run.states[n].conns[id], LastCounted(run, n, id), run.states[n].now)
  {
    LastStep(run, n, id);
    if id < |run.states[n - 1].conns| {
      RunTimed(run, n - 1, id);
      EventTimed(run.states[n - 1], run.events[n - 1], id, LastCounted(run, n - 1, id));
      if CountsFor(run.states[n - 1], run.events[n - 1], id) {
        ClockAfterPacket(run, n);
      }
    }
  }

  /** `ctESTABLISHEDTimeout` gives up an established connection exactly when its last counted
      byte is at least one timeout old, and that byte is always less than two timeouts old: 240
      to 480 seconds for TCP, 120 to 240 seconds for UDP. Otherwise the connection stays. */
  lemma {:induction false} GivenUpExactlyWhenIdle(run: Run, n: nat, id: nat)
    requires IsRun(run, n + 1) && run.events[n] == Fire(id) && run.states[n].conns[id].status == CtEstablished
    ensures var timeout := (if run.states[n].conns[id].origin.proto == TCP then 240 else 120) * SECOND;
      var idle := run.states[n].now - LastCounted(run, n, id);
      && 0 <= idle < 2 * timeout
      && (run.states[n + 1].conns[id].status == CtDel <==> idle >= timeout)
      && (run.states[n + 1].conns[id].status == CtEstablished <==> idle < timeout)
      && run.states[n + 1].table == run.states[n].table
  {
    RunKeeps(run, n);
    RunTimed(run, n, id);
    TimedOutTimed(run.states[n].conns[id], LastCounted(run, n, id), run.states[n].now);
    NextConn(run.states[n], run.events[n], id);
    assert run.states[n].table - {} == run.states[n].table;
  }

  // ----- Connections that do not get established -----

  /** The event gives a connection that is still opening its full waiting time again: a pure SYN
      while it is new, or a SYN-ACK on the inverse key. */
  ghost predicate Refreshes(s: State, ev: Event, id: nat)
    requires id < |s.conns|
  {
    && ev.Packet? && s.conns[id].timer.Armed?
    && (ev.seg.tuple == s.conns[id].origin || ev.seg.tuple == Invert(s.conns[id].origin))
    && ((PureSyn(ev.seg) && s.conns[id].status == CtNew) || AnswersSyn(s.conns[id], ev.seg))
  }

  predicate AnswersSyn(c: Conn, seg: Segment) {
    && SynAck(seg) && !Closes(seg)
    && seg.tuple != c.origin && (c.status == CtNew || c.status == CtReply)
  }

  /** When connection `id` was opened or last refreshed. */
  ghost function LastRefreshed(run: Run, n: nat, id: nat): nat
    requires Reaches(run, n)
  {
    if n == 0 then 0
    else if id < |run.states[n - 1].conns| && !Refreshes(run.states[n - 1], run.events[n - 1], id)
    then LastRefreshed(run, n - 1, id)
    else run.states[n].now
  }

  function OpeningTimeout(proto: Byte): nat {
    if proto == TCP then 3 * SECOND else 15 * SECOND
  }

  /** The timer of a connection that is still opening, last refreshed at `since`. */
  predicate Waits(c: Conn, since: nat) {
    c.status == CtNew || c.status == CtReply ==> c.timer == Armed(since + OpeningTimeout(c.origin.proto), TimeoutDel)
  }

  lemma {:induction false} EventWaits(s: State, ev: Event, id: nat, since: nat)
    requires Inv(s) && Enabled(s, ev) && id < |s.conns| && Waits(s.conns[id], since)
    ensures Waits(ConnAfter(s, ev, id), if Refreshes(s, ev, id) then s.now + 1 else since)
  {
    if ev.Packet? {
      FoundIsOwner(s, ev.seg.tuple, id);
    }
  }

  lemma {:induction false} RunWaits(run: Run, n: nat, id: nat)
    requires IsRun(run, n) && id < |run.states[n].conns|
    ensures Waits(run.states[n].conns[id], LastRefreshed(run, n, id))
  {
    LastStep(run, n, id);
    if run.events[n - 1].Packet? {
      ClockAfterPacket(run, n);
    }
    if id < |run.states[n - 1].conns| {
      RunWaits(run, n - 1, id);
      EventWaits(run.states[n - 1], run.events[n - 1], id, LastRefreshed(run, n - 1, id));
    }
  }

  /** A connection that never gets established is in the table for exactly 3 seconds (TCP) or 15
      seconds (UDP) after it was opened or last refreshed: its timer fires then, not before and
      not later, and takes both keys out. */
  lemma {:induction false} HalfOpenGivenUpOnTime(run: Run, n: nat, id: nat)
    requires IsRun(run, n + 1) && run.events[n] == Fire(id)
    requires run.states[n].conns[id].status == CtNew || run.states[n].conns[id].status == CtReply
    ensures run.states[n].now == LastRefreshed(run, n, id) + OpeningTimeout(run.states[n].conns[id].origin.proto)
    ensures forall t :: t in run.states[n + 1].table <==> t in run.states[n].table && run.states[n].table[t] != id
  {
    RunKeeps(run, n);
    RunWaits(run, n, id);
  }

  // ----- Deletion -----

  lemma {:induction false} CloseStep(s: State, ev: Event, id: nat)
    requires Inv(s) && Enabled(s, ev) && id < |s.conns| && s.conns[id].status != CtDel
    ensures ConnAfter(s, ev, id).status == CtDel ==>
      (CountsFor(s, ev, id) && Closes(ev.seg)) || ev == Fire(id)
    ensures CountsFor(s, ev, id) && Closes(ev.seg) ==> ConnAfter(s, ev, id).status == CtDel
    ensures ev == Fire(id) && s.conns[id].status != CtEstablished ==> ConnAfter(s, ev, id).status == CtDel
  {
    if ev.Packet? {
      FoundIsOwner(s, ev.seg.tuple, id);
    }
  }

  /** A connection is given up by exactly these events: a FIN or RST that is counted for it, and its
      timer, unless it is established and its last counted byte is less than one timeout old. */
  lemma {:induction false} ClosedExactly(run: Run, n: nat, id: nat)
    requires IsRun(run, n + 1) && id < |run.states[n].conns| && run.states[n].conns[id].status != CtDel
    ensures var c, ev := run.states[n].conns[id], run.events[n];
      var timeout := (if c.origin.proto == 6 then 240 else 120) * SECOND;
      && id < |run.states[n + 1].conns|
      && (run.states[n + 1].conns[id].status == CtDel
          <==> (CountsFor(run.states[n], ev, id) && Closes(ev.seg))
               || (ev == Fire(id) && (c.status == CtEstablished ==>
                    run.states[n].now - LastCounted(run, n, id) >= timeout)))
  {
    RunKeeps(run, n);
    NextConn(run.states[n], run.events[n], id);
    CloseStep(run.states[n], run.events[n], id);
    if run.events[n] == Fire(id) && run.states[n].conns[id].status == CtEstablished {
      GivenUpExactlyWhenIdle(run, n, id);
    }
  }

  /** A connection under deletion: its timer runs `ctTimeoutDel` at `deadline`, or has done so. */
  predicate Closing(c: Conn, deadline: nat, now: nat) {
    && c.status == CtDel
    && (c.timer.Armed? ==> c.timer == Armed(deadline, TimeoutDel))
    && (c.timer.Idle? ==> deadline <= now)
  }

  /** Whatever starts the deletion of a connection that stays in the table gives it ten seconds. */
  lemma {:induction false} CloseStarts(s: State, ev: Event, id: nat)
    requires Inv(s) && Enabled(s, ev) && id < |s.conns| && s.conns[id].status != CtDel
    requires ConnAfter(s, ev, id).status == CtDel && ConnAfter(s, ev, id).timer.Armed?
    ensures Closing(ConnAfter(s, ev, id), Next(s, ev).now + 10 * SECOND, Next(s, ev).now)
  {
    if ev.Packet? {
      FoundIsOwner(s, ev.seg.tuple, id);
      ReceivedNow(s.(now := s.now + 1), ev.seg);
    }
  }

  lemma {:induction false} ReceivedNow(s: State, seg: Segment)
    ensures Received(s, seg).now == s.now
  {
  }

  lemma {:induction false} TimePasses(s: State, ev: Event)
    ensures s.now <= Next(s, ev).now
  {
  }

  /** Nothing revives or postpones it. */
  lemma {:induction false} CloseStays(s: State, ev: Event, id: nat, deadline: nat)
    requires Inv(s) && Enabled(s, ev) && id < |s.conns| && Closing(s.conns[id], deadline, s.now)
    ensures Closing(ConnAfter(s, ev, id), deadline, Next(s, ev).now)
  {
    TimePasses(s, ev);
  }

  lemma {:induction false} LastCloseStays(run: Run, n: nat, id: nat, deadline: nat)
    requires n > 0 && IsRun(run, n) && id < |run.states[n - 1].conns| && id < |run.states[n].conns|
    requires Closing(run.states[n - 1].conns[id], deadline, run.states[n - 1].now)
    ensures Closing(run.states[n].conns[id], deadline, run.states[n].now)
  {
    LastStep(run, n, id);
    CloseStays(run.states[n - 1], run.events[n - 1], id, deadline);
  }

  lemma {:induction false} LastCloseStarts(run: Run, n: nat, id: nat)
    requires n > 0 && IsRun(run, n) && id < |run.states[n - 1].conns| && id < |run.states[n].conns|
    requires run.states[n - 1].conns[id].status != CtDel
    requires run.states[n].conns[id].status == CtDel && run.states[n].conns[id].timer.Armed?
    ensures Closing(run.states[n].conns[id], run.states[n].now + 10 * SECOND, run.states[n].now)
  {
    LastStep(run, n, id);
    CloseStarts(run.states[n - 1], run.events[n - 1], id);
  }

  lemma {:induction false} ClosingRun(run: Run, n: nat, m: nat, id: nat)
    requires n < m && IsRun(run, m) && IsRun(run, n + 1) && id < |run.states[n].conns|
    requires id < |run.states[n + 1].conns| && id < |run.states[m].conns|
    requires run.states[n].conns[id].status != CtDel
    requires run.states[n + 1].conns[id].status == CtDel && run.states[n + 1].conns[id].timer.Armed?
    ensures Closing(run.states[m].conns[id], run.states[n + 1].now + 10 * SECOND, run.states[m].now)
    decreases m
  {
    if n + 1 == m {
      LastCloseStarts(run, m, id);
    } else {
      StatusNeverDecreases(run, n + 1, m - 1, id);
      ClosingRun(run, n, m - 1, id);
      LastCloseStays(run, m, id, run.states[n + 1].now + 10 * SECOND);
    }
  }

  /** A connection that is closed, by a FIN or RST or by idleness, keeps its two keys for exactly
      ten seconds: before that it is in the table, after that it is not, whatever happens. */
  lemma {:induction false} KeysLeaveTenSecondsLater(run: Run, n: nat, m: nat, id: nat)
    requires n < m && IsRun(run, m) && id < |run.states[n].conns|
    requires run.states[n].conns[id].status != CtDel
    requires id < |run.states[n + 1].conns| && run.states[n + 1].conns[id].status == CtDel
    requires run.states[n + 1].conns[id].timer.Armed?
    ensures id < |run.states[m].conns| && run.states[m].conns[id].status == CtDel
    ensures var s, end := run.states[m], run.states[n + 1].now + 10 * SECOND;
      var origin := s.conns[id].origin;
      && (s.now < end ==> LeadsTo(s, origin, id) && LeadsTo(s, Invert(origin), id))
      && (s.now > end ==> forall t :: t in s.table ==> s.table[t] != id)
  {
    RunPrefix(run, n + 1, m);
    StatusNeverDecreases(run, n + 1, m, id);
    ClosingRun(run, n, m, id);
    RunKeeps(run, m);
  }
}
