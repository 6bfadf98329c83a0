/** The connection table of `src/netstat/conntrack.go` as linked objects, with the packet handlers
    of `src/netstat/net.go` that change it in place. */
module NetstatTable {
  import opened Conntrack
  import opened Netstat

  class Connection {
    ghost const id: nat
    var status: Status
    var stats: Stats
    var origin: Tuple
    var reply: Tuple
    var timer: Timer
    var outBound: bool

    constructor (ghost id: nat, t: Tuple)
      ensures this.id == id && reply == Invert(t)
      ensures Rec() == Conn(CtNew, Stats(0, 0), t, Idle, false)
    {
      this.id := id;
      status, stats, origin, reply, timer, outBound := CtNew, Stats(0, 0), t, Invert(t), Idle, false;
    }

    function Rec(): Conn
      reads this
    {
      Conn(status, stats, origin, timer, outBound)
    }

    /** `tcpHandler` for a segment of a known connection. */
    method HandleTcp(seg: Segment, now: nat)
      requires seg.tuple.proto == TCP
      modifies `status, `stats, `timer
      ensures Rec() == Handled(old(Rec()), seg, now)
    {
      if IsSyn(seg.flags) {
        if status == CtNew {
          timer := Reset(timer, now + CT_TCP_SYN_TIMEOUT);
        }
        return;
      }
      if status == CtDel {
        return;
      }
      var dir := if origin == seg.tuple then Origin else Reply;
      stats := stats.Count(dir, seg.len);
      if FinOrRst(seg.flags) {
        status := CtDel;
        if timer.Armed? {
          timer := Armed(now + CT_DEL_TIMEOUT, TimeoutDel);
        }
        return;
      }
      if status == CtEstablished {
        return;
      }
      if IsSynAck(seg.flags) {
        if dir == Reply && timer.Armed? {
          timer := Reset(timer, now + CT_TCP_SYN_RCVD_TIMEOUT);
          status := CtReply;
        }
        return;
      }
      if IsAck(seg.flags) && status == CtReply && timer.Armed? {
        status := CtEstablished;
        timer := Armed(now + CT_TCP_ESTABLISHED_TIMEOUT, EstablishedTimeout(stats));
      }
    }

    /** `udpHandler` for a datagram of a known flow. */
    method HandleUdp(seg: Segment, now: nat)
      requires seg.tuple.proto == UDP
      modifies `status, `stats, `timer
      ensures Rec() == Handled(old(Rec()), seg, now)
    {
      if status == CtDel {
        return;
      }
      var dir := if origin == seg.tuple then Origin else Reply;
      stats := stats.Count(dir, seg.len);
      if status == CtEstablished {
        return;
      }
      if dir == Reply && timer.Armed? {
        status := CtEstablished;
        timer := Armed(now + CT_UDP_ESTABLISHED_TIMEOUT, EstablishedTimeout(stats));
      }
    }

    /** `ctESTABLISHEDTimeout`. */
    method EstablishedTimedOut(now: nat)
      requires timer.Armed? && timer.run.EstablishedTimeout? && Known(origin.proto)
      modifies `status, `timer
      ensures Rec() == TimedOut(old(Rec()), now)
    {
      var oldStats := timer.run.snapshot;
      timer := Idle;
      if status == CtDel {
        return;
      }
      if oldStats != stats {
        timer := Armed(now + EstablishTimeout(origin.proto), EstablishedTimeout(stats));
        return;
      }
      status := CtDel;
      timer := Armed(now + CT_DEL_TIMEOUT, TimeoutDel);
    }
  }

  class NetConntrack {
    var conntracks: map<Tuple, Connection>
    ghost var all: seq<Connection>
    ghost var table: map<Tuple, nat>

    ghost predicate Valid()
      reads this, all
    {
      && (forall i :: 0 <= i < |all| ==> all[i].id == i && all[i].reply == Invert(all[i].origin))
      && (forall t :: t in table <==> t in conntracks)
      && (forall t :: t in conntracks ==> table[t] < |all| && all[table[t]] == conntracks[t])
    }

    ghost function Conns(): (s: seq<Conn>)
      reads this, all
      ensures |s| == |all|
      ensures forall i :: 0 <= i < |s| ==> s[i] == all[i].Rec()
    {
      seq(|all|, i requires 0 <= i < |all| reads this, all => all[i].Rec())
    }

    ghost function View(now: nat): State
      reads this, all
    {
      State(table, Conns(), now)
    }

    constructor ()
      ensures Valid() && View(0) == EMPTY
    {
      conntracks, all, table := map[], [], map[];
    }

    /** `CreateConntrack` and `addConntrack`. */
    method CreateConntrack(t: Tuple) returns (ct: Connection)
      requires Valid()
      modifies this
      ensures Valid() && fresh(ct) && all == old(all) + [ct] && ct.id == |old(all)|
      ensures ct.Rec() == Conn(CtNew, Stats(0, 0), t, Idle, false)
      ensures table == old(table)[t := ct.id][Invert(t) := ct.id]
    {
      ct := new Connection(|all|, t);
      var first: map<Tuple, Connection> := conntracks[ct.origin := ct];
      var both: map<Tuple, Connection> := first[ct.reply := ct];
      conntracks := both;
      all := all + [ct];
      ghost var keyed: map<Tuple, nat> := table[ct.origin := |old(all)|];
      table := keyed[ct.reply := |old(all)|];
    }

    /** A segment that opens a connection. */
    method Open(seg: Segment, now: nat)
      requires Valid() && Opens(seg)
      modifies this
      ensures Valid() && View(now) == Added(old(View(now)), Opened(seg, now))
    {
      ghost var s := View(now);
      var ct := CreateConntrack(seg.tuple);
      ct.outBound := seg.outBound;
      ct.stats := ct.stats.Count(Origin, seg.len);
      ct.timer := Armed(now + if seg.tuple.proto == TCP then CT_TCP_SYN_TIMEOUT else CT_UDP_NEW_TIMEOUT, TimeoutDel);
      AddedIs(s, Opened(seg, now), View(now));
    }

    /** The transport handlers: `tcpHandler`, `udpHandler`, or none for another protocol. */
    method Receive(seg: Segment, now: nat)
      requires Valid() && (seg.tuple in conntracks ==> Known(seg.tuple.proto))
      modifies this, all
      ensures Valid() && View(now) == Received(old(View(now)), seg)
    {
      if seg.tuple in conntracks {
        var ct := conntracks[seg.tuple];
        ghost var id := table[seg.tuple];
        ghost var s := View(now);
        if seg.tuple.proto == TCP {
          ct.HandleTcp(seg, now);
        } else {
          ct.HandleUdp(seg, now);
        }
        assert Conns() == s.conns[id := Handled(s.conns[id], seg, now)];
      } else if Opens(seg) {
        Open(seg, now);
      }
    }

    /** `ctTimeoutDel`. */
    method TimeoutDelete(ct: Connection, now: nat)
      requires Valid() && ct.id < |all| && all[ct.id] == ct && ct.timer.Armed? && ct.timer.run.TimeoutDel?
      modifies this, ct`status, ct`timer
      ensures Valid() && View(now) == Fired(old(View(now)), ct.id)
    {
      ghost var s := View(now);
      ct.timer := Idle;
      ct.status := CtDel;
      conntracks := conntracks - {ct.origin, ct.reply};
      table := table - {ct.origin, ct.reply};
      assert Conns() == Fired(s, ct.id).conns;
    }

    /** A timer fires, and its callback runs. */
    method Fire(ct: Connection, now: nat)
      requires Valid() && ct.id < |all| && all[ct.id] == ct && ct.timer.Armed? && Known(ct.origin.proto)
      modifies this, ct`status, ct`timer
      ensures Valid() && View(now) == Fired(old(View(now)), ct.id)
    {
      if ct.timer.run.TimeoutDel? {
        TimeoutDelete(ct, now);
      } else {
        ghost var s := View(now);
        ct.EstablishedTimedOut(now);
        assert Conns() == Fired(s, ct.id).conns;
        assert s.table - {} == s.table;
      }
    }
  }

  lemma {:induction false} AddedIs(s: State, c: Conn, s': State)
    requires s'.table == s.table[c.origin := |s.conns|][Invert(c.origin) := |s.conns|]
    requires |s'.conns| == |s.conns| + 1 && s'.conns[|s.conns|] == c && s'.now == s.now
    requires forall i :: 0 <= i < |s.conns| ==> s'.conns[i] == s.conns[i]
    ensures s' == Added(s, c)
  {
    assert s'.conns == s.conns + [c];
  }
}
