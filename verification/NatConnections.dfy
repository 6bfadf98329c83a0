/** The connection table of `src/nat/conntrack.go` as linked objects, and the part of
    `src/nat/snat.go` that works on it. */
module NatConnections {
  import opened Machine
  import opened Conntrack
  import opened NatEntry
  import opened NatTable

  class Conn {
    ghost const id: nat
    var status: Status
    var stats: Stats
    var origin: Tuple
    var reply: Tuple
    var timer: Timer
    var snat: bool

    /** `CreateConntrack`: not yet in the table. */
    constructor (ghost id: nat, t: Tuple)
      ensures this.id == id
      ensures Rec() == Entry(CtNew, Stats(0, 0), t, Invert(t), Idle, false)
    {
      this.id := id;
      status, stats, origin, reply, timer, snat := CtNew, Stats(0, 0), t, Invert(t), Idle, false;
    }

    function Rec(): Entry
      reads this
    {
      Entry(status, stats, origin, reply, timer, snat)
    }
  }

  class NetConntrack {
    const snatIP: U32
    var conntracks: map<Tuple, Conn>
    ghost var all: seq<Conn>
    ghost var table: map<Tuple, nat>

    ghost predicate Valid()
      reads this, all
    {
      && (forall i :: 0 <= i < |all| ==> all[i].id == i)
      && (forall t :: t in table <==> t in conntracks)
      && (forall t :: t in conntracks ==> table[t] < |all| && all[table[t]] == conntracks[t])
    }

    ghost function Entries(): (s: seq<Entry>)
      reads this, all
      ensures |s| == |all|
      ensures forall i :: 0 <= i < |s| ==> s[i] == all[i].Rec()
    {
      seq(|all|, i requires 0 <= i < |all| reads this, all => all[i].Rec())
    }

    ghost function View(now: nat): State
      reads this, all
    {
      State(table, Entries(), now)
    }

    constructor (snatIP: U32)
      ensures Valid() && View(0) == EMPTY && this.snatIP == snatIP
    {
      this.snatIP := snatIP;
      conntracks, all, table := map[], [], map[];
    }

    /** `ctConfirm`: both keys lead to the connection. */
    method AddConntrack(ct: Conn)
      requires Valid() && ct.id == |all| && ct !in all
      modifies this
      ensures Valid() && all == old(all) + [ct]
      ensures table == old(table)[ct.origin := ct.id][ct.reply := ct.id]
      ensures conntracks == old(conntracks)[ct.origin := ct][ct.reply := ct]
    {
      var first: map<Tuple, Conn> := conntracks[ct.origin := ct];
      var both: map<Tuple, Conn> := first[ct.reply := ct];
      conntracks := both;
      all := all + [ct];
      ghost var keyed: map<Tuple, nat> := table[ct.origin := |old(all)|];
      table := keyed[ct.reply := |old(all)|];
    }

    /** The loop of `getUniqueTuple`: count the reply port up until its tuple is unused. It ends
        because some port of the remote endpoint is unused. */
    method FindUniqueReply(first: Tuple) returns (reply: Tuple)
      requires Valid() && PortLeft(table, first)
      ensures reply == UniqueReply(table, first)
    {
      reply := first;
      ghost var k := 0;
      SearchEndsIffPortLeft(table, first);
      ghost var end := FirstFree(table, first, 0);
      while reply in conntracks
        invariant 0 <= k <= end && Probe(first, end) !in table
        invariant forall j :: 0 <= j < end ==> Probe(first, j) in table
        invariant reply == Probe(first, k)
        decreases end - k
      {
        ProbeNext(first, k);
        reply := reply.(dport := ToU16(reply.dport + 1));
        k := k + 1;
      }
    }

    /** `getUniqueTuple`. */
    method GetUniqueTuple(ct: Conn)
      requires Valid() && ct.id == |all| && ct !in all
      requires PortLeft(table, ct.reply.(daddr := snatIP))
      modifies this, ct`reply, ct`snat
      ensures Valid() && all == old(all) + [ct]
      ensures ct.reply == UniqueReply(old(table), old(ct.reply).(daddr := snatIP))
      ensures ct.snat
      ensures table == old(table)[ct.origin := ct.id][ct.reply := ct.id]
    {
      var reply := FindUniqueReply(ct.reply.(daddr := snatIP));
      ct.reply := reply;
      ct.snat := true;
      AddConntrack(ct);
    }

    /** Create, confirm and enter the connection of a new flow. */
    method Open(t: Tuple) returns (ct: Conn)
      requires Valid() && t !in conntracks && PortLeft(table, FirstReply(t, snatIP))
      modifies this
      ensures Valid() && fresh(ct) && ct.id == |old(all)| && all == old(all) + [ct]
      ensures var reply := UniqueReply(old(table), FirstReply(t, snatIP));
        && ct.Rec() == Entry(CtNew, Stats(0, 0), t, reply, Idle, true)
        && table == old(table)[t := ct.id][reply := ct.id]
    {
      ct := new Conn(|all|, t);
      GetUniqueTuple(ct);
    }

    /** The first packet of a flow. */
    method NewFlow(t: Tuple, len: nat, now: nat) returns (ct: Conn)
      requires Valid() && t !in conntracks && PortLeft(table, FirstReply(t, snatIP))
      modifies this
      ensures Valid() && fresh(ct) && ct.id == |old(all)| && all == old(all) + [ct]
      ensures View(now) == Created(old(View(now)), t, len, snatIP)
      ensures Holds(table, t, ct.id)
    {
      ghost var s := View(now);
      ct := Open(t);
      ct.stats := ct.stats.Count(Origin, len);
      ct.timer := Armed(now + CT_UDP_NEW_TIMEOUT, TimeoutDel);
      forall i | 0 <= i < |s.entries| ensures Entries()[i] == s.entries[i] {
        assert all[i] != ct;
      }
      CreatedIs(s, t, len, snatIP, ct.Rec(), View(now));
    }

    /** A further packet of a flow: a reply establishes it. */
    method KnownFlow(ct: Conn, t: Tuple, len: nat, now: nat) returns (dir: Dir)
      requires Valid() && ct.id < |all| && all[ct.id] == ct
      modifies ct
      ensures Valid() && dir == ct.Rec().DirOf(t)
      ensures Entries() == old(Entries())[ct.id := Touched(old(ct.Rec()), t, len, now)]
    {
      dir := if ct.origin == t then Origin else Reply;
      ct.stats := ct.stats.Count(dir, len);
      if ct.status != CtEstablished && dir == Reply && ct.timer.Armed? {
        ct.status := CtEstablished;
        ct.timer := Armed(now + CT_UDP_ESTABLISHED_TIMEOUT, EstablishedTimeout(ct.stats));
      }
    }

    /** `udpHandler` without the packet rewriting: find or create the connection, count the
        bytes, and establish the flow on a reply. */
    method UdpHandler(t: Tuple, len: nat, now: nat) returns (ct: Conn, dir: Dir)
      requires Valid() && Enabled(View(now), Packet(t, len), snatIP)
      modifies this, all
      ensures Valid() && View(now) == Next(old(View(now)), Packet(t, len), snatIP)
      ensures ct.id < |all| && all[ct.id] == ct && Holds(table, t, ct.id)
      ensures dir == ct.Rec().DirOf(t)
    {
      if t !in conntracks {
        ct := NewFlow(t, len, now);
        dir := Origin;
      } else {
        ct := conntracks[t];
        dir := KnownFlow(ct, t, len, now);
      }
    }

    /** Whatever else changes, the table's view follows from its own objects. */
    twostate lemma Untouched(now: nat)
      requires old(Valid()) && unchanged(this) && forall ct :: ct in all ==> unchanged(ct)
      ensures Valid() && View(now) == old(View(now))
    {
      forall i | 0 <= i < |all| ensures all[i].Rec() == old(all[i].Rec()) {
        assert all[i] in all;
      }
      assert Entries() == old(Entries());
    }

    /** `ctTimeoutDel`. */
    method TimeoutDelete(ct: Conn, now: nat)
      requires Valid() && ct.id < |all| && all[ct.id] == ct
      requires Enabled(View(now), Fire(ct.id), snatIP) && ct.timer.run.TimeoutDel?
      modifies this, ct
      ensures Valid() && View(now) == Fired(old(View(now)), ct.id)
    {
      ghost var s := View(now);
      ct.timer := Idle;
      ct.status := CtDel;
      conntracks := conntracks - {ct.origin, ct.reply};
      table := table - {ct.origin, ct.reply};
      assert Entries() == Fired(s, ct.id).entries;
    }

    /** `ctESTABLISHEDTimeout`. */
    method EstablishedTimedOut(ct: Conn, now: nat)
      requires Valid() && ct.id < |all| && all[ct.id] == ct
      requires Enabled(View(now), Fire(ct.id), snatIP) && ct.timer.run.EstablishedTimeout?
      modifies this, ct
      ensures Valid() && View(now) == Fired(old(View(now)), ct.id)
    {
      ghost var s := View(now);
      var oldStats := ct.timer.run.snapshot;
      ct.timer := Idle;
      if ct.status != CtDel {
        if oldStats != ct.stats {
          ct.timer := Armed(now + EstablishTimeout(ct.origin.proto), EstablishedTimeout(ct.stats));
        } else {
          ct.status := CtDel;
          ct.timer := Armed(now + CT_DEL_TIMEOUT, TimeoutDel);
        }
      }
      assert Entries() == Fired(s, ct.id).entries;
    }
  }

  /** The parts of a created state. */
  lemma {:induction false} CreatedIs(s: State, t: Tuple, len: nat, snatIP: U32, e: Entry, s': State)
    requires e == NewEntry(t, len, UniqueReply(s.table, FirstReply(t, snatIP)), s.now)
    requires s'.table == s.table[t := |s.entries|][e.reply := |s.entries|]
    requires |s'.entries| == |s.entries| + 1 && s'.entries[|s.entries|] == e && s'.now == s.now
    requires forall i :: 0 <= i < |s.entries| ==> s'.entries[i] == s.entries[i]
    ensures s' == Created(s, t, len, snatIP)
  {
    assert s'.entries == s.entries + [e];
  }
}
