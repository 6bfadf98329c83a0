/** The forwarding database as a learning switch, over whole runs. */
module FdbSwitching {
  import opened Machine
  import Counting
  import opened Fdb

  // ----- Where an address was heard last -----

  /** The frame is ARP or IP. */
  predicate Switched(frame: Frame) {
    frame.proto == 0x0806 || frame.proto == 0x0800
  }

  /** The frame is an ARP reply. */
  predicate Answers(frame: Frame) {
    frame.proto == 0x0806 && frame.op == Some(2)
  }

  /** The source of a frame from `q` is, by its entry, behind somebody else who was heard in the
      last 3 ticks. */
  predicate Elsewhere<P(==)>(s: State<P>, m: Mac, q: P) {
    m in s.f.macs && s.f.macs[m].pio != q && s.tick - s.f.macs[m].ft <= 3
  }

  /** Event `k` is an accepted frame with source `m`: one that comes from where `m` is known to be,
      or from elsewhere when `m` is unknown or was not heard lately, or an ARP reply. */
  ghost predicate AcceptedAt<P>(run: Run<P>, k: nat, m: Mac) {
    && Reaches(run, k) && k < |run.events| && run.events[k].Receive? && run.events[k].frame.src == m
    && Switched(run.events[k].frame)
    && (Elsewhere(run.states[k], m, run.events[k].pio) ==> Answers(run.events[k].frame))
  }

  /** The owner and time of the last accepted frame with source `m` among the first `n` events. */
  ghost function LastAccepted<P>(run: Run<P>, n: nat, m: Mac): Option<Node<P>>
    requires Reaches(run, n)
  {
    if n == 0 then None
    else if AcceptedAt(run, n - 1, m) then Some(Node(run.events[n - 1].pio, run.states[n - 1].tick))
    else LastAccepted(run, n - 1, m)
  }

  lemma {:induction false} EntryAfter<P>(s: State<P>, ev: Event<P>, m: Mac)
    ensures var s' := Next(s, ev);
      m in s'.f.macs ==>
        if ev.Receive? && ev.frame.src == m && Switched(ev.frame) && (Elsewhere(s, m, ev.pio) ==> Answers(ev.frame))
        then s'.f.macs[m] == Node(ev.pio, s.tick)
        else m in s.f.macs && s'.f.macs[m] == s.f.macs[m]
  {
  }

  /** In every reachable state a MAC entry is the owner and the time of the last accepted frame
      with that source. */
  lemma {:induction false} EntryIsLastAccepted<P>(run: Run<P>, n: nat, m: Mac)
    requires IsRun(run, n) && m in run.states[n].f.macs
    ensures LastAccepted(run, n, m) == Some(run.states[n].f.macs[m])
  {
    if n > 0 {
      EntryAfter(run.states[n - 1], run.events[n - 1], m);
      if !AcceptedAt(run, n - 1, m) {
        EntryIsLastAccepted(run, n - 1, m);
      }
    }
  }

  /** A frame is refused exactly if it is neither ARP nor IP, or is no ARP reply and its source has
      an entry, was accepted last through a port of somebody else, and that at most 3 ticks ago. */
  lemma {:induction false} RefusedExactly<P>(run: Run<P>, n: nat, frame: Frame, q: P)
    requires IsRun(run, n)
    ensures var s, last := run.states[n], LastAccepted(run, n, frame.src);
      FateOf(s.f.macs, frame, q, s.tick) == Refused
      <==> !Switched(frame)
           || (!Answers(frame) && frame.src in s.f.macs
               && last.Some? && last.value.pio != q && s.tick - last.value.ft <= 3)
  {
    if frame.src in run.states[n].f.macs {
      EntryIsLastAccepted(run, n, frame.src);
    }
  }

  /** An address moves: an ARP reply, or any ARP or IP frame when the address was never accepted or
      not in the last 3 ticks, is accepted through whatever port it comes, and the address is
      behind that port from then on. */
  lemma {:induction false} AddressMoves<P>(run: Run<P>, n: nat, frame: Frame, q: P)
    requires IsRun(run, n) && Switched(frame)
    requires Answers(frame) || LastAccepted(run, n, frame.src) == None
      || run.states[n].tick - LastAccepted(run, n, frame.src).value.ft > 3
    ensures var s, s' := run.states[n], Next(run.states[n], Receive(frame, q));
      && FateOf(s.f.macs, frame, q, s.tick) != Refused
      && frame.src in s'.f.macs && s'.f.macs[frame.src] == Node(q, s.tick)
  {
    if frame.src in run.states[n].f.macs {
      EntryIsLastAccepted(run, n, frame.src);
    }
  }

  /** Where a frame goes that is not refused: an ARP broadcast, and a frame for an address without
      entry, to all others; a frame for an address behind the port it came from, or for its own
      source, to nobody; any other to the owner through whom its destination was accepted last. */
  lemma {:induction false} GoesToLastAccepted<P>(run: Run<P>, n: nat, frame: Frame, q: P)
    requires IsRun(run, n)
    ensures var s, last := run.states[n], LastAccepted(run, n, frame.dst);
      var fate := FateOf(s.f.macs, frame, q, s.tick);
      fate == Refused || fate ==
        if frame.proto == 0x0806 && frame.dst == 0xFFFF_FFFF_FFFF then Flooded
        else if frame.dst == frame.src then AtHome
        else if frame.dst !in s.f.macs then Flooded
        else if last.Some? && last.value.pio == q then AtHome
        else if last.Some? then SentTo(last.value.pio) else Refused
  {
    if frame.dst in run.states[n].f.macs {
      EntryIsLastAccepted(run, n, frame.dst);
    }
  }

  /** The ports of other owners. */
  ghost function OthersPorts<P>(ports: map<nat, P>, q: P): set<nat> {
    set id | id in ports && ports[id] != q
  }

  /** What is delivered for each fate: nothing for a refused frame or one that is at home, one frame
      to the owner it is sent to, and one to every port of another owner for a flood. */
  lemma {:induction false} Delivered<P>(ports: map<nat, P>, q: P, fate: Fate<P>, ids: seq<nat>, out: seq<P>)
    requires Delivers(ports, q, fate, ids, out)
    ensures fate == Refused || fate == AtHome ==> out == []
    ensures fate.SentTo? ==> out == [fate.to]
    ensures fate == Flooded ==>
      && (forall id :: id in ports && ports[id] != q ==> ports[id] in out)
      && (forall p :: p in out ==> p != q && p in ports.Values)
      && |out| == |OthersPorts(ports, q)|
  {
    if fate == Flooded {
      forall id | id in ports && ports[id] != q ensures ports[id] in out {
        assert id in ids;
        var i :| 0 <= i < |ids| && ids[i] == id;
        assert out[i] == ports[id];
      }
      forall p | p in out ensures p != q && p in ports.Values {
        var i :| 0 <= i < |out| && out[i] == p;
        assert ids[i] in ids;
      }
      Counting.DistinctSize(ids);
      var hit := set x: nat | x in ids;
      assert |hit| == |ids|;
      assert hit == OthersPorts(ports, q);
    }
  }

  /** A frame for an address from which nothing was ever accepted is flooded. */
  lemma {:induction false} UnknownIsFlooded<P>(run: Run<P>, n: nat, frame: Frame, pio: P)
    requires IsRun(run, n) && LastAccepted(run, n, frame.dst) == None && frame.src != frame.dst
    requires Switched(frame) && (Elsewhere(run.states[n], frame.src, pio) ==> Answers(frame))
    ensures FateOf(run.states[n].f.macs, frame, pio, run.states[n].tick) == Flooded
  {
    if frame.dst in run.states[n].f.macs {
      EntryIsLastAccepted(run, n, frame.dst);
    }
  }

  /** A tick takes out exactly the addresses that were not accepted within the last 300 ticks, if it
      is a 64th one and the table has more than 128 addresses, and else none; no entry changes. */
  lemma {:induction false} AgeingKeepsRecent<P>(run: Run<P>, n: nat, m: Mac)
    requires IsRun(run, n + 1) && run.events[n] == Tick && m in run.states[n].f.macs
    ensures var s, s', last := run.states[n], run.states[n + 1], LastAccepted(run, n, m);
      && last.Some? && s'.tick == s.tick + 1
      && (m !in s'.f.macs <==> s'.tick % 64 == 0 && |s.f.macs| > 128 && s'.tick - last.value.ft > 300)
      && (m in s'.f.macs ==> s'.f.macs[m] == s.f.macs[m])
      && s'.f.ports == s.f.ports && s'.f.free == s.f.free && s'.f.allocNum == s.f.allocNum
  {
    EntryIsLastAccepted(run, n, m);
  }

  /** No event but an accepted frame with that source brings an address in, and only the release of a
      port of its owner and ageing take one out. */
  lemma {:induction false} EntriesComeAndGo<P>(run: Run<P>, n: nat, m: Mac)
    requires IsRun(run, n + 1)
    ensures var s, s', ev := run.states[n], run.states[n + 1], run.events[n];
      && (m in s'.f.macs && m !in s.f.macs ==> AcceptedAt(run, n, m))
      && (m in s.f.macs && m !in s'.f.macs ==>
            ev.Tick? || (ev.Release? && ev.id in s.f.ports && s.f.ports[ev.id] == s.f.macs[m].pio))
      && (ev.Release? && ev.id != 0 && ev.id in s.f.ports && m in s.f.macs && s.f.macs[m].pio == s.f.ports[ev.id] ==>
            m !in s'.f.macs)
  {
  }

  // ----- Stability -----

  /** The event is not one that may take `m` away from owner `p` at once: an ARP reply with that
      source through somebody else's port, or the release of a port of `p`. */
  predicate Harmless<P(==)>(s: State<P>, ev: Event<P>, m: Mac, p: P) {
    match ev
    case Receive(frame, pio) => frame.src == m && pio != p ==> !Answers(frame)
    case Release(id) => id in s.f.ports ==> s.f.ports[id] != p
    case _ => true
  }

  /** When `m` was last heard on a port of `p`, at or after event `start`. */
  ghost function LastHeard<P>(run: Run<P>, start: nat, n: nat, m: Mac, p: P): nat
    requires start <= n && Reaches(run, n) && m in run.states[start].f.macs
    decreases n
  {
    if n == start then run.states[start].f.macs[m].ft
    else
      var s, ev := run.states[n - 1], run.events[n - 1];
      if ev.Receive? && ev.frame.src == m && ev.pio == p && Switched(ev.frame) then s.tick
      else LastHeard(run, start, n - 1, m, p)
  }

  /** From event `start` on, `m` is heard on a port of `p` at least every 3 ticks, and nothing
      takes it away at once. */
  ghost predicate Calm<P>(run: Run<P>, start: nat, n: nat, m: Mac, p: P)
    requires start <= n && Reaches(run, n) && m in run.states[start].f.macs
    decreases n
  {
    n == start
    || (Calm(run, start, n - 1, m, p)
        && run.states[n - 1].tick - LastHeard(run, start, n - 1, m, p) <= 3
        && Harmless(run.states[n - 1], run.events[n - 1], m, p))
  }

  lemma {:induction false} EntryStays<P>(s: State<P>, ev: Event<P>, m: Mac, p: P)
    requires m in s.f.macs && s.f.macs[m].pio == p && s.tick - s.f.macs[m].ft <= 3 && Harmless(s, ev, m, p)
    ensures m in Next(s, ev).f.macs
    ensures Next(s, ev).f.macs[m] ==
      if ev.Receive? && ev.frame.src == m && ev.pio == p && Switched(ev.frame) then Node(p, s.tick)
      else s.f.macs[m]
  {
  }

  /** An address that is heard on its port at least every 3 ticks stays there: only an ARP reply
      through another port, or the release of a port of its owner, can move it or remove it. */
  lemma {:induction false} MacStays<P>(run: Run<P>, start: nat, n: nat, m: Mac, p: P)
    requires start <= n && IsRun(run, n)
    requires m in run.states[start].f.macs && run.states[start].f.macs[m].pio == p
    requires Calm(run, start, n, m, p)
    ensures m in run.states[n].f.macs && run.states[n].f.macs[m] == Node(p, LastHeard(run, start, n, m, p))
    decreases n
  {
    if n > start {
      MacStays(run, start, n - 1, m, p);
      EntryStays(run.states[n - 1], run.events[n - 1], m, p);
    }
  }

  /** Meanwhile a frame with that source through any other port is dropped, and changes nothing. */
  lemma {:induction false} LoopIsDropped<P>(run: Run<P>, start: nat, n: nat, m: Mac, p: P, frame: Frame, q: P)
    requires start <= n && IsRun(run, n)
    requires m in run.states[start].f.macs && run.states[start].f.macs[m].pio == p
    requires Calm(run, start, n, m, p) && run.states[n].tick - LastHeard(run, start, n, m, p) <= 3
    requires frame.src == m && q != p && !Answers(frame)
    ensures FateOf(run.states[n].f.macs, frame, q, run.states[n].tick) == Refused
    ensures Next(run.states[n], Receive(frame, q)) == run.states[n]
  {
    MacStays(run, start, n, m, p);
  }

  /** And a frame for it, from another owner's port, goes to its owner and to nobody else. */
  lemma {:induction false} UnicastToOwner<P>(run: Run<P>, k: nat, n: nat, m: Mac, frame: Frame, q: P)
    requires k < n && IsRun(run, n) && IsRun(run, k + 1) && AcceptedAt(run, k, m)
    requires m in run.states[k + 1].f.macs && Calm(run, k + 1, n, m, run.events[k].pio)
    requires frame.dst == m && frame.src != m && q != run.events[k].pio
    requires !(frame.proto == 0x0806 && m == 0xFFFF_FFFF_FFFF)
    requires Switched(frame) && (Elsewhere(run.states[n], frame.src, q) ==> Answers(frame))
    ensures FateOf(run.states[n].f.macs, frame, q, run.states[n].tick) == SentTo(run.events[k].pio)
  {
    EntryAfter(run.states[k], run.events[k], m);
    MacStays(run, k + 1, n, m, run.events[k].pio);
  }
}
