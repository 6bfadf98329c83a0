/** Runs of the source-NAT table that reach its corner cases: all reply ports of an endpoint in
    use until a timer fires, and an entry under deletion that comes back to life. */
module NatWitness {
  import opened Machine
  import opened Conntrack
  import opened NatEntry
  import opened NatTable
  import opened NatSearch

  /** A run, one event earlier. */
  lemma {:induction false} RunFrom(s: State, ev: Event, rest: seq<Event>, snatIP: U32)
    requires Enabled(s, ev, snatIP) && IsRun(Next(s, ev, snatIP), rest, snatIP)
    ensures IsRun(s, [ev] + rest, snatIP)
    ensures Final(s, [ev] + rest, snatIP) == Final(Next(s, ev, snatIP), rest, snatIP)
  {
    assert ([ev] + rest)[1..] == rest;
  }

  // ----- All ports in use -----

  /** The flow from port `k` of `base.saddr` to the endpoint of `base`. */
  function Flow(base: Tuple, k: U16): Tuple {
    base.(sport := k)
  }

  /** One packet from each source port from `k` up to `n - 1`. */
  function Flood(base: Tuple, len: nat, k: nat, n: nat): seq<Event>
    requires k <= n <= 0x1_0000
    decreases n - k
  {
    if k == n then [] else [Packet(Flow(base, k), len)] + Flood(base, len, k + 1, n)
  }

  /** The entry of the flow from port `k`: new, under the reply port equal to its source port. */
  function FlowEntry(base: Tuple, len: nat, snatIP: U32, k: U16): Entry {
    var timer := Armed(CT_UDP_NEW_TIMEOUT, TimeoutDel);
    Entry(CtNew, Stats(len, 0), Flow(base, k), FirstReply(Flow(base, k), snatIP), timer, true)
  }

  predicate IsFlowKey(base: Tuple, snatIP: U32, k: nat, t: Tuple) {
    (t.sport < k && t == Flow(base, t.sport)) || (t.dport < k && t == FirstReply(Flow(base, t.dport), snatIP))
  }

  /** At time 0 the flows from ports below `k` are known, each under its own reply port, and no
      others. */
  ghost predicate FlowsBelow(s: State, base: Tuple, len: nat, snatIP: U32, k: nat) {
    && s.now == 0 && |s.entries| == k <= 0x1_0000
    && (forall t :: t in s.table <==> IsFlowKey(base, snatIP, k, t))
    && (forall i :: 0 <= i < k ==> s.entries[i] == FlowEntry(base, len, snatIP, i))
  }

  /** The next packet takes the reply port equal to its source port. */
  lemma {:induction false} NextFlow(s: State, base: Tuple, len: nat, snatIP: U32, k: U16)
    requires base.proto == UDP && base.daddr != snatIP && FlowsBelow(s, base, len, snatIP, k)
    ensures Enabled(s, Packet(Flow(base, k), len), snatIP)
    ensures FlowsBelow(Next(s, Packet(Flow(base, k), len), snatIP), base, len, snatIP, k + 1)
  {
    var t := Flow(base, k);
    var first := FirstReply(t, snatIP);
    assert t !in s.table && first !in s.table;
    assert first.(dport := k) == first;
    assert Probe(first, 0) == first;
    assert UniqueReply(s.table, first) == first;
    var s' := Next(s, Packet(t, len), snatIP);
    forall x ensures x in s'.table <==> IsFlowKey(base, snatIP, k + 1, x) {
      assert x in s'.table <==> x in s.table || x == t || x == first;
    }
  }

  lemma {:induction false} FloodRuns(s: State, base: Tuple, len: nat, snatIP: U32, k: nat, n: nat)
    requires base.proto == UDP && base.daddr != snatIP && k <= n <= 0x1_0000 && FlowsBelow(s, base, len, snatIP, k)
    ensures IsRun(s, Flood(base, len, k, n), snatIP)
    ensures FlowsBelow(Final(s, Flood(base, len, k, n), snatIP), base, len, snatIP, n)
    decreases n - k
  {
    if k < n {
      var ev, rest := Packet(Flow(base, k), len), Flood(base, len, k + 1, n);
      NextFlow(s, base, len, snatIP, k);
      FloodRuns(Next(s, ev, snatIP), base, len, snatIP, k + 1, n);
      RunFrom(s, ev, rest, snatIP);
      assert Flood(base, len, k, n) == [ev] + rest;
      SameState(Final(Next(s, ev, snatIP), rest, snatIP), Final(s, [ev] + rest, snatIP), base, len, snatIP, n);
    }
  }

  lemma {:induction false} SameState(s: State, s': State, base: Tuple, len: nat, snatIP: U32, n: nat)
    requires FlowsBelow(s, base, len, snatIP, n) && s == s'
    ensures FlowsBelow(s', base, len, snatIP, n)
  {
  }

  lemma {:induction false} FullEndpoint(s: State, base: Tuple, len: nat, snatIP: U32, t: Tuple, n: nat)
    requires n == 0x1_0000 && FlowsBelow(s, base, len, snatIP, n)
    requires t.daddr == base.daddr && t.dport == base.dport && t.proto == base.proto
    ensures !PortLeft(s.table, FirstReply(t, snatIP))
    ensures forall k: nat :: Probe(FirstReply(t, snatIP), k) in s.table
  {
    SearchEndsIffPortLeft(s.table, FirstReply(t, snatIP));
    forall port: U16 ensures FirstReply(t, snatIP).(dport := port) in s.table {
      assert FirstReply(t, snatIP).(dport := port) == FirstReply(Flow(base, port), snatIP);
    }
  }

  /** After one packet from every source port of a host to an endpoint other than the NAT address
      itself, no reply port of that endpoint is left, and as long as no timer fires every probe
      for a further flow to it fails. */
  lemma {:induction false} PortsRunOut(base: Tuple, len: nat, snatIP: U32, t: Tuple, n: nat)
    requires base.proto == UDP && base.daddr != snatIP && n == 0x1_0000
    requires t.daddr == base.daddr && t.dport == base.dport && t.proto == UDP && t.saddr != base.saddr
    ensures IsRun(EMPTY, Flood(base, len, 0, n), snatIP)
    ensures var s := Final(EMPTY, Flood(base, len, 0, n), snatIP);
      && t !in s.table && !PortLeft(s.table, FirstReply(t, snatIP))
      && forall k: nat :: Probe(FirstReply(t, snatIP), k) in s.table
  {
    Flooded(base, len, snatIP, n);
    FullEndpoint(Final(EMPTY, Flood(base, len, 0, n), snatIP), base, len, snatIP, t, n);
  }

  lemma {:induction false} Flooded(base: Tuple, len: nat, snatIP: U32, n: nat)
    requires base.proto == UDP && base.daddr != snatIP && n <= 0x1_0000
    ensures IsRun(EMPTY, Flood(base, len, 0, n), snatIP)
    ensures FlowsBelow(Final(EMPTY, Flood(base, len, 0, n), snatIP), base, len, snatIP, n)
  {
    assert FlowsBelow(EMPTY, base, len, snatIP, 0);
    FloodRuns(EMPTY, base, len, snatIP, 0, n);
  }

  // ----- The search amid timers -----

  lemma {:induction false} TimeGoesOn(s: State, run: seq<Event>, snatIP: U32)
    requires IsRun(s, run, snatIP)
    ensures s.now <= Final(s, run, snatIP).now
    decreases |run|
  {
    if |run| > 0 {
      TimeGoesOn(Next(s, run[0], snatIP), run[1..], snatIP);
    }
  }

  /** No timer is due before `until`. */
  ghost predicate NoneDue(s: State, until: nat) {
    forall id: nat :: Live(s, id) ==> s.entries[id].timer.deadline >= until
  }

  lemma {:induction false} QuietBefore(s: State, run: seq<Event>, snatIP: U32, until: nat)
    requires IsRun(s, run, snatIP) && TimersOnly(run) && NoneDue(s, until) && Final(s, run, snatIP).now < until
    ensures Final(s, run, snatIP).table == s.table && NoneDue(Final(s, run, snatIP), until)
    decreases |run|
  {
    if |run| > 0 {
      assert IsTimer(run[0]);
      TimeGoesOn(s, run, snatIP);
      TimeGoesOn(Next(s, run[0], snatIP), run[1..], snatIP);
      QuietBefore(Next(s, run[0], snatIP), run[1..], snatIP, until);
    }
  }

  lemma {:induction false} CourseIsQuiet(ss: seq<State>, pauses: seq<seq<Event>>, snatIP: U32, until: nat, j: nat)
    requires IsCourse(ss, pauses, snatIP) && OnlyTimers(pauses) && j < |ss|
    requires NoneDue(ss[0], until) && ss[j].now < until
    ensures ss[j].table == ss[0].table && NoneDue(ss[j], until)
  {
    if j > 0 {
      assert IsPause(ss[j - 1], pauses[j - 1], ss[j], snatIP) && TimersOnly(pauses[j - 1]);
      TimeGoesOn(ss[j - 1], pauses[j - 1], snatIP);
      CourseIsQuiet(ss, pauses, snatIP, until, j - 1);
      QuietBefore(ss[j - 1], pauses[j - 1], snatIP, until);
    }
  }

  /** With the endpoint full, every probe in the first fifteen seconds fails. */
  lemma {:induction false} SearchWaits(base: Tuple, len: nat, ss: seq<State>, pauses: seq<seq<Event>>, snatIP: U32,
    t: Tuple, n: nat, j: nat)
    requires base.proto == UDP && base.daddr != snatIP && n == 0x1_0000
    requires t.daddr == base.daddr && t.dport == base.dport && t.proto == UDP && t.saddr != base.saddr
    requires IsCourse(ss, pauses, snatIP) && OnlyTimers(pauses) && j < |ss| && ss[j].now < CT_UDP_NEW_TIMEOUT
    requires IsRun(EMPTY, Flood(base, len, 0, n), snatIP) && ss[0] == Final(EMPTY, Flood(base, len, 0, n), snatIP)
    ensures !Hits(ss, FirstReply(t, snatIP), j)
  {
    PortsRunOut(base, len, snatIP, t, n);
    Flooded(base, len, snatIP, n);
    CourseIsQuiet(ss, pauses, snatIP, CT_UDP_NEW_TIMEOUT, j);
  }

  /** Then the timer of any of the flows frees its port, and the search finds it. */
  lemma {:induction false} PortsComeBack(base: Tuple, len: nat, snatIP: U32, t: Tuple, n: nat, id: U16)
    requires base.proto == UDP && base.daddr != snatIP && n == 0x1_0000
    requires t.daddr == base.daddr && t.dport == base.dport && t.proto == UDP && t.saddr != base.saddr
    ensures IsRun(EMPTY, Flood(base, len, 0, n), snatIP)
    ensures var s := Final(EMPTY, Flood(base, len, 0, n), snatIP);
      && IsRun(s, [Elapse(CT_UDP_NEW_TIMEOUT), Fire(id)], snatIP)
      && var s' := Final(s, [Elapse(CT_UDP_NEW_TIMEOUT), Fire(id)], snatIP);
        FirstReply(t, snatIP).(dport := id) !in s'.table && PortLeft(s'.table, FirstReply(t, snatIP))
  {
    Flooded(base, len, snatIP, n);
    var s := Final(EMPTY, Flood(base, len, 0, n), snatIP);
    var s1 := Next(s, Elapse(CT_UDP_NEW_TIMEOUT), snatIP);
    assert s1.entries[id] == FlowEntry(base, len, snatIP, id);
    var s2 := Next(s1, Fire(id), snatIP);
    assert FirstReply(t, snatIP).(dport := id) == FirstReply(Flow(base, id), snatIP);
    assert IsRun(s2, [], snatIP);
    RunFrom(s1, Fire(id), [], snatIP);
    RunFrom(s, Elapse(CT_UDP_NEW_TIMEOUT), [Fire(id)], snatIP);
  }

  // ----- Revival -----

  /** The state with one entry, of flow `t`, under its first reply tuple. */
  function Single(t: Tuple, snatIP: U32, status: Status, stats: Stats, timer: Timer, now: nat): State {
    var reply := FirstReply(t, snatIP);
    State(map[t := 0, reply := 0], [Entry(status, stats, t, reply, timer, true)], now)
  }

  /** A flow, and the first answer to it. */
  lemma {:induction false} Answered(t: Tuple, a: nat, b: nat, snatIP: U32)
    requires t.proto == UDP && !SelfReply(t, snatIP)
    ensures Enabled(EMPTY, Packet(t, a), snatIP)
    ensures var s := Next(EMPTY, Packet(t, a), snatIP);
      && Enabled(s, Packet(FirstReply(t, snatIP), b), snatIP)
      && Next(s, Packet(FirstReply(t, snatIP), b), snatIP)
         == Single(t, snatIP, CtEstablished, Stats(a, b),
                   Armed(CT_UDP_ESTABLISHED_TIMEOUT, EstablishedTimeout(Stats(a, b))), 0)
  {
    var reply := FirstReply(t, snatIP);
    assert reply.(dport := reply.dport) == reply;
    assert Probe(reply, 0) == reply;
    assert UniqueReply(map[], reply) == reply;
    var s := Next(EMPTY, Packet(t, a), snatIP);
    assert s == Single(t, snatIP, CtNew, Stats(a, 0), Armed(CT_UDP_NEW_TIMEOUT, TimeoutDel), 0);
  }

  /** Left alone for the whole timeout, the entry is under deletion, and still in the table. */
  lemma {:induction false} IdleFlow(t: Tuple, stats: Stats, snatIP: U32)
    requires t.proto == UDP
    ensures var T := CT_UDP_ESTABLISHED_TIMEOUT;
      var s := Single(t, snatIP, CtEstablished, stats, Armed(T, EstablishedTimeout(stats)), 0);
      && Enabled(s, Elapse(T), snatIP)
      && Enabled(Next(s, Elapse(T), snatIP), Fire(0), snatIP)
      && Next(Next(s, Elapse(T), snatIP), Fire(0), snatIP)
         == Single(t, snatIP, CtDel, stats, Armed(T + CT_DEL_TIMEOUT, TimeoutDel), T)
  {
    var T := CT_UDP_ESTABLISHED_TIMEOUT;
    var s := Single(t, snatIP, CtEstablished, stats, Armed(T, EstablishedTimeout(stats)), 0);
    var s1 := Next(s, Elapse(T), snatIP);
    assert s1 == Single(t, snatIP, CtEstablished, stats, Armed(T, EstablishedTimeout(stats)), T);
  }

  /** An answer at that time, and the ten seconds of the deletion. */
  lemma {:induction false} RevivedFlow(t: Tuple, stats: Stats, b: nat, snatIP: U32)
    requires t.proto == UDP && !SelfReply(t, snatIP)
    ensures var T := CT_UDP_ESTABLISHED_TIMEOUT;
      var s := Single(t, snatIP, CtDel, stats, Armed(T + CT_DEL_TIMEOUT, TimeoutDel), T);
      var stats' := Stats(stats.origin, stats.reply + b);
      && Enabled(s, Packet(FirstReply(t, snatIP), b), snatIP)
      && Next(Next(s, Packet(FirstReply(t, snatIP), b), snatIP), Elapse(CT_DEL_TIMEOUT), snatIP)
         == Single(t, snatIP, CtEstablished, stats', Armed(2 * T, EstablishedTimeout(stats')), T + CT_DEL_TIMEOUT)
  {
    var T := CT_UDP_ESTABLISHED_TIMEOUT;
    var s := Single(t, snatIP, CtDel, stats, Armed(T + CT_DEL_TIMEOUT, TimeoutDel), T);
    var stats' := Stats(stats.origin, stats.reply + b);
    var s1 := Next(s, Packet(FirstReply(t, snatIP), b), snatIP);
    assert s1 == Single(t, snatIP, CtEstablished, stats', Armed(2 * T, EstablishedTimeout(stats')), T);
  }

  /** The events up to the deletion, and those that undo it. */
  function Dying(t: Tuple, a: nat, b: nat, snatIP: U32): seq<Event> {
    [Packet(t, a), Packet(FirstReply(t, snatIP), b), Elapse(CT_UDP_ESTABLISHED_TIMEOUT), Fire(0)]
  }

  function Reviving(t: Tuple, b: nat, snatIP: U32): seq<Event> {
    [Packet(FirstReply(t, snatIP), b), Elapse(CT_DEL_TIMEOUT)]
  }

  /** An entry under deletion is reached, and one more answer keeps its two keys in the table
      beyond the ten seconds: it is established again, and its timer is not due. */
  lemma {:induction false} RevivalHappens(t: Tuple, a: nat, b: nat, c: nat, snatIP: U32)
    requires t.proto == UDP && !SelfReply(t, snatIP)
    ensures IsRun(EMPTY, Dying(t, a, b, snatIP), snatIP)
    ensures var s := Final(EMPTY, Dying(t, a, b, snatIP), snatIP);
      && Live(s, 0) && s.entries[0].status == CtDel && s.entries[0].timer.deadline == s.now + CT_DEL_TIMEOUT
      && Holds(s.table, t, 0) && Holds(s.table, FirstReply(t, snatIP), 0)
      && IsRun(s, Reviving(t, c, snatIP), snatIP)
      && var s' := Final(s, Reviving(t, c, snatIP), snatIP);
        && s'.now == s.entries[0].timer.deadline
        && Live(s', 0) && s'.entries[0].status == CtEstablished && !Enabled(s', Fire(0), snatIP)
        && Holds(s'.table, t, 0) && Holds(s'.table, FirstReply(t, snatIP), 0)
  {
    var reply := FirstReply(t, snatIP);
    var s0 := Next(EMPTY, Packet(t, a), snatIP);
    Answered(t, a, b, snatIP);
    var s1 := Next(s0, Packet(reply, b), snatIP);
    IdleFlow(t, Stats(a, b), snatIP);
    var s2 := Next(s1, Elapse(CT_UDP_ESTABLISHED_TIMEOUT), snatIP);
    var s3 := Next(s2, Fire(0), snatIP);
    assert IsRun(s3, [], snatIP);
    RunFrom(s2, Fire(0), [], snatIP);
    RunFrom(s1, Elapse(CT_UDP_ESTABLISHED_TIMEOUT), [Fire(0)], snatIP);
    RunFrom(s0, Packet(reply, b), [Elapse(CT_UDP_ESTABLISHED_TIMEOUT), Fire(0)], snatIP);
    RunFrom(EMPTY, Packet(t, a), [Packet(reply, b), Elapse(CT_UDP_ESTABLISHED_TIMEOUT), Fire(0)], snatIP);
    RevivedFlow(t, Stats(a, b), c, snatIP);
    var s4 := Next(s3, Packet(reply, c), snatIP);
    assert IsRun(Next(s4, Elapse(CT_DEL_TIMEOUT), snatIP), [], snatIP);
    RunFrom(s4, Elapse(CT_DEL_TIMEOUT), [], snatIP);
    RunFrom(s3, Packet(reply, c), [Elapse(CT_DEL_TIMEOUT)], snatIP);
  }
}
