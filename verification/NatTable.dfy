/** The source-NAT table of `src/nat/conntrack.go` and the UDP handler of `src/nat/snat.go`:
    the search for a unique reply tuple, and what every run keeps of the two-key table. */
module NatTable {
  import opened Machine
  import Counting
  import opened Conntrack
  import opened NatEntry

  // ----- State -----

  /** `table` maps both keys of an entry to its number; `entries` lists all ever created. */
  datatype State = State(table: map<Tuple, nat>, entries: seq<Entry>, now: nat)

  const EMPTY := State(map[], [], 0)

  // ----- getUniqueTuple -----

  /** The reply tuple of the `k`-th probe: the destination port counts up and wraps. */
  function Probe(reply: Tuple, k: nat): Tuple {
    reply.(dport := (reply.dport + k) % 0x1_0000)
  }

  /** Probes 0 to k-1 are all taken. */
  ghost predicate AllTaken(table: map<Tuple, nat>, reply: Tuple, k: nat) {
    forall j :: 0 <= j < k ==> Probe(reply, j) in table
  }

  /** The first free probe, or 65536 when every port is taken. */
  function FirstFree(table: map<Tuple, nat>, reply: Tuple, k: nat): (n: nat)
    requires k <= 0x1_0000
    ensures k <= n <= 0x1_0000
    ensures forall j :: k <= j < n ==> Probe(reply, j) in table
    ensures n < 0x1_0000 ==> Probe(reply, n) !in table
    decreases 0x1_0000 - k
  {
    if k == 0x1_0000 || Probe(reply, k) !in table then k else FirstFree(table, reply, k + 1)
  }

  /** Some port of the endpoint is free. */
  ghost predicate PortLeft(table: map<Tuple, nat>, reply: Tuple) {
    exists port: U16 :: reply.(dport := port) !in table
  }

  /** In a table that nothing changes meanwhile the search ends exactly when a port is free: the
      probes repeat with period 65536, so a round without success is followed by the same round.
      (`NatSearch` has the search during which timers change the table.) */
  lemma {:induction false} SearchEndsIffPortLeft(table: map<Tuple, nat>, reply: Tuple)
    ensures FirstFree(table, reply, 0) < 0x1_0000 <==> PortLeft(table, reply)
    ensures !PortLeft(table, reply) ==> forall k: nat :: Probe(reply, k) in table
  {
    if PortLeft(table, reply) {
      var port: U16 :| reply.(dport := port) !in table;
      ProbeHits(reply, port);
    }
    var n := FirstFree(table, reply, 0);
    if n < 0x1_0000 {
      assert reply.(dport := Probe(reply, n).dport) !in table;
    }
    forall k: nat | !PortLeft(table, reply) ensures Probe(reply, k) in table {
      assert Probe(reply, k) == reply.(dport := Probe(reply, k).dport);
    }
  }

  /** `dport++` on a `uint16`. */
  lemma {:induction false} ProbeNext(reply: Tuple, k: nat)
    ensures ToU16(Probe(reply, k).dport + 1) == Probe(reply, k + 1).dport
  {
    var x := reply.dport + k;
    assert (x % 0x1_0000 + 1) % 0x1_0000 == (x + 1) % 0x1_0000;
  }

  /** Every port is probed within one round. */
  lemma {:induction false} ProbeHits(reply: Tuple, port: U16)
    ensures exists k :: 0 <= k < 0x1_0000 && Probe(reply, k) == reply.(dport := port)
  {
    var k := if port >= reply.dport then port - reply.dport else port - reply.dport + 0x1_0000;
    assert Probe(reply, k) == reply.(dport := port);
  }

  /** Pigeonhole: a table with fewer than 65536 keys always has a port left. */
  lemma {:induction false} SmallTableHasPort(table: map<Tuple, nat>, reply: Tuple)
    requires |table| < 0x1_0000
    ensures PortLeft(table, reply)
  {
    var probes := seq(0x1_0000, port requires 0 <= port < 0x1_0000 => reply.(dport := port));
    assert Counting.Distinct(probes);
    Counting.DistinctSize(probes);
    var all := set x | x in probes;
    Counting.SubsetSize(all, table.Keys);
    assert !(all <= table.Keys);
    var x :| x in all && x !in table;
    var port :| 0 <= port < 0x1_0000 && probes[port] == x;
    assert reply.(dport := port) !in table;
  }

  // ----- Steps -----

  datatype Event =
    | Packet(tuple: Tuple, len: nat)
    | Open(tuple: Tuple, len: nat, reply: Tuple)
    | Fire(id: nat)
    | Elapse(d: nat)

  /** The first free reply tuple; meaningful when a port is left. */
  function UniqueReply(table: map<Tuple, nat>, first: Tuple): Tuple {
    Probe(first, FirstFree(table, first, 0))
  }

  /** A new entry: the first packet is counted, and the timer of a new flow is running. */
  function NewEntry(t: Tuple, len: nat, reply: Tuple, now: nat): Entry {
    Entry(CtNew, Stats(0, 0).Count(Origin, len), t, reply, Armed(now + CT_UDP_NEW_TIMEOUT, TimeoutDel), true)
  }

  /** `addConntrack` after `CreateConntrack` and a search that nothing has disturbed. */
  function Created(s: State, t: Tuple, len: nat, snatIP: U32): State {
    CreatedAs(s, t, len, UniqueReply(s.table, FirstReply(t, snatIP)))
  }

  /** The same after a search that has found `reply`. */
  function CreatedAs(s: State, t: Tuple, len: nat, reply: Tuple): State {
    var e := NewEntry(t, len, reply, s.now);
    s.(table := s.table[t := |s.entries|][e.reply := |s.entries|], entries := s.entries + [e])
  }

  /** `udpHandler` for a packet of a known flow: a reply establishes the flow. */
  function Touched(e: Entry, t: Tuple, len: nat, now: nat): Entry {
    var dir := e.DirOf(t);
    var e' := e.(stats := e.stats.Count(dir, len));
    if e'.status == CtEstablished || dir.Origin? || e'.timer.Idle? then e'
    else e'.(status := CtEstablished,
             timer := Armed(now + CT_UDP_ESTABLISHED_TIMEOUT, EstablishedTimeout(e'.stats)))
  }

  /** `ctTimeoutDel` and `ctESTABLISHEDTimeout`; firing disarms the timer. */
  function Fired(s: State, id: nat): State
    requires id < |s.entries| && s.entries[id].timer.Armed?
    requires s.entries[id].origin.proto == UDP
  {
    var e := s.entries[id];
    match e.timer.run
    case TimeoutDel =>
      s.(table := s.table - {e.origin, e.reply}, entries := s.entries[id := e.(status := CtDel, timer := Idle)])
    case EstablishedTimeout(snapshot) =>
      var e' :=
        if e.status == CtDel then e.(timer := Idle)
        else if snapshot != e.stats then
          e.(timer := Armed(s.now + EstablishTimeout(e.origin.proto), EstablishedTimeout(e.stats)))
        else e.(status := CtDel, timer := Armed(s.now + CT_DEL_TIMEOUT, TimeoutDel));
      s.(entries := s.entries[id := e'])
  }

  /** The reply tuples that a search for a new flow may come up with. */
  predicate MayReply(table: map<Tuple, nat>, t: Tuple, reply: Tuple, snatIP: U32) {
    && reply !in table && reply == FirstReply(t, snatIP).(dport := reply.dport)
    && (SelfReply(t, snatIP) ==> reply == t)
  }

  /** `Packet` is a packet of a known flow, or of a new one whose search is not disturbed and so
      needs a port that is free now. `Open` is the end of a search during which timers fired. */
  ghost predicate Enabled(s: State, ev: Event, snatIP: U32) {
    match ev
    case Packet(t, _) =>
      && t.proto == UDP
      && (t in s.table ==> s.table[t] < |s.entries|)
      && (t !in s.table ==> PortLeft(s.table, FirstReply(t, snatIP)))
    case Open(t, _, reply) =>
      t.proto == UDP && t !in s.table && MayReply(s.table, t, reply, snatIP)
    case Fire(id) =>
      id < |s.entries| && s.entries[id].timer.Armed? && s.entries[id].timer.deadline <= s.now
      && s.entries[id].origin.proto == UDP
    case Elapse(_) => true
  }

  function Next(s: State, ev: Event, snatIP: U32): State
    requires Enabled(s, ev, snatIP)
  {
    match ev
    case Packet(t, len) =>
      if t in s.table then
        s.(entries := s.entries[s.table[t] := Touched(s.entries[s.table[t]], t, len, s.now)])
      else Created(s, t, len, snatIP)
    case Open(t, len, reply) => CreatedAs(s, t, len, reply)
    case Fire(id) => Fired(s, id)
    case Elapse(d) => s.(now := s.now + d)
  }

  ghost predicate IsRun(s: State, run: seq<Event>, snatIP: U32)
    decreases |run|
  {
    |run| == 0 || (Enabled(s, run[0], snatIP) && IsRun(Next(s, run[0], snatIP), run[1..], snatIP))
  }

  ghost function Final(s: State, run: seq<Event>, snatIP: U32): State
    requires IsRun(s, run, snatIP)
    decreases |run|
  {
    if |run| == 0 then s else Final(Next(s, run[0], snatIP), run[1..], snatIP)
  }

  // ----- The invariant -----

  /** An entry is live while its timer runs. */
  predicate Live(s: State, id: nat) {
    id < |s.entries| && s.entries[id].timer.Armed?
  }

  /** Both keys of a live entry lead to it, every key leads to a live entry that owns it, and
      the reply key differs from the inverse of the origin key in the translated address and
      port only. */
  ghost predicate Inv(s: State, snatIP: U32) {
    && (forall id: nat :: Live(s, id) ==>
      Holds(s.table, s.entries[id].origin, id) && Holds(s.table, s.entries[id].reply, id))
    && (forall t :: t in s.table ==> Live(s, s.table[t]) && Owns(s.entries[s.table[t]], t))
    && (forall id :: 0 <= id < |s.entries| ==> EntryOk(s.entries[id], snatIP))
  }

  predicate Holds(table: map<Tuple, nat>, t: Tuple, id: nat) {
    t in table && table[t] == id
  }

  predicate Owns(e: Entry, t: Tuple) {
    t == e.origin || t == e.reply
  }

  /** An undisturbed search comes up with such a tuple. */
  lemma {:induction false} UniqueMayReply(table: map<Tuple, nat>, t: Tuple, snatIP: U32)
    requires t !in table && PortLeft(table, FirstReply(t, snatIP))
    ensures MayReply(table, t, UniqueReply(table, FirstReply(t, snatIP)), snatIP)
  {
    SearchEndsIffPortLeft(table, FirstReply(t, snatIP));
    if SelfReply(t, snatIP) {
      assert FirstReply(t, snatIP) == t;
      assert Probe(t, 0) == t;
    }
  }

  lemma {:induction false} OpenKeeps(s: State, t: Tuple, len: nat, reply: Tuple, snatIP: U32)
    requires Inv(s, snatIP) && Enabled(s, Open(t, len, reply), snatIP)
    ensures Inv(CreatedAs(s, t, len, reply), snatIP)
    ensures Live(CreatedAs(s, t, len, reply), |s.entries|)
  {
  }

  lemma {:induction false} CreatedKeeps(s: State, t: Tuple, len: nat, snatIP: U32)
    requires Inv(s, snatIP) && Enabled(s, Packet(t, len), snatIP) && t !in s.table
    ensures Inv(Created(s, t, len, snatIP), snatIP)
    ensures var s' := Created(s, t, len, snatIP);
      var e := s'.entries[|s.entries|];
      Live(s', |s.entries|) && e.origin == t && e.reply !in s.table
  {
    UniqueMayReply(s.table, t, snatIP);
    OpenKeeps(s, t, len, UniqueReply(s.table, FirstReply(t, snatIP)), snatIP);
  }

  lemma {:induction false} TouchedKeeps(s: State, t: Tuple, len: nat, snatIP: U32)
    requires Inv(s, snatIP) && Enabled(s, Packet(t, len), snatIP) && t in s.table
    ensures Inv(Next(s, Packet(t, len), snatIP), snatIP)
  {
  }

  lemma {:induction false} FiredKeeps(s: State, id: nat, snatIP: U32)
    requires Inv(s, snatIP) && Enabled(s, Fire(id), snatIP)
    ensures Inv(Fired(s, id), snatIP)
  {
  }

  lemma {:induction false} NextKeeps(s: State, ev: Event, snatIP: U32)
    requires Inv(s, snatIP) && Enabled(s, ev, snatIP)
    ensures Inv(Next(s, ev, snatIP), snatIP)
  {
    match ev {
      case Packet(t, len) =>
        if t in s.table {
          TouchedKeeps(s, t, len, snatIP);
        } else {
          CreatedKeeps(s, t, len, snatIP);
        }
      case Open(t, len, reply) => OpenKeeps(s, t, len, reply, snatIP);
      case Fire(id) => FiredKeeps(s, id, snatIP);
      case Elapse(d) =>
    }
  }

  lemma {:induction false} RunKeeps(s: State, run: seq<Event>, snatIP: U32)
    requires Inv(s, snatIP) && IsRun(s, run, snatIP)
    ensures Inv(Final(s, run, snatIP), snatIP)
    decreases |run|
  {
    if |run| > 0 {
      NextKeeps(s, run[0], snatIP);
      RunKeeps(Next(s, run[0], snatIP), run[1..], snatIP);
    }
  }

  // ----- Every reachable state -----

  /** In every reachable state both keys of every live entry lead to it, no two live entries share
      a key, every key belongs to a live entry, and exactly the live entries have a timer. */
  lemma {:induction false} TableAgreement(run: seq<Event>, snatIP: U32)
    requires IsRun(EMPTY, run, snatIP)
    ensures var s := Final(EMPTY, run, snatIP);
      && (forall id: nat :: Live(s, id) ==>
        Holds(s.table, s.entries[id].origin, id) && Holds(s.table, s.entries[id].reply, id))
      && (forall t :: t in s.table ==> Live(s, s.table[t]) && Owns(s.entries[s.table[t]], t))
      && (forall id: nat, other: nat, t ::
            Live(s, id) && Live(s, other) && Owns(s.entries[id], t) && Owns(s.entries[other], t) ==> id == other)
  {
    RunKeeps(EMPTY, run, snatIP);
  }

  /** `delConntrack` never removes another connection's keys, and removes both of its own. */
  lemma {:induction false} DeleteIsPrivate(run: seq<Event>, snatIP: U32, id: nat)
    requires IsRun(EMPTY, run, snatIP) && Enabled(Final(EMPTY, run, snatIP), Fire(id), snatIP)
    requires Final(EMPTY, run, snatIP).entries[id].timer.run.TimeoutDel?
    ensures var s := Final(EMPTY, run, snatIP);
      Fired(s, id).table == map t | t in s.table && s.table[t] != id :: s.table[t]
  {
    RunKeeps(EMPTY, run, snatIP);
  }

  /** An entry keeps its tuples for ever. */
  lemma {:induction false} TuplesStay(s: State, run: seq<Event>, snatIP: U32, id: nat)
    requires Inv(s, snatIP) && IsRun(s, run, snatIP) && id < |s.entries|
    ensures id < |Final(s, run, snatIP).entries|
    ensures Final(s, run, snatIP).entries[id].origin == s.entries[id].origin
    ensures Final(s, run, snatIP).entries[id].reply == s.entries[id].reply
    decreases |run|
  {
    if |run| > 0 {
      NextKeeps(s, run[0], snatIP);
      TuplesStay(Next(s, run[0], snatIP), run[1..], snatIP, id);
    }
  }

  /** Unlike in the statistics table a status can fall here: an entry that is already being
      deleted goes back to established exactly when a packet in the reply direction arrives, and
      its keys then outlive the pending deletion. */
  lemma {:induction false} RevivedExactlyByReply(run: seq<Event>, snatIP: U32, t: Tuple, len: nat)
    requires IsRun(EMPTY, run, snatIP) && Enabled(Final(EMPTY, run, snatIP), Packet(t, len), snatIP)
    requires t in Final(EMPTY, run, snatIP).table
    ensures var s := Final(EMPTY, run, snatIP);
      var e, e' := s.entries[s.table[t]], Next(s, Packet(t, len), snatIP).entries[s.table[t]];
      && (e.status == CtDel ==> (e'.status == CtEstablished <==> t == e.reply && !SelfReply(e.origin, snatIP)))
      && (e.status == CtDel && e'.status == CtEstablished ==> e'.timer.Armed? && e'.timer.run.EstablishedTimeout?)
      && (e.status != CtDel ==> e'.status != CtDel)
  {
    RunKeeps(EMPTY, run, snatIP);
    TouchedKeeps(Final(EMPTY, run, snatIP), t, len, snatIP);
    KeysDiffer(Final(EMPTY, run, snatIP).entries[Final(EMPTY, run, snatIP).table[t]], snatIP);
  }

  // ----- Translation over whole runs -----

  /** `reply` is unused, has the port `k` after the flow's own, and all ports before it are taken. */
  ghost predicate IsFirstFree(table: map<Tuple, nat>, t: Tuple, snatIP: U32, reply: Tuple, k: nat) {
    && reply == Tuple(t.daddr, snatIP, t.dport, (t.sport + k) % 0x1_0000, t.proto)
    && reply !in table
    && AllTaken(table, FirstReply(t, snatIP), k)
  }

  /** `getUniqueTuple` picks the first free port in cyclic order from the flow's own source port. */
  lemma {:induction false} UniqueReplyIsFirstFree(table: map<Tuple, nat>, t: Tuple, snatIP: U32)
    requires PortLeft(table, FirstReply(t, snatIP))
    ensures exists k :: 0 <= k < 0x1_0000 && IsFirstFree(table, t, snatIP, UniqueReply(table, FirstReply(t, snatIP)), k)
  {
    var first := FirstReply(t, snatIP);
    SearchEndsIffPortLeft(table, first);
    var k := FirstFree(table, first, 0);
    assert IsFirstFree(table, t, snatIP, UniqueReply(table, first), k);
  }

  /** The first packet of a new flow creates a live entry with that reply tuple, and leaves as
      the inverse of it. */
  lemma {:induction false} NewFlowTranslated(run: seq<Event>, snatIP: U32, t: Tuple, len: nat)
    requires IsRun(EMPTY, run, snatIP) && Enabled(Final(EMPTY, run, snatIP), Packet(t, len), snatIP)
    requires t !in Final(EMPTY, run, snatIP).table
    ensures var s := Final(EMPTY, run, snatIP);
      var s' := Next(s, Packet(t, len), snatIP);
      var e := s'.entries[|s.entries|];
      && Live(s', |s.entries|) && e.origin == t
      && e.reply == UniqueReply(s.table, FirstReply(t, snatIP))
      && Translate(e, t, Origin) == Invert(e.reply)
  {
    RunKeeps(EMPTY, run, snatIP);
    var s := Final(EMPTY, run, snatIP);
    CreatedKeeps(s, t, len, snatIP);
    TranslationOf(Created(s, t, len, snatIP).entries[|s.entries|], snatIP);
  }

  /** So it does at the end of a search during which timers have fired. */
  lemma {:induction false} OpenedFlowTranslated(run: seq<Event>, snatIP: U32, t: Tuple, len: nat, reply: Tuple)
    requires IsRun(EMPTY, run, snatIP) && Enabled(Final(EMPTY, run, snatIP), Open(t, len, reply), snatIP)
    ensures var s := Final(EMPTY, run, snatIP);
      var s' := Next(s, Open(t, len, reply), snatIP);
      && Live(s', |s.entries|) && Holds(s'.table, t, |s.entries|) && Holds(s'.table, reply, |s.entries|)
      && Translate(s'.entries[|s.entries|], t, Origin) == Invert(reply)
  {
    RunKeeps(EMPTY, run, snatIP);
    var s := Final(EMPTY, run, snatIP);
    OpenKeeps(s, t, len, reply, snatIP);
    TranslationOf(CreatedAs(s, t, len, reply).entries[|s.entries|], snatIP);
  }

  /** Replies undo the translation: as long as the entry that translated `t` is live, whatever
      happened since, the answer to the translated packet finds that very entry; it is seen as a
      reply unless the flow goes from the NAT address to itself between equal ports; and it is
      then delivered as the answer to `t`. */
  lemma {:induction false} ReplyUndoesTranslation(before: seq<Event>, since: seq<Event>, snatIP: U32, id: nat)
    requires IsRun(EMPTY, before, snatIP) && IsRun(Final(EMPTY, before, snatIP), since, snatIP)
    requires Live(Final(EMPTY, before, snatIP), id)
    requires Live(Final(Final(EMPTY, before, snatIP), since, snatIP), id)
    ensures var s := Final(EMPTY, before, snatIP);
      var later := Final(s, since, snatIP);
      var e := s.entries[id];
      var answer := Invert(Translate(e, e.origin, Origin));
      && Holds(later.table, answer, id)
      && (later.entries[id].DirOf(answer) == Reply <==> !SelfReply(e.origin, snatIP))
      && Translate(later.entries[id], answer, Reply) == Invert(e.origin)
  {
    var s := Final(EMPTY, before, snatIP);
    RunKeeps(EMPTY, before, snatIP);
    RunKeeps(s, since, snatIP);
    TuplesStay(s, since, snatIP, id);
    TranslationOf(s.entries[id], snatIP);
    KeysDiffer(s.entries[id], snatIP);
    InvertTwice(s.entries[id].reply);
  }

  /** Different live flows leave the NAT as different flows. */
  lemma {:induction false} TranslationIsInjective(run: seq<Event>, snatIP: U32, id: nat, other: nat)
    requires IsRun(EMPTY, run, snatIP)
    requires Live(Final(EMPTY, run, snatIP), id) && Live(Final(EMPTY, run, snatIP), other) && id != other
    ensures var s := Final(EMPTY, run, snatIP);
      && s.entries[id].origin != s.entries[other].origin
      && Translate(s.entries[id], s.entries[id].origin, Origin)
         != Translate(s.entries[other], s.entries[other].origin, Origin)
  {
    var s := Final(EMPTY, run, snatIP);
    RunKeeps(EMPTY, run, snatIP);
    TranslationOf(s.entries[id], snatIP);
    TranslationOf(s.entries[other], snatIP);
    InvertTwice(s.entries[id].reply);
    InvertTwice(s.entries[other].reply);
  }
}
