/** The forwarding database of `src/fdb`: ports that join and leave, a learning MAC table, and the
    decision where a frame goes. Values, steps and what every run keeps. */
module Fdb {
  import opened Machine
  import Counting
  import PortPool

  type Mac = x: int | 0 <= x < 0x1_0000_0000_0000

  const BROADCAST: Mac := 0xFFFF_FFFF_FFFF
  const EXPIRE_TIME := 300

  datatype Node<P> = Node(pio: P, ft: nat)

  /** One FDB; `free` is the list of unused port numbers. */
  datatype Fdb<P> = Fdb(free: seq<nat>, allocNum: int, ports: map<nat, P>, macs: map<Mac, Node<P>>)

  function NewFdb<P>(): Fdb<P> {
    Fdb(PortPool.Downward(PortPool.MAXPORT - 1), 0, map[], map[])
  }

  // ----- Ports -----

  /** `JoinFwdPort`: the new port, or 0 when the FDB is full. */
  function Joined<P>(f: Fdb<P>, pio: P, inc: bool): (Fdb<P>, nat) {
    if |f.free| == 0 then (f, 0)
    else
      (Fdb(f.free[1..], f.allocNum + if inc then 1 else 0, f.ports[f.free[0] := pio], f.macs), f.free[0])
  }

  /** `DelFmnByPortIO`. */
  function Without<P(==)>(macs: map<Mac, Node<P>>, pio: P): map<Mac, Node<P>> {
    map m | m in macs && macs[m].pio != pio :: macs[m]
  }

  /** `ReleaseFwdPort`: nothing happens for a port that is not joined. */
  function Released<P(==)>(f: Fdb<P>, id: nat, dec: bool): Fdb<P> {
    if id == 0 || id !in f.ports then f
    else Fdb([id] + f.free, f.allocNum - if dec then 1 else 0, f.ports - {id}, Without(f.macs, f.ports[id]))
  }

  // ----- Forwarding -----

  /** What a frame shows: addresses, protocol, and the ARP operation if it is long enough for one. */
  datatype Frame = Frame(dst: Mac, src: Mac, proto: U16, op: Option<U16>) {
    predicate IsArp() {
      proto == 0x0806
    }

    predicate IsIp() {
      proto == 0x0800
    }

    predicate IsArpReply() {
      IsArp() && op == Some(2)
    }
  }

  /** `maybeExpire`. */
  predicate MaybeExpired<P>(n: Node<P>, tick: nat) {
    tick - n.ft > 3
  }

  /** Whether a frame from `pio` passes the source check. */
  predicate Accepts<P(==)>(macs: map<Mac, Node<P>>, frame: Frame, pio: P, tick: nat) {
    && (frame.IsArp() || frame.IsIp())
    && (frame.src in macs && macs[frame.src].pio != pio ==> MaybeExpired(macs[frame.src], tick) || frame.IsArpReply())
  }

  /** Learning: the source address is now behind `pio`. */
  function Learned<P(==)>(macs: map<Mac, Node<P>>, frame: Frame, pio: P, tick: nat): map<Mac, Node<P>> {
    if Accepts(macs, frame, pio, tick) then macs[frame.src := Node(pio, tick)] else macs
  }

  /** Where a frame goes: nowhere (and it is not reported as forwarded), to one port owner,
      nowhere because it comes from where it should go, or to every port but the owner's own. */
  datatype Fate<P> = Refused | SentTo(to: P) | AtHome | Flooded

  function FateOf<P(==)>(macs: map<Mac, Node<P>>, frame: Frame, pio: P, tick: nat): Fate<P> {
    var learned := Learned(macs, frame, pio, tick);
    if !Accepts(macs, frame, pio, tick) then Refused
    else if frame.IsArp() && frame.dst == BROADCAST then Flooded
    else if frame.dst !in learned then Flooded
    else if learned[frame.dst].pio == pio then AtHome
    else SentTo(learned[frame.dst].pio)
  }

  /** The ports a flood goes to: all but those of the sender, each once. */
  ghost predicate IsFlood<P>(ports: map<nat, P>, pio: P, ids: seq<nat>) {
    && Counting.Distinct(ids)
    && (forall id :: id in ids <==> id in ports && ports[id] != pio)
  }

  /** The owners that are handed a copy, in order; `ids` are the ports of a flood. */
  ghost predicate Delivers<P>(ports: map<nat, P>, pio: P, fate: Fate<P>, ids: seq<nat>, out: seq<P>) {
    match fate
    case Refused => out == []
    case AtHome => out == []
    case SentTo(to) => out == [to]
    case Flooded =>
      && IsFlood(ports, pio, ids)
      && |out| == |ids| && forall i :: 0 <= i < |ids| ==> ids[i] in ports && out[i] == ports[ids[i]]
  }

  /** No frame goes back to where it came from, and a flood hands one copy to each other port. */
  lemma {:induction false} NoEcho<P>(macs: map<Mac, Node<P>>, frame: Frame, pio: P, tick: nat, ports: map<nat, P>,
      ids: seq<nat>, out: seq<P>)
    requires Delivers(ports, pio, FateOf(macs, frame, pio, tick), ids, out)
    ensures pio !in out
  {
    if FateOf(macs, frame, pio, tick) == Flooded {
      forall i | 0 <= i < |out| ensures out[i] != pio {
        assert ids[i] in ids;
      }
    }
  }

  // ----- Ageing -----

  /** One pass of `fdbtick` over one FDB. */
  function Aged<P>(macs: map<Mac, Node<P>>, tick: nat): map<Mac, Node<P>> {
    if tick % 64 == 0 && |macs| > 128 then map m | m in macs && tick - macs[m].ft <= EXPIRE_TIME :: macs[m]
    else macs
  }

  // ----- Steps -----

  /** `counted` are the ports that were joined with `inc`. */
  datatype State<P> = State(f: Fdb<P>, counted: set<nat>, tick: nat)

  datatype Event<P> =
    | Join(pio: P, inc: bool)
    | Release(id: nat)
    | Receive(frame: Frame, pio: P)
    | Tick

  /** Frames are forwarded by owners of joined ports only. */
  predicate Enabled<P(==)>(s: State<P>, ev: Event<P>) {
    ev.Receive? ==> ev.pio in s.f.ports.Values
  }

  /** A port is released with `dec` exactly if it was joined with `inc`. */
  function Next<P(==)>(s: State<P>, ev: Event<P>): State<P> {
    match ev
    case Join(pio, inc) =>
      var (f, id) := Joined(s.f, pio, inc);
      s.(f := f, counted := s.counted + if inc && id != 0 then {id} else {})
    case Release(id) => s.(f := Released(s.f, id, id in s.counted), counted := s.counted - {id})
    case Receive(frame, pio) => s.(f := s.f.(macs := Learned(s.f.macs, frame, pio, s.tick)))
    case Tick => s.(tick := s.tick + 1, f := s.f.(macs := Aged(s.f.macs, s.tick + 1)))
  }

  datatype Run<P> = Run(events: seq<Event<P>>, states: seq<State<P>>)

  predicate Reaches<P>(run: Run<P>, n: nat) {
    n <= |run.events| && n < |run.states|
  }

  /** The first `n` events lead from a new FDB through the listed states. */
  ghost predicate IsRun<P>(run: Run<P>, n: nat) {
    && Reaches(run, n)
    && if n == 0 then run.states[0].f == NewFdb() && run.states[0].counted == {}
       else
         && IsRun(run, n - 1)
         && Enabled(run.states[n - 1], run.events[n - 1])
         && run.states[n] == Next(run.states[n - 1], run.events[n - 1])
  }

  // ----- What every run keeps -----

  /** The joined and the free port numbers partition 1 to 127. */
  ghost predicate Partition<P>(f: Fdb<P>) {
    && Counting.Distinct(f.free)
    && forall id: nat ::
         (1 <= id < PortPool.MAXPORT <==> id in f.free || id in f.ports) && !(id in f.free && id in f.ports)
  }

  /** Every MAC entry points to the owner of a joined port, and is not from the future. */
  predicate MacsOk<P(==)>(macs: map<Mac, Node<P>>, owners: set<P>, tick: nat) {
    forall m :: m in macs ==> macs[m].pio in owners && macs[m].ft <= tick
  }

  ghost predicate Inv<P>(s: State<P>) {
    && Partition(s.f)
    && s.counted <= s.f.ports.Keys
    && s.f.allocNum == |s.counted|
    && MacsOk(s.f.macs, s.f.ports.Values, s.tick)
  }

  lemma {:induction false} NewPartition<P>()
    ensures Partition<P>(NewFdb())
  {
    var free := PortPool.Downward(PortPool.MAXPORT - 1);
    forall id: nat | 1 <= id < PortPool.MAXPORT ensures id in free {
      assert free[PortPool.MAXPORT - 1 - id] == id;
    }
  }

  lemma {:induction false} JoinPartition<P>(f: Fdb<P>, pio: P, inc: bool)
    requires Partition(f) && |f.free| > 0
    ensures Partition(Joined(f, pio, inc).0) && f.free[0] !in f.ports && f.free[0] != 0
  {
    var id, rest := f.free[0], f.free[1..];
    var ports := f.ports[id := pio];
    assert f.free == [id] + rest;
    assert id in f.free && id !in rest;
    assert forall k: nat :: k in rest <==> k in f.free && k != id;
    assert forall k: nat :: k in ports <==> k in f.ports || k == id;
  }

  lemma {:induction false} ReleasePartition<P>(f: Fdb<P>, id: nat, dec: bool)
    requires Partition(f) && id in f.ports
    ensures Partition(Released(f, id, dec))
  {
  }

  lemma {:induction false} JoinKeeps<P>(s: State<P>, pio: P, inc: bool)
    requires Inv(s)
    ensures Inv(Next(s, Join(pio, inc)))
  {
    if |s.f.free| > 0 {
      JoinPartition(s.f, pio, inc);
      var ports := s.f.ports[s.f.free[0] := pio];
      OwnersGrow(s.f.ports, s.f.free[0], pio);
      assert s.f.free[0] !in s.counted;
    } else {
      assert s.counted + {} == s.counted;
    }
  }

  lemma {:induction false} OwnersGrow<P>(ports: map<nat, P>, id: nat, pio: P)
    requires id !in ports
    ensures ports.Values <= ports[id := pio].Values
  {
    var ports' := ports[id := pio];
    forall p | p in ports.Values ensures p in ports'.Values {
      var i :| i in ports && ports[i] == p;
      assert i in ports' && ports'[i] == p;
    }
  }

  lemma {:induction false} OwnersLeft<P>(ports: map<nat, P>, id: nat)
    requires id in ports
    ensures forall p :: p in ports.Values && p != ports[id] ==> p in (ports - {id}).Values
  {
    var ports' := ports - {id};
    forall p | p in ports.Values && p != ports[id] ensures p in ports'.Values {
      var i :| i in ports && ports[i] == p;
      assert i in ports' && ports'[i] == p;
    }
  }

  lemma {:induction false} ReleaseKeeps<P>(s: State<P>, id: nat)
    requires Inv(s)
    ensures Inv(Next(s, Release(id)))
    ensures Next(s, Release(id)).f.allocNum >= 0
  {
    if id in s.f.ports {
      ReleasePartition(s.f, id, id in s.counted);
      OwnersLeft(s.f.ports, id);
      assert id in s.counted ==> |s.counted - {id}| == |s.counted| - 1;
      assert id !in s.counted ==> s.counted - {id} == s.counted;
    } else {
      assert s.counted - {id} == s.counted;
    }
  }

  lemma {:induction false} NextKeeps<P>(s: State<P>, ev: Event<P>)
    requires Inv(s) && Enabled(s, ev)
    ensures Inv(Next(s, ev))
  {
    match ev {
      case Join(pio, inc) => JoinKeeps(s, pio, inc);
      case Release(id) => ReleaseKeeps(s, id);
      case Receive(frame, pio) =>
      case Tick =>
    }
  }

  lemma {:induction false} NewKeeps<P>(s: State<P>)
    requires s.f == NewFdb() && s.counted == {}
    ensures Inv(s)
  {
    NewPartition<P>();
  }

  lemma {:induction false} RunKeeps<P>(run: Run<P>, n: nat)
    requires IsRun(run, n)
    ensures Inv(run.states[n])
  {
    if n == 0 {
      NewKeeps(run.states[0]);
    } else {
      RunKeeps(run, n - 1);
      NextKeeps(run.states[n - 1], run.events[n - 1]);
    }
  }

  // ----- Main results on ports -----

  /** In every reachable state the joined port numbers are those of 1 to 127 that are not free,
      none twice; `allocNum` counts the ports joined with `inc`; every MAC entry points to the
      owner of a joined port, and its age is not negative. */
  lemma {:induction false} PortsAndMacs<P>(run: Run<P>, n: nat)
    requires IsRun(run, n)
    ensures var s := run.states[n];
      && Counting.Distinct(s.f.free)
      && (forall id: nat :: id in s.f.ports <==> 1 <= id < PortPool.MAXPORT && id !in s.f.free)
      && s.counted <= s.f.ports.Keys && s.f.allocNum == |s.counted|
      && (forall m :: m in s.f.macs ==> s.f.macs[m].pio in s.f.ports.Values && s.f.macs[m].ft <= s.tick)
  {
    RunKeeps(run, n);
  }

  /** Joining fails exactly when all 127 ports are joined; otherwise it takes a port that nobody
      has, gives it to the new owner, and leaves every other port alone. */
  lemma {:induction false} JoinTakesFreePort<P>(run: Run<P>, n: nat, pio: P, inc: bool)
    requires IsRun(run, n)
    ensures var f := run.states[n].f;
      var (f', id) := Joined(f, pio, inc);
      && (id == 0 <==> |f.ports| == PortPool.MAXPORT - 1)
      && (id == 0 ==> f' == f)
      && (id != 0 ==> id !in f.ports && f'.ports == f.ports[id := pio] && f'.macs == f.macs)
    ensures var s, (f', id) := run.states[n], Joined(run.states[n].f, pio, inc);
      Next(s, Join(pio, inc)) == State(f', s.counted + (if inc && id != 0 then {id} else {}), s.tick)
  {
    RunKeeps(run, n);
    var f := run.states[n].f;
    RestSize(f.free, f.ports.Keys, PortPool.MAXPORT);
    if |f.free| > 0 {
      JoinPartition(f, pio, inc);
    }
  }

  /** The parts of a partition of 1 to `max - 1` add up. */
  lemma {:induction false} RestSize(free: seq<nat>, joined: set<nat>, max: nat)
    requires Counting.Distinct(free) && max > 0
    requires forall id: nat :: (1 <= id < max <==> id in free || id in joined) && !(id in free && id in joined)
    ensures |joined| == max - 1 - |free|
  {
    var numbers := set id | id in free;
    Counting.DistinctSize(free);
    assert Counting.Below(max) - {0} == numbers + joined;
    assert numbers !! joined;
  }

  /** No port number is put on the free list twice, and no MAC entry outlives its owner's port. */
  lemma {:induction false} ReleaseFreesOnce<P>(run: Run<P>, n: nat, id: nat)
    requires IsRun(run, n)
    ensures var s, s' := run.states[n], Next(run.states[n], Release(id));
      && s'.f.ports == s.f.ports - {id} && Counting.Distinct(s'.f.free)
      && (id in s.f.ports ==>
            s'.f.free == [id] + s.f.free && forall m :: m in s'.f.macs ==> s'.f.macs[m].pio != s.f.ports[id])
      && (id !in s.f.ports ==> s'.f == s.f)
      && s'.f.allocNum >= 0
  {
    RunKeeps(run, n);
    ReleaseKeeps(run.states[n], id);
  }
}
