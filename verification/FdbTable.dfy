/** The forwarding database of `src/fdb` as linked objects, changed in place. */
module FdbTable {
  import Counting
  import opened PortPool
  import opened Fdb

  class FdbMacNode<P> {
    const mac: Mac
    var pio: P
    var ft: nat

    /** `NewFdbMacNode`. */
    constructor (m: Mac, pio: P, tick: nat)
      ensures mac == m && this.pio == pio && ft == tick
    {
      mac, this.pio, ft := m, pio, tick;
    }

    method UpdateTime(tick: nat)
      modifies `ft
      ensures ft == tick
    {
      ft := tick;
    }

    method UpdatePio(pio: P)
      modifies `pio
      ensures this.pio == pio
    {
      this.pio := pio;
    }
  }

  class FDB<P(==)> {
    const portPool: PortPools
    var ports: map<nat, P>
    var mactable: map<Mac, FdbMacNode<P>>
    ghost var macs: map<Mac, Node<P>>

    /** Every node is stored under its own address. */
    ghost predicate MacsValid()
      reads this, mactable.Values
    {
      && (forall m :: m in mactable <==> m in macs)
      && (forall m :: m in mactable ==>
           mactable[m].mac == m && macs[m].pio == mactable[m].pio && macs[m].ft == mactable[m].ft)
    }

    ghost predicate Valid()
      reads this, portPool, portPool.portIdPool, mactable.Values
    {
      portPool.Valid() && MacsValid()
    }

    ghost function View(): Fdb<P>
      reads this, portPool
    {
      Fdb(portPool.free, portPool.allocNum, ports, macs)
    }

    /** `NewFdb`, for an id that is not registered. */
    constructor ()
      ensures Valid() && View() == NewFdb()
      ensures fresh(portPool) && fresh(portPool.portIdPool)
    {
      portPool := new PortPools();
      ports, mactable, macs := map[], map[], map[];
    }

    // ----- Ports -----

    method JoinFwdPort(pio: P, inc: bool) returns (portId: nat)
      requires Valid()
      modifies `ports, portPool, portPool.portIdPool
      ensures Valid() && (View(), portId) == Joined(old(View()), pio, inc)
    {
      portId := portPool.PortIdAlloc();
      if portId == 0 {
        return;
      }
      if inc {
        portPool.IncPortNum();
      }
      ports := ports[portId := pio];
    }

    /** Delete every node of `pio`. */
    method DelFmnByPortIO(pio: P)
      requires MacsValid()
      modifies `mactable, `macs
      ensures MacsValid() && macs == Without(old(macs), pio)
    {
      var todo := mactable.Keys;
      while todo != {}
        invariant MacsValid()
        invariant forall m :: m in macs ==> m in old(macs) && macs[m] == old(macs)[m]
        invariant forall m :: m in old(macs) ==> m in macs || (m !in todo && old(macs)[m].pio == pio)
        invariant forall m :: m in macs && macs[m].pio == pio ==> m in todo
        decreases todo
      {
        var m :| m in todo;
        todo := todo - {m};
        if m in mactable && mactable[m].pio == pio {
          mactable := mactable - {m};
          macs := macs - {m};
        }
      }
    }

    /** The source panics if `dec` would make the count negative. */
    method ReleaseFwdPort(portId: nat, dec: bool)
      requires Valid() && Partition(View())
      requires portId in ports && dec ==> portPool.allocNum > 0
      modifies this, portPool, portPool.portIdPool
      ensures Valid() && View() == Released(old(View()), portId, dec)
    {
      if portId == 0 {
        return;
      }
      if portId in ports {
        DelFmnByPortIO(ports[portId]);
        ports := ports - {portId};
        portPool.PortIdFree(portId);
        if dec {
          portPool.DecPortNum();
        }
      }
    }

    // ----- Forwarding -----

    /** One copy to each port of another owner, in the order in which the map is visited. */
    method Flood(pio: P) returns (fwd: bool, out: seq<P>, ghost ids: seq<nat>)
      ensures Delivers(ports, pio, Flooded, ids, out)
      ensures fwd <==> exists id :: id in ports && ports[id] != pio
    {
      fwd, out, ids := false, [], [];
      var todo := ports.Keys;
      while todo != {}
        invariant todo <= ports.Keys
        invariant Counting.Distinct(ids)
        invariant forall id :: id in ids <==> id in ports && ports[id] != pio && id !in todo
        invariant |out| == |ids| && forall i :: 0 <= i < |ids| ==> ids[i] in ports && out[i] == ports[ids[i]]
        invariant fwd <==> |ids| > 0
        decreases todo
      {
        var id :| id in todo;
        todo := todo - {id};
        if ports[id] != pio {
          out := out + [ports[id]];
          ids := ids + [id];
          fwd := true;
        }
      }
      assert |ids| > 0 ==> ids[0] in ids;
    }

    /** The source check of `Forward`: learn the address, or refuse the frame. */
    method Learn(frame: Frame, pio: P, tick: nat) returns (ok: bool)
      requires MacsValid() && (frame.IsArp() || frame.IsIp())
      requires forall m :: m in macs ==> macs[m].ft <= tick
      modifies `mactable, `macs, mactable.Values
      ensures MacsValid() && macs == Learned(old(macs), frame, pio, tick)
      ensures ok == Accepts(old(macs), frame, pio, tick)
    {
      if frame.src in mactable {
        var fmn := mactable[frame.src];
        if fmn.pio == pio {
          fmn.UpdateTime(tick);
        } else if tick - fmn.ft > 3 || frame.IsArpReply() {
          fmn.UpdatePio(pio);
          fmn.UpdateTime(tick);
        } else {
          return false;
        }
      } else {
        var fmn := new FdbMacNode(frame.src, pio, tick);
        var table: map<Mac, FdbMacNode<P>> := mactable[frame.src := fmn];
        mactable := table;
      }
      macs := macs[frame.src := Node(pio, tick)];
      ok := true;
    }

    method Forward(frame: Frame, pio: P, tick: nat) returns (fwd: bool, out: seq<P>, ghost ids: seq<nat>)
      requires Valid()
      requires forall m :: m in macs ==> macs[m].ft <= tick
      modifies `mactable, `macs, mactable.Values
      ensures Valid()
      ensures View() == old(View()).(macs := Learned(old(macs), frame, pio, tick))
      ensures Delivers(ports, pio, FateOf(old(macs), frame, pio, tick), ids, out)
      ensures fwd == match FateOf(old(macs), frame, pio, tick)
        case Refused => false
        case SentTo(_) => true
        case AtHome => true
        case Flooded => exists id :: id in ports && ports[id] != pio
    {
      fwd, out, ids := false, [], [];
      if !frame.IsArp() && !frame.IsIp() {
        return;
      }
      var ok := Learn(frame, pio, tick);
      if !ok {
        return;
      }
      if frame.IsArp() && frame.dst == BROADCAST {
        fwd, out, ids := Flood(pio);
      } else if frame.dst in mactable {
        var fmn := mactable[frame.dst];
        if fmn.pio != pio {
          out := [fmn.pio];
        }
        fwd := true;
      } else {
        fwd, out, ids := Flood(pio);
      }
    }

    // ----- Ageing -----

    /** One pass of `fdbtick` over this FDB. */
    method Age(tick: nat)
      requires MacsValid()
      requires forall m :: m in macs ==> macs[m].ft <= tick
      modifies `mactable, `macs
      ensures MacsValid() && macs == Aged(old(macs), tick)
    {
      assert mactable.Keys == macs.Keys;
      if tick % 64 != 0 || |mactable| <= 128 {
        return;
      }
      var todo := mactable.Keys;
      while todo != {}
        invariant MacsValid()
        invariant forall m :: m in macs ==> m in old(macs) && macs[m] == old(macs)[m]
        invariant forall m :: m in old(macs) ==> m in macs || tick - old(macs)[m].ft > EXPIRE_TIME
        invariant forall m :: m in macs && tick - macs[m].ft > EXPIRE_TIME ==> m in todo
        decreases todo
      {
        var m :| m in todo;
        todo := todo - {m};
        if m in mactable && tick - mactable[m].ft > EXPIRE_TIME {
          mactable := mactable - {m};
          macs := macs - {m};
        }
      }
    }
  }
}
