/** One source-NAT connection of `src/nat/conntrack.go`, and what `doNat` does to the addresses
    of its packets. */
module NatEntry {
  import opened Machine
  import opened Conntrack

  /** `natFlag` is 0 until `getUniqueTuple` has confirmed the entry. */
  datatype Entry = Entry(status: Status, stats: Stats, origin: Tuple, reply: Tuple, timer: Timer, snat: bool) {
    /** `Dir`. */
    function DirOf(t: Tuple): Dir {
      if origin == t then Origin else Reply
    }
  }

  /** The reply tuple that `CreateConntrack` and `getUniqueTuple` start from. */
  function FirstReply(t: Tuple, snatIP: U32): Tuple {
    Invert(t).(daddr := snatIP)
  }

  /** A flow from the NAT address to itself, between equal ports, is its own answer. */
  predicate SelfReply(t: Tuple, snatIP: U32) {
    t.saddr == t.daddr == snatIP && t.sport == t.dport
  }

  /** What an entry looks like from its creation on. */
  predicate EntryOk(e: Entry, snatIP: U32) {
    && e.reply == FirstReply(e.origin, snatIP).(dport := e.reply.dport)
    && (SelfReply(e.origin, snatIP) ==> e.reply == e.origin)
    && e.snat && e.origin.proto == UDP
    && (e.status == CtDel ==> e.timer.Idle? || e.timer.run.TimeoutDel?)
  }

  /** What `doNat` does to the addresses and ports of a packet. */
  function Translate(e: Entry, t: Tuple, dir: Dir): Tuple {
    if !e.snat then t
    else if dir.Origin? then t.(saddr := e.reply.daddr, sport := e.reply.dport)
    else t.(daddr := e.origin.saddr, dport := e.origin.sport)
  }

  /** The two keys of an entry differ unless the flow is its own answer. */
  lemma {:induction false} KeysDiffer(e: Entry, snatIP: U32)
    requires EntryOk(e, snatIP)
    ensures e.origin == e.reply <==> SelfReply(e.origin, snatIP)
  {
  }

  /** A packet of an origin flow leaves with the inverse of the entry's reply tuple, from the
      NAT address; and a reply to an entry arrives as the inverse of its origin tuple. */
  lemma {:induction false} TranslationOf(e: Entry, snatIP: U32)
    requires EntryOk(e, snatIP)
    ensures Translate(e, e.origin, Origin) == Invert(e.reply)
    ensures Translate(e, e.origin, Origin).saddr == snatIP
    ensures Translate(e, e.reply, Reply) == Invert(e.origin)
  {
  }
}
