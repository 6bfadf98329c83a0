/** What an entry of the source-NAT table says about the packets seen so far: its counters, its
    status, when its timer was started, and how long it has been idle when it is given up. */
module NatHistory {
  import opened Machine
  import opened Conntrack
  import opened NatEntry
  import opened NatTable
  import NatSearch

  /** A run that lists the states it goes through. */
  datatype History = History(events: seq<Event>, states: seq<State>)

  predicate Reaches(h: History, n: nat) {
    n <= |h.events| && n < |h.states|
  }

  ghost predicate IsHistory(h: History, n: nat, snatIP: U32) {
    && Reaches(h, n)
    && if n == 0 then h.states[0] == EMPTY
       else
         && IsHistory(h, n - 1, snatIP)
         && Enabled(h.states[n - 1], h.events[n - 1], snatIP)
         && h.states[n] == Next(h.states[n - 1], h.events[n - 1], snatIP)
  }

  /** Time does not pass the deadline of a running timer. */
  ghost predicate IsPrompt(h: History, n: nat)
    requires Reaches(h, n)
  {
    forall k :: 0 <= k < n ==> NatSearch.Prompt(h.states[k], h.events[k])
  }

  lemma {:induction false} RunSnoc(s: State, run: seq<Event>, ev: Event, snatIP: U32)
    requires IsRun(s, run, snatIP) && Enabled(Final(s, run, snatIP), ev, snatIP)
    ensures IsRun(s, run + [ev], snatIP)
    ensures Final(s, run + [ev], snatIP) == Next(Final(s, run, snatIP), ev, snatIP)
    decreases |run|
  {
    if |run| > 0 {
      RunSnoc(Next(s, run[0], snatIP), run[1..], ev, snatIP);
      assert (run + [ev])[1..] == run[1..] + [ev];
    } else {
      assert (run + [ev])[1..] == [];
    }
  }

  /** The listed states are those of the runs. */
  lemma {:induction false} HistoryIsRun(h: History, n: nat, snatIP: U32)
    requires IsHistory(h, n, snatIP)
    ensures IsRun(EMPTY, h.events[..n], snatIP) && Final(EMPTY, h.events[..n], snatIP) == h.states[n]
  {
    if n > 0 {
      HistoryIsRun(h, n - 1, snatIP);
      RunSnoc(EMPTY, h.events[..n - 1], h.events[n - 1], snatIP);
      assert h.events[..n] == h.events[..n - 1] + [h.events[n - 1]];
    }
  }

  /** The time that the first `n` events take. */
  function TimeTaken(h: History, n: nat): nat
    requires Reaches(h, n)
  {
    if n == 0 then 0 else TimeTaken(h, n - 1) + if h.events[n - 1].Elapse? then h.events[n - 1].d else 0
  }

  lemma {:induction false} ClockIsSum(h: History, n: nat, snatIP: U32)
    requires IsHistory(h, n, snatIP)
    ensures h.states[n].now == TimeTaken(h, n)
  {
    if n > 0 {
      ClockIsSum(h, n - 1, snatIP);
    }
  }

  lemma {:induction false} HistoryKeeps(h: History, n: nat, snatIP: U32)
    requires IsHistory(h, n, snatIP)
    ensures Inv(h.states[n], snatIP)
  {
    if n > 0 {
      HistoryKeeps(h, n - 1, snatIP);
      NextKeeps(h.states[n - 1], h.events[n - 1], snatIP);
    }
  }

  // ----- One event, one entry -----

  /** The packet is counted for entry `id`: it has one of the keys of the live entry, or opens it. */
  ghost predicate CountsFor(s: State, ev: Event, id: nat) {
    match ev
    case Packet(t, _) =>
      if id < |s.entries| then s.entries[id].timer.Armed? && (t == s.entries[id].origin || t == s.entries[id].reply)
      else id == |s.entries| && t !in s.table
    case Open(_, _, _) => id == |s.entries|
    case _ => false
  }

  ghost function DirectionFor(s: State, ev: Event, id: nat): Dir
    requires CountsFor(s, ev, id)
  {
    if id < |s.entries| && ev.tuple != s.entries[id].origin then Reply else Origin
  }

  ghost predicate CountsIn(s: State, ev: Event, id: nat, dir: Dir) {
    CountsFor(s, ev, id) && DirectionFor(s, ev, id) == dir
  }

  /** How an event changes an entry that exists. */
  function EntryAfter(s: State, ev: Event, id: nat): Entry
    requires id < |s.entries|
  {
    var e := s.entries[id];
    match ev
    case Packet(t, len) => if t in s.table && s.table[t] == id then Touched(e, t, len, s.now) else e
    case Fire(i) => if i == id && e.timer.Armed? && e.origin.proto == UDP then Fired(s, id).entries[id] else e
    case _ => e
  }

  lemma {:induction false} NextEntry(s: State, ev: Event, id: nat, snatIP: U32)
    requires Enabled(s, ev, snatIP) && id < |s.entries|
    ensures id < |Next(s, ev, snatIP).entries| && Next(s, ev, snatIP).entries[id] == EntryAfter(s, ev, id)
  {
  }

  lemma {:induction false} KeyIsOwned(s: State, t: Tuple, id: nat, snatIP: U32)
    requires Inv(s, snatIP) && id < |s.entries|
    ensures t in s.table && s.table[t] == id
      <==> s.entries[id].timer.Armed? && (t == s.entries[id].origin || t == s.entries[id].reply)
  {
    assert Live(s, id) <==> s.entries[id].timer.Armed?;
    if t in s.table && s.table[t] == id {
      assert Live(s, s.table[t]) && Owns(s.entries[s.table[t]], t);
    }
  }

  /** An entry is born from a packet of a flow without entry: new, with its first packet counted, and
      fifteen seconds to go. */
  lemma {:induction false} Birth(s: State, ev: Event, id: nat, snatIP: U32)
    requires Enabled(s, ev, snatIP) && |s.entries| <= id < |Next(s, ev, snatIP).entries|
    ensures id == |s.entries| && CountsFor(s, ev, id)
    ensures var e := Next(s, ev, snatIP).entries[id];
      && e.status == CtNew && e.origin == ev.tuple && e.stats == Stats(ev.len, 0)
      && e.timer == Armed(s.now + 15 * SECOND, TimeoutDel) && Next(s, ev, snatIP).now == s.now
  {
  }

  lemma {:induction false} NoBirth(s: State, ev: Event, id: nat, snatIP: U32)
    requires Enabled(s, ev, snatIP) && |Next(s, ev, snatIP).entries| <= id
    ensures |s.entries| <= id && !CountsFor(s, ev, id)
  {
  }

  // ----- Counters -----

  /** The bytes counted for entry `id` in direction `dir` during the first `n` events. */
  ghost function Counted(h: History, n: nat, id: nat, dir: Dir): nat
    requires Reaches(h, n)
  {
    if n == 0 then 0
    else
      Counted(h, n - 1, id, dir)
      + if CountsIn(h.states[n - 1], h.events[n - 1], id, dir) then h.events[n - 1].len else 0
  }

  lemma {:induction false} NothingBeforeBirth(h: History, n: nat, id: nat, snatIP: U32)
    requires IsHistory(h, n, snatIP) && |h.states[n].entries| <= id
    ensures Counted(h, n, id, Origin) == Counted(h, n, id, Reply) == 0 && !Replied(h, n, id)
  {
    if n > 0 {
      NoBirth(h.states[n - 1], h.events[n - 1], id, snatIP);
      NothingBeforeBirth(h, n - 1, id, snatIP);
    }
  }

  lemma {:induction false} StatsAfter(s: State, ev: Event, id: nat, snatIP: U32)
    requires Inv(s, snatIP) && id < |s.entries|
    ensures EntryAfter(s, ev, id).stats
      == if CountsFor(s, ev, id)
         then s.entries[id].stats.Count(DirectionFor(s, ev, id), ev.len)
         else s.entries[id].stats
    ensures EntryAfter(s, ev, id).origin == s.entries[id].origin && EntryAfter(s, ev, id).reply == s.entries[id].reply
  {
    if ev.Packet? {
      KeyIsOwned(s, ev.tuple, id, snatIP);
    }
  }

  /** The byte counters of an entry are the lengths of its packets, added up per direction. */
  lemma {:induction false} CountersAreSums(h: History, n: nat, id: nat, snatIP: U32)
    requires IsHistory(h, n, snatIP) && id < |h.states[n].entries|
    ensures h.states[n].entries[id].stats == Stats(Counted(h, n, id, Origin), Counted(h, n, id, Reply))
  {
    var s, ev := h.states[n - 1], h.events[n - 1];
    HistoryKeeps(h, n - 1, snatIP);
    if id < |s.entries| {
      CountersAreSums(h, n - 1, id, snatIP);
      NextEntry(s, ev, id, snatIP);
      StatsAfter(s, ev, id, snatIP);
    } else {
      NothingBeforeBirth(h, n - 1, id, snatIP);
      Birth(s, ev, id, snatIP);
    }
  }

  // ----- Status -----

  /** A packet in the reply direction has been counted. */
  ghost predicate Replied(h: History, n: nat, id: nat)
    requires Reaches(h, n)
  {
    n > 0 && (Replied(h, n - 1, id) || CountsIn(h.states[n - 1], h.events[n - 1], id, Reply))
  }

  /** The status after an event that does not give the entry up. */
  lemma {:induction false} StatusAfter(s: State, ev: Event, id: nat, snatIP: U32)
    requires Inv(s, snatIP) && Enabled(s, ev, snatIP) && id < |s.entries|
    ensures var e' := EntryAfter(s, ev, id);
      e'.status != CtDel ==>
        e'.status == if CountsIn(s, ev, id, Reply) then CtEstablished else s.entries[id].status
  {
    if ev.Packet? {
      KeyIsOwned(s, ev.tuple, id, snatIP);
    }
  }

  /** An entry that is not being deleted is established exactly if a packet in the reply direction
      has been counted for it, and new otherwise. */
  lemma {:induction false} StatusExactly(h: History, n: nat, id: nat, snatIP: U32)
    requires IsHistory(h, n, snatIP) && id < |h.states[n].entries| && h.states[n].entries[id].status != CtDel
    ensures h.states[n].entries[id].status == if Replied(h, n, id) then CtEstablished else CtNew
  {
    var s, ev := h.states[n - 1], h.events[n - 1];
    HistoryKeeps(h, n - 1, snatIP);
    if id < |s.entries| {
      NextEntry(s, ev, id, snatIP);
      StatusAfter(s, ev, id, snatIP);
      if s.entries[id].status != CtDel {
        StatusExactly(h, n - 1, id, snatIP);
      }
    } else {
      NothingBeforeBirth(h, n - 1, id, snatIP);
      Birth(s, ev, id, snatIP);
    }
  }
}
