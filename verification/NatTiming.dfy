/** When the timers of the source-NAT table are started, and how long an entry has been idle when it
    is given up. */
module NatTiming {
  import opened Machine
  import opened Conntrack
  import opened NatEntry
  import opened NatTable
  import NatSearch
  import opened NatHistory

  // ----- When a timer is started -----

  /** Event `k` is the birth of entry `id`, or changes its timer. */
  ghost predicate ChangesTimer(h: History, k: nat, id: nat)
    requires Reaches(h, k + 1)
  {
    && id < |h.states[k + 1].entries|
    && (id < |h.states[k].entries| ==> h.states[k].entries[id].timer != h.states[k + 1].entries[id].timer)
  }

  /** The state right after the last of those events. */
  ghost function StartedAt(h: History, n: nat, id: nat): (m: nat)
    requires Reaches(h, n)
    ensures m <= n
  {
    if n == 0 || ChangesTimer(h, n - 1, id) then n else StartedAt(h, n - 1, id)
  }

  /** How long a timer runs: a new entry has 15 seconds, an established one 120, and one that is
      being deleted 10. */
  function Timeout(status: Status): nat {
    if status == CtNew then 15 * SECOND else if status == CtEstablished then 120 * SECOND else 10 * SECOND
  }

  /** The timer was started at `start`, for an entry that had counted `stats`. */
  predicate TimerSince(e: Entry, start: nat, stats: Stats) {
    e.timer.Armed? ==>
      && e.status != CtReply && e.timer.deadline == start + Timeout(e.status)
      && e.timer.run == if e.status == CtEstablished then EstablishedTimeout(stats) else TimeoutDel
  }

  /** An event that changes the timer starts it at its own time; packets in the origin direction, and
      any of an established entry, do not. */
  lemma {:induction false} TimerStep(s: State, ev: Event, id: nat, start: nat, stats: Stats, snatIP: U32)
    requires Inv(s, snatIP) && Enabled(s, ev, snatIP) && id < |s.entries|
    requires TimerSince(s.entries[id], start, stats) && s.entries[id].status != CtReply
    ensures var e, e' := s.entries[id], EntryAfter(s, ev, id);
      && e'.status != CtReply
      && (e'.timer != e.timer ==> TimerSince(e', s.now, e'.stats))
      && (e'.timer == e.timer ==> TimerSince(e', start, stats))
      && (e'.timer != e.timer ==> ev == Fire(id) || (CountsIn(s, ev, id, Reply) && e.status != CtEstablished))
      && (CountsIn(s, ev, id, Reply) && e.status != CtEstablished && e.timer.Armed? ==>
            TimerSince(e', s.now, e'.stats) && e'.timer.Armed? && e'.status == CtEstablished)
  {
    if ev.Packet? {
      KeyIsOwned(s, ev.tuple, id, snatIP);
    }
  }

  lemma {:induction false} SameNow(s: State, ev: Event, snatIP: U32)
    requires Enabled(s, ev, snatIP) && !ev.Elapse?
    ensures Next(s, ev, snatIP).now == s.now
  {
  }

  lemma {:induction false} ElapseKeepsEntries(s: State, ev: Event, id: nat, snatIP: U32)
    requires Enabled(s, ev, snatIP) && ev.Elapse? && id < |s.entries|
    ensures EntryAfter(s, ev, id) == s.entries[id]
  {
  }

  /** What the timer of an entry shows after `n` events. */
  ghost predicate Kept(h: History, n: nat, id: nat)
    requires Reaches(h, n)
  {
    var m := StartedAt(h, n, id);
    && m < |h.states| && id < |h.states[m].entries| && id < |h.states[n].entries|
    && h.states[n].entries[id].status != CtReply
    && TimerSince(h.states[n].entries[id], h.states[m].now, h.states[m].entries[id].stats)
  }

  lemma {:induction false} KeptStep(h: History, n: nat, id: nat, snatIP: U32)
    requires n > 0 && IsHistory(h, n, snatIP) && id < |h.states[n - 1].entries| && Kept(h, n - 1, id)
    ensures Kept(h, n, id)
  {
    var s, ev := h.states[n - 1], h.events[n - 1];
    var m := StartedAt(h, n - 1, id);
    HistoryKeeps(h, n - 1, snatIP);
    NextEntry(s, ev, id, snatIP);
    TimerStep(s, ev, id, h.states[m].now, h.states[m].entries[id].stats, snatIP);
    if ev.Elapse? {
      ElapseKeepsEntries(s, ev, id, snatIP);
    } else {
      SameNow(s, ev, snatIP);
    }
  }

  /** Every running timer was started when it was last changed, for as long as the status says; that
      of an established entry remembers what had been counted by then. */
  lemma {:induction false} TimersAreStarted(h: History, n: nat, id: nat, snatIP: U32)
    requires IsHistory(h, n, snatIP) && id < |h.states[n].entries|
    ensures Kept(h, n, id)
  {
    if id < |h.states[n - 1].entries| {
      TimersAreStarted(h, n - 1, id, snatIP);
      KeptStep(h, n, id, snatIP);
    } else {
      Birth(h.states[n - 1], h.events[n - 1], id, snatIP);
    }
  }

  lemma {:induction false} NewStep(s: State, ev: Event, id: nat, snatIP: U32)
    requires Inv(s, snatIP) && Enabled(s, ev, snatIP) && id < |s.entries| && EntryAfter(s, ev, id).status == CtNew
    requires s.entries[id].status == CtNew && s.entries[id].timer.Armed? ==> s.entries[id].timer.run.TimeoutDel?
    ensures s.entries[id].status == CtNew && EntryAfter(s, ev, id).timer == s.entries[id].timer
  {
  }

  /** The timer of a new entry was started at its birth. */
  lemma {:induction false} NewSinceBirth(h: History, n: nat, id: nat, snatIP: U32)
    requires IsHistory(h, n, snatIP) && id < |h.states[n].entries| && h.states[n].entries[id].status == CtNew
    ensures var m := StartedAt(h, n, id);
      m > 0 && Reaches(h, m) && |h.states[m - 1].entries| <= id && CountsFor(h.states[m - 1], h.events[m - 1], id)
  {
    var s, ev := h.states[n - 1], h.events[n - 1];
    HistoryKeeps(h, n - 1, snatIP);
    if id < |s.entries| {
      NextEntry(s, ev, id, snatIP);
      TimersAreStarted(h, n - 1, id, snatIP);
      NewStep(s, ev, id, snatIP);
      NewSinceBirth(h, n - 1, id, snatIP);
    } else {
      Birth(s, ev, id, snatIP);
    }
  }

  // ----- Idleness -----

  /** When a byte was last counted for entry `id`. */
  ghost function LastCounted(h: History, n: nat, id: nat): nat
    requires Reaches(h, n)
  {
    if n == 0 then 0
    else if CountsFor(h.states[n - 1], h.events[n - 1], id) && h.events[n - 1].len > 0 then h.states[n - 1].now
    else LastCounted(h, n - 1, id)
  }

  /** Nothing was counted for the entry from event `m` to event `n`. */
  ghost predicate NothingSince(h: History, m: nat, n: nat, id: nat)
    requires m <= n && Reaches(h, n)
  {
    Counted(h, n, id, Origin) == Counted(h, m, id, Origin) && Counted(h, n, id, Reply) == Counted(h, m, id, Reply)
  }

  lemma {:induction false} TimeGoesOn(h: History, m: nat, n: nat, snatIP: U32)
    requires m <= n && IsHistory(h, n, snatIP)
    ensures Reaches(h, m) && h.states[m].now <= h.states[n].now
    decreases n
  {
    if m < n {
      TimeGoesOn(h, m, n - 1, snatIP);
    }
  }

  lemma {:induction false} CountedGrows(h: History, m: nat, n: nat, id: nat)
    requires m <= n && Reaches(h, n)
    ensures Counted(h, m, id, Origin) <= Counted(h, n, id, Origin)
    ensures Counted(h, m, id, Reply) <= Counted(h, n, id, Reply)
    decreases n
  {
    if m < n {
      CountedGrows(h, m, n - 1, id);
    }
  }

  lemma {:induction false} LastCountedBefore(h: History, n: nat, id: nat, snatIP: U32)
    requires IsHistory(h, n, snatIP)
    ensures LastCounted(h, n, id) <= h.states[n].now
    decreases n
  {
    if n > 0 {
      TimeGoesOn(h, n - 1, n, snatIP);
      LastCountedBefore(h, n - 1, id, snatIP);
    }
  }

  /** If nothing was counted since `m`, the last byte is from before; if something was, it is from
      after. */
  lemma {:induction false} LastCountedSince(h: History, m: nat, n: nat, id: nat, snatIP: U32)
    requires m <= n && IsHistory(h, n, snatIP)
    ensures Reaches(h, m)
    ensures NothingSince(h, m, n, id) ==> LastCounted(h, n, id) <= h.states[m].now
    ensures !NothingSince(h, m, n, id) ==> h.states[m].now <= LastCounted(h, n, id)
    decreases n
  {
    if m < n {
      LastCountedSince(h, m, n - 1, id, snatIP);
      TimeGoesOn(h, m, n - 1, snatIP);
      CountedGrows(h, m, n - 1, id);
    } else {
      LastCountedBefore(h, n, id, snatIP);
    }
  }

  lemma {:induction false} HistoryPrefix(h: History, m: nat, n: nat, snatIP: U32)
    requires m <= n && IsHistory(h, n, snatIP)
    ensures IsHistory(h, m, snatIP)
    decreases n
  {
    if m < n {
      HistoryPrefix(h, m, n - 1, snatIP);
    }
  }

  /** `ctESTABLISHEDTimeout` gives an established entry up exactly if not a byte has been counted for
      it since its timer was started, 120 seconds before the deadline; otherwise the entry stays
      established, and its timer runs for another 120 seconds. */
  lemma {:induction false} GivenUpExactlyIfNothingCounted(h: History, n: nat, id: nat, snatIP: U32)
    requires IsHistory(h, n + 1, snatIP) && h.events[n] == Fire(id) && h.states[n].entries[id].status == CtEstablished
    ensures var m, e, e' := StartedAt(h, n, id), h.states[n].entries[id], h.states[n + 1].entries[id];
      && e.timer.deadline == h.states[m].now + 120 * SECOND <= h.states[n].now
      && (e'.status == CtDel <==> NothingSince(h, m, n, id))
      && (e'.status != CtDel ==>
            && e'.status == CtEstablished
            && e'.timer == Armed(h.states[n].now + 120 * SECOND, EstablishedTimeout(e.stats)))
      && (e'.status == CtDel ==> e'.timer == Armed(h.states[n].now + 10 * SECOND, TimeoutDel))
      && h.states[n + 1].table == h.states[n].table
  {
    var m := StartedAt(h, n, id);
    HistoryPrefix(h, m, n, snatIP);
    HistoryKeeps(h, n, snatIP);
    TimersAreStarted(h, n, id, snatIP);
    CountersAreSums(h, n, id, snatIP);
    CountersAreSums(h, m, id, snatIP);
  }

  /** The deadline of a running timer is not passed. */
  lemma {:induction false} NeverOverdue(h: History, n: nat, id: nat, snatIP: U32)
    requires IsHistory(h, n, snatIP) && IsPrompt(h, n) && Live(h.states[n], id)
    ensures h.states[n].now <= h.states[n].entries[id].timer.deadline
    decreases n
  {
    var s, ev := h.states[n - 1], h.events[n - 1];
    HistoryKeeps(h, n - 1, snatIP);
    if id < |s.entries| {
      NextEntry(s, ev, id, snatIP);
      assert NatSearch.Prompt(s, ev);
      if ev.Elapse? {
        ElapseKeepsEntries(s, ev, id, snatIP);
        assert Live(s, id);
      } else {
        SameNow(s, ev, snatIP);
        NotOverdueStep(s, ev, id, snatIP);
        if Live(s, id) {
          NeverOverdue(h, n - 1, id, snatIP);
        }
      }
    } else {
      Birth(s, ev, id, snatIP);
    }
  }

  lemma {:induction false} NotOverdueStep(s: State, ev: Event, id: nat, snatIP: U32)
    requires Inv(s, snatIP) && Enabled(s, ev, snatIP) && id < |s.entries| && EntryAfter(s, ev, id).timer.Armed?
    ensures EntryAfter(s, ev, id).timer.deadline >= s.now
      || (Live(s, id) && EntryAfter(s, ev, id).timer == s.entries[id].timer)
  {
  }

  /** With timers that are on time: an established entry whose timer fires is given up only if it has
      been idle for 120 seconds, and kept only if it has not been for longer. */
  lemma {:induction false} GivenUpWhenIdle(h: History, n: nat, id: nat, snatIP: U32)
    requires IsHistory(h, n + 1, snatIP) && IsPrompt(h, n)
    requires h.events[n] == Fire(id) && h.states[n].entries[id].status == CtEstablished
    ensures var idle := h.states[n].now - LastCounted(h, n, id);
      && h.states[StartedAt(h, n, id)].now == h.states[n].now - 120 * SECOND
      && (h.states[n + 1].entries[id].status == CtDel ==> idle >= 120 * SECOND)
      && (h.states[n + 1].entries[id].status == CtEstablished ==> idle <= 120 * SECOND)
      && (h.states[n + 1].entries[id].status == CtDel || h.states[n + 1].entries[id].status == CtEstablished)
  {
    GivenUpExactlyIfNothingCounted(h, n, id, snatIP);
    NeverOverdue(h, n, id, snatIP);
    LastCountedSince(h, StartedAt(h, n, id), n, id, snatIP);
  }

  /** A new entry is given up exactly 15 seconds after its first packet, however many others of the
      same direction it sees, and one that is being deleted 10 seconds after that has begun; both
      keys then leave the table. */
  lemma {:induction false} LeavesOnTime(h: History, n: nat, id: nat, snatIP: U32)
    requires IsHistory(h, n + 1, snatIP) && IsPrompt(h, n)
    requires h.events[n] == Fire(id) && h.states[n].entries[id].status != CtEstablished
    ensures var e := h.states[n].entries[id];
      && h.states[n].now == h.states[StartedAt(h, n, id)].now + (if e.status == CtNew then 15 else 10) * SECOND
      && (e.status == CtNew ==> StartedAt(h, n, id) > 0 && |h.states[StartedAt(h, n, id) - 1].entries| <= id)
      && h.states[n + 1].entries[id].timer == Idle && h.states[n + 1].entries[id].status == CtDel
      && (forall t :: t in h.states[n + 1].table <==> t in h.states[n].table && h.states[n].table[t] != id)
  {
    HistoryKeeps(h, n, snatIP);
    TimersAreStarted(h, n, id, snatIP);
    NeverOverdue(h, n, id, snatIP);
    if h.states[n].entries[id].status == CtNew {
      NewSinceBirth(h, n, id, snatIP);
    }
  }
}
