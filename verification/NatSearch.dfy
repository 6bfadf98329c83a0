/** The port search of `getUniqueTuple` in `src/nat/snat.go` while timers fire: every probe takes
    the lock of the table anew, and the callbacks of the timers delete keys in between. */
module NatSearch {
  import opened Machine
  import opened Conntrack
  import opened NatEntry
  import opened NatTable

  /** The states in which the probes are made, and what happens from each to the next. */
  ghost predicate IsCourse(ss: seq<State>, pauses: seq<seq<Event>>, snatIP: U32) {
    && |ss| == |pauses| + 1
    && forall j :: 0 <= j < |pauses| ==> IsPause(ss[j], pauses[j], ss[j + 1], snatIP)
  }

  ghost predicate IsPause(s: State, pause: seq<Event>, s': State, snatIP: U32) {
    IsRun(s, pause, snatIP) && s' == Final(s, pause, snatIP)
  }

  /** Probe `j` finds its tuple unused. */
  predicate Hits(ss: seq<State>, first: Tuple, j: nat) {
    j < |ss| && Probe(first, j) !in ss[j].table
  }

  /** The search ends with probe `n`. */
  ghost predicate EndsAt(ss: seq<State>, first: Tuple, n: nat) {
    Hits(ss, first, n) && forall j: nat :: j < n ==> !Hits(ss, first, j)
  }

  /** The loop, reading the table of its own time at every probe. */
  method FindUniqueReplyAmid(ss: seq<State>, first: Tuple) returns (found: bool, reply: Tuple, ghost n: nat)
    ensures found ==> EndsAt(ss, first, n) && reply == Probe(first, n)
    ensures !found ==> forall j: nat :: !Hits(ss, first, j)
  {
    reply := first;
    var k := 0;
    while k < |ss| && reply in ss[k].table
      invariant k <= |ss| && reply == Probe(first, k)
      invariant forall j: nat :: j < k ==> !Hits(ss, first, j)
    {
      ProbeNext(first, k);
      reply := reply.(dport := ToU16(reply.dport + 1));
      k := k + 1;
    }
    found, n := k < |ss|, k;
  }

  // ----- Whatever happens in between -----

  lemma {:induction false} FirstHit(ss: seq<State>, first: Tuple, j: nat) returns (n: nat)
    requires Hits(ss, first, j)
    ensures n <= j && EndsAt(ss, first, n)
    decreases j
  {
    if i: nat :| i < j && Hits(ss, first, i) {
      n := FirstHit(ss, first, i);
    } else {
      n := j;
    }
  }

  /** The search ends with the first probe whose tuple is unused at that time, and within one
      round if some port stays unused throughout. */
  lemma {:induction false} EndsIfPortStaysFree(ss: seq<State>, first: Tuple, port: U16) returns (n: nat)
    requires |ss| >= 0x1_0000
    requires forall j: nat :: j < 0x1_0000 ==> first.(dport := port) !in ss[j].table
    ensures n < 0x1_0000 && EndsAt(ss, first, n)
  {
    ProbeHits(first, port);
    var k :| 0 <= k < 0x1_0000 && Probe(first, k) == first.(dport := port);
    n := FirstHit(ss, first, k);
  }

  // ----- When only timers run -----

  predicate IsTimer(ev: Event) {
    ev.Fire? || ev.Elapse?
  }

  ghost predicate OnlyTimers(pauses: seq<seq<Event>>) {
    forall j :: 0 <= j < |pauses| ==> TimersOnly(pauses[j])
  }

  ghost predicate TimersOnly(run: seq<Event>) {
    forall i :: 0 <= i < |run| ==> IsTimer(run[i])
  }

  /** Timers only take keys out of the table. */
  lemma {:induction false} TimersOnlyDelete(s: State, run: seq<Event>, snatIP: U32, t: Tuple)
    requires IsRun(s, run, snatIP) && TimersOnly(run) && t !in s.table
    ensures t !in Final(s, run, snatIP).table
    decreases |run|
  {
    if |run| > 0 {
      assert IsTimer(run[0]);
      TimersOnlyDelete(Next(s, run[0], snatIP), run[1..], snatIP, t);
    }
  }

  lemma {:induction false} StaysFree(ss: seq<State>, pauses: seq<seq<Event>>, snatIP: U32, t: Tuple, i: nat, j: nat)
    requires IsCourse(ss, pauses, snatIP) && OnlyTimers(pauses) && i <= j < |ss| && t !in ss[i].table
    ensures t !in ss[j].table
    decreases j - i
  {
    if i < j {
      StaysFree(ss, pauses, snatIP, t, i, j - 1);
      assert IsPause(ss[j - 1], pauses[j - 1], ss[j], snatIP) && TimersOnly(pauses[j - 1]);
      TimersOnlyDelete(ss[j - 1], pauses[j - 1], snatIP, t);
    }
  }

  lemma {:induction false} ProbeRepeats(first: Tuple, k: nat, i: nat) returns (j: nat)
    ensures i <= j < i + 0x1_0000 && Probe(first, j) == Probe(first, k)
  {
    j := i + (k - i) % 0x1_0000;
    var q := (k - i) / 0x1_0000;
    assert k - i == q * 0x1_0000 + (k - i) % 0x1_0000;
    assert first.dport + k == first.dport + j + q * 0x1_0000;
    SameRemainder(first.dport + j, q);
  }

  lemma {:induction false} SameRemainder(x: int, q: int)
    ensures (x + q * 0x1_0000) % 0x1_0000 == x % 0x1_0000
  {
  }

  /** With timers only, the search ends within one round of the first probe at which any port of
      the endpoint is free; and it ends at no probe before one is. */
  lemma {:induction false} EndsOnceAnyPortIsFree(ss: seq<State>, pauses: seq<seq<Event>>, snatIP: U32,
      first: Tuple, i: nat)
    returns (n: nat)
    requires IsCourse(ss, pauses, snatIP) && OnlyTimers(pauses) && i + 0x1_0000 <= |ss|
    requires PortLeft(ss[i].table, first)
    ensures n < i + 0x1_0000 && EndsAt(ss, first, n) && PortLeft(ss[n].table, first)
  {
    var port: U16 :| first.(dport := port) !in ss[i].table;
    ProbeHits(first, port);
    var k :| 0 <= k < 0x1_0000 && Probe(first, k) == first.(dport := port);
    var j := ProbeRepeats(first, k, i);
    StaysFree(ss, pauses, snatIP, Probe(first, j), i, j);
    n := FirstHit(ss, first, j);
    assert first.(dport := Probe(first, n).dport) !in ss[n].table;
  }

  /** The end of the search is a step of the runs of `NatTable`: the new entry is opened with the
      tuple found. */
  lemma {:induction false} SearchOpens(ss: seq<State>, pauses: seq<seq<Event>>, snatIP: U32, t: Tuple, len: nat, n: nat)
    requires IsCourse(ss, pauses, snatIP) && OnlyTimers(pauses)
    requires t.proto == UDP && t !in ss[0].table && EndsAt(ss, FirstReply(t, snatIP), n)
    ensures Enabled(ss[n], Open(t, len, Probe(FirstReply(t, snatIP), n)), snatIP)
  {
    StaysFree(ss, pauses, snatIP, t, 0, n);
    if SelfReply(t, snatIP) {
      assert FirstReply(t, snatIP) == t;
      assert Probe(t, 0) == t;
      assert Hits(ss, t, 0);
      assert n == 0;
    }
  }

  // ----- How long it can take -----

  /** Time does not pass the deadline of a running timer. */
  ghost predicate Prompt(s: State, ev: Event) {
    ev.Elapse? ==> forall id: nat :: Live(s, id) ==> s.now + ev.d <= s.entries[id].timer.deadline
  }

  ghost predicate PromptRun(s: State, run: seq<Event>, snatIP: U32)
    requires IsRun(s, run, snatIP)
    decreases |run|
  {
    |run| == 0 || (Prompt(s, run[0]) && PromptRun(Next(s, run[0], snatIP), run[1..], snatIP))
  }

  /** When an entry that sees no more packets is removed. */
  function GoneBy(e: Entry): nat {
    if e.timer.Idle? then 0
    else if e.timer.run.TimeoutDel? then e.timer.deadline
    else if e.timer.run.snapshot == e.stats then e.timer.deadline + CT_DEL_TIMEOUT
    else e.timer.deadline + CT_UDP_ESTABLISHED_TIMEOUT + CT_DEL_TIMEOUT
  }

  /** The longest that takes. */
  const LONGEST := 2 * CT_UDP_ESTABLISHED_TIMEOUT + CT_DEL_TIMEOUT

  ghost predicate OnTime(s: State, end: nat) {
    forall id: nat :: Live(s, id) ==> s.now <= s.entries[id].timer.deadline && GoneBy(s.entries[id]) <= end
  }

  /** No timer is overdue, and none was started for longer than its timeout. */
  ghost predicate Bounded(s: State) {
    forall id: nat :: Live(s, id) ==> s.now <= s.entries[id].timer.deadline <= s.now + CT_UDP_ESTABLISHED_TIMEOUT
  }

  lemma {:induction false} EventBounded(s: State, ev: Event, snatIP: U32)
    requires Inv(s, snatIP) && Enabled(s, ev, snatIP) && Prompt(s, ev) && Bounded(s)
    ensures Bounded(Next(s, ev, snatIP))
  {
  }

  /** In every state that a prompt run reaches, each entry is gone after at most 250 seconds
      without packets. */
  lemma {:induction false} RunBounded(s: State, run: seq<Event>, snatIP: U32)
    requires Inv(s, snatIP) && Bounded(s) && IsRun(s, run, snatIP) && PromptRun(s, run, snatIP)
    ensures Bounded(Final(s, run, snatIP)) && OnTime(Final(s, run, snatIP), Final(s, run, snatIP).now + LONGEST)
    decreases |run|
  {
    if |run| > 0 {
      EventBounded(s, run[0], snatIP);
      NextKeeps(s, run[0], snatIP);
      RunBounded(Next(s, run[0], snatIP), run[1..], snatIP);
    }
  }

  /** Timers do not put it off. */
  lemma {:induction false} TimerOnTime(s: State, ev: Event, snatIP: U32, end: nat)
    requires Inv(s, snatIP) && Enabled(s, ev, snatIP) && Prompt(s, ev) && IsTimer(ev) && OnTime(s, end)
    ensures OnTime(Next(s, ev, snatIP), end)
  {
  }

  lemma {:induction false} TimersOnTime(s: State, run: seq<Event>, snatIP: U32, end: nat)
    requires Inv(s, snatIP) && OnTime(s, end) && IsRun(s, run, snatIP) && PromptRun(s, run, snatIP) && TimersOnly(run)
    ensures OnTime(Final(s, run, snatIP), end) && Inv(Final(s, run, snatIP), snatIP)
    decreases |run|
  {
    if |run| > 0 {
      assert IsTimer(run[0]);
      TimerOnTime(s, run[0], snatIP, end);
      NextKeeps(s, run[0], snatIP);
      TimersOnTime(Next(s, run[0], snatIP), run[1..], snatIP, end);
    }
  }

  ghost predicate PromptCourse(ss: seq<State>, pauses: seq<seq<Event>>, snatIP: U32)
    requires IsCourse(ss, pauses, snatIP)
  {
    forall j :: 0 <= j < |pauses| ==>
      IsPause(ss[j], pauses[j], ss[j + 1], snatIP) && PromptRun(ss[j], pauses[j], snatIP)
  }

  lemma {:induction false} CourseOnTime(ss: seq<State>, pauses: seq<seq<Event>>, snatIP: U32, end: nat, j: nat)
    requires IsCourse(ss, pauses, snatIP) && OnlyTimers(pauses) && PromptCourse(ss, pauses, snatIP) && j < |ss|
    requires Inv(ss[0], snatIP) && OnTime(ss[0], end)
    ensures Inv(ss[j], snatIP) && OnTime(ss[j], end)
  {
    if j > 0 {
      CourseOnTime(ss, pauses, snatIP, end, j - 1);
      assert IsPause(ss[j - 1], pauses[j - 1], ss[j], snatIP) && TimersOnly(pauses[j - 1]);
      TimersOnTime(ss[j - 1], pauses[j - 1], snatIP, end);
    }
  }

  /** No search takes for ever: with timers that are on time and no other packets it has ended by
      its first probe later than 250 seconds after it began, however full the table was. */
  lemma {:induction false} SearchEndsInTime(before: seq<Event>, ss: seq<State>, pauses: seq<seq<Event>>, snatIP: U32,
    first: Tuple, j: nat) returns (n: nat)
    requires IsRun(EMPTY, before, snatIP) && PromptRun(EMPTY, before, snatIP)
    requires IsCourse(ss, pauses, snatIP) && OnlyTimers(pauses) && PromptCourse(ss, pauses, snatIP)
    requires ss[0] == Final(EMPTY, before, snatIP) && j < |ss| && ss[j].now > ss[0].now + LONGEST
    ensures n <= j && EndsAt(ss, first, n)
  {
    RunKeeps(EMPTY, before, snatIP);
    RunBounded(EMPTY, before, snatIP);
    CourseOnTime(ss, pauses, snatIP, ss[0].now + LONGEST, j);
    assert forall id: nat :: !Live(ss[j], id);
    assert ss[j].table == map[];
    n := FirstHit(ss, first, j);
  }
}
