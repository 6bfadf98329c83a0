/** The outcome of `updateMasterFdb` for any number of masters, in terms of the state before it:
    exactly when a master keeps one port per FDB, and exactly when it sits in the live FDB. */
module MastersResult {
  import opened Machine
  import Counting
  import opened Membership
  import opened MembershipLists
  import opened Masters
  import opened MastersLoop

  // ----- The loop, reduced to one id -----

  datatype Bits = Bits(listed: bool, has: bool, tidy: bool, live: bool)

  /** Free ports, entries on the list, and how every member stands. */
  datatype Row = Row(free: nat, asked: nat, at: seq<Bits>)

  ghost function BitsOf(w: World, me: Owner, k: nat): Bits {
    Bits(k in w.joined, HasPort(w, me, k), Tidy(w, me, k), Live(w, k))
  }

  ghost function RowOf(c: Carry, k: nat): (r: Row)
    ensures |r.at| == |c.s.members|
    ensures forall i :: 0 <= i < |r.at| ==> r.at[i] == BitsOf(c.s.View(i), c.s.members[i].owner, k)
  {
    Row(FreePorts(World(c.s.fdbs, c.s.objects, map[]), k), Count(c.joinIds, |c.joinIds|, k),
        seq(|c.s.members|, i requires 0 <= i < |c.s.members| => BitsOf(c.s.View(i), c.s.members[i].owner, k)))
  }

  /** How a master stands after taking as many of `asked` ports as are free. */
  predicate Took(b: Bits, b': Bits, free: nat, asked: nat) {
    var t := PushedTimes(Standing(free, b.has, b.tidy, b.live), asked);
    b'.has == t.has && b'.tidy == t.tidy && b'.live == t.live
  }

  /** The turn of member `i` for an id of the registry. */
  predicate RowTurn(r: Row, r': Row, i: nat, lacks: bool) {
    && |r'.at| == |r.at| && i < |r.at|
    && r'.asked == r.asked + (if lacks then 1 else 0)
    && r'.free == r.free - Min(r'.asked, r.free)
    && Took(r.at[i], r'.at[i], r.free, r'.asked)
    && forall j :: 0 <= j < |r.at| && j != i ==> r'.at[j] == r.at[j]
  }

  /** And for any other id. */
  predicate OutTurn(r: Row, r': Row, i: nat) {
    && |r'.at| == |r.at| && i < |r.at|
    && (r.at[i].tidy ==> r'.at[i].tidy) && !r'.at[i].listed
    && forall j :: 0 <= j < |r.at| && j != i ==> r'.at[j] == r.at[j]
  }

  lemma {:induction false} OthersInRow(c: Carry, s: System, i: nat, v: Visit, k: nat)
    requires MayTurn(c, s, i, v)
    ensures forall j :: 0 <= j < |s.members| && j != i ==> RowOf(Turn(c, i, v), k).at[j] == RowOf(c, k).at[j]
  {
    TurnKeepsOk(c, s, i, v);
    forall j | 0 <= j < |s.members| && j != i ensures RowOf(Turn(c, i, v), k).at[j] == RowOf(c, k).at[j] {
      TurnLeaves(c, s, i, v, j, k);
    }
  }

  lemma {:induction false} CountCarried(a: seq<nat>, wanted: set<nat>, joined: map<nat, FdbPort>, v: Visit, k: nat)
    requires IsVisit(wanted, joined, v) && k in wanted
    ensures Count(a + v.missing, |a + v.missing|, k) == Count(a, |a|, k) + (if k !in joined then 1 else 0)
  {
    CountConcat(a, v.missing, |v.missing|, k);
    CountMissing(v, wanted, joined, k);
  }

  lemma {:induction false} ListInRow(c: Carry, i: nat, v: Visit, wanted: set<nat>, k: nat)
    requires i < |c.s.members| && c.s.members[i].joined.Some?
    requires IsVisit(wanted, c.s.members[i].List(), v) && k in wanted
    ensures RowOf(Turn(c, i, v), k).asked == RowOf(c, k).asked + (if k !in c.s.members[i].List() then 1 else 0)
  {
    CountCarried(c.joinIds, wanted, c.s.members[i].List(), v, k);
    assert Turn(c, i, v).joinIds == c.joinIds + v.missing;
  }

  lemma {:induction false} TookInRow(w: World, w': World, me: Owner, n: nat, k: nat)
    requires StandingOf(w', me, k) == PushedTimes(StandingOf(w, me, k), n)
    ensures FreePorts(w', k) == FreePorts(w, k) - Min(n, FreePorts(w, k))
    ensures Took(BitsOf(w, me, k), BitsOf(w', me, k), FreePorts(w, k), n)
  {
    PushedSum(StandingOf(w, me, k), n);
  }

  lemma {:induction false} MasterInRow(c: Carry, s: System, i: nat, v: Visit, k: nat)
    requires MayTurn(c, s, i, v) && k in s.fdbs
    ensures var r, r' := RowOf(c, k), RowOf(Turn(c, i, v), k);
      && |r'.at| == |r.at| && i < |r.at|
      && r'.free == r.free - Min(r'.asked, r.free)
      && Took(r.at[i], r'.at[i], r.free, r'.asked)
  {
    var c' := Turn(c, i, v);
    TurnMoves(c, s, i, v, k);
    TookInRow(c.s.View(i), c'.s.View(i), s.members[i].owner, Count(c'.joinIds, |c'.joinIds|, k), k);
    FreeIsShared(c.s, i, k);
    FreeIsShared(c'.s, i, k);
  }

  lemma {:induction false} TurnOfRow(c: Carry, s: System, i: nat, v: Visit, k: nat)
    requires MayTurn(c, s, i, v)
    ensures k in s.fdbs ==> RowTurn(RowOf(c, k), RowOf(Turn(c, i, v), k), i, k !in s.members[i].List())
    ensures k !in s.fdbs ==> OutTurn(RowOf(c, k), RowOf(Turn(c, i, v), k), i)
  {
    OthersInRow(c, s, i, v, k);
    if k in s.fdbs {
      ListInRow(c, i, v, s.fdbs.Keys, k);
      MasterInRow(c, s, i, v, k);
    } else {
      TurnMoves(c, s, i, v, k);
    }
  }

  // ----- Rows alone -----

  ghost predicate Places(s: System, masters: seq<nat>) {
    forall m :: 0 <= m < |masters| ==> masters[m] < |s.members|
  }

  /** Row `n` follows from row `n - 1` by the turn of master `n - 1`. */
  ghost predicate RowStep(r: Row, r': Row, s: System, masters: seq<nat>, m: nat, k: nat)
    requires Places(s, masters) && m < |masters|
  {
    if !Alive(s, masters, m) then r' == r
    else if k in s.fdbs then RowTurn(r, r', masters[m], k !in s.members[masters[m]].List())
    else OutTurn(r, r', masters[m])
  }

  ghost predicate Follow(rows: seq<Row>, s: System, masters: seq<nat>, n: nat, k: nat)
    requires Places(s, masters)
  {
    && n <= |masters| && n < |rows|
    && (n > 0 ==> Follow(rows, s, masters, n - 1, k) && RowStep(rows[n - 1], rows[n], s, masters, n - 1, k))
  }

  lemma {:induction false} RowCounts(rows: seq<Row>, s: System, masters: seq<nat>, n: nat, k: nat)
    requires Places(s, masters) && Follow(rows, s, masters, n, k) && k in s.fdbs
    requires rows[0].asked == 0 && rows[0].free == Left(s, masters, 0, k)
    ensures rows[n].asked == Asked(s, masters, n, k) && rows[n].free == Left(s, masters, n, k)
  {
    if n > 0 {
      RowCounts(rows, s, masters, n - 1, k);
    }
  }

  lemma {:induction false} RowWaits(rows: seq<Row>, s: System, masters: seq<nat>, n: nat, k: nat, i: nat)
    requires Places(s, masters) && Follow(rows, s, masters, n, k)
    requires i < |rows[0].at| && forall m :: 0 <= m < n ==> masters[m] != i
    ensures i < |rows[n].at| && rows[n].at[i] == rows[0].at[i]
  {
    if n > 0 {
      RowWaits(rows, s, masters, n - 1, k, i);
    }
  }

  lemma {:induction false} RowSize(rows: seq<Row>, s: System, masters: seq<nat>, n: nat, k: nat)
    requires Places(s, masters) && Follow(rows, s, masters, n, k)
    ensures |rows[n].at| == |rows[0].at|
  {
    if n > 0 {
      RowSize(rows, s, masters, n - 1, k);
    }
  }

  /** After its turn a master stands as its turn left it. */
  lemma {:induction false} RowDone(rows: seq<Row>, s: System, masters: seq<nat>, n: nat, k: nat, m: nat)
    requires Places(s, masters) && Counting.Distinct(masters)
    requires Follow(rows, s, masters, n, k) && m < n && Alive(s, masters, m)
    requires |rows[0].at| == |s.members|
    ensures Follow(rows, s, masters, m, k) && |rows[n].at| == |s.members|
    ensures k in s.fdbs ==> Took(rows[0].at[masters[m]], rows[n].at[masters[m]], rows[m].free, rows[m + 1].asked)
    ensures k !in s.fdbs ==> !rows[n].at[masters[m]].listed
    ensures k !in s.fdbs && rows[0].at[masters[m]].tidy ==> rows[n].at[masters[m]].tidy
    decreases n
  {
    RowSize(rows, s, masters, n, k);
    if m == n - 1 {
      RowSize(rows, s, masters, m, k);
      RowWaits(rows, s, masters, m, k, masters[m]);
    } else {
      RowDone(rows, s, masters, n - 1, k, m);
      assert masters[m] != masters[n - 1];
    }
  }

  // ----- The rows of a loop -----

  ghost function RowsOf(cs: seq<Carry>, k: nat): (rows: seq<Row>)
    ensures |rows| == |cs|
    ensures forall n :: 0 <= n < |cs| ==> rows[n] == RowOf(cs[n], k)
  {
    seq(|cs|, n requires 0 <= n < |cs| => RowOf(cs[n], k))
  }

  lemma {:induction false} InvRowStep(c: Carry, s: System, i: nat, v: Visit, touched: set<nat>, k: nat)
    requires LoopInv(c, s, touched) && i < |s.members| && i !in touched && s.members[i].joined.Some?
    requires IsVisit(s.fdbs.Keys, s.members[i].List(), v)
    ensures k in s.fdbs ==> RowTurn(RowOf(c, k), RowOf(Turn(c, i, v), k), i, k !in s.members[i].List())
    ensures k !in s.fdbs ==> OutTurn(RowOf(c, k), RowOf(Turn(c, i, v), k), i)
  {
    TurnOfRow(c, s, i, v, k);
  }

  lemma {:induction false} SkippedRow(c: Carry, s: System, i: nat, v: Visit, touched: set<nat>)
    requires LoopInv(c, s, touched) && i < |s.members| && s.members[i].joined.None?
    ensures Turn(c, i, v) == c
  {
  }

  lemma {:induction false} StepOfRow(c: Carry, s: System, masters: seq<nat>, m: nat, v: Visit, touched: set<nat>,
      k: nat)
    requires Places(s, masters) && m < |masters| && LoopInv(c, s, touched) && masters[m] !in touched
    requires Alive(s, masters, m) ==> IsVisit(s.fdbs.Keys, s.members[masters[m]].List(), v)
    ensures masters[m] < |c.s.members|
    ensures RowStep(RowOf(c, k), RowOf(Turn(c, masters[m], v), k), s, masters, m, k)
  {
    if Alive(s, masters, m) {
      InvRowStep(c, s, masters[m], v, touched, k);
    } else {
      SkippedRow(c, s, masters[m], v, touched);
    }
  }

  lemma {:induction false} FreshMaster(masters: seq<nat>, n: nat)
    requires Counting.Distinct(masters) && n < |masters|
    ensures masters[n] !in Touched(masters, n)
  {
    NotTouchedYet(masters, n, masters[n]);
  }

  lemma {:induction false} LoopRowStep(c: Carry, c': Carry, s: System, masters: seq<nat>, m: nat, v: Visit, k: nat)
    requires Places(s, masters) && Counting.Distinct(masters) && m < |masters| && LoopInv(c, s, Touched(masters, m))
    requires Alive(s, masters, m) ==> IsVisit(s.fdbs.Keys, s.members[masters[m]].List(), v)
    requires masters[m] < |c.s.members| && c' == Turn(c, masters[m], v)
    ensures RowStep(RowOf(c, k), RowOf(c', k), s, masters, m, k)
  {
    FreshMaster(masters, m);
    StepOfRow(c, s, masters, m, v, Touched(masters, m), k);
  }

  /** The loop variables before turn `m`, and the turn. */
  ghost predicate Linked(cs: seq<Carry>, s: System, masters: seq<nat>, visits: seq<Visit>, m: nat)
    requires |cs| > |masters| == |visits|
  {
    && m < |masters| && LoopInv(cs[m], s, Touched(masters, m))
    && masters[m] < |cs[m].s.members| && cs[m + 1] == Turn(cs[m], masters[m], visits[m])
  }

  lemma {:induction false} LoopIsLinked(cs: seq<Carry>, s: System, masters: seq<nat>, visits: seq<Visit>, m: nat)
    requires IsLoop(cs, s, masters, visits, m + 1) && IsUpdate(s, masters, visits) && SystemSound(s)
    requires |cs| > |masters|
    ensures Linked(cs, s, masters, visits, m)
  {
    LoopKeeps(cs, s, masters, visits, m);
  }

  lemma {:induction false} StepsFollow(rows: seq<Row>, s: System, masters: seq<nat>, n: nat, k: nat)
    requires Places(s, masters) && n <= |masters| && n < |rows|
    requires forall m: nat :: m < n ==> RowStep(rows[m], rows[m + 1], s, masters, m, k)
    ensures Follow(rows, s, masters, n, k)
  {
    if n > 0 {
      StepsFollow(rows, s, masters, n - 1, k);
    }
  }

  lemma {:induction false} LoopPrefix(cs: seq<Carry>, s: System, masters: seq<nat>, visits: seq<Visit>, n: nat, m: nat)
    requires IsLoop(cs, s, masters, visits, n) && m <= n
    ensures IsLoop(cs, s, masters, visits, m)
    decreases n
  {
    if m < n {
      LoopPrefix(cs, s, masters, visits, n - 1, m);
    }
  }

  lemma {:induction false} LinkedRow(r: Row, r': Row, cs: seq<Carry>, s: System, masters: seq<nat>,
      visits: seq<Visit>, m: nat, k: nat)
    requires |cs| > |masters| && IsUpdate(s, masters, visits) && Linked(cs, s, masters, visits, m)
    requires r == RowOf(cs[m], k) && r' == RowOf(cs[m + 1], k)
    ensures RowStep(r, r', s, masters, m, k)
  {
    LoopRowStep(cs[m], cs[m + 1], s, masters, m, visits[m], k);
  }

  lemma {:induction false} LinkedRows(cs: seq<Carry>, s: System, masters: seq<nat>, visits: seq<Visit>, k: nat)
    requires |cs| > |masters| && IsUpdate(s, masters, visits)
    requires forall m :: 0 <= m < |masters| ==> Linked(cs, s, masters, visits, m)
    ensures Follow(RowsOf(cs, k), s, masters, |masters|, k)
  {
    var rows := RowsOf(cs, k);
    forall m: nat | m < |masters| ensures RowStep(rows[m], rows[m + 1], s, masters, m, k) {
      LinkedRow(rows[m], rows[m + 1], cs, s, masters, visits, m, k);
    }
    StepsFollow(rows, s, masters, |masters|, k);
  }

  lemma {:induction false} LoopRows(cs: seq<Carry>, s: System, masters: seq<nat>, visits: seq<Visit>, k: nat)
    requires IsLoop(cs, s, masters, visits, |masters|) && IsUpdate(s, masters, visits) && SystemSound(s)
    ensures Follow(RowsOf(cs, k), s, masters, |masters|, k)
  {
    forall m | 0 <= m < |masters| ensures Linked(cs, s, masters, visits, m) {
      LoopPrefix(cs, s, masters, visits, |masters|, m + 1);
      LoopIsLinked(cs, s, masters, visits, m);
    }
    LinkedRows(cs, s, masters, visits, k);
  }

  lemma {:induction false} LoopStart(cs: seq<Carry>, s: System, masters: seq<nat>, visits: seq<Visit>, n: nat, k: nat)
    requires IsLoop(cs, s, masters, visits, n)
    ensures cs[0] == Carry(s, [], [])
    ensures RowOf(cs[0], k).asked == 0 && RowOf(cs[0], k).free == Left(s, masters, 0, k)
  {
    if n > 0 {
      LoopStart(cs, s, masters, visits, n - 1, k);
    }
  }

  /** How master `m` stands in the end with an id: it has taken `Taken` ports. */
  lemma {:induction false} MasterStands(cs: seq<Carry>, s: System, masters: seq<nat>, visits: seq<Visit>, m: nat,
      k: nat)
    requires IsLoop(cs, s, masters, visits, |masters|) && IsUpdate(s, masters, visits) && SystemSound(s)
    requires m < |masters| && Alive(s, masters, m)
    ensures var i, s' := masters[m], cs[|masters|].s;
      var b, b' := BitsOf(s.View(i), s.members[i].owner, k), RowOf(cs[|masters|], k).at;
      && |b'| == |s.members|
      && (k in s.fdbs ==> (b.tidy ==> (b'[i].tidy <==> Taken(s, masters, m, k) <= if b.has then 0 else 1))
                          && (b'[i].has <==> b.has || Taken(s, masters, m, k) > 0)
                          && (b'[i].live <==> b.live || Taken(s, masters, m, k) > 0))
      && (k !in s.fdbs ==> !b'[i].listed && (b.tidy ==> b'[i].tidy))
  {
    var rows := RowsOf(cs, k);
    LoopRows(cs, s, masters, visits, k);
    LoopStart(cs, s, masters, visits, |masters|, k);
    RowDone(rows, s, masters, |masters|, k, m);
    if k in s.fdbs {
      RowPrefix(rows, s, masters, |masters|, m + 1, k);
      RowCounts(rows, s, masters, m, k);
      RowCounts(rows, s, masters, m + 1, k);
      var b := rows[0].at[masters[m]];
      PushedSum(Standing(rows[m].free, b.has, b.tidy, b.live), rows[m + 1].asked);
    }
  }

  lemma {:induction false} RowPrefix(rows: seq<Row>, s: System, masters: seq<nat>, n: nat, m: nat, k: nat)
    requires Places(s, masters) && Follow(rows, s, masters, n, k) && m <= n
    ensures Follow(rows, s, masters, m, k)
    decreases n
  {
    if m < n {
      RowPrefix(rows, s, masters, n - 1, m, k);
    }
  }

  // ----- Main results -----

  /** A turn takes no more ports than a master that keeps one per FDB may take. */
  predicate TakesNoMore(s: System, masters: seq<nat>, m: nat, id: nat)
    requires m < |masters| && forall n :: 0 <= n < |masters| ==> masters[n] < |s.members|
  {
    Taken(s, masters, m, id) <= if id in s.members[masters[m]].List() then 0 else 1
  }

  lemma {:induction false} TidyIffTakesNoMore(cs: seq<Carry>, s: System, masters: seq<nat>, visits: seq<Visit>,
      m: nat, k: nat)
    requires IsLoop(cs, s, masters, visits, |masters|) && IsUpdate(s, masters, visits) && SystemSound(s)
    requires m < |masters| && Alive(s, masters, m) && |cs[|masters|].s.members| == |s.members|
    requires cs[|masters|].s.members[masters[m]].owner == s.members[masters[m]].owner
    requires NoLeak(s.View(masters[m]), s.members[masters[m]].owner)
    ensures Tidy(cs[|masters|].s.View(masters[m]), s.members[masters[m]].owner, k)
       <==> (k in s.fdbs ==> TakesNoMore(s, masters, m, k))
  {
    MasterStands(cs, s, masters, visits, m, k);
    assert SoundAt(s, masters[m]);
    NoLeakIsTidy(s.View(masters[m]), s.members[masters[m]].owner);
    TidyHas(s.View(masters[m]), s.members[masters[m]].owner, k);
  }

  /** For any number of masters: a master that owned exactly the ports it knew of still does after
      `updateMasterFdb` if and only if in no live FDB it takes a port more than it may. How many
      it takes follows from the state before: as many as the id is on the carried list, once for
      every master so far that lacked it, but no more than are left. */
  lemma {:induction false} KeepsPortsIff(cs: seq<Carry>, s: System, masters: seq<nat>, visits: seq<Visit>, m: nat)
    requires IsLoop(cs, s, masters, visits, |masters|) && IsUpdate(s, masters, visits) && SystemSound(s)
    requires m < |masters| && Alive(s, masters, m)
    requires NoLeak(s.View(masters[m]), s.members[masters[m]].owner)
    ensures var s' := cs[|masters|].s;
      && |s'.members| == |s.members| && s'.members[masters[m]].owner == s.members[masters[m]].owner
      && (NoLeak(s'.View(masters[m]), s.members[masters[m]].owner)
          <==> forall id :: id in s.fdbs ==> TakesNoMore(s, masters, m, id))
  {
    var s', me := cs[|masters|].s, s.members[masters[m]].owner;
    LoopKeeps(cs, s, masters, visits, |masters|);
    assert SoundAt(s', masters[m]);
    NoLeakIsTidy(s'.View(masters[m]), me);
    forall k: nat ensures Tidy(s'.View(masters[m]), me, k) <==> (k in s.fdbs ==> TakesNoMore(s, masters, m, k)) {
      TidyIffTakesNoMore(cs, s, masters, visits, m, k);
    }
  }

  /** Two masters, in terms of the free ports before the update: the first is always fine; the
      second is if and only if every FDB that the first had not joined has at most one free port
      if the second has joined it, and at most two if it has not. */
  lemma {:induction false} TwoMastersIff(cs: seq<Carry>, s: System, masters: seq<nat>, visits: seq<Visit>)
    requires IsLoop(cs, s, masters, visits, |masters|) && IsUpdate(s, masters, visits) && SystemSound(s)
    requires |masters| == 2 && Alive(s, masters, 0) && Alive(s, masters, 1)
    requires NoLeak(s.View(masters[0]), s.members[masters[0]].owner)
    requires NoLeak(s.View(masters[1]), s.members[masters[1]].owner)
    ensures var s' := cs[2].s;
      && |s'.members| == |s.members|
      && NoLeak(s'.View(masters[0]), s.members[masters[0]].owner)
      && (NoLeak(s'.View(masters[1]), s.members[masters[1]].owner)
          <==> forall id :: id in s.fdbs && id !in s.members[masters[0]].List() ==>
                 FreePorts(s.View(masters[1]), id) <= if id in s.members[masters[1]].List() then 1 else 2)
  {
    KeepsPortsIff(cs, s, masters, visits, 0);
    KeepsPortsIff(cs, s, masters, visits, 1);
    forall id | id in s.fdbs ensures TakesNoMore(s, masters, 0, id)
      && (TakesNoMore(s, masters, 1, id) <==> id !in s.members[masters[0]].List() ==>
            FreePorts(s.View(masters[1]), id) <= if id in s.members[masters[1]].List() then 1 else 2)
    {
      TwoTurns(s, masters, id);
    }
  }

  lemma {:induction false} TwoTurns(s: System, masters: seq<nat>, id: nat)
    requires |masters| == 2 && masters[0] < |s.members| && masters[1] < |s.members|
    requires Alive(s, masters, 0) && Alive(s, masters, 1)
    ensures TakesNoMore(s, masters, 0, id)
    ensures TakesNoMore(s, masters, 1, id) <==> (id !in s.members[masters[0]].List() ==>
      FreePorts(s.View(masters[1]), id) <= if id in s.members[masters[1]].List() then 1 else 2)
  {
    FreeIsShared(s, masters[1], id);
    assert Asked(s, masters, 0, id) == 0;
    assert Left(s, masters, 0, id) == FreePorts(World(s.fdbs, s.objects, map[]), id);
    assert Asked(s, masters, 1, id) == if id !in s.members[masters[0]].List() then 1 else 0;
    assert Left(s, masters, 1, id) == Left(s, masters, 0, id) - Taken(s, masters, 0, id);
    assert Asked(s, masters, 2, id) == Asked(s, masters, 1, id) + if id !in s.members[masters[1]].List() then 1 else 0;
  }

  /** Ids are compared, not FDB objects: after `updateMasterFdb` a master is in the live FDB of an
      id exactly if it was before, or takes a port in it; and it has no id that is not live. */
  lemma {:induction false} LiveIff(cs: seq<Carry>, s: System, masters: seq<nat>, visits: seq<Visit>, m: nat, id: nat)
    requires IsLoop(cs, s, masters, visits, |masters|) && IsUpdate(s, masters, visits) && SystemSound(s)
    requires m < |masters| && Alive(s, masters, m)
    ensures var s' := cs[|masters|].s;
      && s'.fdbs == s.fdbs && |s'.members| == |s.members|
      && (id in s.fdbs ==>
           (Live(s'.View(masters[m]), id) <==> Live(s.View(masters[m]), id) || Taken(s, masters, m, id) > 0))
      && (id !in s.fdbs ==> id !in s'.members[masters[m]].List())
  {
    LoopKeeps(cs, s, masters, visits, |masters|);
    MasterStands(cs, s, masters, visits, m, id);
  }
}
