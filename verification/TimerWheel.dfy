/** The timer wheel of `src/vendor/timer/timer.go`: five vectors of buckets, of which the first has
    one bucket per tick, and from which timers are handed down as their time comes nearer. */
module TimerWheel {
  import opened Machine

  /** A bucket, with a hole for every timer that was stopped. */
  type Bucket = seq<Option<nat>>

  /** A timer. `index` is -1 while it is in no bucket. Besides, `due` is the tick at which it has to
      run, and `virt` the tick that its bucket was chosen for. */
  datatype Timer = Timer(expires: nat, level: nat, slot: nat, index: Index, due: nat, virt: nat)

  type Index = i: int | -1 <= i

  /** `tv` are the vectors `tv1` to `tv5`. Ticks are counted without wrap-around. */
  datatype Wheel = Wheel(jiffies: nat, tv: seq<seq<Bucket>>, timers: seq<Timer>)

  predicate Shape(tv: seq<seq<Bucket>>) {
    |tv| == 5 && forall l :: 0 <= l < 5 ==> |tv[l]| == if l == 0 then 256 else 64
  }

  function Max(a: nat, b: nat): nat {
    if a >= b then a else b
  }

  // ----- addTimerInternal -----

  /** How often the buckets of a vector fit into `v` ticks. */
  function Unit(level: nat, v: nat): nat {
    match level
    case 0 => v
    case 1 => v / 0x100
    case 2 => v / 0x4000
    case 3 => v / 0x10_0000
    case _ => v / 0x400_0000
  }

  /** The tick is the first of a bucket. */
  predicate IsFirst(level: nat, v: nat) {
    match level
    case 0 => true
    case 1 => v % 0x100 == 0
    case 2 => v % 0x4000 == 0
    case 3 => v % 0x10_0000 == 0
    case _ => v % 0x400_0000 == 0
  }

  function LevelFor(expires: nat, now: nat): (level: nat)
    ensures level < 5
  {
    if expires < now + 0x100 then 0
    else if expires < now + 0x4000 then 1
    else if expires < now + 0x10_0000 then 2
    else if expires < now + 0x400_0000 then 3
    else 4
  }

  /** A timer that has expired already goes to the next tick, and one too far away to the last
      bucket but one round. */
  function Virtual(expires: nat, now: nat): nat {
    if expires < now then now
    else if expires - now > 0xFFFF_FFFF then now + 0xFFFF_FFFF
    else expires
  }

  function SlotFor(level: nat, v: nat): (slot: nat)
    ensures slot < if level == 0 then 256 else 64
  {
    Unit(level, v) % if level == 0 then 256 else 64
  }

  function Put(tv: seq<seq<Bucket>>, level: nat, slot: nat, b: Bucket): (tv': seq<seq<Bucket>>)
    requires Shape(tv) && level < 5 && slot < |tv[level]|
    ensures Shape(tv')
    ensures forall l, s :: 0 <= l < 5 && 0 <= s < |tv[l]| ==>
      tv'[l][s] == if l == level && s == slot then b else tv[l][s]
  {
    tv[level := tv[level][slot := b]]
  }

  function Added(w: Wheel, t: nat, expires: nat): Wheel
    requires Shape(w.tv) && t < |w.timers|
  {
    var v, level := Virtual(expires, w.jiffies), LevelFor(expires, w.jiffies);
    var slot := SlotFor(level, v);
    var b := w.tv[level][slot];
    w.(tv := Put(w.tv, level, slot, b + [Some(t)]),
       timers := w.timers[t := Timer(expires, level, slot, |b|, Max(expires, w.jiffies), v)])
  }

  // ----- delTimer -----

  predicate Pending(w: Wheel, t: nat) {
    t < |w.timers| && w.timers[t].index >= 0
  }

  /** The timer is where it says. */
  predicate Found(w: Wheel, t: nat)
    requires t < |w.timers| && Shape(w.tv)
  {
    var T := w.timers[t];
    && T.level < 5 && T.slot < |w.tv[T.level]|
    && 0 <= T.index < |w.tv[T.level][T.slot]| && w.tv[T.level][T.slot][T.index] == Some(t)
  }

  function Deleted(w: Wheel, t: nat): Wheel
    requires Shape(w.tv) && t < |w.timers| && Found(w, t)
  {
    var T := w.timers[t];
    w.(tv := Put(w.tv, T.level, T.slot, w.tv[T.level][T.slot][T.index := None]),
       timers := w.timers[t := T.(index := -1)])
  }

  // ----- cascade, onTick -----

  /** The first `n` timers of a bucket are handed down. */
  function Readded(w: Wheel, vec: Bucket, n: nat): (w': Wheel)
    requires Shape(w.tv) && n <= |vec|
    ensures Shape(w'.tv) && |w'.timers| == |w.timers| && w'.jiffies == w.jiffies
  {
    if n == 0 then w
    else
      var before := Readded(w, vec, n - 1);
      if vec[n - 1].None? || vec[n - 1].value >= |w.timers| then before
      else Added(before, vec[n - 1].value, before.timers[vec[n - 1].value].expires)
  }

  function Emptied(w: Wheel, level: nat, slot: nat): (w': Wheel)
    requires Shape(w.tv) && level < 5 && slot < |w.tv[level]|
    ensures Shape(w'.tv) && w'.timers == w.timers && w'.jiffies == w.jiffies
  {
    w.(tv := Put(w.tv, level, slot, []))
  }

  function Cascaded(w: Wheel, level: nat): (w': Wheel)
    requires Shape(w.tv) && level < 5
    ensures Shape(w'.tv) && |w'.timers| == |w.timers| && w'.jiffies == w.jiffies
  {
    var slot := SlotFor(level, w.jiffies);
    var vec := w.tv[level][slot];
    Readded(Emptied(w, level, slot), vec, |vec|)
  }

  /** How many vectors are cascaded at a tick: the next one whenever the index of the one before is
      0. */
  function Cascades(now: nat): (n: nat)
    ensures n < 5
  {
    if now % 0x100 != 0 then 0
    else if SlotFor(1, now) != 0 then 1
    else if SlotFor(2, now) != 0 then 2
    else if SlotFor(3, now) != 0 then 3
    else 4
  }

  function Prepared(w: Wheel, n: nat): (w': Wheel)
    requires Shape(w.tv) && n < 5
    ensures Shape(w'.tv) && |w'.timers| == |w.timers| && w'.jiffies == w.jiffies
  {
    if n == 0 then w else Cascaded(Prepared(w, n - 1), n)
  }

  /** The timers of the bucket cannot be stopped any more. */
  function Launched(timers: seq<Timer>, vec: Bucket): (timers': seq<Timer>)
    ensures |timers'| == |timers|
    ensures forall t :: 0 <= t < |timers| ==>
      timers'[t] == if Some(t) in vec then timers[t].(index := -1) else timers[t]
  {
    seq(|timers|, t requires 0 <= t < |timers| => if Some(t) in vec then timers[t].(index := -1) else timers[t])
  }

  /** The bucket that is run at this tick. */
  function Running(w: Wheel): Bucket
    requires Shape(w.tv)
  {
    Prepared(w, Cascades(w.jiffies)).tv[0][w.jiffies % 256]
  }

  /** What a tick leaves when the bucket at `slot` has been launched. */
  function Shifted(p: Wheel, slot: nat): (w': Wheel)
    requires Shape(p.tv) && slot < 256
    ensures Shape(w'.tv) && |w'.timers| == |p.timers| && w'.jiffies == p.jiffies + 1
  {
    Wheel(p.jiffies + 1, Put(p.tv, 0, slot, []), Launched(p.timers, p.tv[0][slot]))
  }

  function Ticked(w: Wheel): (w': Wheel)
    requires Shape(w.tv)
    ensures Shape(w'.tv) && |w'.timers| == |w.timers| && w'.jiffies == w.jiffies + 1
  {
    Shifted(Prepared(w, Cascades(w.jiffies)), w.jiffies % 256)
  }

  // ----- The invariant -----

  /** The first bucket of a vector that has not been handed down, when those of the first `done`
      vectors have been at this tick. */
  function Lowest(level: nat, now: nat, done: nat): nat {
    if IsFirst(level, now) && level > done then Unit(level, now) else Unit(level, now) + 1
  }

  predicate InWindow(T: Timer, now: nat, done: nat) {
    && now <= T.due && T.level < 5 && T.slot == SlotFor(T.level, T.virt)
    && if T.level == 0 then T.virt == T.due < now + 256
       else
         && T.virt <= T.due == T.expires && (T.level < 4 ==> T.virt == T.due)
         && Lowest(T.level, now, done) <= Unit(T.level, T.virt) < Lowest(T.level, now, 0) + 64
  }

  /** A timer that is pending is where it says, in a bucket that comes in time; the loose ones have
      been taken out of their bucket to be handed down. */
  predicate TimerOk(w: Wheel, loose: set<nat>, done: nat, t: nat)
    requires Shape(w.tv)
  {
    Pending(w, t) ==>
      if t in loose then w.jiffies <= w.timers[t].due == w.timers[t].expires
      else Found(w, t) && InWindow(w.timers[t], w.jiffies, done)
  }

  /** What is in a bucket knows so. */
  predicate PlaceOk(w: Wheel, loose: set<nat>, level: nat, slot: nat, i: nat)
    requires Shape(w.tv) && level < 5 && slot < |w.tv[level]| && i < |w.tv[level][slot]|
  {
    w.tv[level][slot][i].Some? ==>
      var t := w.tv[level][slot][i].value;
      && t < |w.timers| && t !in loose
      && w.timers[t].level == level && w.timers[t].slot == slot && w.timers[t].index == i
  }

  ghost predicate Ok(w: Wheel, loose: set<nat>, done: nat) {
    && Shape(w.tv)
    && (forall t: nat :: TimerOk(w, loose, done, t))
    && (forall level: nat, slot: nat, i: nat ::
          level < 5 && slot < |w.tv[level]| && i < |w.tv[level][slot]| ==> PlaceOk(w, loose, level, slot, i))
  }

  // ----- Adding and stopping -----

  lemma {:induction false} AddWindow(expires: nat, now: nat, done: nat)
    ensures var level, v := LevelFor(expires, now), Virtual(expires, now);
      InWindow(Timer(expires, level, SlotFor(level, v), 0, Max(expires, now), v), now, done)
  {
  }

  lemma {:induction false} IndexFree(T: Timer, now: nat, done: nat, i: Index)
    ensures InWindow(T.(index := i), now, done) == InWindow(T, now, done)
  {
  }

  lemma {:induction false} AddedOthers(w: Wheel, t: nat, expires: nat, loose: set<nat>, done: nat, o: nat)
    requires Ok(w, loose, done) && t < |w.timers| && (Pending(w, t) ==> t in loose) && o != t
    ensures TimerOk(Added(w, t, expires), loose - {t}, done, o)
  {
    assert TimerOk(w, loose, done, o);
  }

  lemma {:induction false} AddedItself(w: Wheel, t: nat, expires: nat, loose: set<nat>, done: nat)
    requires Ok(w, loose, done) && t < |w.timers|
    ensures TimerOk(Added(w, t, expires), loose - {t}, done, t) && Pending(Added(w, t, expires), t)
    ensures Added(w, t, expires).timers[t].due == Max(expires, w.jiffies)
  {
    AddWindow(expires, w.jiffies, done);
    IndexFree(Added(w, t, expires).timers[t], w.jiffies, done, 0);
  }

  lemma {:induction false} AddedPlaces(w: Wheel, t: nat, expires: nat, loose: set<nat>, done: nat,
      level: nat, slot: nat, i: nat)
    requires Ok(w, loose, done) && t < |w.timers| && (Pending(w, t) ==> t in loose)
    requires var tv := Added(w, t, expires).tv; level < 5 && slot < |tv[level]| && i < |tv[level][slot]|
    ensures PlaceOk(Added(w, t, expires), loose - {t}, level, slot, i)
  {
    if i < |w.tv[level][slot]| {
      assert PlaceOk(w, loose, level, slot, i);
    }
  }

  /** `addTimerInternal` for a timer that is in no bucket. */
  lemma {:induction false} AddedKeeps(w: Wheel, t: nat, expires: nat, loose: set<nat>, done: nat)
    requires Ok(w, loose, done) && t < |w.timers| && (Pending(w, t) ==> t in loose)
    ensures Ok(Added(w, t, expires), loose - {t}, done)
    ensures Pending(Added(w, t, expires), t) && Added(w, t, expires).timers[t].due == Max(expires, w.jiffies)
  {
    var w' := Added(w, t, expires);
    AddedItself(w, t, expires, loose, done);
    forall o: nat ensures TimerOk(w', loose - {t}, done, o) {
      if o != t {
        AddedOthers(w, t, expires, loose, done, o);
      }
    }
    forall level: nat, slot: nat, i: nat | level < 5 && slot < |w'.tv[level]| && i < |w'.tv[level][slot]|
      ensures PlaceOk(w', loose - {t}, level, slot, i)
    {
      AddedPlaces(w, t, expires, loose, done, level, slot, i);
    }
  }

  /** `delTimer` finds every pending timer where it says, and takes out that one alone. */
  lemma {:induction false} DeletedKeeps(w: Wheel, t: nat)
    requires Ok(w, {}, 0) && Pending(w, t)
    ensures Found(w, t) && Ok(Deleted(w, t), {}, 0)
    ensures !Pending(Deleted(w, t), t)
    ensures forall o: nat :: o != t ==> (Pending(Deleted(w, t), o) <==> Pending(w, o))
    ensures forall o: nat :: o < |w.timers| ==> Deleted(w, t).timers[o].due == w.timers[o].due
  {
    assert TimerOk(w, {}, 0, t);
    var w' := Deleted(w, t);
    forall o: nat ensures TimerOk(w', {}, 0, o) {
      assert TimerOk(w, {}, 0, o);
    }
    forall level: nat, slot: nat, i: nat | level < 5 && slot < |w'.tv[level]| && i < |w'.tv[level][slot]|
      ensures PlaceOk(w', {}, level, slot, i)
    {
      assert PlaceOk(w, {}, level, slot, i);
    }
  }

  // ----- Handing down -----

  /** The same timers are pending, and due at the same ticks. */
  ghost predicate SameDue(w: Wheel, w': Wheel) {
    && w'.jiffies == w.jiffies && |w'.timers| == |w.timers|
    && forall t: nat :: t < |w.timers| ==> (Pending(w', t) <==> Pending(w, t)) && w'.timers[t].due == w.timers[t].due
  }

  /** The timers of a bucket from position `n` on. */
  function Rest(vec: Bucket, n: nat): set<nat>
    requires n <= |vec|
  {
    set i | n <= i < |vec| && vec[i].Some? :: vec[i].value
  }

  predicate NoRepeats(vec: Bucket) {
    forall i, j :: 0 <= i < j < |vec| && vec[i].Some? ==> vec[i] != vec[j]
  }

  lemma {:induction false} BucketTimers(w: Wheel, done: nat, level: nat, slot: nat)
    requires Ok(w, {}, done) && level < 5 && slot < |w.tv[level]|
    ensures NoRepeats(w.tv[level][slot])
    ensures forall t :: t in Rest(w.tv[level][slot], 0) ==>
      Pending(w, t) && TimerOk(w, {}, done, t) && w.timers[t].level == level && w.timers[t].slot == slot
  {
    var vec := w.tv[level][slot];
    forall i, j | 0 <= i < j < |vec| && vec[i].Some? ensures vec[i] != vec[j] {
      assert PlaceOk(w, {}, level, slot, i) && PlaceOk(w, {}, level, slot, j);
    }
    forall t | t in Rest(vec, 0)
      ensures Pending(w, t) && TimerOk(w, {}, done, t) && w.timers[t].level == level && w.timers[t].slot == slot
    {
      var i: nat :| i < |vec| && vec[i] == Some(t);
      assert PlaceOk(w, {}, level, slot, i);
    }
  }

  /** A timer in another bucket of the vector that is handed down is not due in this one. */
  lemma {:induction false} OtherBucket(T: Timer, now: nat, level: nat)
    requires 1 <= level < 5 && IsFirst(level, now) && InWindow(T, now, level - 1)
    requires T.level == level ==> T.slot != SlotFor(level, now)
    ensures InWindow(T, now, level)
  {
  }

  lemma {:induction false} EmptiedKeeps(w: Wheel, level: nat)
    requires 1 <= level < 5 && IsFirst(level, w.jiffies) && Ok(w, {}, level - 1)
    ensures var slot := SlotFor(level, w.jiffies);
      Ok(Emptied(w, level, slot), Rest(w.tv[level][slot], 0), level)
  {
    var slot := SlotFor(level, w.jiffies);
    var vec := w.tv[level][slot];
    var w' := Emptied(w, level, slot);
    BucketTimers(w, level - 1, level, slot);
    forall t: nat ensures TimerOk(w', Rest(vec, 0), level, t) {
      assert TimerOk(w, {}, level - 1, t);
      if Pending(w, t) && t !in Rest(vec, 0) {
        OtherBucket(w.timers[t], w.jiffies, level);
      }
    }
    forall l: nat, s: nat, i: nat | l < 5 && s < |w'.tv[l]| && i < |w'.tv[l][s]|
      ensures PlaceOk(w', Rest(vec, 0), l, s, i)
    {
      assert PlaceOk(w, {}, l, s, i);
    }
  }

  lemma {:induction false} RestNext(vec: Bucket, n: nat)
    requires n < |vec| && NoRepeats(vec)
    ensures vec[n].Some? ==> vec[n].value in Rest(vec, n) && Rest(vec, n + 1) == Rest(vec, n) - {vec[n].value}
    ensures vec[n].None? ==> Rest(vec, n + 1) == Rest(vec, n)
  {
  }

  lemma {:induction false} ReaddedKeeps(w: Wheel, vec: Bucket, n: nat, done: nat)
    requires Ok(w, Rest(vec, 0), done) && NoRepeats(vec) && n <= |vec|
    requires forall t :: t in Rest(vec, 0) ==> Pending(w, t)
    ensures Ok(Readded(w, vec, n), Rest(vec, n), done) && SameDue(w, Readded(w, vec, n))
  {
    if n > 0 {
      ReaddedKeeps(w, vec, n - 1, done);
      RestNext(vec, n - 1);
      var before := Readded(w, vec, n - 1);
      if vec[n - 1].Some? {
        var t := vec[n - 1].value;
        assert t in Rest(vec, 0);
        assert TimerOk(before, Rest(vec, n - 1), done, t);
        AddedKeeps(before, t, before.timers[t].expires, Rest(vec, n - 1), done);
      }
    }
  }

  /** `cascade` moves every timer of the bucket to where it will be found in time. */
  lemma {:induction false} CascadedKeeps(w: Wheel, level: nat)
    requires 1 <= level < 5 && IsFirst(level, w.jiffies) && Ok(w, {}, level - 1)
    ensures Ok(Cascaded(w, level), {}, level) && SameDue(w, Cascaded(w, level))
  {
    var slot := SlotFor(level, w.jiffies);
    var vec := w.tv[level][slot];
    BucketTimers(w, level - 1, level, slot);
    EmptiedKeeps(w, level);
    ReaddedKeeps(Emptied(w, level, slot), vec, |vec|, level);
    assert Rest(vec, |vec|) == {};
  }

  lemma {:induction false} SecondBegins(now: nat)
    ensures now % 0x4000 == 0 <==> now % 0x100 == 0 && now / 0x100 % 64 == 0
  {
    SecondDigits(now / 0x100 / 64, now / 0x100 % 64, now % 0x100);
  }

  lemma {:induction false} SecondDigits(k: nat, s: nat, r: nat)
    requires s < 64 && r < 0x100
    ensures (k * 0x4000 + s * 0x100 + r) % 0x4000 == s * 0x100 + r
  {
  }

  lemma {:induction false} ThirdBegins(now: nat)
    ensures now % 0x10_0000 == 0 <==> now % 0x4000 == 0 && now / 0x4000 % 64 == 0
  {
    ThirdDigits(now / 0x4000 / 64, now / 0x4000 % 64, now % 0x4000);
  }

  lemma {:induction false} ThirdDigits(k: nat, s: nat, r: nat)
    requires s < 64 && r < 0x4000
    ensures (k * 0x10_0000 + s * 0x4000 + r) % 0x10_0000 == s * 0x4000 + r
  {
  }

  lemma {:induction false} FourthBegins(now: nat)
    ensures now % 0x400_0000 == 0 <==> now % 0x10_0000 == 0 && now / 0x10_0000 % 64 == 0
  {
    FourthDigits(now / 0x10_0000 / 64, now / 0x10_0000 % 64, now % 0x10_0000);
  }

  lemma {:induction false} FourthDigits(k: nat, s: nat, r: nat)
    requires s < 64 && r < 0x10_0000
    ensures (k * 0x400_0000 + s * 0x10_0000 + r) % 0x400_0000 == s * 0x10_0000 + r
  {
  }

  /** No timer goes back to the bucket that is being handed down: the new contents of the bucket
      share their memory with the old ones, which are still being read. */
  lemma {:induction false} CascadeSparesBucket(expires: nat, now: nat, level: nat)
    requires 1 <= level < 5 && IsFirst(level, now) && now <= expires && LevelFor(expires, now) == level
    ensures SlotFor(level, Virtual(expires, now)) != SlotFor(level, now)
  {
    AddWindow(expires, now, level);
    var v := Virtual(expires, now);
    OtherUnit(Unit(level, v), Unit(level, now));
  }

  lemma {:induction false} OtherUnit(u: nat, now: nat)
    requires now < u < now + 64
    ensures u % 64 != now % 64
  {
  }

  /** A vector is cascaded exactly when its next bucket begins. */
  lemma {:induction false} CascadesFirst(now: nat, level: nat)
    requires 1 <= level < 5
    ensures IsFirst(level, now) <==> level <= Cascades(now)
  {
    SecondBegins(now);
    ThirdBegins(now);
    FourthBegins(now);
    Begins(now, now % 0x100 == 0, now % 0x4000 == 0, now % 0x10_0000 == 0, now % 0x400_0000 == 0);
  }

  lemma {:induction false} Begins(now: nat, first: bool, second: bool, third: bool, fourth: bool)
    requires first == (now % 0x100 == 0) && second == (first && SlotFor(1, now) == 0)
    requires third == (second && SlotFor(2, now) == 0) && fourth == (third && SlotFor(3, now) == 0)
    ensures Cascades(now) == if !first then 0 else if !second then 1 else if !third then 2 else if !fourth then 3 else 4
  {
  }

  lemma {:induction false} PreparedKeeps(w: Wheel, n: nat)
    requires n <= Cascades(w.jiffies) && Ok(w, {}, 0)
    ensures Ok(Prepared(w, n), {}, n) && SameDue(w, Prepared(w, n))
  {
    if n > 0 {
      PreparedKeeps(w, n - 1);
      CascadesFirst(w.jiffies, n);
      CascadedKeeps(Prepared(w, n - 1), n);
    }
  }

  // ----- A tick -----

  /** What is not in the bucket of this tick is due later. */
  lemma {:induction false} WindowShift(T: Timer, now: nat)
    requires InWindow(T, now, Cascades(now))
    ensures T.due == now <==> T.level == 0 && T.slot == now % 256
    ensures T.due != now ==> InWindow(T, now + 1, 0)
  {
    if 1 <= T.level {
      CascadesFirst(now, T.level);
    }
  }

  lemma {:induction false} RunsDue(p: Wheel, t: nat)
    requires Ok(p, {}, Cascades(p.jiffies))
    ensures Some(t) in p.tv[0][p.jiffies % 256] <==> Pending(p, t) && p.timers[t].due == p.jiffies
  {
    var slot := p.jiffies % 256;
    var vec := p.tv[0][slot];
    BucketTimers(p, Cascades(p.jiffies), 0, slot);
    assert TimerOk(p, {}, Cascades(p.jiffies), t);
    if Pending(p, t) {
      WindowShift(p.timers[t], p.jiffies);
    }
    if Some(t) in vec {
      assert t in Rest(vec, 0);
    }
  }

  /** A timer outside the launched bucket stays where it is. */
  lemma {:induction false} StaysFound(p: Wheel, slot: nat, t: nat)
    requires Shape(p.tv) && slot < 256 && t < |p.timers| && Found(p, t) && Some(t) !in p.tv[0][slot]
    ensures Shifted(p, slot).timers[t] == p.timers[t] && Found(Shifted(p, slot), t)
  {
  }

  /** A timer that is left is due later. */
  lemma {:induction false} LeftIsLater(p: Wheel, t: nat)
    requires Ok(p, {}, Cascades(p.jiffies)) && Pending(p, t) && Some(t) !in p.tv[0][p.jiffies % 256]
    ensures Found(p, t) && InWindow(p.timers[t], p.jiffies + 1, 0)
  {
    PendingWindow(p, {}, Cascades(p.jiffies), t);
    RunsDue(p, t);
    WindowShift(p.timers[t], p.jiffies);
  }

  lemma {:induction false} PendingWindow(w: Wheel, loose: set<nat>, done: nat, t: nat)
    requires Ok(w, loose, done) && Pending(w, t) && t !in loose
    ensures Found(w, t) && InWindow(w.timers[t], w.jiffies, done)
  {
    assert TimerOk(w, loose, done, t);
  }

  lemma {:induction false} TimerIsOk(w: Wheel, t: nat, T: Timer, now: nat)
    requires Shape(w.tv) && t < |w.timers| && Found(w, t) && w.timers[t] == T && w.jiffies == now && InWindow(T, now, 0)
    ensures TimerOk(w, {}, 0, t)
  {
  }

  lemma {:induction false} ShiftedTimer(p: Wheel, slot: nat, t: nat)
    requires slot == p.jiffies % 256 && Ok(p, {}, Cascades(p.jiffies))
    ensures TimerOk(Shifted(p, slot), {}, 0, t)
  {
    if Pending(Shifted(p, slot), t) {
      LeftIsLater(p, t);
      StaysFound(p, slot, t);
      TimerIsOk(Shifted(p, slot), t, p.timers[t], p.jiffies + 1);
    }
  }

  lemma {:induction false} ShiftedPlace(p: Wheel, slot: nat, l: nat, s: nat, i: nat)
    requires slot == p.jiffies % 256 && Ok(p, {}, Cascades(p.jiffies))
    requires l < 5 && s < |Shifted(p, slot).tv[l]| && i < |Shifted(p, slot).tv[l][s]|
    ensures PlaceOk(Shifted(p, slot), {}, l, s, i)
  {
    assert PlaceOk(p, {}, l, s, i);
    if p.tv[l][s][i].Some? {
      var t := p.tv[l][s][i].value;
      RunsDue(p, t);
      assert TimerOk(p, {}, Cascades(p.jiffies), t);
      WindowShift(p.timers[t], p.jiffies);
    }
  }

  lemma {:induction false} ShiftedKeeps(p: Wheel, slot: nat)
    requires slot == p.jiffies % 256 && Ok(p, {}, Cascades(p.jiffies))
    ensures Ok(Shifted(p, slot), {}, 0)
  {
    forall t: nat ensures TimerOk(Shifted(p, slot), {}, 0, t) {
      ShiftedTimer(p, slot, t);
    }
    forall l: nat, s: nat, i: nat | l < 5 && s < |Shifted(p, slot).tv[l]| && i < |Shifted(p, slot).tv[l][s]|
      ensures PlaceOk(Shifted(p, slot), {}, l, s, i)
    {
      ShiftedPlace(p, slot, l, s, i);
    }
  }

  /** A tick runs exactly the timers that are due at it, each once, and leaves the others pending. */
  lemma {:induction false} TickRunsExactlyDue(w: Wheel)
    requires Ok(w, {}, 0)
    ensures Ok(Ticked(w), {}, 0) && NoRepeats(Running(w))
    ensures forall t: nat :: Some(t) in Running(w) <==> Pending(w, t) && w.timers[t].due == w.jiffies
    ensures forall t: nat :: Pending(Ticked(w), t) <==> Pending(w, t) && w.timers[t].due != w.jiffies
    ensures forall t: nat :: t < |w.timers| ==> Ticked(w).timers[t].due == w.timers[t].due
  {
    var p := Prepared(w, Cascades(w.jiffies));
    PreparedKeeps(w, Cascades(w.jiffies));
    BucketTimers(p, Cascades(w.jiffies), 0, w.jiffies % 256);
    ShiftedKeeps(p, w.jiffies % 256);
    forall t: nat ensures Some(t) in Running(w) <==> Pending(w, t) && w.timers[t].due == w.jiffies {
      RunsDue(p, t);
    }
  }
}
