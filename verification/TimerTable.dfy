/** The timer wheel of `src/vendor/timer/timer.go` as an object. */
module TimerTable {
  import opened Machine
  import opened TimerWheel
  import opened TimerRuns

  lemma {:induction false} LaunchedNext(timers: seq<Timer>, vec: Bucket, n: nat)
    requires n < |vec|
    ensures Launched(timers, vec[..n + 1])
      == if vec[n].Some? && vec[n].value < |timers|
         then Launched(timers, vec[..n])[vec[n].value := Launched(timers, vec[..n])[vec[n].value].(index := -1)]
         else Launched(timers, vec[..n])
  {
    assert vec[..n + 1] == vec[..n] + [vec[n]];
    forall t: nat | t < |timers| ensures Some(t) in vec[..n + 1] <==> Some(t) in vec[..n] || vec[n] == Some(t) {
    }
  }

  class WheelObject {
    var jiffies: nat
    var tv: seq<seq<Bucket>>
    var timers: seq<Timer>

    ghost function View(): Wheel
      reads this
    {
      Wheel(jiffies, tv, timers)
    }

    constructor ()
      ensures View() == NewWheel()
    {
      jiffies, tv, timers := 0, seq(5, l => seq(if l == 0 then 256 else 64, _ => [])), [];
    }

    /** `addTimerInternal`. */
    method AddTimerInternal(t: nat, expires: nat)
      requires Shape(tv) && t < |timers|
      modifies this
      ensures View() == Added(old(View()), t, expires)
    {
      var level, v := LevelFor(expires, jiffies), Virtual(expires, jiffies);
      var slot := SlotFor(level, v);
      var b := tv[level][slot];
      tv := Put(tv, level, slot, b + [Some(t)]);
      timers := timers[t := Timer(expires, level, slot, |b|, Max(expires, jiffies), v)];
    }

    /** `delTimer`: it never finds another timer in the place. */
    method DelTimer(t: nat) returns (ok: bool)
      requires Ok(View(), {}, 0) && t < |timers|
      modifies this
      ensures ok == old(Pending(View(), t))
      ensures View() == Next(old(View()), Stop(t)) && Ok(View(), {}, 0)
    {
      NextKeeps(View(), Stop(t));
      assert TimerOk(View(), {}, 0, t);
      var T := timers[t];
      if T.index == -1 {
        return false;
      }
      tv := Put(tv, T.level, T.slot, tv[T.level][T.slot][T.index := None]);
      timers := timers[t := T.(index := -1)];
      return true;
    }

    /** `cascade`. */
    method Cascade(level: nat) returns (index: nat)
      requires Shape(tv) && 1 <= level < 5
      modifies this
      ensures index == SlotFor(level, old(jiffies)) && View() == Cascaded(old(View()), level)
    {
      index := SlotFor(level, jiffies);
      var vec := tv[level][index];
      tv := Put(tv, level, index, []);
      ghost var w := View();
      var i := 0;
      while i < |vec|
        invariant 0 <= i <= |vec| && View() == Readded(w, vec, i)
      {
        AddOne(vec[i]);
        i := i + 1;
      }
    }

    /** One entry of a bucket is handed down, unless it is a hole. */
    method AddOne(entry: Option<nat>)
      requires Shape(tv)
      modifies this
      ensures View() == if entry.None? || entry.value >= |old(timers)| then old(View())
        else Added(old(View()), entry.value, old(timers)[entry.value].expires)
    {
      if entry.Some? && entry.value < |timers| {
        AddTimerInternal(entry.value, timers[entry.value].expires);
      }
    }

    /** The cascades of a tick: a vector follows when the index of the one before is 0. */
    method CascadeAll()
      requires Shape(tv)
      modifies this
      ensures View() == Prepared(old(View()), Cascades(old(jiffies)))
    {
      ghost var w := View();
      if jiffies % 0x100 != 0 {
        return;
      }
      var level := 1;
      var index := Cascade(level);
      while index == 0 && level < 4
        invariant 1 <= level <= Cascades(w.jiffies) && View() == Prepared(w, level)
        invariant index == SlotFor(level, w.jiffies)
        decreases 4 - level
      {
        level := level + 1;
        index := Cascade(level);
      }
    }

    /** The timers of the bucket cannot be stopped any more. */
    method Launch(doVec: Bucket)
      modifies `timers
      ensures timers == Launched(old(timers), doVec)
    {
      var i := 0;
      while i < |doVec|
        invariant 0 <= i <= |doVec| && timers == Launched(old(timers), doVec[..i])
      {
        LaunchedNext(old(timers), doVec, i);
        if doVec[i].Some? && doVec[i].value < |timers| {
          timers := timers[doVec[i].value := timers[doVec[i].value].(index := -1)];
        }
        i := i + 1;
      }
      assert doVec[..|doVec|] == doVec;
    }

    /** `onTick`: the timers of the bucket are run, in the order in which they are in there. */
    method OnTick() returns (doVec: Bucket)
      requires Shape(tv)
      modifies this
      ensures doVec == Running(old(View())) && View() == Ticked(old(View()))
    {
      CascadeAll();
      var slot := jiffies % 256;
      jiffies := jiffies + 1;
      doVec := tv[0][slot];
      tv := Put(tv, 0, slot, []);
      Launch(doVec);
    }
  }
}
