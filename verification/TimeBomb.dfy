/**
 The time bomb of server/timebomb: a pause counter, a `defused` flag, a countdown
 and at most one stored timer.

 `Call` is the specification of every method as a function on values; class
 `TimeBomb` is the source's object, proved to do exactly what `Call` says.
 Timers live in a `Clock`, the model of Go's runtime timers: `time.AfterFunc`
 adds a pending timer, `Stop` stops one that is still pending.
 */
module TimeBombs {
  import opened Options

  datatype Status = Pending | Fired | Stopped

  /** A runtime timer; `owner` is the bomb whose `detonate` it will run. */
  datatype Timer = Timer(owner: nat, armedAt: int, countdown: int, status: Status)

  datatype Clock = Clock(now: int, timers: seq<Timer>)

  predicate IsPending(c: Clock, t: nat) {
    t < |c.timers| && c.timers[t].status == Pending
  }

  predicate Due(c: Clock, t: nat)
    requires t < |c.timers|
  {
    c.timers[t].armedAt + c.timers[t].countdown <= c.now
  }

  function AddTimer(c: Clock, countdown: int, owner: nat): Clock {
    c.(timers := c.timers + [Timer(owner, c.now, countdown, Pending)])
  }

  function SetStatus(c: Clock, t: nat, status: Status): Clock
    requires t < |c.timers|
  {
    c.(timers := c.timers[t := c.timers[t].(status := status)])
  }

  function StopTimer(c: Clock, t: nat): Clock {
    if IsPending(c, t) then SetStatus(c, t, Stopped) else c
  }

  /** `id` and `handle` are what the bomb's `detonate` closure captured. */
  datatype Bomb = Bomb(id: nat, handle: string, countdown: int, pauses: int, defused: bool, timer: Option<nat>)

  datatype Method = Strap | Pause | Defuse | Unpause | Reset(countdown: int)

  datatype Fuse = Fuse(bomb: Bomb, clock: Clock)

  function NewBomb(id: nat, handle: string, countdown: int): Bomb {
    Bomb(id, handle, countdown, 0, false, None)
  }

  function Arm(b: Bomb, c: Clock): Fuse {
    Fuse(b.(timer := Some(|c.timers|)), AddTimer(c, b.countdown, b.id))
  }

  function StopStored(b: Bomb, c: Clock): Clock {
    if b.timer.Some? then StopTimer(c, b.timer.value) else c
  }

  /** What each method of the bomb does to the bomb and to the runtime's timers. */
  function Call(b: Bomb, c: Clock, m: Method): Fuse {
    match m
    case Strap => Arm(b, c)
    case Pause => Fuse(b.(timer := None, pauses := b.pauses + 1), StopStored(b, c))
    case Defuse => Fuse(b.(timer := None, defused := true), StopStored(b, c))
    case Unpause =>
      var b' := b.(pauses := b.pauses - 1);
      if !b'.defused && b'.pauses == 0 && b'.countdown != 0 then Arm(b', c) else Fuse(b', c)
    case Reset(countdown) =>
      var b', c' := b.(countdown := countdown), StopStored(b, c);
      if b.timer.Some? || b.pauses == 0 then Arm(b', c') else Fuse(b', c')
  }

  // ---------- the bomb's invariant ----------

  /**
   What holds of a bomb between calls: the stored timer is its own, was never
   stopped and counts down the current countdown; a paused or defused bomb stores
   none; and every pending timer that would detonate it is the stored one.
   */
  ghost predicate BombInv(b: Bomb, c: Clock) {
    && (b.timer.Some? ==>
          && b.timer.value < |c.timers|
          && c.timers[b.timer.value].owner == b.id
          && c.timers[b.timer.value].countdown == b.countdown
          && c.timers[b.timer.value].status != Stopped)
    && (b.pauses > 0 ==> b.timer.None?)
    && (b.defused ==> b.timer.None?)
    && forall t | 0 <= t < |c.timers| :: c.timers[t].owner == b.id && c.timers[t].status == Pending ==> b.timer == Some(t)
  }

  /** The calls the manager may make: it straps only new bombs and resets only live ones. */
  ghost predicate MayCall(b: Bomb, m: Method) {
    && (m.Strap? ==> b.pauses == 0 && !b.defused && b.timer.None?)
    && (m.Reset? ==> !b.defused)
  }

  /** From `c` to `c'` only timers of bomb `id` changed: some were stopped, some were armed now. */
  ghost predicate OnlyTouches(c: Clock, c': Clock, id: nat) {
    && c'.now == c.now
    && |c.timers| <= |c'.timers|
    && (forall t | 0 <= t < |c.timers| ::
          c'.timers[t] == c.timers[t] || (c.timers[t].owner == id && c'.timers[t] == c.timers[t].(status := Stopped)))
    && (forall t | |c.timers| <= t < |c'.timers| ::
          c'.timers[t].owner == id && c'.timers[t].armedAt == c.now && c'.timers[t].status == Pending)
  }

  lemma CallKeepsInv(b: Bomb, c: Clock, m: Method)
    requires BombInv(b, c) && MayCall(b, m)
    ensures BombInv(Call(b, c, m).bomb, Call(b, c, m).clock)
    ensures OnlyTouches(c, Call(b, c, m).clock, b.id)
  {
  }

  lemma OtherBombsUnaffected(b: Bomb, c: Clock, c': Clock, id: nat)
    requires BombInv(b, c) && OnlyTouches(c, c', id) && b.id != id
    ensures BombInv(b, c')
  {
  }

  // ---------- the source's objects ----------

  /** Go's runtime timers as one mutable object. */
  class TimerHeap {
    var now: int
    var timers: seq<Timer>

    ghost function Abs(): Clock
      reads this
    {
      Clock(now, timers)
    }

    method AfterFunc(countdown: int, owner: nat) returns (t: nat)
      modifies this`timers
      ensures t == old(|timers|)
      ensures Abs() == AddTimer(old(Abs()), countdown, owner)
    {
      t := |timers|;
      timers := timers + [Timer(owner, now, countdown, Pending)];
    }

    method Stop(t: nat) returns (stopped: bool)
      requires t < |timers|
      modifies this`timers
      ensures stopped <==> old(timers[t].status) == Pending
      ensures Abs() == StopTimer(old(Abs()), t)
    {
      stopped := timers[t].status == Pending;
      if stopped {
        timers := timers[t := timers[t].(status := Stopped)];
      }
    }
  }

  class TimeBomb {
    const id: nat
    const handle: string
    const heap: TimerHeap
    var countdown: int
    var pauses: int
    var defused: bool
    var timer: Option<nat>

    ghost function Abs(): Bomb
      reads this
    {
      Bomb(id, handle, countdown, pauses, defused, timer)
    }

    constructor (id: nat, handle: string, heap: TimerHeap, countdown: int)
      ensures Abs() == NewBomb(id, handle, countdown) && this.heap == heap
    {
      this.id, this.handle, this.heap := id, handle, heap;
      this.countdown, pauses, defused, timer := countdown, 0, false, None;
    }

    /** The stored timer is one the runtime knows. */
    ghost predicate Stored()
      reads this, heap
    {
      timer.Some? ==> timer.value < |heap.timers|
    }

    method Strap()
      modifies this`timer, heap`timers
      ensures Fuse(Abs(), heap.Abs()) == Call(old(Abs()), old(heap.Abs()), Method.Strap)
    {
      var t := heap.AfterFunc(countdown, id);
      timer := Some(t);
    }

    method Pause() returns (stopped: bool)
      requires Stored()
      modifies this`timer, this`pauses, heap`timers
      ensures Fuse(Abs(), heap.Abs()) == Call(old(Abs()), old(heap.Abs()), Method.Pause)
      ensures stopped <==> old(timer.None? || heap.timers[timer.value].status == Pending)
    {
      var stored := timer;
      timer := None;
      pauses := pauses + 1;
      if stored.None? {
        return true;
      }
      stopped := heap.Stop(stored.value);
    }

    method Defuse() returns (stopped: bool)
      requires Stored()
      modifies this`timer, this`defused, heap`timers
      ensures Fuse(Abs(), heap.Abs()) == Call(old(Abs()), old(heap.Abs()), Method.Defuse)
      ensures stopped <==> old(timer.None? || heap.timers[timer.value].status == Pending)
    {
      defused := true;
      var stored := timer;
      timer := None;
      if stored.None? {
        return true;
      }
      stopped := heap.Stop(stored.value);
    }

    method Unpause()
      modifies this`timer, this`pauses, heap`timers
      ensures Fuse(Abs(), heap.Abs()) == Call(old(Abs()), old(heap.Abs()), Method.Unpause)
    {
      pauses := pauses - 1;
      if !defused && pauses == 0 && countdown != 0 {
        var t := heap.AfterFunc(countdown, id);
        timer := Some(t);
      }
    }

    method Reset(countdown: int)
      requires Stored()
      modifies this`timer, this`countdown, heap`timers
      ensures Fuse(Abs(), heap.Abs()) == Call(old(Abs()), old(heap.Abs()), Method.Reset(countdown))
    {
      this.countdown := countdown;
      if timer.Some? {
        var _ := heap.Stop(timer.value);
      }
      if timer.Some? || pauses == 0 {
        var t := heap.AfterFunc(this.countdown, id);
        timer := Some(t);
      }
    }
  }
}
