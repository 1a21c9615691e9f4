/**
 The bomb manager of server/bomberman: one loop owns the map from container handle
 to time bomb and is the only caller of the bombs' methods.

 `Manage` is the loop body as a function on values; class `Bomberman` is the loop
 over heap objects, proved to follow `Manage` signal by signal.
 */
module Bombermen {
  import opened TimeBombs

  datatype Signal =
    | Strap(handle: string, grace: int)
    | Defuse(handle: string)
    | Reset(handle: string, grace: int)
    | Pause(handle: string)
    | Unpause(handle: string)
    | Cleanup(handle: string)

  /** `bombs` holds every bomb ever made, by identity; `mapped` is the loop's own map. */
  datatype Core = Core(clock: Clock, bombs: seq<Bomb>, mapped: map<string, nat>)

  predicate Mapped(c: Core, handle: string) {
    handle in c.mapped && c.mapped[handle] < |c.bombs|
  }

  function OnBomb(c: Core, handle: string, m: Method): Core {
    if !Mapped(c, handle) then c else
    var f := Call(c.bombs[c.mapped[handle]], c.clock, m);
    c.(clock := f.clock, bombs := c.bombs[c.mapped[handle] := f.bomb])
  }

  /** One iteration of the manager's loop. */
  function Manage(c: Core, sig: Signal): Core {
    match sig
    case Strap(handle, grace) =>
      var b := NewBomb(|c.bombs|, handle, grace);
      var f := if grace != 0 then Call(b, c.clock, Method.Strap) else Fuse(b, c.clock);
      Core(f.clock, c.bombs + [f.bomb], c.mapped[handle := |c.bombs|])
    case Defuse(handle) =>
      var c' := OnBomb(c, handle, Method.Defuse);
      c'.(mapped := c'.mapped - {handle})
    case Reset(handle, grace) => OnBomb(c, handle, Method.Reset(grace))
    case Pause(handle) => OnBomb(c, handle, Method.Pause)
    case Unpause(handle) => OnBomb(c, handle, Method.Unpause)
    case Cleanup(handle) => c.(mapped := c.mapped - {handle})
  }

  function ManageAll(c: Core, sigs: seq<Signal>): Core {
    if sigs == [] then c else Manage(ManageAll(c, sigs[..|sigs| - 1]), sigs[|sigs| - 1])
  }

  lemma ManageAllOne(c: Core, sig: Signal)
    ensures ManageAll(c, [sig]) == Manage(c, sig)
  {
    assert [sig][..0] == [];
  }

  /** Stopping the loop in between makes no difference. */
  lemma {:induction false} ManageAllThen(c: Core, a: seq<Signal>, b: seq<Signal>)
    ensures ManageAll(c, a + b) == ManageAll(ManageAll(c, a), b)
  {
    if b == [] {
      assert a + b == a;
    } else {
      ManageAllThen(c, a, b[..|b| - 1]);
      assert (a + b)[..|a + b| - 1] == a + b[..|b| - 1];
    }
  }

  // ---------- the manager's invariant ----------

  ghost predicate CoreInv(c: Core) {
    && (forall i | 0 <= i < |c.bombs| :: c.bombs[i].id == i && BombInv(c.bombs[i], c.clock))
    && (forall t | 0 <= t < |c.clock.timers| ::
          c.clock.timers[t].owner < |c.bombs| && c.clock.timers[t].armedAt <= c.clock.now)
    && (forall h | h in c.mapped ::
          Mapped(c, h) && c.bombs[c.mapped[h]].handle == h && !c.bombs[c.mapped[h]].defused)
  }

  lemma OnBombKeepsInv(c: Core, handle: string, m: Method)
    requires CoreInv(c) && Mapped(c, handle) && MayCall(c.bombs[c.mapped[handle]], m) && !m.Defuse?
    ensures CoreInv(OnBomb(c, handle, m))
  {
    BombsStayValid(c, c.mapped[handle], m);
  }

  /** A call on bomb `id` keeps the invariant of that bomb and of every other. */
  lemma BombsStayValid(c: Core, id: nat, m: Method)
    requires CoreInv(c) && id < |c.bombs| && MayCall(c.bombs[id], m)
    ensures var f := Call(c.bombs[id], c.clock, m);
      && BombInv(f.bomb, f.clock)
      && OnlyTouches(c.clock, f.clock, id)
      && forall i | 0 <= i < |c.bombs| && i != id :: BombInv(c.bombs[i], f.clock)
  {
    CallKeepsInv(c.bombs[id], c.clock, m);
    var f := Call(c.bombs[id], c.clock, m);
    forall i | 0 <= i < |c.bombs| && i != id
      ensures BombInv(c.bombs[i], f.clock)
    {
      OtherBombsUnaffected(c.bombs[i], c.clock, f.clock, id);
    }
  }

  lemma StrapKeepsInv(c: Core, handle: string, grace: int)
    requires CoreInv(c)
    ensures CoreInv(Manage(c, Signal.Strap(handle, grace)))
  {
    var b := NewBomb(|c.bombs|, handle, grace);
    assert BombInv(b, c.clock);
    if grace != 0 {
      CallKeepsInv(b, c.clock, Method.Strap);
      var f := Call(b, c.clock, Method.Strap);
      forall i | 0 <= i < |c.bombs|
        ensures BombInv(c.bombs[i], f.clock)
      {
        OtherBombsUnaffected(c.bombs[i], c.clock, f.clock, b.id);
      }
    }
  }

  lemma ManageKeepsInv(c: Core, sig: Signal)
    requires CoreInv(c)
    ensures CoreInv(Manage(c, sig))
  {
    match sig
    case Strap(handle, grace) => StrapKeepsInv(c, handle, grace);
    case Defuse(handle) =>
      if Mapped(c, handle) {
        BombsStayValid(c, c.mapped[handle], Method.Defuse);
      }
    case Reset(handle, grace) => if Mapped(c, handle) { OnBombKeepsInv(c, handle, Method.Reset(grace)); }
    case Pause(handle) => if Mapped(c, handle) { OnBombKeepsInv(c, handle, Method.Pause); }
    case Unpause(handle) => if Mapped(c, handle) { OnBombKeepsInv(c, handle, Method.Unpause); }
    case Cleanup(handle) =>
  }

  // ---------- the source's object ----------

  class Bomberman {
    const heap: TimerHeap
    var timeBombs: map<string, TimeBomb>
    var made: nat  // the next bomb's identity; the source has pointers
    ghost var created: seq<TimeBomb>
    ghost var core: Core

    /** The objects on the heap are exactly what `core` describes. */
    ghost predicate Valid()
      reads this, heap, created
    {
      && core.clock == heap.Abs()
      && made == |created| == |core.bombs|
      && (forall i | 0 <= i < made :: Represents(created[i], core.bombs[i], i))
      && timeBombs.Keys == core.mapped.Keys
      && (forall h | h in timeBombs :: core.mapped[h] < made && timeBombs[h] == created[core.mapped[h]])
    }

    ghost predicate Represents(bomb: TimeBomb, b: Bomb, id: nat)
      reads bomb, heap
    {
      bomb.heap == heap && bomb.Abs() == b && b.id == id && (b.timer.Some? ==> b.timer.value < |heap.timers|)
    }

    constructor (heap: TimerHeap)
      requires heap.timers == []
      ensures Valid() && created == [] && this.heap == heap
      ensures core == Core(heap.Abs(), [], map[])
    {
      this.heap := heap;
      timeBombs, made := map[], 0;
      created := [];
      core := Core(heap.Abs(), [], map[]);
    }

    method StrapContainer(handle: string, grace: int)
      requires Valid()
      modifies this, heap`timers
      ensures Valid() && core == Manage(old(core), Signal.Strap(handle, grace))
      ensures exists b :: fresh(b) && created == old(created) + [b]
    {
      var bomb := new TimeBomb(made, handle, heap, grace);
      timeBombs := timeBombs[handle := bomb];
      if grace != 0 {
        bomb.Strap();
      }
      made, created := made + 1, created + [bomb];
      core := Manage(core, Signal.Strap(handle, grace));
    }

    /** The lookup shared by the branches: a missing handle is skipped. */
    method CallBomb(handle: string, m: Method)
      requires Valid() && !m.Strap?
      modifies this`core, heap`timers, created
      ensures Valid() && core == OnBomb(old(core), handle, m)
    {
      if handle in timeBombs {
        var bomb := timeBombs[handle];
        ghost var id := core.mapped[handle];
        assert Represents(created[id], core.bombs[id], id);
        match m {
          case Defuse => var _ := bomb.Defuse();
          case Reset(countdown) => bomb.Reset(countdown);
          case Pause => var _ := bomb.Pause();
          case Unpause => bomb.Unpause();
        }
        core := OnBomb(core, handle, m);
        forall i | 0 <= i < made && i != id
          ensures Represents(created[i], core.bombs[i], i)
        {
          assert old(Represents(created[i], core.bombs[i], i));
        }
      }
    }

    method Receive(sig: Signal)
      requires Valid()
      modifies this, heap`timers, created
      ensures Valid() && core == Manage(old(core), sig)
      ensures created == old(created) || exists b :: fresh(b) && created == old(created) + [b]
    {
      match sig
      case Strap(handle, grace) => StrapContainer(handle, grace);
      case Defuse(handle) =>
        CallBomb(handle, Method.Defuse);
        timeBombs, core := timeBombs - {handle}, core.(mapped := core.mapped - {handle});
      case Reset(handle, grace) => CallBomb(handle, Method.Reset(grace));
      case Pause(handle) => CallBomb(handle, Method.Pause);
      case Unpause(handle) => CallBomb(handle, Method.Unpause);
      case Cleanup(handle) =>
        timeBombs, core := timeBombs - {handle}, core.(mapped := core.mapped - {handle});
    }

    /** The endless select loop, on the signals it has received so far. */
    method ManageBombs(sigs: seq<Signal>)
      requires Valid()
      modifies this, heap`timers, created
      ensures Valid() && core == ManageAll(old(core), sigs)
    {
      for k := 0 to |sigs|
        invariant Valid() && core == ManageAll(old(core), sigs[..k])
        invariant old(created) <= created
        invariant forall i | |old(created)| <= i < |created| :: fresh(created[i])
      {
        assert sigs[..k + 1][..k] == sigs[..k];
        Receive(sigs[k]);
      }
      assert sigs[..|sigs|] == sigs;
    }
  }
}
