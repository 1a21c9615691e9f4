/**
 The guard that keeps client destroys and reaps of one container apart: a handle is
 marked in `destroys` while one of them is inside `backend.Destroy`.
 */
module DestroyGuard {
  import opened Reaper

  /** The actors that put the mark there and have not yet taken it away. */
  predicate Owns(actors: map<ActorId, Actor>, a: ActorId) {
    a in actors && (actors[a].phase.Destroying? || actors[a].phase.Returned?)
  }

  ghost predicate GuardInv(actors: map<ActorId, Actor>, destroys: set<string>) {
    && (forall a | Owns(actors, a) :: actors[a].handle in destroys)
    && (forall a, b | Owns(actors, a) && Owns(actors, b) :: actors[a].handle == actors[b].handle ==> a == b)
    && (forall h | h in destroys :: exists a :: Owns(actors, a) && actors[a].handle == h)
  }

  /** A step that changes no ownership and no mark. */
  lemma SameOwners(actors: map<ActorId, Actor>, actors': map<ActorId, Actor>, destroys: set<string>)
    requires GuardInv(actors, destroys)
    requires forall a :: Owns(actors, a) <==> Owns(actors', a)
    requires forall a | Owns(actors, a) :: a in actors' && actors'[a].handle == actors[a].handle
    ensures GuardInv(actors', destroys)
  {
    forall h | h in destroys
      ensures exists a :: Owns(actors', a) && actors'[a].handle == h
    {
      var a :| Owns(actors, a) && actors[a].handle == h;
      assert Owns(actors', a);
    }
  }

  lemma EnterKeepsGuard(s: State, a: ActorId)
    requires GuardInv(s.actors, s.destroys) && Enabled(s, Enter(a))
    ensures GuardInv(ActorsStep(s, Enter(a)), DestroysStep(s, Enter(a)))
  {
    var actors, h := ActorsStep(s, Enter(a)), s.actors[a].handle;
    if h in s.destroys {
      assert s.destroys + {h} == s.destroys;
      SameOwners(s.actors, actors, s.destroys);
    } else {
      assert Owns(actors, a) && actors[a].handle == h;
      forall g | g in s.destroys
        ensures exists b :: Owns(actors, b) && actors[b].handle == g
      {
        var b :| Owns(s.actors, b) && s.actors[b].handle == g;
        assert Owns(actors, b);
      }
    }
  }

  lemma LeaveKeepsGuard(s: State, a: ActorId)
    requires GuardInv(s.actors, s.destroys) && Enabled(s, Leave(a))
    ensures GuardInv(ActorsStep(s, Leave(a)), DestroysStep(s, Leave(a)))
  {
    var actors := ActorsStep(s, Leave(a));
    assert Owns(s.actors, a);
    forall g | g in s.destroys - {s.actors[a].handle}
      ensures exists b :: Owns(actors, b) && actors[b].handle == g
    {
      var b :| Owns(s.actors, b) && s.actors[b].handle == g;
      assert Owns(actors, b);
    }
  }

  lemma GuardStep(s: State, l: Label)
    requires GuardInv(s.actors, s.destroys) && Enabled(s, l) && (l.Expire? ==> Reap(l.timer) !in s.actors)
    ensures GuardInv(ActorsStep(s, l), DestroysStep(s, l))
  {
    if l.Enter? {
      EnterKeepsGuard(s, l.a);
    } else if l.Leave? {
      LeaveKeepsGuard(s, l.a);
    } else {
      SameOwners(s.actors, ActorsStep(s, l), s.destroys);
    }
  }

  lemma {:induction false} GuardAt(r: Run, i: nat)
    requires Legal(r) && i < |r.states|
    ensures GuardInv(r.states[i].actors, r.states[i].destroys)
  {
    if i > 0 {
      GuardAt(r, i - 1);
      InvAt(r, i - 1);
      assert StepAt(r, i - 1);
      GuardStep(r.states[i - 1], r.labels[i - 1]);
    }
  }

  /** At most one `backend.Destroy` per handle is in progress, and a mark has exactly one owner. */
  lemma DestroysAreExclusive(r: Run, i: nat)
    requires Legal(r) && i < |r.states|
    ensures forall a, b | InPhase(r.states[i], a, Destroying) && InPhase(r.states[i], b, Destroying) ::
      r.states[i].actors[a].handle == r.states[i].actors[b].handle ==> a == b
    ensures forall h :: h in r.states[i].destroys <==>
      exists a :: Owns(r.states[i].actors, a) && r.states[i].actors[a].handle == h &&
        forall b | Owns(r.states[i].actors, b) && r.states[i].actors[b].handle == h :: b == a
  {
    GuardAt(r, i);
  }

  /** Between two points of a run at which actor `a` owns the mark without releasing it, the mark stays. */
  lemma {:induction false} LoserKeepsOwnersMark(r: Run, i: nat, j: nat, a: ActorId)
    requires Legal(r) && i <= j < |r.states| && Owns(r.states[i].actors, a)
    requires forall m | i <= m < j :: r.labels[m] != Leave(a)
    ensures Owns(r.states[j].actors, a) && r.states[j].actors[a].handle == r.states[i].actors[a].handle
    ensures r.states[i].actors[a].handle in r.states[j].destroys
  {
    if i < j {
      LoserKeepsOwnersMark(r, i, j - 1, a);
      assert StepAt(r, j - 1);
      InvAt(r, j - 1);
    }
    GuardAt(r, j);
  }

  /**
   A new destroy of `h` gets through to the backend exactly if nobody owns the mark of
   `h`; in particular after a failed destroy, when everyone is past the guard.
   */
  lemma FailedDestroyCanBeRetried(r: Run, i: nat, n: nat, h: string)
    requires Legal(r) && i < |r.states| && Client(n) !in r.states[i].actors
    ensures var s := Step(r.states[i], Request(n, h));
      && Enabled(s, Enter(Client(n)))
      && (InPhase(Step(s, Enter(Client(n))), Client(n), Destroying) <==>
            forall a | Owns(r.states[i].actors, a) :: r.states[i].actors[a].handle != h)
    ensures (forall a | a in r.states[i].actors :: r.states[i].actors[a].phase in {Notifying, Done}) ==> r.states[i].destroys == {}
  {
    GuardAt(r, i);
  }

  // ---------- what follows a destroy ----------

  /** What an actor's phase says about its past. */
  ghost predicate Past(r: Run, i: nat, a: ActorId)
    requires Legal(r) && i < |r.states|
  {
    a in r.states[i].actors ==>
      match r.states[i].actors[a].phase
      case Returned(ok) => Happened(r, i, BackendReturns(a, ok))
      case Notifying => a.Client? ==> Happened(r, i, BackendReturns(a, true))
      case Done =>
        && (a.Reap? ==> Happened(r, i, Notify(a)))
        && (a.Client? ==> Happened(r, i, BackendReturns(a, true)) == Happened(r, i, Notify(a)))
      case _ => true
  }

  ghost predicate Happened(r: Run, i: nat, l: Label)
    requires i <= |r.labels|
  {
    exists j | 0 <= j < i :: r.labels[j] == l
  }

  lemma HappenedStep(r: Run, i: nat, l: Label)
    requires i < |r.labels|
    ensures Happened(r, i + 1, l) <==> Happened(r, i, l) || r.labels[i] == l
  {
  }

  /** Nobody has notified, or been told success, before the phase in which it happens. */
  ghost predicate NotYet(r: Run, i: nat, a: ActorId)
    requires Legal(r) && i < |r.states|
  {
    && (a !in r.states[i].actors || r.states[i].actors[a].phase != Done ==> !Happened(r, i, Notify(a)))
    && (a !in r.states[i].actors || r.states[i].actors[a].phase in {Arrived, Destroying, Returned(false)} ==>
          !Happened(r, i, BackendReturns(a, true)))
  }

  lemma {:induction false} PastAt(r: Run, i: nat, a: ActorId)
    requires Legal(r) && i < |r.states|
    ensures Past(r, i, a) && NotYet(r, i, a)
  {
    if i > 0 {
      PastAt(r, i - 1, a);
      InvAt(r, i - 1);
      assert StepAt(r, i - 1);
      HappenedStep(r, i - 1, Notify(a));
      HappenedStep(r, i - 1, BackendReturns(a, true));
      HappenedStep(r, i - 1, BackendReturns(a, false));
    }
  }

  /**
   A client destroy that is over has had the bomb defused exactly if the backend
   destroyed the container; a reap that is over has always had the handle cleaned up,
   whether it destroyed the container or stood back.
   */
  lemma DefusedExactlyAfterSuccess(r: Run, i: nat, a: ActorId)
    requires Legal(r) && i < |r.states| && InPhase(r.states[i], a, Done)
    ensures a.Client? ==> (Happened(r, i, Notify(a)) <==> Happened(r, i, BackendReturns(a, true)))
    ensures a.Reap? ==> Happened(r, i, Notify(a))
  {
    PastAt(r, i, a);
  }

  // ---------- the source's code ----------

  datatype Outcome = Destroyed | BackendFailed | ConcurrentDestroy

  /** The critical sections of handleDestroy and reapContainer, under the lock. */
  class Guard {
    var destroys: set<string>

    constructor ()
      ensures destroys == {}
    {
      destroys := {};
    }

    method TryMark(handle: string) returns (alreadyDestroying: bool)
      modifies this
      ensures alreadyDestroying <==> handle in old(destroys)
      ensures destroys == old(destroys) + {handle}
    {
      alreadyDestroying := handle in destroys;
      if !alreadyDestroying {
        destroys := destroys + {handle};
      }
    }

    method Unmark(handle: string)
      modifies this
      ensures destroys == old(destroys) - {handle}
    {
      destroys := destroys - {handle};
    }

    /** handleDestroy when nobody else runs; `ok` is the backend's answer. */
    method HandleDestroy(handle: string, ok: bool) returns (outcome: Outcome, defuses: bool)
      modifies this
      ensures destroys == old(destroys)
      ensures outcome == if handle in old(destroys) then ConcurrentDestroy else if ok then Destroyed else BackendFailed
      ensures defuses <==> outcome.Destroyed?
    {
      var alreadyDestroying := TryMark(handle);
      if alreadyDestroying {
        return ConcurrentDestroy, false;
      }
      Unmark(handle);
      return if ok then Destroyed else BackendFailed, ok;
    }

    /** reapContainer when nobody else runs; `destroyed` says whether it called the backend. */
    method ReapContainer(handle: string) returns (destroyed: bool)
      modifies this
      ensures destroys == old(destroys)
      ensures destroyed <==> handle !in old(destroys)
    {
      var alreadyDestroying := TryMark(handle);
      if alreadyDestroying {
        return false;
      }
      Unmark(handle);
      return true;
    }
  }
}
