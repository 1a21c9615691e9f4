/**
 The whole reaping machinery as a labelled transition system: request handlers that
 bracket their work with Pause and Unpause, the bomb manager, the clock, timers that
 expire on their own, and the client destroys and reaps that race on the server's
 `destroys` set.
 */
module Reaper {
  import opened Options
  import opened TimeBombs
  import opened Bombermen

  /** A request handler: the bombs its Pause and its deferred Unpause reached, if any. */
  datatype Handler = Handler(handle: string, paused: Option<nat>, finished: bool, unpaused: Option<nat>)

  /** A client's destroy request, or the goroutine of an expired timer. */
  datatype ActorId = Client(request: nat) | Reap(timer: nat)

  /** `Destroying` is the call of `backend.Destroy`; `Notifying` is the send to the manager. */
  datatype Phase = Arrived | Destroying | Returned(ok: bool) | Notifying | Done

  datatype Actor = Actor(handle: string, phase: Phase)

  datatype State = State(core: Core, handlers: map<nat, Handler>, actors: map<ActorId, Actor>, destroys: set<string>)

  datatype Label =
    | Create(handle: string, grace: int)
    | SetGraceTime(handle: string, grace: int)
    | Begin(k: nat, handle: string)
    | End(k: nat)
    | Tick(now: int)
    | Expire(timer: nat)
    | Request(n: nat, handle: string)
    | Enter(a: ActorId)
    | BackendReturns(a: ActorId, ok: bool)
    | Leave(a: ActorId)
    | Notify(a: ActorId)

  function Init(now: int): State {
    State(Core(Clock(now, []), [], map[]), map[], map[], {})
  }

  predicate InPhase(s: State, a: ActorId, phase: Phase) {
    a in s.actors && s.actors[a].phase == phase
  }

  predicate Enabled(s: State, l: Label) {
    match l
    case Create(_, _) => true
    case SetGraceTime(_, _) => true
    case Begin(k, _) => k !in s.handlers
    case End(k) => k in s.handlers && !s.handlers[k].finished
    case Tick(now) => s.core.clock.now <= now
    case Expire(t) => IsPending(s.core.clock, t) && Due(s.core.clock, t) && s.core.clock.timers[t].owner < |s.core.bombs|
    case Request(n, _) => Client(n) !in s.actors
    case Enter(a) => InPhase(s, a, Arrived)
    case BackendReturns(a, _) => InPhase(s, a, Destroying)
    case Leave(a) => a in s.actors && s.actors[a].phase.Returned?
    case Notify(a) => InPhase(s, a, Notifying)
  }

  /** The signal the manager receives in this step, if it receives one. */
  function SignalOf(s: State, l: Label): Option<Signal>
    requires Enabled(s, l)
  {
    match l
    case Create(h, grace) => Some(Signal.Strap(h, grace))
    case SetGraceTime(h, grace) => Some(Signal.Reset(h, grace))
    case Begin(_, h) => Some(Signal.Pause(h))
    case End(k) => Some(Signal.Unpause(s.handlers[k].handle))
    case Notify(a) => Some(if a.Client? then Signal.Defuse(s.actors[a].handle) else Signal.Cleanup(s.actors[a].handle))
    case _ => None
  }

  function Reached(c: Core, handle: string): Option<nat> {
    if Mapped(c, handle) then Some(c.mapped[handle]) else None
  }

  function CoreStep(s: State, l: Label): Core
    requires Enabled(s, l)
  {
    var sig := SignalOf(s, l);
    if sig.Some? then Manage(s.core, sig.value)
    else match l
      case Tick(now) => s.core.(clock := s.core.clock.(now := now))
      case Expire(t) => s.core.(clock := SetStatus(s.core.clock, t, Fired))
      case _ => s.core
  }

  function HandlersStep(s: State, l: Label): map<nat, Handler>
    requires Enabled(s, l)
  {
    match l
    case Begin(k, h) => s.handlers[k := Handler(h, Reached(s.core, h), false, None)]
    case End(k) =>
      var w := s.handlers[k];
      s.handlers[k := w.(finished := true, unpaused := Reached(s.core, w.handle))]
    case _ => s.handlers
  }

  function Move(s: State, a: ActorId, phase: Phase): map<ActorId, Actor>
    requires a in s.actors
  {
    s.actors[a := s.actors[a].(phase := phase)]
  }

  function ActorsStep(s: State, l: Label): map<ActorId, Actor>
    requires Enabled(s, l)
  {
    match l
    case Expire(t) => s.actors[Reap(t) := Actor(s.core.bombs[s.core.clock.timers[t].owner].handle, Arrived)]
    case Request(n, h) => s.actors[Client(n) := Actor(h, Arrived)]
    case Enter(a) =>
      if s.actors[a].handle !in s.destroys then Move(s, a, Destroying)
      else Move(s, a, if a.Client? then Done else Notifying)
    case BackendReturns(a, ok) => Move(s, a, Returned(ok))
    case Leave(a) => Move(s, a, if a.Client? && !s.actors[a].phase.ok then Done else Notifying)
    case Notify(a) => Move(s, a, Done)
    case _ => s.actors
  }

  function DestroysStep(s: State, l: Label): set<string>
    requires Enabled(s, l)
  {
    match l
    case Enter(a) => s.destroys + {s.actors[a].handle}
    case Leave(a) => s.destroys - {s.actors[a].handle}
    case _ => s.destroys
  }

  function Step(s: State, l: Label): State
    requires Enabled(s, l)
  {
    State(CoreStep(s, l), HandlersStep(s, l), ActorsStep(s, l), DestroysStep(s, l))
  }

  // ---------- runs ----------

  /** A finite run: `labels[i]` leads from `states[i]` to `states[i + 1]`. */
  datatype Run = Run(states: seq<State>, labels: seq<Label>)

  ghost predicate StepAt(r: Run, i: nat)
    requires i < |r.labels| && |r.states| == |r.labels| + 1
  {
    Enabled(r.states[i], r.labels[i]) && r.states[i + 1] == Step(r.states[i], r.labels[i])
  }

  ghost predicate Legal(r: Run) {
    && |r.states| == |r.labels| + 1
    && r.states[0] == Init(r.states[0].core.clock.now)
    && forall i | 0 <= i < |r.labels| :: StepAt(r, i)
  }

  lemma CoreAt(r: Run, i: nat)
    requires Legal(r) && i < |r.labels|
    ensures Enabled(r.states[i], r.labels[i]) && r.states[i + 1].core == CoreStep(r.states[i], r.labels[i])
  {
    assert StepAt(r, i);
  }

  /** The signals the manager receives between two states, in order. */
  function SignalsBetween(r: Run, i: nat, j: nat): seq<Signal>
    requires i <= j <= |r.labels| < |r.states|
  {
    if i == j then []
    else if Enabled(r.states[j - 1], r.labels[j - 1]) && SignalOf(r.states[j - 1], r.labels[j - 1]).Some? then
      SignalsBetween(r, i, j - 1) + [SignalOf(r.states[j - 1], r.labels[j - 1]).value]
    else SignalsBetween(r, i, j - 1)
  }

  /** While the clock stands and no timer goes off, the manager's loop alone makes what becomes of bombs, map and timers. */
  lemma {:induction false} CoreFollowsManager(r: Run, i: nat, j: nat)
    requires Legal(r) && i <= j < |r.states| && forall n | i <= n < j :: !r.labels[n].Tick? && !r.labels[n].Expire?
    ensures r.states[j].core == ManageAll(r.states[i].core, SignalsBetween(r, i, j))
  {
    if i < j {
      CoreFollowsManager(r, i, j - 1);
      CoreAt(r, j - 1);
      var sig := SignalOf(r.states[j - 1], r.labels[j - 1]);
      if sig.Some? {
        ManageAllThen(r.states[i].core, SignalsBetween(r, i, j - 1), [sig.value]);
        ManageAllOne(r.states[j - 1].core, sig.value);
      }
    }
  }

  /** In this step no Unpause reaches a bomb that the same handler's Pause did not reach. */
  predicate MatchedStep(s: State, l: Label)
    requires Enabled(s, l)
  {
    l.End? && Mapped(s.core, s.handlers[l.k].handle) ==> s.handlers[l.k].paused == Some(s.core.mapped[s.handlers[l.k].handle])
  }

  ghost predicate MatchedAt(r: Run, i: nat)
    requires i < |r.labels| < |r.states|
  {
    Enabled(r.states[i], r.labels[i]) ==> MatchedStep(r.states[i], r.labels[i])
  }

  ghost predicate Matched(r: Run) {
    |r.labels| < |r.states| && forall i | 0 <= i < |r.labels| :: MatchedAt(r, i)
  }

  // ---------- the invariant of every run ----------

  /** What links the parts: handlers name real bombs, and reaps come from fired timers. */
  ghost predicate LinkInv(s: State) {
    && (forall k | k in s.handlers :: s.handlers[k].paused.Some? ==> s.handlers[k].paused.value < |s.core.bombs|)
    && (forall k | k in s.handlers :: !s.handlers[k].finished ==> s.handlers[k].unpaused.None?)
    && (forall a | a in s.actors && a.Reap? ::
          && a.timer < |s.core.clock.timers|
          && s.core.clock.timers[a.timer].status == Fired
          && s.core.clock.timers[a.timer].owner < |s.core.bombs|
          && s.core.bombs[s.core.clock.timers[a.timer].owner].handle == s.actors[a].handle)
  }

  /** Timers and bombs are only ever added; what made them never changes. */
  ghost predicate Grows(c: Core, c': Core) {
    && c.clock.now <= c'.clock.now
    && |c.clock.timers| <= |c'.clock.timers|
    && |c.bombs| <= |c'.bombs|
    && (forall t | 0 <= t < |c.clock.timers| ::
          && c'.clock.timers[t].owner == c.clock.timers[t].owner
          && c'.clock.timers[t].armedAt == c.clock.timers[t].armedAt
          && (c.clock.timers[t].status != Pending ==> c'.clock.timers[t].status == c.clock.timers[t].status))
    && (forall b | 0 <= b < |c.bombs| ::
          && c'.bombs[b].handle == c.bombs[b].handle
          && (c.bombs[b].defused ==> c'.bombs[b].defused))
  }

  lemma OnBombGrows(c: Core, handle: string, m: Method)
    ensures Grows(c, OnBomb(c, handle, m))
  {
  }

  lemma CoreGrows(s: State, l: Label)
    requires CoreInv(s.core) && Enabled(s, l)
    ensures Grows(s.core, CoreStep(s, l))
  {
    if SignalOf(s, l).Some? {
      match SignalOf(s, l).value
      case Strap(_, _) =>
      case Defuse(h) => OnBombGrows(s.core, h, Method.Defuse);
      case Reset(h, grace) => OnBombGrows(s.core, h, Method.Reset(grace));
      case Pause(h) => OnBombGrows(s.core, h, Method.Pause);
      case Unpause(h) => OnBombGrows(s.core, h, Method.Unpause);
      case Cleanup(h) =>
    }
  }

  lemma CoreStepKeepsInv(s: State, l: Label)
    requires CoreInv(s.core) && Enabled(s, l)
    ensures CoreInv(CoreStep(s, l))
  {
    if SignalOf(s, l).Some? {
      ManageKeepsInv(s.core, SignalOf(s, l).value);
    }
  }

  lemma LinkStep(s: State, l: Label)
    requires CoreInv(s.core) && LinkInv(s) && Enabled(s, l)
    ensures LinkInv(Step(s, l))
  {
    CoreGrows(s, l);
  }

  lemma {:induction false} InvAt(r: Run, i: nat)
    requires Legal(r) && i < |r.states|
    ensures CoreInv(r.states[i].core) && LinkInv(r.states[i])
  {
    if i > 0 {
      InvAt(r, i - 1);
      assert StepAt(r, i - 1);
      CoreStepKeepsInv(r.states[i - 1], r.labels[i - 1]);
      LinkStep(r.states[i - 1], r.labels[i - 1]);
    }
  }
}
