/**
 Where the reaper's promises end: the exact conditions under which they hold, and runs
 that meet the other case.
 */
module ReaperLimits {
  import opened Options
  import opened TimeBombs
  import opened Bombermen
  import opened Reaper
  import opened ReaperTheorems
  import opened ReaperRequests

  // ---------- states that runs lead to ----------

  /** Some legal and matched run ends in `s`. */
  ghost predicate MatchedReached(s: State) {
    exists r :: MatchedTo(r, s)
  }

  ghost predicate MatchedTo(r: Run, s: State) {
    Legal(r) && Matched(r) && r.states[|r.labels|] == s
  }

  /** Some legal and matched run ends in `s` with the steps `last`. */
  ghost predicate ReachedBy(s: State, last: seq<Label>) {
    exists r, n: nat :: MatchedTo(r, s) && n <= |r.labels| && r.labels[n..] == last
  }

  function Extend(r: Run, s: State, l: Label): Run {
    Run(r.states + [s], r.labels + [l])
  }

  lemma ExtendKeepsLegal(r: Run, l: Label)
    requires Legal(r) && Enabled(r.states[|r.labels|], l)
    ensures Legal(Extend(r, Step(r.states[|r.labels|], l), l))
  {
    var n := |r.labels|;
    var r' := Extend(r, Step(r.states[n], l), l);
    forall i | 0 <= i < |r'.labels|
      ensures StepAt(r', i)
    {
      if i < n {
        assert StepAt(r, i);
        assert r'.states[i] == r.states[i] && r'.states[i + 1] == r.states[i + 1] && r'.labels[i] == r.labels[i];
      }
    }
  }

  lemma ExtendKeepsMatched(r: Run, s: State, l: Label)
    requires |r.states| == |r.labels| + 1 && Matched(r)
    requires Enabled(r.states[|r.labels|], l) && MatchedStep(r.states[|r.labels|], l)
    ensures Matched(Extend(r, s, l))
  {
    var r' := Extend(r, s, l);
    forall i | 0 <= i < |r'.labels|
      ensures MatchedAt(r', i)
    {
      if i < |r.labels| {
        assert MatchedAt(r, i);
        assert r'.states[i] == r.states[i] && r'.labels[i] == r.labels[i];
      }
    }
  }

  lemma ReachedStart()
    ensures MatchedReached(Init(0))
  {
    var r := Run([Init(0)], []);
    assert MatchedTo(r, Init(0));
  }

  lemma ReachedStep(s: State, l: Label)
    requires MatchedReached(s) && Enabled(s, l) && MatchedStep(s, l)
    ensures MatchedReached(Step(s, l))
  {
    var r :| MatchedTo(r, s);
    ExtendTo(r, s, l);
  }

  lemma ExtendTo(r: Run, s: State, l: Label)
    requires MatchedTo(r, s) && Enabled(s, l) && MatchedStep(s, l)
    ensures MatchedTo(Extend(r, Step(s, l), l), Step(s, l))
  {
    ExtendKeepsLegal(r, l);
    ExtendKeepsMatched(r, Step(s, l), l);
  }

  lemma ReachedByNothing(s: State)
    requires MatchedReached(s)
    ensures ReachedBy(s, [])
  {
    var r :| MatchedTo(r, s);
    assert r.labels[|r.labels|..] == [];
  }

  lemma ReachedByStep(s: State, last: seq<Label>, l: Label)
    requires ReachedBy(s, last) && Enabled(s, l) && MatchedStep(s, l)
    ensures ReachedBy(Step(s, l), last + [l])
  {
    var r, n: nat :| MatchedTo(r, s) && n <= |r.labels| && r.labels[n..] == last;
    ExtendTo(r, s, l);
    assert Extend(r, Step(s, l), l).labels[n..] == last + [l];
  }

  // ---------- an Unpause without its Pause ----------

  /**
   A request that arrives before its container is strapped: its Pause reaches no bomb,
   its Unpause does, and a second request brings the counter back to zero while it runs.
   */
  function EarlyRequest(h: string, grace: int): (r: Run)
    requires grace != 0
    ensures |r.states| == 5 && |r.labels| == 4
  {
    var timer := Timer(0, 0, grace, Pending);
    var bomb := Bomb(0, h, grace, 0, false, Some(0));
    var early := Handler(h, None, false, None);
    var s1 := Init(0).(handlers := map[0 := early]);
    var s2 := s1.(core := Core(Clock(0, [timer]), [bomb], map[h := 0]));
    var s3 := State(Core(Clock(0, [timer]), [bomb.(pauses := -1)], map[h := 0]),
                    map[0 := early.(finished := true, unpaused := Some(0))], map[], {});
    var s4 := State(Core(Clock(0, [timer.(status := Stopped)]), [bomb.(timer := None)], map[h := 0]),
                    s3.handlers[1 := Handler(h, Some(0), false, None)], map[], {});
    Run([Init(0), s1, s2, s3, s4], [Begin(0, h), Create(h, grace), End(0), Begin(1, h)])
  }

  lemma EarlyRequestArrives(h: string, grace: int)
    requires grace != 0
    ensures StepAt(EarlyRequest(h, grace), 0) && StepAt(EarlyRequest(h, grace), 1)
  {
  }

  lemma EarlyRequestEnds(h: string, grace: int)
    requires grace != 0
    ensures StepAt(EarlyRequest(h, grace), 2) && StepAt(EarlyRequest(h, grace), 3)
  {
  }

  lemma EarlyRequestIsUnmatched(h: string, grace: int)
    requires grace != 0
    ensures Legal(EarlyRequest(h, grace)) && !Matched(EarlyRequest(h, grace))
  {
    var r := EarlyRequest(h, grace);
    EarlyRequestArrives(h, grace);
    EarlyRequestEnds(h, grace);
    assert !MatchedAt(r, 2);
  }

  /** The bomb's counter is one short of its holders, and it stores no timer. */
  predicate OneShort(s: State, b: nat) {
    b < |s.core.bombs| && s.core.bombs[b].pauses == |Holders(s, b)| - 1 && s.core.bombs[b].timer.None?
  }

  /** When the second request ends, the container is mapped and unheld but has no live timer. */
  lemma UnmatchedUnpauseLosesCountdown(h: string, grace: int)
    requires grace != 0
    ensures var s := EarlyRequest(h, grace).states[4];
      && Legal(EarlyRequest(h, grace)) && Enabled(s, End(1)) && MatchedStep(s, End(1))
      && var s' := Step(s, End(1));
      && Mapped(s'.core, h) && s'.core.bombs[s'.core.mapped[h]].countdown == grace && Holders(s', s'.core.mapped[h]) == {}
      && OneShort(s', s'.core.mapped[h])
      && forall t | 0 <= t < |s'.core.clock.timers| :: s'.core.clock.timers[t].status == Stopped
  {
    EarlyRequestIsUnmatched(h, grace);
  }

  /** A bomb whose counter is one short gets a timer when the second of two holders leaves, or by a setting under one holder. */
  predicate Rearms(s: State, l: Label, b: nat) {
    && Target(s, l) == Some(b) && b < |s.core.bombs|
    && ((l.SetGraceTime? && |Holders(s, b)| == 1) || (l.End? && |Holders(s, b)| == 2 && s.core.bombs[b].countdown != 0))
  }

  /** The two branches that arm an existing bomb. */
  predicate Arms(s: State, l: Label, b: nat) {
    && Target(s, l) == Some(b) && b < |s.core.bombs|
    && var bomb := s.core.bombs[b];
    || (l.SetGraceTime? && (bomb.timer.Some? || bomb.pauses == 0))
    || (l.End? && bomb.pauses == 1 && bomb.countdown != 0)
  }

  lemma ArmedIsPending(s: State, l: Label, b: nat)
    requires CoreInv(s.core) && Enabled(s, l) && Arms(s, l, b)
    ensures HasPendingTimer(CoreStep(s, l), b)
  {
    assert CoreStep(s, l).clock.timers[|s.core.clock.timers|].owner == b;
  }

  /** Without those a bomb gets no timer, and a Pause takes the one it has. */
  lemma NotArmedIsSilent(s: State, l: Label, b: nat)
    requires CoreInv(s.core) && Enabled(s, l) && b < |s.core.bombs| && !Arms(s, l, b)
    ensures !HasPendingTimer(s.core, b) || (l.Begin? && Target(s, l) == Some(b)) ==> !HasPendingTimer(CoreStep(s, l), b)
    ensures b < |CoreStep(s, l).bombs| && (s.core.bombs[b].timer.None? ==> CoreStep(s, l).bombs[b].timer.None?)
  {
  }

  lemma OneShortStep(s: State, l: Label, b: nat)
    requires CoreInv(s.core) && LinkInv(s) && OneShort(s, b) && Enabled(s, l) && MatchedStep(s, l)
    ensures HasPendingTimer(CoreStep(s, l), b) <==> Rearms(s, l, b)
    ensures !Rearms(s, l, b) ==> OneShort(Step(s, l), b)
  {
    HoldersStep(s, l, b);
    PausesStep(s, l, b);
    if l.End? && Target(s, l) == Some(b) {
      assert l.k in Holders(s, b);
    }
    assert Rearms(s, l, b) <==> Arms(s, l, b);
    if Rearms(s, l, b) {
      ArmedIsPending(s, l, b);
    } else {
      NotArmedIsSilent(s, l, b);
    }
  }

  ghost predicate TicksAt(r: Run, n: nat, b: nat)
    requires n < |r.states|
  {
    HasPendingTimer(r.states[n].core, b)
  }

  predicate RearmsAt(r: Run, n: nat, b: nat)
    requires n < |r.labels| < |r.states|
  {
    Rearms(r.states[n], r.labels[n], b)
  }

  predicate OneShortAt(r: Run, n: nat, b: nat)
    requires n < |r.states|
  {
    OneShort(r.states[n], b)
  }

  lemma OneShortIsSilent(r: Run, n: nat, b: nat)
    requires Legal(r) && n < |r.states| && OneShortAt(r, n, b)
    ensures !TicksAt(r, n, b)
  {
    InvAt(r, n);
  }

  lemma OneShortNext(r: Run, n: nat, b: nat)
    requires Legal(r) && n < |r.labels| && OneShortAt(r, n, b) && MatchedAt(r, n)
    ensures TicksAt(r, n + 1, b) <==> RearmsAt(r, n, b)
    ensures !RearmsAt(r, n, b) ==> OneShortAt(r, n + 1, b)
  {
    InvAt(r, n);
    assert StepAt(r, n);
    OneShortStep(r.states[n], r.labels[n], b);
  }

  /** After matched steps a bomb whose counter was one short has stayed silent exactly if none of them rearmed it. */
  lemma {:induction false} LostCountdownReturnsIff(r: Run, i: nat, j: nat, b: nat)
    requires Legal(r) && i <= j < |r.states| && OneShortAt(r, i, b)
    requires forall n | i <= n < j :: MatchedAt(r, n)
    ensures (forall n | i <= n <= j :: !TicksAt(r, n, b)) <==> forall n | i <= n < j :: !RearmsAt(r, n, b)
    ensures (forall n | i <= n < j :: !RearmsAt(r, n, b)) ==> OneShortAt(r, j, b)
  {
    if i == j {
      OneShortIsSilent(r, i, b);
    } else {
      LostCountdownReturnsIff(r, i, j - 1, b);
      assert MatchedAt(r, j - 1);
      if OneShortAt(r, j - 1, b) {
        OneShortNext(r, j - 1, b);
      }
    }
  }

  /** If instead the grace time is set meanwhile, the bomb ticks under the request that holds it. */
  lemma UnmatchedUnpauseLetsHeldBombTick(h: string, grace: int)
    requires grace != 0
    ensures var s := EarlyRequest(h, grace).states[4];
      && Legal(EarlyRequest(h, grace)) && Enabled(s, SetGraceTime(h, grace))
      && var s' := Step(s, SetGraceTime(h, grace));
      && Mapped(s'.core, h) && Holders(s', s'.core.mapped[h]) != {} && HasPendingTimer(s'.core, s'.core.mapped[h])
  {
    EarlyRequestIsUnmatched(h, grace);
    var s' := Step(EarlyRequest(h, grace).states[4], SetGraceTime(h, grace));
    assert 1 in Holders(s', 0);
    assert s'.core.clock.timers[1].owner == 0;
  }

  /** The two branches that arm a bomb, taken while somebody holds it who does not leave by it. */
  predicate TicksHeld(s: State, l: Label, b: nat) {
    Arms(s, l, b) && if l.End? then Holders(s, b) - {l.k} != {} else Holders(s, b) != {}
  }

  ghost predicate Quiet(s: State, b: nat) {
    Holders(s, b) != {} ==> !HasPendingTimer(s.core, b)
  }

  lemma QuietStepIff(s: State, l: Label, b: nat)
    requires CoreInv(s.core) && LinkInv(s) && Enabled(s, l) && Quiet(s, b)
    ensures Quiet(Step(s, l), b) <==> !TicksHeld(s, l, b)
  {
    HoldersStep(s, l, b);
    if Arms(s, l, b) {
      ArmedIsPending(s, l, b);
    } else if b < |s.core.bombs| {
      NotArmedIsSilent(s, l, b);
    }
  }

  /** In every run, matched or not, a held bomb never ticks exactly if no step arms it under a holder. */
  lemma {:induction false} HeldNeverTicksIff(r: Run, i: nat, b: nat)
    requires Legal(r) && i < |r.states|
    ensures (forall n | 0 <= n <= i :: Quiet(r.states[n], b)) <==> forall n | 0 <= n < i :: !TicksHeld(r.states[n], r.labels[n], b)
  {
    if i > 0 {
      HeldNeverTicksIff(r, i - 1, b);
      InvAt(r, i - 1);
      assert StepAt(r, i - 1);
      if Quiet(r.states[i - 1], b) {
        QuietStepIff(r.states[i - 1], r.labels[i - 1], b);
      }
    }
  }

  // ---------- reaped under a request ----------

  /** A container whose timer has gone off, with the reap on its way and one request holding it. */
  function HeldInFlight(h: string, countdown: int): State {
    State(Core(Clock(1, [Timer(0, 0, 1, Fired)]), [Bomb(0, h, countdown, 1, false, None)], map[h := 0]),
          map[0 := Handler(h, Some(0), false, None)], map[Reap(0) := Actor(h, Arrived)], {})
  }

  lemma InFlightReached(h: string)
    ensures MatchedReached(HeldInFlight(h, 1))
  {
    ReachedStart();
    ReachedStep(Init(0), Create(h, 1));
    var s1 := State(Core(Clock(0, [Timer(0, 0, 1, Pending)]), [Bomb(0, h, 1, 0, false, Some(0))], map[h := 0]), map[], map[], {});
    assert Step(Init(0), Create(h, 1)) == s1;
    ReachedStep(s1, Tick(1));
    var s2 := s1.(core := s1.core.(clock := Clock(1, [Timer(0, 0, 1, Pending)])));
    assert Step(s1, Tick(1)) == s2;
    ReachedStep(s2, Expire(0));
    HeldAfterExpiry(h, s2);
  }

  lemma HeldAfterExpiry(h: string, s2: State)
    requires s2 == State(Core(Clock(1, [Timer(0, 0, 1, Pending)]), [Bomb(0, h, 1, 0, false, Some(0))], map[h := 0]), map[], map[], {})
    requires Enabled(s2, Expire(0)) && MatchedReached(Step(s2, Expire(0)))
    ensures MatchedReached(HeldInFlight(h, 1))
  {
    var s3 := State(Core(Clock(1, [Timer(0, 0, 1, Fired)]), s2.core.bombs, s2.core.mapped), map[], map[Reap(0) := Actor(h, Arrived)], {});
    assert Step(s2, Expire(0)) == s3;
    ReachedStep(s3, Begin(0, h));
    assert Step(s3, Begin(0, h)) == HeldInFlight(h, 1);
  }

  /** A reap is inside the backend's Destroy while request 0 holds the mapped bomb, whose countdown is given. */
  predicate DestroyedWhileHeld(s: State, h: string, countdown: int) {
    && InPhase(s, Reap(0), Destroying)
    && Mapped(s.core, h) && s.core.bombs[s.core.mapped[h]].countdown == countdown
    && 0 in Holders(s, s.core.mapped[h])
  }

  lemma EnterInFlight(h: string, countdown: int)
    requires MatchedReached(HeldInFlight(h, countdown))
    ensures exists s :: MatchedReached(s) && DestroyedWhileHeld(s, h, countdown)
  {
    var s := HeldInFlight(h, countdown);
    ReachedStep(s, Enter(Reap(0)));
    var s' := Step(s, Enter(Reap(0)));
    assert s'.core == s.core && s'.handlers == s.handlers;
    assert DestroyedWhileHeld(s', h, countdown);
  }

  /** A request that arrives after the expiry does not stop the reap: the container is destroyed under it. */
  lemma HeldContainerIsReaped(h: string)
    ensures exists s :: MatchedReached(s) && DestroyedWhileHeld(s, h, 1)
  {
    InFlightReached(h);
    EnterInFlight(h, 1);
  }

  /** A reap is inside the backend's Destroy of `h` while request `k` for `h` is running. */
  predicate DestroyedUnder(s: State, t: nat, k: nat, h: string) {
    InPhase(s, Reap(t), Destroying) && s.actors[Reap(t)].handle == h && RunningFor(s, k, h)
  }

  /** A request that began before the container was strapped runs through its whole grace time uncounted. */
  lemma EarlyRequestIsOvertaken(h: string)
    ensures exists s :: ReachedBy(s, [Begin(0, h), Create(h, 1), Tick(1), Expire(0), Enter(Reap(0))]) && DestroyedUnder(s, 0, 0, h)
  {
    ReachedStart();
    ReachedByNothing(Init(0));
    var hs := map[0 := Handler(h, None, false, None)];
    ReachedByStep(Init(0), [], Begin(0, h));
    var s1 := Init(0).(handlers := hs);
    assert Step(Init(0), Begin(0, h)) == s1;
    ReachedByStep(s1, [Begin(0, h)], Create(h, 1));
    var s2 := s1.(core := Core(Clock(0, [Timer(0, 0, 1, Pending)]), [Bomb(0, h, 1, 0, false, Some(0))], map[h := 0]));
    assert Step(s1, Create(h, 1)) == s2;
    assert [Begin(0, h)] + [Create(h, 1)] == [Begin(0, h), Create(h, 1)];
    ExpiresUnder(h, s2, [Begin(0, h), Create(h, 1)], 0, 1, 0);
    assert [Begin(0, h), Create(h, 1)] + [Tick(1), Expire(0), Enter(Reap(0))] == [Begin(0, h), Create(h, 1), Tick(1), Expire(0), Enter(Reap(0))];
  }

  /** From a state in which timer `t` ticks and request `k` is running, the reap gets there first. */
  lemma ExpiresUnder(h: string, s: State, last: seq<Label>, t: nat, now: int, k: nat)
    requires ReachedBy(s, last) && s.core.clock.now <= now && IsPending(s.core.clock, t)
    requires s.core.clock.timers[t].armedAt + s.core.clock.timers[t].countdown <= now
    requires OwnerOf(s, t) < |s.core.bombs| && s.core.bombs[OwnerOf(s, t)].handle == h && h !in s.destroys && RunningFor(s, k, h)
    ensures exists s' :: ReachedBy(s', last + [Tick(now), Expire(t), Enter(Reap(t))]) && DestroyedUnder(s', t, k, h)
  {
    ExpiresAndEnters(h, s, last, t, now);
    var s' :| ReachedBy(s', last + [Tick(now), Expire(t), Enter(Reap(t))]) && ReapedFrom(s, s', t, h);
    assert DestroyedUnder(s', t, k, h);
  }

  ghost predicate ReapedFrom(s: State, s': State, t: nat, h: string) {
    InPhase(s', Reap(t), Destroying) && s'.actors[Reap(t)].handle == h && s'.handlers == s.handlers && s'.core.mapped == s.core.mapped
  }

  lemma ExpiresAndEnters(h: string, s: State, last: seq<Label>, t: nat, now: int)
    requires ReachedBy(s, last) && s.core.clock.now <= now && IsPending(s.core.clock, t)
    requires s.core.clock.timers[t].armedAt + s.core.clock.timers[t].countdown <= now
    requires OwnerOf(s, t) < |s.core.bombs| && s.core.bombs[OwnerOf(s, t)].handle == h && h !in s.destroys
    ensures exists s' :: ReachedBy(s', last + [Tick(now), Expire(t), Enter(Reap(t))]) && ReapedFrom(s, s', t, h)
  {
    TickExpireEnter(s, now, t, h);
    ReachedByStep(s, last, Tick(now));
    var s1 := Step(s, Tick(now));
    ReachedByStep(s1, last + [Tick(now)], Expire(t));
    var s2 := Step(s1, Expire(t));
    ReachedByStep(s2, last + [Tick(now)] + [Expire(t)], Enter(Reap(t)));
    var s3 := Step(s2, Enter(Reap(t)));
    assert last + [Tick(now)] + [Expire(t)] + [Enter(Reap(t))] == last + [Tick(now), Expire(t), Enter(Reap(t))];
    assert ReapedFrom(s, s3, t, h);
  }

  /**
   A request held the container when its first reap was on the way, so that a second timer
   was armed; the first reap then failed. This is the state at various points of that story.
   */
  function TickingAgain(h: string, mapped: map<string, nat>, phase: Phase, destroys: set<string>): State {
    State(Core(Clock(1, [Timer(0, 0, 1, Fired), Timer(0, 1, 1, Pending)]), [Bomb(0, h, 1, 0, false, Some(1))], mapped),
          map[0 := Handler(h, Some(0), true, Some(0))], map[Reap(0) := Actor(h, phase)], destroys)
  }

  lemma TickingAgainReached(h: string)
    ensures MatchedReached(TickingAgain(h, map[h := 0], Arrived, {}))
  {
    InFlightReached(h);
    var s := HeldInFlight(h, 1);
    ReachedStep(s, End(0));
    assert Step(s, End(0)) == TickingAgain(h, map[h := 0], Arrived, {});
  }

  lemma FirstReapFails(h: string)
    ensures MatchedReached(TickingAgain(h, map[h := 0], Returned(false), {h}))
  {
    TickingAgainReached(h);
    var s := TickingAgain(h, map[h := 0], Arrived, {});
    ReachedStep(s, Enter(Reap(0)));
    assert Step(s, Enter(Reap(0))) == TickingAgain(h, map[h := 0], Destroying, {h});
    ReachedStep(TickingAgain(h, map[h := 0], Destroying, {h}), BackendReturns(Reap(0), false));
    assert Step(TickingAgain(h, map[h := 0], Destroying, {h}), BackendReturns(Reap(0), false)) == TickingAgain(h, map[h := 0], Returned(false), {h});
  }

  /** Its cleanup unmaps the handle, and the bomb ticks on where no request reaches it. */
  lemma TicksUnmapped(h: string)
    ensures MatchedReached(TickingAgain(h, map[], Done, {}))
  {
    FirstReapFails(h);
    ReachedStep(TickingAgain(h, map[h := 0], Returned(false), {h}), Leave(Reap(0)));
    assert {h} - {h} == {};
    assert Step(TickingAgain(h, map[h := 0], Returned(false), {h}), Leave(Reap(0))) == TickingAgain(h, map[h := 0], Notifying, {});
    ReachedStep(TickingAgain(h, map[h := 0], Notifying, {}), Notify(Reap(0)));
    assert map[h := 0] - {h} == map[];
    assert Step(TickingAgain(h, map[h := 0], Notifying, {}), Notify(Reap(0))) == TickingAgain(h, map[], Done, {});
  }

  /** So a request that begins after a failed reap is overtaken by the next, though it began before the expiry. */
  lemma LaterRequestIsOvertaken(h: string)
    ensures exists s :: ReachedBy(s, [Begin(1, h), Tick(2), Expire(1), Enter(Reap(1))]) && DestroyedUnder(s, 1, 1, h)
  {
    TicksUnmapped(h);
    var s := TickingAgain(h, map[], Done, {});
    ReachedByNothing(s);
    ReachedByStep(s, [], Begin(1, h));
    var s1 := s.(handlers := s.handlers[1 := Handler(h, None, false, None)]);
    assert Step(s, Begin(1, h)) == s1;
    ExpiresUnder(h, s1, [Begin(1, h)], 1, 2, 1);
    assert [Begin(1, h)] + [Tick(2), Expire(1), Enter(Reap(1))] == [Begin(1, h), Tick(2), Expire(1), Enter(Reap(1))];
  }

  // ---------- one handle, two containers ----------

  /** A Pause of the handle leaves the timer of bomb `b` pending. */
  ghost predicate PauseMisses(s: State, h: string, b: nat) {
    Enabled(s, Begin(0, h)) && HasPendingTimer(CoreStep(s, Begin(0, h)), b)
  }

  /** A second create for a live handle leaves the first bomb ticking where the next Pause does not reach it. */
  lemma SecondCreateOrphansTimer(h: string, grace: int)
    requires grace != 0
    ensures exists s :: MatchedReached(s) && !Reachable(s.core, h) && PauseMisses(s, h, 0)
  {
    var t0, t1 := Timer(0, 0, grace, Pending), Timer(1, 0, grace, Pending);
    var b0, b1 := Bomb(0, h, grace, 0, false, Some(0)), Bomb(1, h, grace, 0, false, Some(1));
    ReachedStart();
    ReachedStep(Init(0), Create(h, grace));
    var s1 := State(Core(Clock(0, [t0]), [b0], map[h := 0]), map[], map[], {});
    assert Step(Init(0), Create(h, grace)) == s1;
    ReachedStep(s1, Create(h, grace));
    var s2 := State(Core(Clock(0, [t0, t1]), [b0, b1], map[h := 1]), map[], map[], {});
    assert Step(s1, Create(h, grace)) == s2;
    assert s2.core.clock.timers[0].owner == 0 && Reached(s2.core, h) == Some(1);
    assert CoreStep(s2, Begin(0, h)).clock.timers[0] == t0;
    assert PauseMisses(s2, h, 0);
  }

  lemma {:induction false} MappedBombIsNewerIff(r: Run, m: nat, i: nat, h: string)
    requires Legal(r) && m <= i < |r.states| && Mapped(r.states[i].core, h)
    ensures r.states[i].core.mapped[h] >= |r.states[m].core.bombs| <==>
      exists c | m <= c < i :: r.labels[c].Create? && r.labels[c].handle == h
  {
    InvAt(r, m);
    if m < i {
      InvAt(r, i - 1);
      CoreAt(r, i - 1);
      GrowsBetween(r, m, i - 1);
      if r.labels[i - 1].Create? && r.labels[i - 1].handle == h {
      } else {
        MappingStep(r.states[i - 1], r.labels[i - 1], h);
        MappedBombIsNewerIff(r, m, i - 1, h);
      }
    }
  }

  /**
   The defuse that follows a client destroy hits the bomb of a container created since
   the backend answered exactly if a create of the same handle got in between.
   */
  lemma LateDefuseHitsNewContainerIff(r: Run, m: nat, i: nat, n: nat)
    requires Legal(r) && m < i < |r.labels| && r.labels[m] == BackendReturns(Client(n), true) && r.labels[i] == Notify(Client(n))
    requires Client(n) in r.states[i].actors && Mapped(r.states[i].core, r.states[i].actors[Client(n)].handle)
    ensures var h := r.states[i].actors[Client(n)].handle;
      && Target(r.states[i], r.labels[i]) == Some(r.states[i].core.mapped[h])
      && (r.states[i].core.mapped[h] >= |r.states[m].core.bombs| <==>
            exists c | m < c < i :: r.labels[c].Create? && r.labels[c].handle == h)
  {
    assert StepAt(r, i);
    MappedBombIsNewerIff(r, m, i, r.states[i].actors[Client(n)].handle);
  }

  /** The second container of the handle is alive, but its bomb is defused; the first one's still ticks. */
  ghost predicate NewContainerDisarmed(s: State, h: string) {
    && h !in s.core.mapped && s.destroys == {} && |s.core.bombs| == 2
    && s.core.bombs[0].handle == h && HasPendingTimer(s.core, 0)
    && s.core.bombs[1].handle == h && s.core.bombs[1].defused && !HasPendingTimer(s.core, 1)
  }

  /** That happens: the new container has lost its own grace time and lives on what is left of the old one's. */
  lemma LateDefuseDisarmsNewContainer(h: string, grace: int)
    requires grace != 0
    ensures exists s :: MatchedReached(s) && NewContainerDisarmed(s, h)
  {
    ReachedStart();
    ReachedStep(Init(0), Request(0, h));
    var s1 := Init(0).(actors := map[Client(0) := Actor(h, Arrived)]);
    assert Step(Init(0), Request(0, h)) == s1;
    ReachedStep(s1, Create(h, grace));
    var s2 := s1.(core := Core(Clock(0, [Timer(0, 0, grace, Pending)]), [Bomb(0, h, grace, 0, false, Some(0))], map[h := 0]));
    assert Step(s1, Create(h, grace)) == s2;
    DestroyedByClient(h, s2);
    RecreatedThenDefused(h, grace, s2.(actors := map[Client(0) := Actor(h, Notifying)]));
  }

  lemma RecreatedThenDefused(h: string, grace: int, s: State)
    requires grace != 0 && MatchedReached(s) && s.actors == map[Client(0) := Actor(h, Notifying)] && s.destroys == {}
    requires s.core == Core(Clock(0, [Timer(0, 0, grace, Pending)]), [Bomb(0, h, grace, 0, false, Some(0))], map[h := 0])
    ensures exists s' :: MatchedReached(s') && NewContainerDisarmed(s', h)
  {
    var b0, b1 := s.core.bombs[0], Bomb(1, h, grace, 0, false, Some(1));
    var t0, t1 := s.core.clock.timers[0], Timer(1, 0, grace, Pending);
    ReachedStep(s, Create(h, grace));
    var s1 := s.(core := Core(Clock(0, [t0, t1]), [b0, b1], map[h := 1]));
    assert Step(s, Create(h, grace)) == s1;
    ReachedStep(s1, Notify(Client(0)));
    var s2 := Step(s1, Notify(Client(0)));
    assert s2.core == Core(Clock(0, [t0, t1.(status := Stopped)]), [b0, b1.(timer := None, defused := true)], map[]);
    assert s2.core.clock.timers[0].owner == 0;
    assert NewContainerDisarmed(s2, h);
  }

  lemma DestroyedByClient(h: string, s: State)
    requires MatchedReached(s) && s.actors == map[Client(0) := Actor(h, Arrived)] && s.destroys == {}
    ensures MatchedReached(s.(actors := map[Client(0) := Actor(h, Notifying)]))
  {
    ReachedStep(s, Enter(Client(0)));
    var s1 := s.(actors := map[Client(0) := Actor(h, Destroying)], destroys := {h});
    assert Step(s, Enter(Client(0))) == s1;
    ReachedStep(s1, BackendReturns(Client(0), true));
    var s2 := s1.(actors := map[Client(0) := Actor(h, Returned(true))]);
    assert Step(s1, BackendReturns(Client(0), true)) == s2;
    ReachedStep(s2, Leave(Client(0)));
    assert Step(s2, Leave(Client(0))) == s.(actors := map[Client(0) := Actor(h, Notifying)]);
  }
}
