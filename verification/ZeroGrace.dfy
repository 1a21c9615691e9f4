/**
 A grace time of zero means that the container is not reaped: exactly when that fails,
 seen from the setting and seen from the reap, and runs in which it does.
 */
module ZeroGrace {
  import opened Options
  import opened TimeBombs
  import opened Bombermen
  import opened Reaper
  import opened ReaperTheorems
  import opened ReaperLimits

  // ---------- seen from the bomb ----------

  /** A timer that is due at once is armed exactly by setting to zero a bomb that is unpaused or still stores a timer. */
  lemma ZeroGraceArmsOnlyByReset(c: Core, sig: Signal)
    requires CoreInv(c)
    ensures
      (exists t | |c.clock.timers| <= t < |Manage(c, sig).clock.timers| :: Manage(c, sig).clock.timers[t].countdown == 0) <==>
      (sig.Reset? && sig.grace == 0 && Mapped(c, sig.handle) &&
       (c.bombs[c.mapped[sig.handle]].timer.Some? || c.bombs[c.mapped[sig.handle]].pauses == 0))
  {
    var c' := Manage(c, sig);
    if sig.Reset? && Mapped(c, sig.handle) && |c'.clock.timers| > |c.clock.timers| {
      assert c'.clock.timers[|c.clock.timers|].countdown == sig.grace;
    }
  }

  /** The step that armed a timer, and with what countdown. */
  lemma ArmedWithZeroIff(s: State, l: Label)
    requires CoreInv(s.core) && Enabled(s, l) && |CoreStep(s, l).clock.timers| > |s.core.clock.timers|
    ensures CoreStep(s, l).clock.timers[|s.core.clock.timers|].countdown == 0 <==> l.SetGraceTime? && l.grace == 0
    ensures l.SetGraceTime? ==>
      && Mapped(s.core, l.handle)
      && (s.core.bombs[s.core.mapped[l.handle]].timer.Some? || s.core.bombs[s.core.mapped[l.handle]].pauses == 0)
  {
  }

  /**
   A zero grace time means that the container is never reaped. An expiry of a bomb whose countdown
   is zero happens exactly if the step that armed the timer set the grace time to zero,
   and that step found the bomb unpaused or still storing a timer.
   */
  lemma ZeroGraceExpiryIff(r: Run, j: nat, e: nat)
    requires Legal(r) && Matched(r) && e < |r.labels| && r.labels[e].Expire? && ArmedSince(r, r.labels[e].timer, j, e)
    ensures var b := OwnerOf(r.states[e], r.labels[e].timer);
      && b < |r.states[e].core.bombs|
      && (r.states[e].core.bombs[b].countdown == 0 <==> r.labels[j].SetGraceTime? && r.labels[j].grace == 0)
      && (r.labels[j].SetGraceTime? ==>
            && b < |r.states[j].core.bombs|
            && (r.states[j].core.bombs[b].timer.Some? || r.states[j].core.bombs[b].pauses == 0))
  {
    var t := r.labels[e].timer;
    InvAt(r, e);
    InvAt(r, j);
    CoreAt(r, j);
    assert IsPending(r.states[j + 1].core.clock, t);
    ArmedWithZeroIff(r.states[j], r.labels[j]);
  }

  /** Step `m` creates bomb `b` or sets its grace time. */
  predicate SetsGrace(s: State, l: Label, b: nat) {
    (l.Create? || l.SetGraceTime?) && Target(s, l) == Some(b)
  }

  /** Step `m` is the last before state `i` that set the grace time of `b`, and set it to `grace`. */
  ghost predicate LastSet(r: Run, m: nat, i: nat, b: nat, grace: int)
    requires i < |r.states| == |r.labels| + 1
  {
    && m < i && SetsGrace(r.states[m], r.labels[m], b) && r.labels[m].grace == grace
    && forall n | m < n < i :: !SetsGrace(r.states[n], r.labels[n], b)
  }

  lemma CountdownStep(s: State, l: Label, b: nat)
    requires CoreInv(s.core) && Enabled(s, l) && b < |CoreStep(s, l).bombs|
    ensures if SetsGrace(s, l, b) then CoreStep(s, l).bombs[b].countdown == l.grace
      else b < |s.core.bombs| && CoreStep(s, l).bombs[b].countdown == s.core.bombs[b].countdown
  {
  }

  lemma {:induction false} CountdownIsLastSet(r: Run, i: nat, b: nat) returns (m: nat)
    requires Legal(r) && i < |r.states| && b < |r.states[i].core.bombs|
    ensures LastSet(r, m, i, b, r.states[i].core.bombs[b].countdown)
  {
    assert i > 0;
    InvAt(r, i - 1);
    CoreAt(r, i - 1);
    CountdownStep(r.states[i - 1], r.labels[i - 1], b);
    if SetsGrace(r.states[i - 1], r.labels[i - 1], b) {
      m := i - 1;
    } else {
      m := CountdownIsLastSet(r, i - 1, b);
    }
  }

  lemma LastSetIsUnique(r: Run, m: nat, n: nat, i: nat, b: nat, grace: int, other: int)
    requires i < |r.states| == |r.labels| + 1 && LastSet(r, m, i, b, grace) && LastSet(r, n, i, b, other)
    ensures m == n && grace == other
  {
  }

  /**
   How a reap can find its bomb's countdown zero: step `m` set it, either to arm
   the very timer that then expired at `e`, or after that expiry, with the reap in flight.
   */
  ghost predicate ZeroSetAt(r: Run, t: nat, m: nat, e: nat, i: nat)
    requires i < |r.states| == |r.labels| + 1 && t < |r.states[i].core.clock.timers|
  {
    && e < i && r.labels[e] == Expire(t)
    && LastSet(r, m, i, OwnerOf(r.states[i], t), 0) && r.labels[m].SetGraceTime?
    && ((m < e && ArmedSince(r, t, m, e)) || e < m)
  }

  lemma SetBeforeExpiryArmed(r: Run, t: nat, m: nat, e: nat, b: nat)
    requires Legal(r) && Matched(r) && e < |r.labels| && r.labels[e] == Expire(t) && t < |r.states[e].core.clock.timers|
    requires b == OwnerOf(r.states[e], t) && LastSet(r, m, e, b, 0)
    ensures ArmedSince(r, t, m, e) && r.labels[m].SetGraceTime?
  {
    assert StepAt(r, e);
    InvAt(r, e);
    var j := PendingSince(r, e, t);
    var n := CountdownIsLastSet(r, e, b);
    LastSetIsUnique(r, m, n, e, b, 0, r.states[e].core.bombs[b].countdown);
    ZeroGraceExpiryIff(r, j, e);
    assert SetsGrace(r.states[j], r.labels[j], b);
    assert j < m ==> Untouched(r, m, b);
  }

  /** A reap, at any point of its life, finds its bomb's countdown zero exactly in one of those two ways. */
  lemma ZeroCountdownReapIff(r: Run, i: nat, t: nat)
    requires Legal(r) && Matched(r) && i < |r.states| && Reap(t) in r.states[i].actors
    ensures t < |r.states[i].core.clock.timers| && OwnerOf(r.states[i], t) < |r.states[i].core.bombs|
    ensures r.states[i].core.bombs[OwnerOf(r.states[i], t)].countdown == 0 <==> exists m: nat, e: nat :: ZeroSetAt(r, t, m, e, i)
  {
    InvAt(r, i);
    var b := OwnerOf(r.states[i], t);
    var m := CountdownIsLastSet(r, i, b);
    var grace := r.states[i].core.bombs[b].countdown;
    if grace == 0 {
      var e := ReapFollowsExpiry(r, i, t);
      ZeroSetWhen(r, t, m, e, i);
    }
    forall m': nat, e: nat | ZeroSetAt(r, t, m', e, i)
      ensures grace == 0
    {
      LastSetIsUnique(r, m, m', i, b, grace, 0);
    }
  }

  lemma ZeroSetWhen(r: Run, t: nat, m: nat, e: nat, i: nat)
    requires Legal(r) && Matched(r) && e < i < |r.states| && r.labels[e] == Expire(t) && t < |r.states[i].core.clock.timers|
    requires LastSet(r, m, i, OwnerOf(r.states[i], t), 0)
    ensures ZeroSetAt(r, t, m, e, i)
  {
    assert StepAt(r, e);
    GrowsBetween(r, e, i);
    var b := OwnerOf(r.states[i], t);
    if m < e {
      assert LastSet(r, m, e, b, 0);
      SetBeforeExpiryArmed(r, t, m, e, b);
    } else {
      InvAt(r, e);
      GrowsBetween(r, e, m);
    }
  }

  // ---------- seen from the setting ----------

  predicate SetsGraceOf(l: Label, h: string) {
    (l.Create? || l.SetGraceTime?) && l.handle == h
  }

  /** A timer for a container of that name is running. */
  predicate TicksFor(c: Core, t: nat, h: string) {
    IsPending(c.clock, t) && c.clock.timers[t].owner < |c.bombs| && c.bombs[c.clock.timers[t].owner].handle == h
  }

  /** The setting finds a bomb that is unpaused or still stores a timer, and arms it. */
  predicate ArmsAtOnce(s: State, l: Label) {
    && l.SetGraceTime? && Mapped(s.core, l.handle)
    && (s.core.bombs[s.core.mapped[l.handle]].timer.Some? || s.core.bombs[s.core.mapped[l.handle]].pauses == 0)
  }

  /** The setting misses the bomb that timer `t` belongs to. */
  predicate MissesTimer(s: State, l: Label, t: nat, h: string) {
    TicksFor(s.core, t, h) && Target(s, l) != Some(OwnerOf(s, t))
  }

  /** A timer that runs right after a setting to zero was armed by it, or the setting missed its bomb. */
  lemma TicksAfterZero(s: State, l: Label, t: nat, h: string)
    requires CoreInv(s.core) && Enabled(s, l) && SetsGraceOf(l, h) && l.grace == 0
    ensures TicksFor(CoreStep(s, l), t, h) <==> (ArmsAtOnce(s, l) && t == |s.core.clock.timers|) || MissesTimer(s, l, t, h)
  {
  }

  lemma NewTimerWasArmed(s: State, l: Label, t: nat)
    requires CoreInv(s.core) && Enabled(s, l) && |s.core.clock.timers| <= t < |CoreStep(s, l).clock.timers|
    ensures var b := CoreStep(s, l).clock.timers[t].owner; b < |s.core.bombs| ==> Arms(s, l, b)
  {
  }

  lemma NewTimerAt(r: Run, n: nat, t: nat, b: nat)
    requires Legal(r) && n < |r.labels| && b < |r.states[n].core.bombs| && !Arms(r.states[n], r.labels[n], b)
    requires t < |r.states[n + 1].core.clock.timers| && OwnerOf(r.states[n + 1], t) == b
    ensures t < |r.states[n].core.clock.timers| && OwnerOf(r.states[n], t) == b
  {
    InvAt(r, n);
    CoreAt(r, n);
    CoreGrows(r.states[n], r.labels[n]);
    if t >= |r.states[n].core.clock.timers| {
      NewTimerWasArmed(r.states[n], r.labels[n], t);
    }
  }

  lemma {:induction false} TimerIsOld(r: Run, m: nat, e: nat, t: nat, b: nat)
    requires Legal(r) && m <= e < |r.states| && t < |r.states[e].core.clock.timers| && OwnerOf(r.states[e], t) == b
    requires b < |r.states[m].core.bombs| && forall n | m <= n < e :: !Arms(r.states[n], r.labels[n], b)
    ensures t < |r.states[m].core.clock.timers|
  {
    if m < e {
      GrowsBetween(r, m, e - 1);
      NewTimerAt(r, e - 1, t, b);
      TimerIsOld(r, m, e - 1, t, b);
    }
  }

  lemma UnreachedIsNotArmed(s: State, l: Label, b: nat)
    requires CoreInv(s.core) && b < |s.core.bombs| && Reached(s.core, s.core.bombs[b].handle) != Some(b)
    ensures !Arms(s, l, b)
  {
  }

  /** A bomb that its handle does not lead to is never armed again. */
  lemma {:induction false} UnreachedStays(r: Run, m: nat, n: nat, b: nat, h: string)
    requires Legal(r) && m <= n < |r.states| && b < |r.states[m].core.bombs| && r.states[m].core.bombs[b].handle == h
    requires Reached(r.states[m].core, h) != Some(b)
    ensures b < |r.states[n].core.bombs| && Reached(r.states[n].core, h) != Some(b)
    ensures n < |r.labels| ==> !Arms(r.states[n], r.labels[n], b)
  {
    GrowsBetween(r, m, n);
    InvAt(r, n);
    if m < n {
      UnreachedStays(r, m, n - 1, b, h);
      CoreAt(r, n - 1);
      if Reached(r.states[n].core, h) == Some(b) {
        OldBombsAreNotRemapped(r.states[n - 1], r.labels[n - 1], h, b);
      }
    }
    if n < |r.labels| {
      UnreachedIsNotArmed(r.states[n], r.labels[n], b);
    }
  }

  /** Nor is a bomb whose countdown is zero, until the grace time of its handle is set. */
  lemma {:induction false} ZeroStays(r: Run, m: nat, n: nat, b: nat, h: string)
    requires Legal(r) && m <= n < |r.states| && b < |r.states[m].core.bombs| && r.states[m].core.bombs[b].handle == h
    requires r.states[m].core.bombs[b].countdown == 0 && forall q | m <= q < n :: !SetsGraceOf(r.labels[q], h)
    ensures b < |r.states[n].core.bombs| && r.states[n].core.bombs[b].countdown == 0
    ensures n < |r.labels| && !SetsGraceOf(r.labels[n], h) ==> !Arms(r.states[n], r.labels[n], b)
  {
    GrowsBetween(r, m, n);
    InvAt(r, n);
    if m < n {
      ZeroStays(r, m, n - 1, b, h);
      InvAt(r, n - 1);
      CoreAt(r, n - 1);
      GrowsBetween(r, m, n - 1);
      CountdownStep(r.states[n - 1], r.labels[n - 1], b);
    }
  }

  lemma {:induction false} BombIsOld(r: Run, m: nat, e: nat, b: nat, h: string)
    requires Legal(r) && m <= e < |r.states| && b < |r.states[e].core.bombs| && r.states[e].core.bombs[b].handle == h
    requires forall n | m <= n < e :: !SetsGraceOf(r.labels[n], h)
    ensures b < |r.states[m].core.bombs|
  {
    if m < e {
      InvAt(r, e - 1);
      CoreAt(r, e - 1);
      CoreGrows(r.states[e - 1], r.labels[e - 1]);
      BombIsOld(r, m, e - 1, b, h);
    }
  }

  /** A timer that runs later, the grace time of its handle not set since, ran right after the setting to zero. */
  lemma TickedAfterZero(r: Run, m: nat, e: nat, t: nat, h: string)
    requires Legal(r) && m < e < |r.states| && TicksFor(r.states[e].core, t, h)
    requires SetsGraceOf(r.labels[m], h) && r.labels[m].grace == 0 && forall n | m < n < e :: !SetsGraceOf(r.labels[n], h)
    ensures TicksFor(r.states[m + 1].core, t, h)
  {
    var b := OwnerOf(r.states[e], t);
    BombIsOld(r, m + 1, e, b, h);
    GrowsBetween(r, m + 1, e);
    InvAt(r, m);
    CoreAt(r, m);
    ZeroOrUnreached(r.states[m], r.labels[m], b, h);
    forall n | m < n < e
      ensures !Arms(r.states[n], r.labels[n], b)
    {
      if Reached(r.states[m + 1].core, h) == Some(b) {
        ZeroStays(r, m + 1, n, b, h);
      } else {
        UnreachedStays(r, m + 1, n, b, h);
      }
    }
    TimerIsOld(r, m + 1, e, t, b);
  }

  lemma ZeroOrUnreached(s: State, l: Label, b: nat, h: string)
    requires CoreInv(s.core) && Enabled(s, l) && SetsGraceOf(l, h) && l.grace == 0
    ensures b < |CoreStep(s, l).bombs| && Reached(CoreStep(s, l), h) == Some(b) ==> CoreStep(s, l).bombs[b].countdown == 0
  {
  }

  /**
   Step `m` is the last setting of the grace time of `h`, to zero. A reap of `h` that is
   there later was there already, or its timer was armed by that very step, or the step
   missed the bomb of its timer.
   */
  lemma ZeroGraceReapCause(r: Run, m: nat, i: nat, t: nat, h: string)
    requires Legal(r) && m < i < |r.states| && Reap(t) in r.states[i].actors && r.states[i].actors[Reap(t)].handle == h
    requires SetsGraceOf(r.labels[m], h) && r.labels[m].grace == 0 && forall n | m < n < i :: !SetsGraceOf(r.labels[n], h)
    ensures
      || Reap(t) in r.states[m].actors
      || (ArmsAtOnce(r.states[m], r.labels[m]) && t == |r.states[m].core.clock.timers|)
      || MissesTimer(r.states[m], r.labels[m], t, h)
  {
    var e := ReapFollowsExpiry(r, i, t);
    assert StepAt(r, e);
    InvAt(r, i);
    GrowsBetween(r, e, i);
    if e < m {
      GrowsBetween(r, e + 1, m);
      FiredTimerHasItsReap(r, m, t);
    } else {
      TickedAfterZero(r, m, e, t, h);
      InvAt(r, m);
      CoreAt(r, m);
      TicksAfterZero(r.states[m], r.labels[m], t, h);
    }
  }

  /** Run `r` goes on from `p` without a setting for `h`, and at state `i` a reap of `h` is there that was not before. */
  ghost predicate NewReap(p: Run, r: Run, i: nat, t: nat, h: string) {
    && Legal(r) && |p.states| == |p.labels| + 1 && p.states <= r.states && p.labels <= r.labels && |p.labels| <= i < |r.states|
    && Reap(t) !in p.states[|p.labels|].actors && Reap(t) in r.states[i].actors && r.states[i].actors[Reap(t)].handle == h
    && forall n | |p.labels| <= n < i :: !SetsGraceOf(r.labels[n], h)
  }

  /**
   After a run that ends by setting the grace time of `h` to zero, a new reap of `h` can
   come exactly if that step arms a timer at once or misses the bomb of a running one.
   */
  lemma ZeroGraceReapIff(p: Run, m: nat, h: string)
    requires Legal(p) && |p.labels| == m + 1 && SetsGraceOf(p.labels[m], h) && p.labels[m].grace == 0
    ensures (exists r: Run, i: nat, t: nat :: NewReap(p, r, i, t, h)) <==>
      ArmsAtOnce(p.states[m], p.labels[m]) || exists t: nat :: MissesTimer(p.states[m], p.labels[m], t, h)
  {
    if r: Run, i: nat, t: nat :| NewReap(p, r, i, t, h) {
      NewReapHasCause(p, m, r, i, t, h);
    }
    InvAt(p, m);
    CoreAt(p, m);
    if ArmsAtOnce(p.states[m], p.labels[m]) {
      TicksAfterZero(p.states[m], p.labels[m], |p.states[m].core.clock.timers|, h);
      NewReapCanCome(p, |p.states[m].core.clock.timers|, h);
    } else if t: nat :| MissesTimer(p.states[m], p.labels[m], t, h) {
      TicksAfterZero(p.states[m], p.labels[m], t, h);
      NewReapCanCome(p, t, h);
    }
  }

  lemma NewReapHasCause(p: Run, m: nat, r: Run, i: nat, t: nat, h: string)
    requires Legal(p) && |p.labels| == m + 1 && SetsGraceOf(p.labels[m], h) && p.labels[m].grace == 0
    requires NewReap(p, r, i, t, h)
    ensures ArmsAtOnce(p.states[m], p.labels[m]) || MissesTimer(p.states[m], p.labels[m], t, h)
  {
    assert r.labels[m] == p.labels[m] && r.states[m] == p.states[m] && r.states[m + 1] == p.states[m + 1];
    assert StepAt(p, m);
    ZeroGraceReapCause(r, m, i, t, h);
  }

  lemma NewReapCanCome(p: Run, t: nat, h: string)
    requires Legal(p) && TicksFor(p.states[|p.labels|].core, t, h)
    ensures exists r: Run, i: nat :: NewReap(p, r, i, t, h)
  {
    var n := |p.labels|;
    var s := p.states[n];
    InvAt(p, n);
    var due := s.core.clock.timers[t].armedAt + s.core.clock.timers[t].countdown;
    var now := if due > s.core.clock.now then due else s.core.clock.now;
    TickExpireEnter(s, now, t, h);
    ExtendKeepsLegal(p, Tick(now));
    var q := Extend(p, Step(s, Tick(now)), Tick(now));
    ExtendKeepsLegal(q, Expire(t));
    var r := Extend(q, Step(q.states[n + 1], Expire(t)), Expire(t));
    assert NewReap(p, r, n + 2, t, h);
  }

  // ---------- runs ----------

  /** Created with a grace time, then set to zero: the new timer is due at once. */
  function ZeroArmed(h: string, status: Status): State {
    State(Core(Clock(0, [Timer(0, 0, 1, Stopped), Timer(0, 0, 0, status)]), [Bomb(0, h, 0, 0, false, Some(1))], map[h := 0]), map[], map[], {})
  }

  predicate ZeroGrace(s: State, h: string) {
    Mapped(s.core, h) && s.core.bombs[s.core.mapped[h]].countdown == 0
  }

  lemma ZeroArmedReached(h: string)
    ensures MatchedReached(ZeroArmed(h, Pending))
  {
    ReachedStart();
    ReachedStep(Init(0), Create(h, 1));
    var s := State(Core(Clock(0, [Timer(0, 0, 1, Pending)]), [Bomb(0, h, 1, 0, false, Some(0))], map[h := 0]), map[], map[], {});
    assert Step(Init(0), Create(h, 1)) == s;
    ReachedStep(s, SetGraceTime(h, 0));
    assert Step(s, SetGraceTime(h, 0)) == ZeroArmed(h, Pending);
  }

  /** So the container is destroyed although its grace time is zero. */
  lemma ZeroGraceIsReaped(h: string)
    ensures exists s :: MatchedReached(s) && InPhase(s, Reap(1), Destroying) && ZeroGrace(s, h)
  {
    ZeroArmedReached(h);
    var s := ZeroArmed(h, Pending);
    ReachedStep(s, Expire(1));
    var s' := ZeroArmed(h, Fired).(actors := map[Reap(1) := Actor(h, Arrived)]);
    assert Step(s, Expire(1)) == s';
    ReachedStep(s', Enter(Reap(1)));
    var s'' := Step(s', Enter(Reap(1)));
    assert InPhase(s'', Reap(1), Destroying) && ZeroGrace(s'', h);
  }

  /** A setting to zero does not stop a reap that is on its way. */
  lemma ZeroGraceInFlightIsReaped(h: string)
    ensures exists s :: MatchedReached(s) && DestroyedWhileHeld(s, h, 0)
  {
    InFlightReached(h);
    ReachedStep(HeldInFlight(h, 1), SetGraceTime(h, 0));
    assert Step(HeldInFlight(h, 1), SetGraceTime(h, 0)) == HeldInFlight(h, 0);
    EnterInFlight(h, 0);
  }

  /** A setting to zero that comes after a failed reap finds no bomb, and the timer that ticks on destroys the container. */
  lemma ZeroGraceMissedIsReaped(h: string)
    ensures exists s ::
      && ReachedBy(s, [SetGraceTime(h, 0), Tick(2), Expire(1), Enter(Reap(1))])
      && InPhase(s, Reap(1), Destroying) && s.actors[Reap(1)].handle == h
  {
    TicksUnmapped(h);
    var s := TickingAgain(h, map[], Done, {});
    ReachedByNothing(s);
    ReachedByStep(s, [], SetGraceTime(h, 0));
    assert Step(s, SetGraceTime(h, 0)) == s;
    ExpiresAndEnters(h, s, [SetGraceTime(h, 0)], 1, 2);
    var s' :| ReachedBy(s', [SetGraceTime(h, 0)] + [Tick(2), Expire(1), Enter(Reap(1))]) && ReapedFrom(s, s', 1, h);
    assert [SetGraceTime(h, 0)] + [Tick(2), Expire(1), Enter(Reap(1))] == [SetGraceTime(h, 0), Tick(2), Expire(1), Enter(Reap(1))];
  }
}
