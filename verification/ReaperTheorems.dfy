/** What every run of the reaping machinery guarantees about bombs, timers and handlers. */
module ReaperTheorems {
  import opened Options
  import opened TimeBombs
  import opened Bombermen
  import opened Reaper

  // ---------- pauses count the handlers that hold the bomb ----------

  /** The handlers whose Pause reached bomb `b` and whose Unpause has not. */
  function Holders(s: State, b: nat): set<nat> {
    set k | k in s.handlers && s.handlers[k].paused == Some(b) && s.handlers[k].unpaused != Some(b)
  }

  ghost predicate Accounted(s: State) {
    forall b | 0 <= b < |s.core.bombs| :: s.core.bombs[b].pauses == |Holders(s, b)|
  }

  ghost predicate HasPendingTimer(c: Core, b: nat) {
    exists t | 0 <= t < |c.clock.timers| :: c.clock.timers[t].owner == b && c.clock.timers[t].status == Pending
  }

  lemma HoldersStep(s: State, l: Label, b: nat)
    requires LinkInv(s) && Enabled(s, l)
    ensures Holders(Step(s, l), b) ==
      if l.Begin? && Reached(s.core, l.handle) == Some(b) then Holders(s, b) + {l.k}
      else if l.End? && Reached(s.core, s.handlers[l.k].handle) == Some(b) then Holders(s, b) - {l.k}
      else Holders(s, b)
  {
  }

  lemma PausesStep(s: State, l: Label, b: nat)
    requires CoreInv(s.core) && LinkInv(s) && Enabled(s, l) && b < |CoreStep(s, l).bombs|
    ensures CoreStep(s, l).bombs[b].pauses ==
      if b == |s.core.bombs| then 0
      else if l.Begin? && Reached(s.core, l.handle) == Some(b) then s.core.bombs[b].pauses + 1
      else if l.End? && Reached(s.core, s.handlers[l.k].handle) == Some(b) then s.core.bombs[b].pauses - 1
      else s.core.bombs[b].pauses
  {
  }

  lemma CountStaysRightIff(s: State, l: Label, b: nat)
    requires CoreInv(s.core) && LinkInv(s) && Accounted(s) && Enabled(s, l) && b < |CoreStep(s, l).bombs|
    ensures CoreStep(s, l).bombs[b].pauses == |Holders(Step(s, l), b)| <==>
      (l.End? && Reached(s.core, s.handlers[l.k].handle) == Some(b) ==> s.handlers[l.k].paused == Some(b))
  {
    HoldersStep(s, l, b);
    PausesStep(s, l, b);
    if b == |s.core.bombs| {
      assert Holders(s, b) == {};
    }
  }

  /** The count stays right across a step exactly when the step is matched. */
  lemma AccountedIffMatched(s: State, l: Label)
    requires CoreInv(s.core) && LinkInv(s) && Accounted(s) && Enabled(s, l)
    ensures Accounted(Step(s, l)) <==> MatchedStep(s, l)
  {
    var s' := Step(s, l);
    forall b | 0 <= b < |s'.core.bombs|
      ensures s'.core.bombs[b].pauses == |Holders(s', b)| <==>
              (l.End? && Reached(s.core, s.handlers[l.k].handle) == Some(b) ==> s.handlers[l.k].paused == Some(b))
    {
      CountStaysRightIff(s, l, b);
    }
    if l.End? && Mapped(s.core, s.handlers[l.k].handle) {
      var b := s.core.mapped[s.handlers[l.k].handle];
      assert Accounted(s') ==> s'.core.bombs[b].pauses == |Holders(s', b)|;
    }
  }

  lemma {:induction false} AccountedAt(r: Run, i: nat)
    requires Legal(r) && Matched(r) && i < |r.states|
    ensures Accounted(r.states[i])
  {
    if i > 0 {
      AccountedAt(r, i - 1);
      InvAt(r, i - 1);
      assert StepAt(r, i - 1) && MatchedAt(r, i - 1);
      AccountedIffMatched(r.states[i - 1], r.labels[i - 1]);
    }
  }

  /**
   In every matched run a bomb's counter is the number of handlers holding it, and
   while anyone holds it no timer of it is pending, so no expiry of it can happen.
   */
  lemma HeldBombCannotExpire(r: Run, i: nat, b: nat)
    requires Legal(r) && Matched(r) && i < |r.states| && b < |r.states[i].core.bombs|
    ensures r.states[i].core.bombs[b].pauses == |Holders(r.states[i], b)|
    ensures Holders(r.states[i], b) != {} ==> !HasPendingTimer(r.states[i].core, b)
    ensures Holders(r.states[i], b) != {} ==>
      forall t: nat | Enabled(r.states[i], Expire(t)) :: r.states[i].core.clock.timers[t].owner != b
  {
    InvAt(r, i);
    AccountedAt(r, i);
    assert Holders(r.states[i], b) != {} ==> |Holders(r.states[i], b)| > 0;
  }

  /** Handlers hit the bomb of their own handle, and one that missed its Unpause left an unmapped bomb. */
  ghost predicate BracketInv(s: State) {
    forall k | k in s.handlers && s.handlers[k].paused.Some? && s.handlers[k].paused.value < |s.core.bombs| ::
      && s.core.bombs[s.handlers[k].paused.value].handle == s.handlers[k].handle
      && (s.handlers[k].finished && s.handlers[k].unpaused != s.handlers[k].paused ==>
            Reached(s.core, s.handlers[k].handle) != s.handlers[k].paused)
  }

  /** The map never takes up an old bomb again. */
  lemma OldBombsAreNotRemapped(s: State, l: Label, h: string, b: nat)
    requires Enabled(s, l) && b < |s.core.bombs| && Reached(CoreStep(s, l), h) == Some(b)
    ensures Reached(s.core, h) == Some(b)
  {
  }

  lemma BracketStep(s: State, l: Label)
    requires CoreInv(s.core) && LinkInv(s) && BracketInv(s) && Enabled(s, l)
    ensures BracketInv(Step(s, l))
  {
    CoreGrows(s, l);
    var c', hs' := CoreStep(s, l), HandlersStep(s, l);
    forall k | k in hs' && hs'[k].paused.Some? && hs'[k].paused.value < |c'.bombs|
      ensures c'.bombs[hs'[k].paused.value].handle == hs'[k].handle
      ensures hs'[k].finished && hs'[k].unpaused != hs'[k].paused ==> Reached(c', hs'[k].handle) != hs'[k].paused
    {
      if Reached(c', hs'[k].handle) == hs'[k].paused {
        OldBombsAreNotRemapped(s, l, hs'[k].handle, hs'[k].paused.value);
      }
    }
  }

  lemma {:induction false} BracketAt(r: Run, i: nat)
    requires Legal(r) && i < |r.states|
    ensures BracketInv(r.states[i])
  {
    if i > 0 {
      BracketAt(r, i - 1);
      InvAt(r, i - 1);
      assert StepAt(r, i - 1);
      BracketStep(r.states[i - 1], r.labels[i - 1]);
    }
  }

  /** A mapped bomb's counter is the number of requests that paused it and are still running. */
  lemma MappedBombCountsRunningRequests(r: Run, i: nat, h: string)
    requires Legal(r) && Matched(r) && i < |r.states| && Mapped(r.states[i].core, h)
    ensures var s := r.states[i];
      s.core.bombs[s.core.mapped[h]].pauses ==
      |set k | k in s.handlers && !s.handlers[k].finished && s.handlers[k].paused == Some(s.core.mapped[h])|
  {
    InvAt(r, i);
    AccountedAt(r, i);
    BracketAt(r, i);
    var s := r.states[i];
    var running := set k | k in s.handlers && !s.handlers[k].finished && s.handlers[k].paused == Some(s.core.mapped[h]);
    forall k | k in Holders(s, s.core.mapped[h])
      ensures k in running
    {
      assert s.core.bombs[s.core.mapped[h]].handle == h;
    }
    assert Holders(s, s.core.mapped[h]) == running;
  }

  // ---------- an expiry follows a whole, untouched grace time ----------

  /** The bomb that a TimeBomb method is called on in this step, if any. */
  function Target(s: State, l: Label): Option<nat> {
    if !Enabled(s, l) then None else
    var sig := SignalOf(s, l);
    if sig.None? || sig.value.Cleanup? then None
    else if sig.value.Strap? then Some(|s.core.bombs|)
    else Reached(s.core, sig.value.handle)
  }

  ghost predicate Untouched(r: Run, i: nat, b: nat)
    requires i < |r.labels| < |r.states|
  {
    Target(r.states[i], r.labels[i]) != Some(b)
  }

  /** Step `j` armed timer `t`; up to state `i` it stayed pending and its bomb untouched. */
  ghost predicate ArmedSince(r: Run, t: nat, j: nat, i: nat)
    requires i < |r.states| == |r.labels| + 1
  {
    && j < i
    && IsPending(r.states[i].core.clock, t)
    && t == |r.states[j].core.clock.timers|
    && Target(r.states[j], r.labels[j]) == Some(r.states[i].core.clock.timers[t].owner)
    && r.states[j].core.clock.now == r.states[i].core.clock.timers[t].armedAt
    && (forall m | j < m <= i ::
          IsPending(r.states[m].core.clock, t) && r.states[m].core.clock.timers[t] == r.states[i].core.clock.timers[t])
    && (forall m | j < m < i :: Untouched(r, m, r.states[i].core.clock.timers[t].owner))
  }

  lemma CallPending(b: Bomb, c: Clock, m: Method, t: nat)
    requires BombInv(b, c) && MayCall(b, m) && (m.Unpause? ==> b.pauses > 0)
    requires IsPending(Call(b, c, m).clock, t)
    ensures var tm := Call(b, c, m).clock.timers[t];
      if IsPending(c, t) then tm == c.timers[t] && tm.owner != b.id
      else t == |c.timers| && tm.owner == b.id && tm.armedAt == c.now
  {
  }

  /** A timer pending after a step was pending before it and its bomb untouched, or was armed by it. */
  lemma PendingStep(s: State, l: Label, t: nat)
    requires CoreInv(s.core) && Accounted(s) && LinkInv(s) && Enabled(s, l) && MatchedStep(s, l)
    requires IsPending(CoreStep(s, l).clock, t)
    ensures var tm := CoreStep(s, l).clock.timers[t];
      if IsPending(s.core.clock, t) then tm == s.core.clock.timers[t] && Target(s, l) != Some(tm.owner)
      else t == |s.core.clock.timers| && Target(s, l) == Some(tm.owner) && tm.armedAt == s.core.clock.now
  {
    if l.End? && Mapped(s.core, s.handlers[l.k].handle) {
      assert l.k in Holders(s, s.core.mapped[s.handlers[l.k].handle]);
    }
    if Target(s, l).Some? && !l.Create? {
      var b := s.core.bombs[Target(s, l).value];
      match SignalOf(s, l).value
      case Defuse(_) => CallPending(b, s.core.clock, Method.Defuse, t);
      case Reset(_, grace) => CallPending(b, s.core.clock, Method.Reset(grace), t);
      case Pause(_) => CallPending(b, s.core.clock, Method.Pause, t);
      case Unpause(_) => CallPending(b, s.core.clock, Method.Unpause, t);
    }
  }

  lemma PendingAtStep(r: Run, i: nat, t: nat)
    requires Legal(r) && Matched(r) && i < |r.labels| && IsPending(r.states[i + 1].core.clock, t)
    ensures var tm := r.states[i + 1].core.clock.timers[t];
      if IsPending(r.states[i].core.clock, t) then tm == r.states[i].core.clock.timers[t] && Untouched(r, i, tm.owner)
      else
        && t == |r.states[i].core.clock.timers| && Target(r.states[i], r.labels[i]) == Some(tm.owner)
        && tm.armedAt == r.states[i].core.clock.now
  {
    InvAt(r, i);
    AccountedAt(r, i);
    assert StepAt(r, i) && MatchedAt(r, i);
    PendingStep(r.states[i], r.labels[i], t);
  }

  lemma NothingPendingAtStart(r: Run, t: nat)
    requires Legal(r)
    ensures !IsPending(r.states[0].core.clock, t)
  {
  }

  lemma ArmedNow(r: Run, t: nat, j: nat)
    requires j < |r.labels| && |r.states| == |r.labels| + 1 && IsPending(r.states[j + 1].core.clock, t)
    requires t == |r.states[j].core.clock.timers|
    requires Target(r.states[j], r.labels[j]) == Some(r.states[j + 1].core.clock.timers[t].owner)
    requires r.states[j + 1].core.clock.timers[t].armedAt == r.states[j].core.clock.now
    ensures ArmedSince(r, t, j, j + 1)
  {
  }

  lemma StaysArmed(r: Run, t: nat, j: nat, i: nat)
    requires i < |r.labels| && |r.states| == |r.labels| + 1 && ArmedSince(r, t, j, i)
    requires IsPending(r.states[i + 1].core.clock, t)
    requires r.states[i + 1].core.clock.timers[t] == r.states[i].core.clock.timers[t]
    requires Untouched(r, i, r.states[i].core.clock.timers[t].owner)
    ensures ArmedSince(r, t, j, i + 1)
  {
  }

  lemma {:induction false} PendingSince(r: Run, i: nat, t: nat) returns (j: nat)
    requires Legal(r) && Matched(r) && i < |r.states| && IsPending(r.states[i].core.clock, t)
    ensures ArmedSince(r, t, j, i)
  {
    NothingPendingAtStart(r, t);
    PendingAtStep(r, i - 1, t);
    if IsPending(r.states[i - 1].core.clock, t) {
      j := PendingSince(r, i - 1, t);
      StaysArmed(r, t, j, i - 1);
    } else {
      j := i - 1;
      ArmedNow(r, t, j);
    }
  }

  /**
   Step `e` expires timer `t`, which step `j` armed at least the bomb's current countdown
   ago; in between nothing touched the bomb and no handler held it.
   */
  ghost predicate GraceWindow(r: Run, t: nat, j: nat, e: nat)
    requires e < |r.labels| && |r.states| == |r.labels| + 1
  {
    && ArmedSince(r, t, j, e)
    && var b := r.states[e].core.clock.timers[t].owner;
    && b < |r.states[e].core.bombs|
    && r.states[j].core.clock.now + r.states[e].core.bombs[b].countdown <= r.states[e].core.clock.now
    && (forall m | j < m <= e :: Holders(r.states[m], b) == {})
  }

  lemma ExpiryAfterGraceTime(r: Run, e: nat)
    requires Legal(r) && Matched(r) && e < |r.labels| && r.labels[e].Expire?
    ensures exists j: nat :: GraceWindow(r, r.labels[e].timer, j, e)
  {
    assert StepAt(r, e);
    var t := r.labels[e].timer;
    var b := r.states[e].core.clock.timers[t].owner;
    var j := PendingSince(r, e, t);
    InvAt(r, e);
    forall m | j < m <= e
      ensures Holders(r.states[m], b) == {}
    {
      InvAt(r, m);
      AccountedAt(r, m);
      assert r.states[m].core.clock.timers[t].owner == b;
    }
    assert GraceWindow(r, t, j, e);
  }

  /** A reap in progress, at any later time, goes back to such an expiry of its own timer. */
  lemma {:induction false} ReapFollowsExpiry(r: Run, i: nat, t: nat) returns (e: nat)
    requires Legal(r) && i < |r.states| && Reap(t) in r.states[i].actors
    ensures e < i && r.labels[e] == Expire(t)
  {
    assert i > 0 && StepAt(r, i - 1);
    if Reap(t) in r.states[i - 1].actors {
      e := ReapFollowsExpiry(r, i - 1, t);
    } else {
      e := i - 1;
    }
  }

  /** The bomb that the expired timer `t` belongs to. */
  function OwnerOf(s: State, t: nat): nat
    requires t < |s.core.clock.timers|
  {
    s.core.clock.timers[t].owner
  }

  lemma {:induction false} GrowsBetween(r: Run, i: nat, j: nat)
    requires Legal(r) && i <= j < |r.states|
    ensures Grows(r.states[i].core, r.states[j].core)
  {
    if i < j {
      GrowsBetween(r, i, j - 1);
      InvAt(r, j - 1);
      CoreAt(r, j - 1);
      CoreGrows(r.states[j - 1], r.labels[j - 1]);
    }
  }

  // ---------- no countdown is lost ----------

  /** Every mapped, unpaused bomb with a non-zero countdown stores a timer. */
  ghost predicate Counting(c: Core) {
    forall h | h in c.mapped && c.mapped[h] < |c.bombs| ::
      var b := c.bombs[c.mapped[h]]; b.pauses == 0 && b.countdown != 0 ==> b.timer.Some?
  }

  /** The one branch that can lose a countdown: a Pause that brings a counter below zero up to zero. */
  predicate LosesCountdown(c: Core, sig: Signal) {
    && sig.Pause? && Mapped(c, sig.handle)
    && c.bombs[c.mapped[sig.handle]].pauses == -1 && c.bombs[c.mapped[sig.handle]].countdown != 0
  }

  lemma CountingManageIff(c: Core, sig: Signal)
    requires CoreInv(c) && Counting(c)
    ensures Counting(Manage(c, sig)) <==> !LosesCountdown(c, sig)
  {
    var c' := Manage(c, sig);
    if !sig.Strap? && Mapped(c, sig.handle) {
      var id := c.mapped[sig.handle];
      assert c.bombs[id].handle == sig.handle;
      assert forall h | h in c.mapped && h != sig.handle :: c.mapped[h] != id;
      assert sig.Pause? ==> sig.handle in c'.mapped && c'.mapped[sig.handle] == id && c'.bombs[id].timer.None?;
    }
  }

  predicate LossAt(s: State, l: Label) {
    Enabled(s, l) && SignalOf(s, l).Some? && LosesCountdown(s.core, SignalOf(s, l).value)
  }

  lemma CountingStepIff(s: State, l: Label)
    requires CoreInv(s.core) && Counting(s.core) && Enabled(s, l)
    ensures Counting(CoreStep(s, l)) <==> !LossAt(s, l)
  {
    if SignalOf(s, l).Some? {
      CountingManageIff(s.core, SignalOf(s, l).value);
    }
  }

  /** In every run, matched or not, no countdown is ever lost exactly if that branch is never taken. */
  lemma {:induction false} NeverLostIff(r: Run, i: nat)
    requires Legal(r) && i < |r.states|
    ensures (forall n | 0 <= n <= i :: Counting(r.states[n].core)) <==> forall n | 0 <= n < i :: !LossAt(r.states[n], r.labels[n])
  {
    if i > 0 {
      NeverLostIff(r, i - 1);
      InvAt(r, i - 1);
      CoreAt(r, i - 1);
      if Counting(r.states[i - 1].core) {
        CountingStepIff(r.states[i - 1], r.labels[i - 1]);
      }
    }
  }

  lemma MatchedLosesNothing(r: Run, n: nat)
    requires Legal(r) && Matched(r) && n < |r.labels|
    ensures !LossAt(r.states[n], r.labels[n])
  {
    AccountedAt(r, n);
  }

  lemma CountingAt(r: Run, i: nat)
    requires Legal(r) && Matched(r) && i < |r.states|
    ensures Counting(r.states[i].core)
  {
    NeverLostIff(r, i);
    forall n | 0 <= n < i
      ensures !LossAt(r.states[n], r.labels[n])
    {
      MatchedLosesNothing(r, n);
    }
  }

  /** A mapped bomb that nobody holds stores a timer of its current countdown, pending or gone off. */
  lemma NoLostCountdown(r: Run, i: nat, h: string)
    requires Legal(r) && Matched(r) && i < |r.states| && Mapped(r.states[i].core, h)
    requires Holders(r.states[i], r.states[i].core.mapped[h]) == {}
    requires r.states[i].core.bombs[r.states[i].core.mapped[h]].countdown != 0
    ensures var c := r.states[i].core; var b := c.bombs[c.mapped[h]];
      && b.timer.Some? && b.timer.value < |c.clock.timers|
      && var tm := c.clock.timers[b.timer.value];
      && tm.owner == c.mapped[h] && tm.countdown == b.countdown && tm.status in {Pending, Fired}
  {
    InvAt(r, i);
    AccountedAt(r, i);
    CountingAt(r, i);
  }

  lemma {:induction false} FiredTimerHasItsReap(r: Run, i: nat, t: nat)
    requires Legal(r) && i < |r.states| && t < |r.states[i].core.clock.timers| && r.states[i].core.clock.timers[t].status == Fired
    ensures Reap(t) in r.states[i].actors
  {
    assert i > 0 && StepAt(r, i - 1);
    InvAt(r, i - 1);
    var s, l := r.states[i - 1], r.labels[i - 1];
    if t < |s.core.clock.timers| && s.core.clock.timers[t].status == Fired {
      FiredTimerHasItsReap(r, i - 1, t);
    } else {
      FiredOnlyByExpire(s, l, t);
    }
  }

  lemma FiredOnlyByExpire(s: State, l: Label, t: nat)
    requires Enabled(s, l) && t < |CoreStep(s, l).clock.timers| && CoreStep(s, l).clock.timers[t].status == Fired
    ensures l == Expire(t) || (t < |s.core.clock.timers| && s.core.clock.timers[t].status == Fired)
  {
  }

  /** A timer with a negative duration goes off at once. */
  function Delay(countdown: int): nat {
    if countdown > 0 then countdown else 0
  }

  /**
   So an unreferenced container is not forgotten: either the reap of its stored timer is
   already there, or once the countdown has passed that timer goes off and its reap gets
   into the backend's Destroy, unless another destroy of the container is under way.
   */
  lemma UnreferencedContainerGetsDestroyed(r: Run, i: nat, h: string)
    requires Legal(r) && Matched(r) && i < |r.states| && Mapped(r.states[i].core, h)
    requires Holders(r.states[i], r.states[i].core.mapped[h]) == {}
    requires r.states[i].core.bombs[r.states[i].core.mapped[h]].countdown != 0
    ensures var s := r.states[i]; var b := s.core.bombs[s.core.mapped[h]];
      && b.timer.Some?
      && (Reap(b.timer.value) in s.actors || LeadsToDestroy(s, s.core.clock.now + Delay(b.countdown), b.timer.value, h))
  {
    InvAt(r, i);
    NoLostCountdown(r, i, h);
    var s := r.states[i];
    var b := s.core.bombs[s.core.mapped[h]];
    var t := b.timer.value;
    if s.core.clock.timers[t].status == Fired {
      FiredTimerHasItsReap(r, i, t);
    } else {
      assert s.core.clock.timers[t].armedAt <= s.core.clock.now;
      TickExpireEnter(s, s.core.clock.now + Delay(b.countdown), t, h);
    }
  }

  /** A pending timer whose bomb nobody calls is pending or has gone off, and keeps its deadline. */
  lemma {:induction false} UntouchedTimerStays(r: Run, i: nat, j: nat, t: nat)
    requires Legal(r) && i <= j < |r.states| && IsPending(r.states[i].core.clock, t)
    requires forall n | i <= n < j :: Untouched(r, n, OwnerOf(r.states[i], t))
    ensures t < |r.states[j].core.clock.timers|
    ensures r.states[j].core.clock.timers[t] in {r.states[i].core.clock.timers[t], r.states[i].core.clock.timers[t].(status := Fired)}
  {
    if i < j {
      UntouchedTimerStays(r, i, j - 1, t);
      InvAt(r, j - 1);
      CoreAt(r, j - 1);
      assert Untouched(r, j - 1, OwnerOf(r.states[i], t));
      UntouchedStep(r.states[j - 1], r.labels[j - 1], t);
    }
  }

  lemma UntouchedStep(s: State, l: Label, t: nat)
    requires CoreInv(s.core) && Enabled(s, l) && t < |s.core.clock.timers| && Target(s, l) != Some(OwnerOf(s, t))
    ensures t < |CoreStep(s, l).clock.timers|
    ensures CoreStep(s, l).clock.timers[t] == if l == Expire(t) then s.core.clock.timers[t].(status := Fired) else s.core.clock.timers[t]
  {
  }

  /**
   Nor can the rest of the system hold that up: in every continuation that does not call
   the bomb, once the countdown has passed the stored timer's reap is there or its expiry
   can happen.
   */
  lemma UncalledBombGoesOff(r: Run, i: nat, j: nat, h: string)
    requires Legal(r) && Matched(r) && i <= j < |r.states| && Mapped(r.states[i].core, h)
    requires Holders(r.states[i], r.states[i].core.mapped[h]) == {}
    requires r.states[i].core.bombs[r.states[i].core.mapped[h]].countdown != 0
    requires forall n | i <= n < j :: Untouched(r, n, r.states[i].core.mapped[h])
    ensures var b := r.states[i].core.bombs[r.states[i].core.mapped[h]];
      && b.timer.Some?
      && (r.states[j].core.clock.now >= r.states[i].core.clock.now + Delay(b.countdown) ==>
            Reap(b.timer.value) in r.states[j].actors || Enabled(r.states[j], Expire(b.timer.value)))
  {
    InvAt(r, i);
    InvAt(r, j);
    NoLostCountdown(r, i, h);
    var t := r.states[i].core.bombs[r.states[i].core.mapped[h]].timer.value;
    GrowsBetween(r, i, j);
    if IsPending(r.states[i].core.clock, t) {
      UntouchedTimerStays(r, i, j, t);
    }
    if r.states[j].core.clock.timers[t].status == Fired {
      FiredTimerHasItsReap(r, j, t);
    }
  }

  /** Letting the clock reach `now`, timer `t` goes off and its reap enters, destroying `h` unless it is marked. */
  ghost predicate LeadsToDestroy(s: State, now: int, t: nat, h: string) {
    && Enabled(s, Tick(now))
    && var s1 := Step(s, Tick(now));
    && Enabled(s1, Expire(t))
    && var s2 := Step(s1, Expire(t));
    && Enabled(s2, Enter(Reap(t)))
    && var s3 := Step(s2, Enter(Reap(t)));
    && Reap(t) in s3.actors && s3.actors[Reap(t)].handle == h
    && (InPhase(s3, Reap(t), Destroying) <==> h !in s.destroys)
  }

  lemma TickExpireEnter(s: State, now: int, t: nat, h: string)
    requires s.core.clock.now <= now && IsPending(s.core.clock, t)
    requires s.core.clock.timers[t].armedAt + s.core.clock.timers[t].countdown <= now
    requires OwnerOf(s, t) < |s.core.bombs| && s.core.bombs[OwnerOf(s, t)].handle == h
    ensures LeadsToDestroy(s, now, t, h)
  {
  }

  // ---------- a defused bomb stays silent ----------

  lemma DefusedStaysSilent(r: Run, i: nat, j: nat, b: nat)
    requires Legal(r) && i <= j < |r.states| && b < |r.states[i].core.bombs| && r.states[i].core.bombs[b].defused
    ensures !HasPendingTimer(r.states[j].core, b)
    ensures forall h | h in r.states[j].core.mapped :: r.states[j].core.mapped[h] != b
    ensures j < |r.labels| ==> Target(r.states[j], r.labels[j]) != Some(b)
  {
    GrowsBetween(r, i, j);
    InvAt(r, j);
  }

  /** The client destroy that ends at step `i` leaves no mapped bomb and no pending timer behind. */
  lemma DestroyedContainerIsDisarmed(r: Run, i: nat, h: string)
    requires Legal(r) && i < |r.labels| && r.labels[i].Notify? && r.labels[i].a.Client? && StepAt(r, i)
    requires h == r.states[i].actors[r.labels[i].a].handle
    ensures h !in r.states[i + 1].core.mapped
    ensures Mapped(r.states[i].core, h) ==>
      forall j | i < j < |r.states| :: !HasPendingTimer(r.states[j].core, r.states[i].core.mapped[h])
  {
    InvAt(r, i);
    if Mapped(r.states[i].core, h) {
      forall j | i < j < |r.states|
        ensures !HasPendingTimer(r.states[j].core, r.states[i].core.mapped[h])
      {
        DefusedStaysSilent(r, i + 1, j, r.states[i].core.mapped[h]);
      }
    }
  }

  lemma MappingStep(s: State, l: Label, h: string)
    requires Enabled(s, l) && Mapped(CoreStep(s, l), h) && !(l.Create? && l.handle == h) && CoreInv(s.core)
    ensures Mapped(s.core, h) && CoreStep(s, l).mapped[h] == s.core.mapped[h]
  {
  }

  ghost predicate CreatedBetween(r: Run, i: nat, j: nat, h: string)
    requires j <= |r.labels|
  {
    exists c | i <= c < j :: r.labels[c].Create? && r.labels[c].handle == h
  }

  lemma {:induction false} UnmappedUntilCreated(r: Run, i: nat, j: nat, h: string)
    requires Legal(r) && i <= j < |r.states| && h !in r.states[i].core.mapped && !CreatedBetween(r, i, j, h)
    ensures !Mapped(r.states[j].core, h)
  {
    if i < j {
      UnmappedUntilCreated(r, i, j - 1, h);
      InvAt(r, j - 1);
      CoreAt(r, j - 1);
      if Mapped(r.states[j].core, h) {
        MappingStep(r.states[j - 1], r.labels[j - 1], h);
      }
    }
  }

  /**
   The cleanup that ends a reap unmaps its handle and touches nothing else, and no later
   step maps the handle again except a create of it: requests that were running then
   reach no bomb.
   */
  lemma ReapedContainerIsForgotten(r: Run, i: nat, h: string)
    requires Legal(r) && i < |r.labels| && r.labels[i].Notify? && r.labels[i].a.Reap? && StepAt(r, i)
    requires h == r.states[i].actors[r.labels[i].a].handle
    ensures h !in r.states[i + 1].core.mapped
    ensures forall g | g != h :: Reached(r.states[i + 1].core, g) == Reached(r.states[i].core, g)
    ensures r.states[i + 1].core.bombs == r.states[i].core.bombs && r.states[i + 1].core.clock == r.states[i].core.clock
    ensures forall j | i < j < |r.states| && Mapped(r.states[j].core, h) :: CreatedBetween(r, i + 1, j, h)
  {
    forall j | i < j < |r.states| && Mapped(r.states[j].core, h)
      ensures CreatedBetween(r, i + 1, j, h)
    {
      if !CreatedBetween(r, i + 1, j, h) {
        UnmappedUntilCreated(r, i + 1, j, h);
      }
    }
  }

  // ---------- pending timers belong to the mapped bomb ----------

  /** Every pending timer for `h` belongs to the bomb the map holds for `h`. */
  ghost predicate Reachable(c: Core, h: string) {
    forall t | 0 <= t < |c.clock.timers| && c.clock.timers[t].status == Pending && c.clock.timers[t].owner < |c.bombs| ::
      c.bombs[c.clock.timers[t].owner].handle == h ==> Reached(c, h) == Some(c.clock.timers[t].owner)
  }

  /** The two branches that can lose sight of a bomb, taken while its timer is still pending. */
  ghost predicate Orphans(c: Core, sig: Signal, h: string) {
    sig.handle == h && (sig.Strap? || sig.Cleanup?) && Mapped(c, h) && HasPendingTimer(c, c.mapped[h])
  }

  lemma PendingAfterManage(c: Core, sig: Signal, t: nat)
    requires CoreInv(c) && IsPending(Manage(c, sig).clock, t)
    ensures
      || (IsPending(c.clock, t) && Manage(c, sig).clock.timers[t] == c.clock.timers[t] &&
          !(sig.Defuse? && Reached(c, sig.handle) == Some(c.clock.timers[t].owner)))
      || (|c.clock.timers| <= t && Reached(Manage(c, sig), sig.handle) == Some(Manage(c, sig).clock.timers[t].owner))
  {
  }

  lemma OrphanIsUnreachable(c: Core, sig: Signal, h: string)
    requires CoreInv(c) && Orphans(c, sig, h)
    ensures !Reachable(Manage(c, sig), h)
  {
    var c' := Manage(c, sig);
    var t :| 0 <= t < |c.clock.timers| && c.clock.timers[t].owner == c.mapped[h] && c.clock.timers[t].status == Pending;
    assert c'.clock.timers[t] == c.clock.timers[t] && c'.bombs[c.mapped[h]] == c.bombs[c.mapped[h]];
  }

  /** A signal keeps every pending timer of `h` reachable exactly when it orphans none. */
  lemma ReachableIffNoOrphan(c: Core, sig: Signal, h: string)
    requires CoreInv(c) && Reachable(c, h)
    ensures Reachable(Manage(c, sig), h) <==> !Orphans(c, sig, h)
  {
    var c' := Manage(c, sig);
    if Orphans(c, sig, h) {
      OrphanIsUnreachable(c, sig, h);
    } else {
      forall t | 0 <= t < |c'.clock.timers| && c'.clock.timers[t].status == Pending && c'.clock.timers[t].owner < |c'.bombs|
        ensures c'.bombs[c'.clock.timers[t].owner].handle == h ==> Reached(c', h) == Some(c'.clock.timers[t].owner)
      {
        PendingAfterManage(c, sig, t);
      }
    }
  }

  ghost predicate EverExpired(c: Core, h: string) {
    exists t | 0 <= t < |c.clock.timers| :: c.clock.timers[t].status == Fired && c.clock.timers[t].owner < |c.bombs| &&
      c.bombs[c.clock.timers[t].owner].handle == h
  }

  lemma ExpiredForGood(c: Core, c': Core, h: string)
    requires Grows(c, c') && EverExpired(c, h)
    ensures EverExpired(c', h)
  {
    var t :| 0 <= t < |c.clock.timers| && c.clock.timers[t].status == Fired && c.clock.timers[t].owner < |c.bombs| &&
      c.bombs[c.clock.timers[t].owner].handle == h;
    assert c'.clock.timers[t].status == Fired;
  }

  lemma ReachableStep(s: State, l: Label, h: string)
    requires CoreInv(s.core) && LinkInv(s) && Enabled(s, l) && Reachable(s.core, h) && !EverExpired(s.core, h)
    requires l.Create? && l.handle == h ==> !Mapped(s.core, h)
    ensures Reachable(CoreStep(s, l), h)
  {
    if SignalOf(s, l).Some? {
      ReachableIffNoOrphan(s.core, SignalOf(s, l).value, h);
      assert l.Notify? && l.a.Reap? ==> s.core.clock.timers[l.a.timer].status == Fired;
    }
  }

  /**
   While no bomb for the handle has expired and no create for it arrives when it is
   already mapped, Pause and Defuse reach the owner of every pending timer of it.
   */
  lemma {:induction false} TimersStayReachable(r: Run, i: nat, h: string)
    requires Legal(r) && i < |r.states| && !EverExpired(r.states[i].core, h)
    requires forall j | 0 <= j < i :: r.labels[j].Create? && r.labels[j].handle == h ==> !Mapped(r.states[j].core, h)
    ensures Reachable(r.states[i].core, h)
  {
    if i > 0 {
      InvAt(r, i - 1);
      assert StepAt(r, i - 1);
      CoreGrows(r.states[i - 1], r.labels[i - 1]);
      if EverExpired(r.states[i - 1].core, h) {
        ExpiredForGood(r.states[i - 1].core, r.states[i].core, h);
      }
      TimersStayReachable(r, i - 1, h);
      ReachableStep(r.states[i - 1], r.labels[i - 1], h);
    }
  }
}
