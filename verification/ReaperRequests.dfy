/**
 Which requests can be running when a container is reaped: those that began after the
 expiry, and those whose Pause missed the bomb.
 */
module ReaperRequests {
  import opened Options
  import opened TimeBombs
  import opened Bombermen
  import opened Reaper
  import opened ReaperTheorems

  // ---------- running requests ----------

  predicate RunningFor(s: State, k: nat, h: string) {
    k in s.handlers && !s.handlers[k].finished && s.handlers[k].handle == h
  }

  /** Request `k` for `h` began at step `m` and did not end before state `n`. */
  ghost predicate BeganAt(r: Run, m: nat, n: nat, k: nat, h: string)
    requires n < |r.states| == |r.labels| + 1
  {
    m < n && r.labels[m] == Begin(k, h) && forall q | m < q < n :: r.labels[q] != End(k)
  }

  lemma {:induction false} RunningBegan(r: Run, n: nat, k: nat, h: string) returns (m: nat)
    requires Legal(r) && n < |r.states| && RunningFor(r.states[n], k, h)
    ensures BeganAt(r, m, n, k, h) && Reached(r.states[m].core, h) == r.states[n].handlers[k].paused
  {
    assert n > 0 && StepAt(r, n - 1);
    if RunningFor(r.states[n - 1], k, h) {
      m := RunningBegan(r, n - 1, k, h);
    } else {
      m := n - 1;
    }
  }

  lemma {:induction false} BeganRuns(r: Run, m: nat, n: nat, k: nat, h: string)
    requires Legal(r) && n < |r.states| && BeganAt(r, m, n, k, h)
    ensures RunningFor(r.states[n], k, h) && r.states[n].handlers[k].paused == Reached(r.states[m].core, h)
  {
    assert StepAt(r, n - 1);
    if m < n - 1 {
      BeganRuns(r, m, n - 1, k, h);
    }
  }

  // ---------- when a request's Pause reaches a bomb ----------

  /** The step maps `h` to a new bomb or unmaps it. */
  predicate Replaces(s: State, l: Label, h: string) {
    (l.Create? && l.handle == h) || (l.Notify? && l.a in s.actors && s.actors[l.a].handle == h)
  }

  /** Step `c` strapped bomb `b` for `h`, and up to state `m` the handle was not replaced. */
  ghost predicate StrappedSince(r: Run, c: nat, m: nat, h: string, b: nat)
    requires m < |r.states| == |r.labels| + 1
  {
    && c < m && r.labels[c].Create? && r.labels[c].handle == h && |r.states[c].core.bombs| == b
    && forall q | c < q < m :: !Replaces(r.states[q], r.labels[q], h)
  }

  lemma MappingAfter(s: State, l: Label, h: string)
    requires CoreInv(s.core) && Enabled(s, l)
    ensures Reached(CoreStep(s, l), h) ==
      if l.Create? && l.handle == h then Some(|s.core.bombs|) else if Replaces(s, l, h) then None else Reached(s.core, h)
  {
  }

  lemma {:induction false} ReachedWasStrapped(r: Run, m: nat, h: string, b: nat) returns (c: nat)
    requires Legal(r) && m < |r.states| && Reached(r.states[m].core, h) == Some(b)
    ensures StrappedSince(r, c, m, h, b)
  {
    assert m > 0;
    InvAt(r, m - 1);
    CoreAt(r, m - 1);
    MappingAfter(r.states[m - 1], r.labels[m - 1], h);
    if r.labels[m - 1].Create? && r.labels[m - 1].handle == h {
      c := m - 1;
    } else {
      c := ReachedWasStrapped(r, m - 1, h, b);
    }
  }

  lemma {:induction false} StrappedIsReached(r: Run, c: nat, m: nat, h: string, b: nat)
    requires Legal(r) && m < |r.states| && StrappedSince(r, c, m, h, b)
    ensures Reached(r.states[m].core, h) == Some(b)
  {
    InvAt(r, m - 1);
    CoreAt(r, m - 1);
    MappingAfter(r.states[m - 1], r.labels[m - 1], h);
    if c < m - 1 {
      StrappedIsReached(r, c, m - 1, h, b);
    }
  }

  /**
   A Pause of `h` at state `m` reaches bomb `b` exactly if `b` was strapped before and the
   handle was since then neither strapped again nor defused nor cleaned up.
   */
  lemma PauseReachesBombIff(r: Run, m: nat, h: string, b: nat)
    requires Legal(r) && m < |r.states|
    ensures Reached(r.states[m].core, h) == Some(b) <==> exists c: nat :: StrappedSince(r, c, m, h, b)
  {
    if Reached(r.states[m].core, h) == Some(b) {
      var c := ReachedWasStrapped(r, m, h, b);
    }
    if c: nat :| StrappedSince(r, c, m, h, b) {
      StrappedIsReached(r, c, m, h, b);
    }
  }

  /** A request that holds the bomb now and did not then began in between. */
  lemma {:induction false} HolderBegan(r: Run, e: nat, i: nat, b: nat, k: nat) returns (m: nat)
    requires Legal(r) && e <= i < |r.states| && k in Holders(r.states[i], b) && k !in Holders(r.states[e], b)
    ensures e <= m < i && r.labels[m].Begin? && r.labels[m].k == k && Target(r.states[m], r.labels[m]) == Some(b)
  {
    InvAt(r, i - 1);
    assert StepAt(r, i - 1);
    HoldersStep(r.states[i - 1], r.labels[i - 1], b);
    if k in Holders(r.states[i - 1], b) {
      m := HolderBegan(r, e, i - 1, b, k);
    } else {
      m := i - 1;
    }
  }

  /** Request `k` began between the expiry and state `i` and its Pause reached the bomb. */
  ghost predicate BeganHolding(r: Run, e: nat, i: nat, k: nat, b: nat)
    requires i < |r.states| == |r.labels| + 1
  {
    exists m: nat :: e < m < i && r.labels[m].Begin? && r.labels[m].k == k && Target(r.states[m], r.labels[m]) == Some(b)
  }

  // ---------- requests in the window of an expiry, and under its reap ----------

  /** Request `k` began for `h`, is still running at state `n`, and its Pause missed bomb `b`. */
  ghost predicate RunsUncounted(r: Run, n: nat, k: nat, h: string, b: nat)
    requires n < |r.states| == |r.labels| + 1
  {
    exists m: nat :: BeganAt(r, m, n, k, h) && Reached(r.states[m].core, h) != Some(b)
  }

  lemma RunningIffUncounted(r: Run, n: nat, k: nat, h: string, b: nat)
    requires Legal(r) && n < |r.states| && Holders(r.states[n], b) == {}
    ensures RunningFor(r.states[n], k, h) <==> RunsUncounted(r, n, k, h, b)
  {
    InvAt(r, n);
    if RunningFor(r.states[n], k, h) {
      assert k !in Holders(r.states[n], b);
      var m := RunningBegan(r, n, k, h);
    }
    if m: nat :| BeganAt(r, m, n, k, h) && Reached(r.states[m].core, h) != Some(b) {
      BeganRuns(r, m, n, k, h);
    }
  }

  /** Request `k` began for `h`, is still running at state `i`, and began after the expiry or missed the bomb. */
  ghost predicate RunsBesideReap(r: Run, e: nat, i: nat, k: nat, h: string, b: nat)
    requires i < |r.states| == |r.labels| + 1
  {
    exists m: nat :: BeganAt(r, m, i, k, h) && (e < m || Reached(r.states[m].core, h) != Some(b))
  }

  lemma RunningIffBesideReap(r: Run, e: nat, i: nat, k: nat, h: string, b: nat)
    requires Legal(r) && e < i < |r.states| && Holders(r.states[e], b) == {} && !r.labels[e].Begin?
    ensures RunningFor(r.states[i], k, h) <==> RunsBesideReap(r, e, i, k, h, b)
  {
    InvAt(r, e);
    if RunningFor(r.states[i], k, h) {
      var m := RunningBegan(r, i, k, h);
      if m < e {
        assert BeganAt(r, m, e, k, h);
        BeganRuns(r, m, e, k, h);
        assert k !in Holders(r.states[e], b);
      }
    }
    if m: nat :| BeganAt(r, m, i, k, h) && (e < m || Reached(r.states[m].core, h) != Some(b)) {
      BeganRuns(r, m, i, k, h);
    }
  }

  /**
   Timer `t` of bomb `b` for `h` expired at `e` after a whole grace time. In that time the
   requests running for `h` are exactly the running ones that missed the bomb, and at
   state `i` exactly the running ones that missed it or began after the expiry; who holds
   the bomb at state `i` began after the expiry.
   */
  ghost predicate ReapWindow(r: Run, t: nat, j: nat, e: nat, i: nat, h: string, b: nat)
    requires i < |r.states| == |r.labels| + 1
  {
    && e < i && r.labels[e] == Expire(t) && GraceWindow(r, t, j, e) && OwnerOf(r.states[e], t) == b
    && (forall n: nat, k: nat | j < n <= e :: RunningFor(r.states[n], k, h) <==> RunsUncounted(r, n, k, h, b))
    && (forall k: nat :: RunningFor(r.states[i], k, h) <==> RunsBesideReap(r, e, i, k, h, b))
    && (forall k | k in Holders(r.states[i], b) :: BeganHolding(r, e, i, k, b))
  }

  /** A reap, at every point of its life, goes back to such a window of its own timer. */
  lemma ReapFollowsUnreferencedGraceTime(r: Run, i: nat, t: nat)
    requires Legal(r) && Matched(r) && i < |r.states| && Reap(t) in r.states[i].actors
    ensures t < |r.states[i].core.clock.timers| && OwnerOf(r.states[i], t) < |r.states[i].core.bombs|
    ensures var b, h := OwnerOf(r.states[i], t), r.states[i].actors[Reap(t)].handle;
      && r.states[i].core.bombs[b].handle == h
      && exists j: nat, e: nat :: ReapWindow(r, t, j, e, i, h, b)
  {
    InvAt(r, i);
    var e := ReapFollowsExpiry(r, i, t);
    ExpiryAfterGraceTime(r, e);
    var j: nat :| GraceWindow(r, t, j, e);
    GrowsBetween(r, e, i);
    var b, h := OwnerOf(r.states[i], t), r.states[i].actors[Reap(t)].handle;
    forall n: nat, k: nat | j < n <= e
      ensures RunningFor(r.states[n], k, h) <==> RunsUncounted(r, n, k, h, b)
    {
      RunningIffUncounted(r, n, k, h, b);
    }
    forall k: nat
      ensures RunningFor(r.states[i], k, h) <==> RunsBesideReap(r, e, i, k, h, b)
    {
      RunningIffBesideReap(r, e, i, k, h, b);
    }
    forall k | k in Holders(r.states[i], b)
      ensures BeganHolding(r, e, i, k, b)
    {
      var m := HolderBegan(r, e, i, b, k);
      assert m != e;
    }
    assert ReapWindow(r, t, j, e, i, h, b);
  }
}
