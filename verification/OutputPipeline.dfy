/**
 Process output on its way to the client: a bounded queue that drops when full
 (server/chanwriter.go) and any number of `serve` loops that take from it until the
 stream is stopped and then drain it (server/streamer/streamer.go).
 */
module OutputPipeline {
  import opened Chunks

  /** Where a serve loop is: in its select, with a chunk in hand, draining, or back. */
  datatype Phase = Selecting | Holding(chunk: Chunk, draining: bool) | Draining | Returned(stopped: bool)

  /** `sent` are the chunks passed to the writer, in order. */
  datatype Server = Server(phase: Phase, sent: seq<Chunk>)

  datatype State = State(queue: seq<Chunk>, stopped: bool, servers: map<nat, Server>)

  datatype Label =
    | Write(chunk: Chunk)
    | Stop
    | Attach(k: nat)
    | Take(k: nat)
    | Send(k: nat, ok: bool)
    | Notice(k: nat)
    | Finish(k: nat)

  predicate Enabled(s: State, l: Label) {
    match l
    case Write(_) => true
    case Stop => !s.stopped
    case Attach(k) => k !in s.servers
    case Take(k) => k in s.servers && s.queue != [] && (s.servers[k].phase.Selecting? || s.servers[k].phase.Draining?)
    case Send(k, _) => k in s.servers && s.servers[k].phase.Holding?
    case Notice(k) => k in s.servers && s.stopped && s.servers[k].phase.Selecting?
    case Finish(k) => k in s.servers && s.queue == [] && s.servers[k].phase.Draining?
  }

  function Enqueue(cap: nat, queue: seq<Chunk>, chunk: Chunk): seq<Chunk> {
    if |queue| < cap then queue + [chunk] else queue
  }

  function Move(s: State, k: nat, phase: Phase): State
    requires k in s.servers
  {
    s.(servers := s.servers[k := s.servers[k].(phase := phase)])
  }

  /** A write error ends a serve loop, but is ignored while draining. */
  function Step(cap: nat, s: State, l: Label): State
    requires Enabled(s, l)
  {
    match l
    case Write(chunk) => s.(queue := Enqueue(cap, s.queue, chunk))
    case Stop => s.(stopped := true)
    case Attach(k) => s.(servers := s.servers[k := Server(Selecting, [])])
    case Take(k) =>
      Move(s, k, Holding(s.queue[0], s.servers[k].phase.Draining?)).(queue := s.queue[1..])
    case Send(k, ok) =>
      var w := s.servers[k];
      var phase := if w.phase.draining then Draining else if ok then Selecting else Returned(false);
      s.(servers := s.servers[k := Server(phase, w.sent + [w.phase.chunk])])
    case Notice(k) => Move(s, k, Draining)
    case Finish(k) => Move(s, k, Returned(true))
  }

  datatype Run = Run(cap: nat, states: seq<State>, labels: seq<Label>)

  ghost predicate StepAt(r: Run, i: nat)
    requires i < |r.labels| && |r.states| == |r.labels| + 1
  {
    Enabled(r.states[i], r.labels[i]) && r.states[i + 1] == Step(r.cap, r.states[i], r.labels[i])
  }

  ghost predicate Legal(r: Run) {
    && |r.states| == |r.labels| + 1
    && r.states[0] == State([], false, map[])
    && forall i | 0 <= i < |r.labels| :: StepAt(r, i)
  }

  // ---------- the history of a run ----------

  function Written(r: Run, i: nat): seq<Chunk>
    requires i <= |r.labels|
  {
    if i == 0 then []
    else if r.labels[i - 1].Write? then Written(r, i - 1) + [r.labels[i - 1].chunk]
    else Written(r, i - 1)
  }

  /** The chunks that found room in the queue. */
  function Accepted(r: Run, i: nat): seq<Chunk>
    requires i <= |r.labels| < |r.states|
  {
    if i == 0 then []
    else if r.labels[i - 1].Write? && |r.states[i - 1].queue| < r.cap then Accepted(r, i - 1) + [r.labels[i - 1].chunk]
    else Accepted(r, i - 1)
  }

  /** Which server took the first accepted chunk, the second, and so on. */
  function TakenBy(r: Run, i: nat): seq<nat>
    requires i <= |r.labels|
  {
    if i == 0 then []
    else if r.labels[i - 1].Take? then TakenBy(r, i - 1) + [r.labels[i - 1].k]
    else TakenBy(r, i - 1)
  }

  /** The chunks of `a` that went to server `k`, in order. */
  function Share(a: seq<Chunk>, who: seq<nat>, k: nat): seq<Chunk>
    requires |who| <= |a|
    decreases |who|
  {
    if who == [] then [] else
    var n := |who| - 1;
    if who[n] == k then Share(a, who[..n], k) + [a[n]] else Share(a, who[..n], k)
  }

  function Hand(w: Server): seq<Chunk> {
    if w.phase.Holding? then [w.phase.chunk] else []
  }

  predicate IsSubsequence(a: seq<Chunk>, b: seq<Chunk>) {
    a == [] || (b != [] &&
      (IsSubsequence(a, b[..|b| - 1]) || (a[|a| - 1] == b[|b| - 1] && IsSubsequence(a[..|a| - 1], b[..|b| - 1]))))
  }

  lemma SubsequenceSnoc(a: seq<Chunk>, b: seq<Chunk>, c: Chunk)
    requires IsSubsequence(a, b)
    ensures IsSubsequence(a, b + [c]) && IsSubsequence(a + [c], b + [c])
  {
    assert (b + [c])[..|b|] == b && (a + [c])[..|a|] == a;
  }

  // ---------- conservation ----------

  lemma {:induction false} ShareIgnoresRest(a: seq<Chunk>, a': seq<Chunk>, who: seq<nat>, k: nat)
    requires |who| <= |a| && a <= a'
    ensures Share(a', who, k) == Share(a, who, k)
    decreases |who|
  {
    if who != [] {
      ShareIgnoresRest(a, a', who[..|who| - 1], k);
    }
  }

  lemma ShareSnoc(a: seq<Chunk>, who: seq<nat>, j: nat, k: nat)
    requires |who| < |a|
    ensures Share(a, who + [j], k) == if j == k then Share(a, who, k) + [a[|who|]] else Share(a, who, k)
  {
    assert (who + [j])[..|who|] == who;
  }

  ghost predicate Conserved(r: Run, i: nat)
    requires Legal(r) && i < |r.states|
  {
    var s, a, who := r.states[i], Accepted(r, i), TakenBy(r, i);
    && |who| <= |a|
    && s.queue == a[|who|..]
    && (forall k | k in s.servers :: s.servers[k].sent + Hand(s.servers[k]) == Share(a, who, k))
    && (forall k | k in who :: k in s.servers)
  }

  lemma {:induction false} ShareOfAbsent(a: seq<Chunk>, who: seq<nat>, k: nat)
    requires |who| <= |a| && k !in who
    ensures Share(a, who, k) == []
    decreases |who|
  {
    if who != [] {
      ShareOfAbsent(a, who[..|who| - 1], k);
    }
  }

  /** Only a Take adds to what a server has in hand or has sent, and it adds the head of the queue. */
  lemma ServerStep(cap: nat, s: State, l: Label, k: nat)
    requires Enabled(s, l) && k in Step(cap, s, l).servers
    ensures var w := Step(cap, s, l).servers[k];
      if k !in s.servers then l == Attach(k) && w.sent + Hand(w) == []
      else if l == Take(k) then w.sent + Hand(w) == s.servers[k].sent + Hand(s.servers[k]) + [s.queue[0]]
      else w.sent + Hand(w) == s.servers[k].sent + Hand(s.servers[k])
  {
  }

  /**
   At every step and with any number of servers: the accepted chunks are those taken
   followed by those queued, and what a server has sent, with what it holds, is
   exactly the chunks it took, in order.
   */
  lemma {:induction false} ChunksAreConserved(r: Run, i: nat)
    requires Legal(r) && i < |r.states|
    ensures Conserved(r, i)
  {
    if i > 0 {
      ChunksAreConserved(r, i - 1);
      assert StepAt(r, i - 1);
      var s, l, s' := r.states[i - 1], r.labels[i - 1], r.states[i];
      var a, who := Accepted(r, i - 1), TakenBy(r, i - 1);
      forall k | k in s'.servers
        ensures s'.servers[k].sent + Hand(s'.servers[k]) == Share(Accepted(r, i), TakenBy(r, i), k)
      {
        ServerStep(r.cap, s, l, k);
        ShareIgnoresRest(a, Accepted(r, i), who, k);
        if l.Take? {
          ShareSnoc(a, who, l.k, k);
        }
        if k !in s.servers {
          ShareOfAbsent(a, who, k);
        }
      }
    }
  }

  lemma {:induction false} ShareIsSubsequence(a: seq<Chunk>, who: seq<nat>, k: nat)
    requires |who| <= |a|
    ensures IsSubsequence(Share(a, who, k), a[..|who|])
    decreases |who|
  {
    if who != [] {
      var n := |who| - 1;
      ShareIsSubsequence(a, who[..n], k);
      SubsequenceSnoc(Share(a, who[..n], k), a[..n], a[n]);
      assert a[..|who|] == a[..n] + [a[n]];
    }
  }

  /** Each server's output is a subsequence of the accepted chunks. */
  lemma SentIsSubsequence(r: Run, i: nat, k: nat)
    requires Legal(r) && i < |r.states| && k in r.states[i].servers
    ensures |TakenBy(r, i)| <= |Accepted(r, i)|
    ensures IsSubsequence(r.states[i].servers[k].sent + Hand(r.states[i].servers[k]), Accepted(r, i)[..|TakenBy(r, i)|])
  {
    ChunksAreConserved(r, i);
    ShareIsSubsequence(Accepted(r, i), TakenBy(r, i), k);
  }

  lemma {:induction false} AcceptedIsSubsequence(r: Run, i: nat)
    requires Legal(r) && i < |r.states|
    ensures IsSubsequence(Accepted(r, i), Written(r, i))
  {
    if i > 0 {
      AcceptedIsSubsequence(r, i - 1);
      if r.labels[i - 1].Write? {
        SubsequenceSnoc(Accepted(r, i - 1), Written(r, i - 1), r.labels[i - 1].chunk);
      }
    }
  }

  lemma {:induction false} AcceptedIsShorter(r: Run, i: nat)
    requires Legal(r) && i < |r.states|
    ensures |Accepted(r, i)| <= |Written(r, i)|
  {
    if i > 0 {
      AcceptedIsShorter(r, i - 1);
    }
  }

  predicate MeetsFullQueue(r: Run, j: nat)
    requires j < |r.labels| < |r.states|
  {
    r.labels[j].Write? && |r.states[j].queue| >= r.cap
  }

  /** Nothing is dropped exactly as long as no write meets a full queue. */
  lemma {:induction false} DropsOnlyWhenFull(r: Run, i: nat)
    requires Legal(r) && i < |r.states|
    ensures Accepted(r, i) == Written(r, i) <==> forall j | 0 <= j < i :: !MeetsFullQueue(r, j)
  {
    if i > 0 {
      DropsOnlyWhenFull(r, i - 1);
      AcceptedIsShorter(r, i - 1);
      var a, w := Accepted(r, i - 1), Written(r, i - 1);
      if MeetsFullQueue(r, i - 1) {
        assert |Accepted(r, i)| == |a| < |Written(r, i)|;
      } else if r.labels[i - 1].Write? {
        assert Accepted(r, i)[..|a|] == a && Written(r, i)[..|w|] == w;
      }
    }
  }

  // ---------- one server ----------

  ghost predicate OnlyServer(r: Run, k: nat) {
    forall i | 0 <= i < |r.labels| :: r.labels[i].Attach? ==> r.labels[i].k == k
  }

  lemma {:induction false} OnlyServerTakes(r: Run, i: nat, k: nat)
    requires Legal(r) && OnlyServer(r, k) && i < |r.states|
    ensures r.states[i].servers.Keys <= {k}
    ensures forall n | 0 <= n < |TakenBy(r, i)| :: TakenBy(r, i)[n] == k
  {
    if i > 0 {
      OnlyServerTakes(r, i - 1, k);
      assert StepAt(r, i - 1);
    }
  }

  lemma {:induction false} WholeShare(a: seq<Chunk>, who: seq<nat>, k: nat)
    requires |who| <= |a| && forall n | 0 <= n < |who| :: who[n] == k
    ensures Share(a, who, k) == a[..|who|]
    decreases |who|
  {
    if who != [] {
      WholeShare(a, who[..|who| - 1], k);
    }
  }

  /** With one server: accepted chunks are those sent, the one in hand and those queued, in order. */
  lemma SoleServerKeepsOrder(r: Run, i: nat, k: nat)
    requires Legal(r) && OnlyServer(r, k) && i < |r.states| && k in r.states[i].servers
    ensures r.states[i].servers[k].sent + Hand(r.states[i].servers[k]) + r.states[i].queue == Accepted(r, i)
  {
    ChunksAreConserved(r, i);
    OnlyServerTakes(r, i, k);
    WholeShare(Accepted(r, i), TakenBy(r, i), k);
  }

  lemma {:induction false} AcceptedGrows(r: Run, j: nat, i: nat)
    requires Legal(r) && j <= i < |r.states|
    ensures Accepted(r, j) <= Accepted(r, i)
  {
    if j < i {
      AcceptedGrows(r, j, i - 1);
    }
  }

  lemma {:induction false} StaysStopped(r: Run, i: nat, j: nat)
    requires Legal(r) && i <= j < |r.states| && r.states[i].stopped
    ensures r.states[j].stopped
  {
    if i < j {
      StaysStopped(r, i, j - 1);
      assert StepAt(r, j - 1);
    }
  }

  /**
   Whichever ready branch its select took, a sole server that has returned because of
   Stop has sent everything accepted before Stop, once and in order, and nothing that
   was not accepted.
   */
  lemma {:induction false} StopDrainsEverything(r: Run, k: nat, stop: nat, i: nat)
    requires Legal(r) && OnlyServer(r, k) && stop < |r.labels| && r.labels[stop].Stop?
    requires i < |r.states| && k in r.states[i].servers && r.states[i].servers[k].phase == Returned(true)
    ensures stop < i && Accepted(r, stop) <= r.states[i].servers[k].sent <= Accepted(r, i)
  {
    assert i > 0;
    assert StepAt(r, i - 1) && StepAt(r, stop);
    if k in r.states[i - 1].servers && r.states[i - 1].servers[k].phase == Returned(true) {
      StopDrainsEverything(r, k, stop, i - 1);
      AcceptedGrows(r, i - 1, i);
    } else {
      ReturnsForACause(r, i, k);
      if i <= stop {
        StaysStopped(r, i, stop);
        assert false;
      }
      SoleServerKeepsOrder(r, i, k);
      AcceptedGrows(r, stop, i);
    }
  }

  // ---------- why a server returns ----------

  /** A write error that ends the serve loop; while draining errors are ignored. */
  ghost predicate FatalError(r: Run, j: nat, k: nat)
    requires j < |r.labels| < |r.states|
  {
    && r.labels[j] == Send(k, false) && k in r.states[j].servers
    && r.states[j].servers[k].phase.Holding? && !r.states[j].servers[k].phase.draining
  }

  predicate WindsUp(phase: Phase) {
    phase == Returned(true) || phase.Draining? || (phase.Holding? && phase.draining)
  }

  /** A server returns early exactly after a write error in its select loop, and otherwise only once stopped. */
  lemma {:induction false} ReturnsForACause(r: Run, i: nat, k: nat)
    requires Legal(r) && i < |r.states|
    ensures (k in r.states[i].servers && r.states[i].servers[k].phase == Returned(false)) <==>
      exists j | 0 <= j < i :: FatalError(r, j, k)
    ensures k in r.states[i].servers && WindsUp(r.states[i].servers[k].phase) ==> r.states[i].stopped
  {
    if i > 0 {
      ReturnsForACause(r, i - 1, k);
      assert StepAt(r, i - 1);
      assert (exists j | 0 <= j < i :: FatalError(r, j, k)) <==>
        (exists j | 0 <= j < i - 1 :: FatalError(r, j, k)) || FatalError(r, i - 1, k);
    }
  }

  // ---------- stopped servers return ----------

  predicate StepOf(l: Label, k: nat) {
    (l.Take? || l.Send? || l.Notice? || l.Finish?) && l.k == k
  }

  function StepsOf(r: Run, k: nat, i: nat, j: nat): nat
    requires i <= j <= |r.labels|
  {
    if i == j then 0 else StepsOf(r, k, i, j - 1) + if StepOf(r.labels[j - 1], k) then 1 else 0
  }

  function Writes(r: Run, i: nat, j: nat): nat
    requires i <= j <= |r.labels|
  {
    if i == j then 0 else Writes(r, i, j - 1) + if r.labels[j - 1].Write? then 1 else 0
  }

  /** The steps a server of a stopped stream can still take before it returns. */
  function Left(s: State, k: nat): nat
    requires k in s.servers
  {
    match s.servers[k].phase
    case Returned(_) => 0
    case Draining => 2 * |s.queue| + 1
    case Selecting => 2 * |s.queue| + 2
    case Holding(_, draining) => 2 * |s.queue| + if draining then 2 else 3
  }

  lemma LeftStep(cap: nat, s: State, l: Label, k: nat)
    requires k in s.servers && Enabled(s, l)
    ensures k in Step(cap, s, l).servers
    ensures Left(Step(cap, s, l), k) + (if StepOf(l, k) then 1 else 0) <= Left(s, k) + if l.Write? then 2 else 0
  {
  }

  /** Between any two points of a run a server takes a bounded number of steps. */
  lemma {:induction false} StoppedServerReturns(r: Run, k: nat, i: nat, j: nat)
    requires Legal(r) && i <= j < |r.states| && k in r.states[i].servers
    ensures k in r.states[j].servers
    ensures StepsOf(r, k, i, j) + Left(r.states[j], k) <= Left(r.states[i], k) + 2 * Writes(r, i, j)
    ensures StepsOf(r, k, i, j) <= 2 * (|r.states[i].queue| + Writes(r, i, j)) + 3
  {
    if i < j {
      StoppedServerReturns(r, k, i, j - 1);
      assert StepAt(r, j - 1);
      LeftStep(r.cap, r.states[j - 1], r.labels[j - 1], k);
    }
  }

  /** And once the stream is stopped it is never blocked before it has returned. */
  lemma StoppedServerIsNeverBlocked(s: State, k: nat)
    requires s.stopped && k in s.servers
    ensures (exists l :: StepOf(l, k) && Enabled(s, l)) <==> !s.servers[k].phase.Returned?
  {
    var l := match s.servers[k].phase
      case Selecting => Notice(k)
      case Holding(_, _) => Send(k, true)
      case Draining => if s.queue == [] then Finish(k) else Take(k)
      case Returned(_) => Stop;
    if !s.servers[k].phase.Returned? {
      assert StepOf(l, k) && Enabled(s, l);
    }
  }

  // ---------- the undisturbed course ----------

  function ServedRun(cap: nat, k: nat, c: Chunk): (r: Run)
    ensures |r.states| == 8 && |r.labels| == 7
  {
    var s1 := State([], false, map[k := Server(Selecting, [])]);
    var s4 := State([], false, map[k := Server(Selecting, [c])]);
    Run(cap,
        [State([], false, map[]), s1, s1.(queue := [c]), State([], false, map[k := Server(Holding(c, false), [])]), s4,
         s4.(stopped := true), State([], true, map[k := Server(Draining, [c])]), State([], true, map[k := Server(Returned(true), [c])])],
        [Attach(k), Write(c), Take(k), Send(k, true), Stop, Notice(k), Finish(k)])
  }

  lemma ServedRunTakes(cap: nat, k: nat, c: Chunk)
    requires cap > 0
    ensures var r := ServedRun(cap, k, c); StepAt(r, 0) && StepAt(r, 1) && StepAt(r, 2)
  {
  }

  lemma ServedRunSends(cap: nat, k: nat, c: Chunk)
    ensures var r := ServedRun(cap, k, c); StepAt(r, 3) && StepAt(r, 4)
  {
    assert [] + [c] == [c];
  }

  lemma ServedRunStops(cap: nat, k: nat, c: Chunk)
    ensures var r := ServedRun(cap, k, c); StepAt(r, 5) && StepAt(r, 6)
  {
  }

  ghost predicate ServedAndStopped(r: Run, k: nat, c: Chunk) {
    Legal(r) && r.states[|r.labels|] == State([], true, map[k := Server(Returned(true), [c])])
  }

  /** A chunk can be written, served to an attached server, and the server sent home by Stop. */
  lemma ChunkCanBeServed(cap: nat, k: nat, c: Chunk)
    requires cap > 0
    ensures exists r: Run :: r.cap == cap && ServedAndStopped(r, k, c)
  {
    ServedRunTakes(cap, k, c);
    ServedRunSends(cap, k, c);
    ServedRunStops(cap, k, c);
    assert ServedAndStopped(ServedRun(cap, k, c), k, c);
  }
}
