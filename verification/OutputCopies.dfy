/**
 The output copies of client/connection/stream_handler.go: every streamOut call starts
 a goroutine that takes its stream's mutex, copies its reader to the writer it shares
 with the others of that stream, counts down the wait group that both streams share and
 then gives the mutex back.
 */
module OutputCopies {
  import opened Options
  import opened Chunks

  datatype Stream = Stdout | Stderr

  datatype Phase = Blocked | Copying | Counted | Finished

  /** A copy has written the first `done` chunks of what its reader yields. */
  datatype Copy = Copy(stream: Stream, reader: seq<Chunk>, done: nat, phase: Phase)

  /** What the copies of one stream share. */
  datatype Shared = Shared(mutex: Option<nat>, written: seq<Chunk>)

  datatype State = State(copies: map<nat, Copy>, stdout: Shared, stderr: Shared, wg: int)

  function Of(s: State, x: Stream): Shared {
    if x.Stdout? then s.stdout else s.stderr
  }

  function Update(s: State, x: Stream, v: Shared): State {
    if x.Stdout? then s.(stdout := v) else s.(stderr := v)
  }

  datatype Label =
    | StreamOut(k: nat, stream: Stream, reader: seq<Chunk>)
    | Lock(k: nat)
    | CopyChunk(k: nat)
    | CountDown(k: nat, failed: bool)
    | Unlock(k: nat)

  const START := State(map[], Shared(None, []), Shared(None, []), 0)

  predicate InPhase(s: State, k: nat, phase: Phase) {
    k in s.copies && s.copies[k].phase == phase
  }

  /** A copy that does not fail goes on to the end of its reader. */
  predicate Enabled(s: State, l: Label) {
    match l
    case StreamOut(k, _, _) => k !in s.copies
    case Lock(k) => InPhase(s, k, Blocked) && Of(s, s.copies[k].stream).mutex.None?
    case CopyChunk(k) => InPhase(s, k, Copying) && s.copies[k].done < |s.copies[k].reader|
    case CountDown(k, failed) => InPhase(s, k, Copying) && (!failed ==> s.copies[k].done == |s.copies[k].reader|)
    case Unlock(k) => InPhase(s, k, Counted)
  }

  function Move(s: State, k: nat, phase: Phase): State
    requires k in s.copies
  {
    s.(copies := s.copies[k := s.copies[k].(phase := phase)])
  }

  function Step(s: State, l: Label): State
    requires Enabled(s, l)
  {
    match l
    case StreamOut(k, x, reader) => s.(copies := s.copies[k := Copy(x, reader, 0, Blocked)], wg := s.wg + 1)
    case Lock(k) =>
      var x := s.copies[k].stream;
      Update(Move(s, k, Copying), x, Of(s, x).(mutex := Some(k)))
    case CopyChunk(k) =>
      var c := s.copies[k];
      Update(s.(copies := s.copies[k := c.(done := c.done + 1)]), c.stream,
             Of(s, c.stream).(written := Of(s, c.stream).written + [c.reader[c.done]]))
    case CountDown(k, _) => Move(s, k, Counted).(wg := s.wg - 1)
    case Unlock(k) =>
      var x := s.copies[k].stream;
      Update(Move(s, k, Finished), x, Of(s, x).(mutex := None))
  }

  datatype Run = Run(states: seq<State>, labels: seq<Label>)

  ghost predicate StepAt(r: Run, i: nat)
    requires i < |r.labels| && |r.states| == |r.labels| + 1
  {
    Enabled(r.states[i], r.labels[i]) && r.states[i + 1] == Step(r.states[i], r.labels[i])
  }

  ghost predicate Legal(r: Run) {
    && |r.states| == |r.labels| + 1
    && r.states[0] == START
    && forall i | 0 <= i < |r.labels| :: StepAt(r, i)
  }

  /** The copies of stream `x` in the order in which they got its mutex. */
  function LockOrder(r: Run, x: Stream, i: nat): seq<nat>
    requires i <= |r.labels| && i < |r.states|
  {
    if i == 0 then [] else NewOrder(r.states[i - 1], x, LockOrder(r, x, i - 1), r.labels[i - 1])
  }

  function NewOrder(s: State, x: Stream, order: seq<nat>, l: Label): seq<nat> {
    if l.Lock? && IsOf(s, x, l.k) then order + [l.k] else order
  }

  predicate IsOf(s: State, x: Stream, k: nat) {
    k in s.copies && s.copies[k].stream == x
  }

  /** What one copy has written. */
  function Part(copies: map<nat, Copy>, k: nat): seq<Chunk> {
    if k in copies && copies[k].done <= |copies[k].reader| then copies[k].reader[..copies[k].done] else []
  }

  /** What the copies have written, one after another. */
  function InOrder(copies: map<nat, Copy>, order: seq<nat>): seq<Chunk> {
    if order == [] then []
    else
      var n := |order| - 1;
      InOrder(copies, order[..n]) + Part(copies, order[n])
  }

  predicate Counts(c: Copy) {
    c.phase.Blocked? || c.phase.Copying?
  }

  /** The copies the wait group still counts. */
  function Uncounted(copies: map<nat, Copy>): set<nat> {
    set k | k in copies && Counts(copies[k])
  }

  /** The mutex of `x` is held by the copy that got it last, until that copy is finished. */
  ghost predicate Disciplined(s: State, x: Stream, order: seq<nat>) {
    && (forall k | IsOf(s, x, k) :: s.copies[k].done <= |s.copies[k].reader|)
    && (forall k | IsOf(s, x, k) && s.copies[k].phase.Blocked? :: s.copies[k].done == 0)
    && (forall k | IsOf(s, x, k) :: k in order <==> !s.copies[k].phase.Blocked?)
    && (forall k | k in order :: IsOf(s, x, k))
    && (forall m, n | 0 <= m < n < |order| :: order[m] != order[n])
    && (forall k | IsOf(s, x, k) && (s.copies[k].phase.Copying? || s.copies[k].phase.Counted?) :: Of(s, x).mutex == Some(k))
    && (Of(s, x).mutex.Some? ==> HeldByLast(s, order, Of(s, x).mutex.value))
  }

  ghost predicate HeldByLast(s: State, order: seq<nat>, k: nat) {
    order != [] && order[|order| - 1] == k && (InPhase(s, k, Copying) || InPhase(s, k, Counted))
  }

  /** The two states agree on stream `x` but for copy `k`. */
  ghost predicate SameBut(s: State, s': State, x: Stream, k: nat) {
    forall j | j != k :: (IsOf(s', x, j) <==> IsOf(s, x, j)) && (IsOf(s, x, j) ==> s'.copies[j] == s.copies[j])
  }

  lemma StepTouchesOne(s: State, x: Stream, l: Label)
    requires Enabled(s, l)
    ensures SameBut(s, Step(s, l), x, l.k)
    ensures !l.StreamOut? ==> (IsOf(Step(s, l), x, l.k) <==> IsOf(s, x, l.k))
    ensures !IsOf(Step(s, l), x, l.k) ==> Of(Step(s, l), x) == Of(s, x)
  {
  }

  lemma OtherStreamKeeps(s: State, s': State, x: Stream, order: seq<nat>, k: nat)
    requires Disciplined(s, x, order) && SameBut(s, s', x, k) && !IsOf(s, x, k) && !IsOf(s', x, k) && Of(s', x) == Of(s, x)
    ensures Disciplined(s', x, order)
  {
  }

  lemma LockKeeps(s: State, x: Stream, order: seq<nat>, k: nat)
    requires Disciplined(s, x, order) && Enabled(s, Lock(k)) && IsOf(s, x, k)
    ensures Disciplined(Step(s, Lock(k)), x, order + [k])
  {
    var s' := Step(s, Lock(k));
    StepTouchesOne(s, x, Lock(k));
    assert forall j | IsOf(s, x, j) :: !s.copies[j].phase.Copying? && !s.copies[j].phase.Counted?;
    assert HeldByLast(s', order + [k], k);
  }

  lemma HolderKeeps(s: State, x: Stream, order: seq<nat>, l: Label)
    requires Disciplined(s, x, order) && Enabled(s, l) && !l.StreamOut? && !l.Lock? && IsOf(s, x, l.k)
    ensures Disciplined(Step(s, l), x, order)
  {
    StepTouchesOne(s, x, l);
    assert HeldByLast(s, order, l.k);
  }

  lemma DisciplineStep(s: State, x: Stream, order: seq<nat>, l: Label)
    requires Disciplined(s, x, order) && Enabled(s, l)
    ensures Disciplined(Step(s, l), x, NewOrder(s, x, order, l))
  {
    StepTouchesOne(s, x, l);
    if !IsOf(Step(s, l), x, l.k) {
      OtherStreamKeeps(s, Step(s, l), x, order, l.k);
    } else if l.Lock? {
      LockKeeps(s, x, order, l.k);
    } else if !l.StreamOut? {
      HolderKeeps(s, x, order, l);
    }
  }

  function Weight(copies: map<nat, Copy>, k: nat): nat {
    if k in copies && Counts(copies[k]) then 1 else 0
  }

  lemma UncountedWithout(copies: map<nat, Copy>, k: nat)
    ensures |Uncounted(copies)| == |Uncounted(copies) - {k}| + Weight(copies, k)
  {
    var u := Uncounted(copies);
    assert k in u <==> Weight(copies, k) == 1;
    if k in u {
      assert u == (u - {k}) + {k};
    } else {
      assert u == u - {k};
    }
  }

  lemma UncountedUpdate(copies: map<nat, Copy>, k: nat, c: Copy)
    ensures |Uncounted(copies[k := c])| == |Uncounted(copies)| - Weight(copies, k) + Weight(copies[k := c], k)
  {
    UncountedWithout(copies, k);
    UncountedWithout(copies[k := c], k);
    assert Uncounted(copies[k := c]) - {k} == Uncounted(copies) - {k};
  }

  lemma StepWeight(s: State, l: Label)
    requires Enabled(s, l)
    ensures l.k in Step(s, l).copies && Step(s, l).copies == s.copies[l.k := Step(s, l).copies[l.k]]
    ensures Step(s, l).wg == s.wg - Weight(s.copies, l.k) + Weight(Step(s, l).copies, l.k)
  {
  }

  lemma CountStep(s: State, l: Label)
    requires Enabled(s, l) && s.wg == |Uncounted(s.copies)|
    ensures Step(s, l).wg == |Uncounted(Step(s, l).copies)|
  {
    StepWeight(s, l);
    UncountedUpdate(s.copies, l.k, Step(s, l).copies[l.k]);
  }

  /** A change to copies outside `order` does not show. */
  lemma {:induction false} InOrderIgnores(copies: map<nat, Copy>, copies': map<nat, Copy>, order: seq<nat>)
    requires forall k | k in order ::
      && k in copies && k in copies'
      && copies[k].reader == copies'[k].reader && copies[k].done == copies'[k].done
    ensures InOrder(copies, order) == InOrder(copies', order)
  {
    if order != [] {
      InOrderIgnores(copies, copies', order[..|order| - 1]);
    }
  }

  /** One more chunk of the last copy in `order` comes at the very end. */
  lemma LastPartGrows(copies: map<nat, Copy>, order: seq<nat>, k: nat)
    requires order != [] && order[|order| - 1] == k && k !in order[..|order| - 1] && forall j | j in order :: j in copies
    requires copies[k].done < |copies[k].reader|
    ensures InOrder(copies[k := copies[k].(done := copies[k].done + 1)], order) ==
      InOrder(copies, order) + [copies[k].reader[copies[k].done]]
  {
    var copies' := copies[k := copies[k].(done := copies[k].done + 1)];
    InOrderIgnores(copies, copies', order[..|order| - 1]);
    assert Part(copies', k) == Part(copies, k) + [copies[k].reader[copies[k].done]];
  }

  lemma CopyChunkContent(s: State, x: Stream, order: seq<nat>, k: nat)
    requires Disciplined(s, x, order) && Enabled(s, CopyChunk(k)) && s.copies[k].stream == x
    ensures InOrder(Step(s, CopyChunk(k)).copies, order) == InOrder(s.copies, order) + [s.copies[k].reader[s.copies[k].done]]
  {
    assert IsOf(s, x, k) && HeldByLast(s, order, k);
    assert k !in order[..|order| - 1];
    LastPartGrows(s.copies, order, k);
  }

  lemma ContentStep(s: State, x: Stream, order: seq<nat>, l: Label)
    requires Disciplined(s, x, order) && Enabled(s, l) && Of(s, x).written == InOrder(s.copies, order)
    ensures Of(Step(s, l), x).written == InOrder(Step(s, l).copies, NewOrder(s, x, order, l))
  {
    if l.CopyChunk? && s.copies[l.k].stream == x {
      CopyChunkContent(s, x, order, l.k);
    } else {
      InOrderIgnores(s.copies, Step(s, l).copies, order);
      if l.Lock? && IsOf(s, x, l.k) {
        assert NewOrder(s, x, order, l)[..|order|] == order;
        assert Part(Step(s, l).copies, l.k) == [];
      }
    }
  }

  ghost predicate Inv(s: State, x: Stream, order: seq<nat>) {
    Disciplined(s, x, order) && s.wg == |Uncounted(s.copies)| && Of(s, x).written == InOrder(s.copies, order)
  }

  lemma InvStep(s: State, x: Stream, order: seq<nat>, l: Label)
    requires Inv(s, x, order) && Enabled(s, l)
    ensures Inv(Step(s, l), x, NewOrder(s, x, order, l))
  {
    DisciplineStep(s, x, order, l);
    CountStep(s, l);
    ContentStep(s, x, order, l);
  }

  lemma {:induction false} InvAt(r: Run, x: Stream, i: nat)
    requires Legal(r) && i < |r.states|
    ensures Inv(r.states[i], x, LockOrder(r, x, i))
  {
    if i > 0 {
      InvAt(r, x, i - 1);
      assert StepAt(r, i - 1);
      InvStep(r.states[i - 1], x, LockOrder(r, x, i - 1), r.labels[i - 1]);
    }
  }

  /** At every step, failing copies or not, each stream's writer holds the parts of its copies unmixed, in lock order. */
  lemma OutputIsNeverInterleaved(r: Run, x: Stream, i: nat)
    requires Legal(r) && i < |r.states|
    ensures Of(r.states[i], x).written == InOrder(r.states[i].copies, LockOrder(r, x, i))
    ensures forall k | k in LockOrder(r, x, i) :: IsOf(r.states[i], x, k)
    ensures forall m, n | 0 <= m < n < |LockOrder(r, x, i)| :: LockOrder(r, x, i)[m] != LockOrder(r, x, i)[n]
  {
    InvAt(r, x, i);
  }

  /** A step that a copy of stream `x` takes. */
  predicate StepOf(s: State, x: Stream, l: Label) {
    !l.StreamOut? && IsOf(s, x, l.k) && Enabled(s, l)
  }

  /**
   Some copy of a stream can go on exactly as long as not all of them have finished,
   whatever the other stream does: the mutex always comes back.
   */
  lemma CopiesNeverGetStuck(r: Run, x: Stream, i: nat)
    requires Legal(r) && i < |r.states|
    ensures (exists l: Label :: StepOf(r.states[i], x, l)) <==>
      exists k :: IsOf(r.states[i], x, k) && !r.states[i].copies[k].phase.Finished?
  {
    InvAt(r, x, i);
    var s := r.states[i];
    if k :| IsOf(s, x, k) && !s.copies[k].phase.Finished? {
      var h := if Of(s, x).mutex.Some? then Of(s, x).mutex.value else k;
      assert IsOf(s, x, h);
      var l := match s.copies[h].phase
        case Blocked => Lock(h)
        case Copying => if s.copies[h].done < |s.copies[h].reader| then CopyChunk(h) else CountDown(h, false)
        case _ => Unlock(h);
      assert StepOf(s, x, l);
    }
  }

  ghost predicate Happened(r: Run, i: nat, l: Label)
    requires i <= |r.labels|
  {
    exists j | 0 <= j < i :: r.labels[j] == l
  }

  /** How many chunks copy `k` was stepped over. */
  function ChunksCopied(r: Run, i: nat, k: nat): nat
    requires i <= |r.labels|
  {
    if i == 0 then 0 else ChunksCopied(r, i - 1, k) + if r.labels[i - 1] == CopyChunk(k) then 1 else 0
  }

  /** A copy is the one that some call started, with that call's stream and reader. */
  lemma {:induction false} CopyWasStarted(r: Run, i: nat, k: nat, x: Stream, reader: seq<Chunk>)
    requires Legal(r) && i < |r.states|
    ensures k in r.states[i].copies && r.states[i].copies[k].stream == x && r.states[i].copies[k].reader == reader <==>
      Happened(r, i, StreamOut(k, x, reader))
  {
    if i > 0 {
      CopyWasStarted(r, i - 1, k, x, reader);
      assert StepAt(r, i - 1);
      assert Happened(r, i, StreamOut(k, x, reader)) <==>
        Happened(r, i - 1, StreamOut(k, x, reader)) || r.labels[i - 1] == StreamOut(k, x, reader);
      if Happened(r, i - 1, StreamOut(k, x, reader)) {
        assert k in r.states[i - 1].copies;
      }
    }
  }

  /** Where a started copy is, told by the steps it has taken. */
  lemma {:induction false} CopyPhaseIff(r: Run, i: nat, k: nat)
    requires Legal(r) && i < |r.states| && k in r.states[i].copies
    ensures r.states[i].copies[k].phase.Blocked? <==> !Happened(r, i, Lock(k))
    ensures r.states[i].copies[k].phase.Finished? <==> Happened(r, i, Unlock(k))
    ensures r.states[i].copies[k].phase.Counted? || r.states[i].copies[k].phase.Finished? <==>
      Happened(r, i, CountDown(k, true)) || Happened(r, i, CountDown(k, false))
    ensures r.states[i].copies[k].done == ChunksCopied(r, i, k)
  {
    assert i > 0 && StepAt(r, i - 1);
    if k in r.states[i - 1].copies {
      CopyPhaseIff(r, i - 1, k);
    } else {
      NotYetStarted(r, i - 1, k);
    }
    HappenedNext(r, i - 1, Lock(k));
    HappenedNext(r, i - 1, Unlock(k));
    HappenedNext(r, i - 1, CountDown(k, true));
    HappenedNext(r, i - 1, CountDown(k, false));
  }

  lemma HappenedNext(r: Run, i: nat, l: Label)
    requires i < |r.labels|
    ensures Happened(r, i + 1, l) <==> Happened(r, i, l) || r.labels[i] == l
  {
  }

  lemma {:induction false} NotYetStarted(r: Run, i: nat, k: nat)
    requires Legal(r) && i < |r.states| && k !in r.states[i].copies
    ensures !Happened(r, i, Lock(k)) && !Happened(r, i, Unlock(k)) && ChunksCopied(r, i, k) == 0
    ensures !Happened(r, i, CountDown(k, true)) && !Happened(r, i, CountDown(k, false))
  {
    if i > 0 {
      assert StepAt(r, i - 1);
      NotYetStarted(r, i - 1, k);
    }
  }

  /** A copy of any reader can run to its end. */
  lemma {:induction false} ReaderCanBeCopied(x: Stream, reader: seq<Chunk>, n: nat)
    requires n <= |reader|
    ensures exists r: Run :: Legal(r) && r.states[|r.labels|] == HalfWay(x, reader, n)
  {
    if n == 0 {
      var s1 := START.(copies := map[0 := Copy(x, reader, 0, Blocked)], wg := 1);
      var r := Run([START, s1, HalfWay(x, reader, 0)], [StreamOut(0, x, reader), Lock(0)]);
      assert reader[..0] == [];
      assert StepAt(r, 0) && StepAt(r, 1);
      assert Legal(r);
    } else {
      ReaderCanBeCopied(x, reader, n - 1);
      var q: Run :| Legal(q) && q.states[|q.labels|] == HalfWay(x, reader, n - 1);
      assert reader[..n] == reader[..n - 1] + [reader[n - 1]];
      assert Step(HalfWay(x, reader, n - 1), CopyChunk(0)) == HalfWay(x, reader, n);
      Extend(q, CopyChunk(0));
    }
  }

  function HalfWay(x: Stream, reader: seq<Chunk>, n: nat): State
    requires n <= |reader|
  {
    Update(START.(copies := map[0 := Copy(x, reader, n, Copying)], wg := 1), x, Shared(Some(0), reader[..n]))
  }

  lemma Extend(q: Run, l: Label)
    requires Legal(q) && Enabled(q.states[|q.labels|], l)
    ensures exists r: Run :: Legal(r) && r.states[|r.labels|] == Step(q.states[|q.labels|], l)
  {
    var n := |q.labels|;
    var r := Run(q.states + [Step(q.states[n], l)], q.labels + [l]);
    forall i | 0 <= i < |r.labels|
      ensures StepAt(r, i)
    {
      assert i < n ==> StepAt(q, i);
    }
    assert Legal(r);
  }

  /** And then the wait group is back at zero, with the whole reader written. */
  lemma CopyCanFinish(x: Stream, reader: seq<Chunk>)
    ensures exists r: Run :: Legal(r) && r.states[|r.labels|].wg == 0 && Of(r.states[|r.labels|], x) == Shared(None, reader)
  {
    ReaderCanBeCopied(x, reader, |reader|);
    var q: Run :| Legal(q) && q.states[|q.labels|] == HalfWay(x, reader, |reader|);
    assert reader[..|reader|] == reader;
    Extend(q, CountDown(0, false));
    var q': Run :| Legal(q') && q'.states[|q'.labels|] == Step(HalfWay(x, reader, |reader|), CountDown(0, false));
    Extend(q', Unlock(0));
  }

  ghost predicate NeverFails(r: Run) {
    forall i | 0 <= i < |r.labels| :: r.labels[i].CountDown? ==> !r.labels[i].failed
  }

  lemma {:induction false} CompleteAt(r: Run, i: nat, k: nat)
    requires Legal(r) && NeverFails(r) && i < |r.states| && k in r.states[i].copies
    ensures r.states[i].copies[k].phase.Counted? || r.states[i].copies[k].phase.Finished? ==>
      r.states[i].copies[k].done == |r.states[i].copies[k].reader|
  {
    assert i > 0;
    assert StepAt(r, i - 1);
    if k in r.states[i - 1].copies {
      CompleteAt(r, i - 1, k);
    }
  }

  /** The readers' whole contents, one after another. */
  function Whole(copies: map<nat, Copy>, order: seq<nat>): seq<Chunk> {
    if order == [] then []
    else
      var n := |order| - 1;
      Whole(copies, order[..n]) + if order[n] in copies then copies[order[n]].reader else []
  }

  lemma {:induction false} CompleteInOrder(copies: map<nat, Copy>, order: seq<nat>)
    requires forall k | k in order :: k in copies && copies[k].done == |copies[k].reader|
    ensures InOrder(copies, order) == Whole(copies, order)
  {
    if order != [] {
      CompleteInOrder(copies, order[..|order| - 1]);
    }
  }

  /**
   When the wait group is at zero every started copy is complete: each stream's writer
   holds the whole contents of its readers, each exactly once, in the order of the locking.
   */
  lemma WaitGroupZeroMeansComplete(r: Run, x: Stream, i: nat)
    requires Legal(r) && NeverFails(r) && i < |r.states| && r.states[i].wg == 0
    ensures Of(r.states[i], x).written == Whole(r.states[i].copies, LockOrder(r, x, i))
    ensures forall k :: k in LockOrder(r, x, i) <==> IsOf(r.states[i], x, k)
    ensures forall m, n | 0 <= m < n < |LockOrder(r, x, i)| :: LockOrder(r, x, i)[m] != LockOrder(r, x, i)[n]
  {
    InvAt(r, x, i);
    var s := r.states[i];
    assert Uncounted(s.copies) == {};
    forall k | IsOf(s, x, k)
      ensures k in LockOrder(r, x, i) && s.copies[k].done == |s.copies[k].reader|
    {
      assert k !in Uncounted(s.copies);
      CompleteAt(r, i, k);
    }
    CompleteInOrder(s.copies, LockOrder(r, x, i));
  }
}
