/**
 The output pipeline as the source writes it: a channel of byte slices, the writer
 that copies into it, and the loops that serve and drain it.
 */
module ChanWriters {
  import opened Chunks
  import opened OutputPipeline

  /** A buffered channel of byte slices. `done` says whether the stream's done channel is closed. */
  class Channel {
    const cap: nat
    var items: seq<array<bv8>>
    var done: bool

    constructor (cap: nat)
      ensures this.cap == cap && items == [] && !done
    {
      this.cap, items, done := cap, [], false;
    }

    ghost function Contents(): seq<Chunk>
      reads this, items
    {
      BytesOf(items)
    }
  }

  ghost function BytesOf(slices: seq<array<bv8>>): (c: seq<Chunk>)
    reads slices
    ensures |c| == |slices|
  {
    seq(|slices|, i requires 0 <= i < |slices| reads slices => slices[i][..])
  }

  function EnqueueAll(cap: nat, queue: seq<Chunk>, chunks: seq<Chunk>): seq<Chunk> {
    if chunks == [] then queue
    else Enqueue(cap, EnqueueAll(cap, queue, chunks[..|chunks| - 1]), chunks[|chunks| - 1])
  }

  function Room(cap: nat, queue: seq<Chunk>, chunks: seq<Chunk>): nat {
    if |queue| + |chunks| <= cap then |chunks| else if |queue| < cap then cap - |queue| else 0
  }

  /** The chunks that find room are kept, in order, and all later ones dropped. */
  lemma {:induction false} FirstChunksAreKept(cap: nat, queue: seq<Chunk>, chunks: seq<Chunk>)
    ensures EnqueueAll(cap, queue, chunks) == queue + chunks[..Room(cap, queue, chunks)]
  {
    if chunks != [] {
      var n := |chunks| - 1;
      FirstChunksAreKept(cap, queue, chunks[..n]);
      var kept := Room(cap, queue, chunks[..n]);
      assert chunks[..n][..kept] == chunks[..kept];
      if |queue| + n < cap {
        assert kept == n && chunks == chunks[..n] + [chunks[n]];
        assert queue + chunks[..n] + [chunks[n]] == queue + (chunks[..n] + [chunks[n]]);
      }
    }
  }

  class ChanWriter {
    const ch: Channel

    constructor (ch: Channel)
      ensures this.ch == ch
    {
      this.ch := ch;
    }

    /** Writes the first `n` bytes of `d`; reports success even when the channel is full. */
    method Write(d: array<bv8>, n: nat) returns (written: nat, failed: bool)
      requires n <= d.Length
      modifies ch`items
      ensures written == n && !failed
      ensures ch.Contents() == Enqueue(ch.cap, old(ch.Contents()), d[..n])
      ensures old(ch.items) <= ch.items
      ensures forall i | |old(ch.items)| <= i < |ch.items| :: fresh(ch.items[i])
    {
      var data := new bv8[n](i requires 0 <= i < n reads d => d[i]);
      assert data[..] == d[..n];
      if |ch.items| < ch.cap {
        ch.items := ch.items + [data];
      }
      written, failed := n, false;
    }

    /**
     A backend that copies output through one reused buffer: each read overwrites the
     buffer, yet every queued chunk keeps the bytes it had when it was written.
     */
    method CopyOutput(reads_: seq<Chunk>, buf: array<bv8>)
      requires forall c | c in reads_ :: |c| <= buf.Length
      requires buf !in ch.items
      modifies ch`items, buf
      ensures ch.Contents() == EnqueueAll(ch.cap, old(ch.Contents()), reads_)
    {
      for k := 0 to |reads_|
        invariant buf !in ch.items
        invariant forall i | 0 <= i < |ch.items| :: ch.items[i] in old(ch.items) || fresh(ch.items[i])
        invariant ch.Contents() == EnqueueAll(ch.cap, old(ch.Contents()), reads_[..k])
      {
        ghost var before := ch.Contents();
        var n := |reads_[k]|;
        forall i | 0 <= i < n {
          buf[i] := reads_[k][i];
        }
        assert buf[..n] == reads_[k];
        assert ch.Contents() == before;
        var _, _ := Write(buf, n);
        assert reads_[..k + 1][..k] == reads_[..k];
      }
      assert reads_[..|reads_|] == reads_;
    }
  }

  /** The connection a stream is served to. */
  class Writer {
    var received: seq<Chunk>
  }

  lemma BytesOfConcat(a: seq<array<bv8>>, b: seq<array<bv8>>)
    ensures BytesOf(a + b) == BytesOf(a) + BytesOf(b)
  {
  }

  /** One receive from a channel that is not empty, passed on to the writer. */
  method Forward(ch: Channel, w: Writer)
    requires |ch.items| > 0
    modifies ch`items, w
    ensures ch.items == old(ch.items)[1..]
    ensures w.received + ch.Contents() == old(w.received + ch.Contents())
  {
    BytesOfConcat(ch.items[..1], ch.items[1..]);
    assert ch.items == ch.items[..1] + ch.items[1..];
    w.received := w.received + [ch.items[0][..]];
    ch.items := ch.items[1..];
  }

  /** Takes until the channel is empty; a failing write is ignored. */
  method Drain(ch: Channel, w: Writer)
    modifies ch`items, w
    ensures ch.items == []
    ensures w.received == old(w.received + ch.Contents())
  {
    while |ch.items| > 0
      invariant w.received + ch.Contents() == old(w.received + ch.Contents())
    {
      Forward(ch, w);
    }
  }

  /**
   What happens around one pass of the serve loop: slices that the channel accepts
   meanwhile, whether Stop comes, which branch the select takes when both are ready,
   and whether the write to the connection fails.
   */
  datatype Turn = Turn(accepted: seq<array<bv8>>, stop: bool, preferDone: bool, fails: bool)

  datatype Outcome = StillServing | Stopped | WriteFailed

  /** The loop between two passes: what the writer has, what is queued, whether `done` is closed, and how it stands. */
  datatype Pipe = Pipe(received: seq<Chunk>, queue: seq<Chunk>, done: bool, outcome: Outcome)

  /** A turn with the bytes of its slices. */
  datatype Move = Move(accepted: seq<Chunk>, stop: bool, preferDone: bool, fails: bool)

  ghost function MoveOf(turn: Turn): Move
    reads turn.accepted
  {
    Move(BytesOf(turn.accepted), turn.stop, turn.preferDone, turn.fails)
  }

  /**
   One pass. It stops exactly if `done` is closed and chosen or nothing is queued, and
   then leaves nothing behind; otherwise it forwards the first chunk if there is one, and
   fails exactly if that write does.
   */
  ghost predicate Passed(p: Pipe, m: Move, p': Pipe) {
    var queued := |p.queue| + |m.accepted|;
    && p'.received + p'.queue == p.received + p.queue + m.accepted
    && p'.done == (p.done || m.stop)
    && (p'.outcome.Stopped? <==> p'.done && (m.preferDone || queued == 0))
    && (p'.outcome.WriteFailed? <==> !p'.outcome.Stopped? && queued > 0 && m.fails)
    && |p'.queue| == if p'.outcome.Stopped? || queued == 0 then 0 else queued - 1
  }

  /** The channel with what arrives before the select looks at it. */
  method Arrive(ch: Channel, w: Writer, turn: Turn)
    modifies ch`items, ch`done
    ensures |ch.items| == |old(ch.items)| + |turn.accepted| && ch.done == (old(ch.done) || turn.stop)
    ensures w.received + ch.Contents() == w.received + old(ch.Contents()) + BytesOf(turn.accepted)
  {
    BytesOfConcat(ch.items, turn.accepted);
    ch.items := ch.items + turn.accepted;
    ch.done := ch.done || turn.stop;
  }

  /** One pass: the select of the serve loop, which may leave nothing to do but wait. */
  method Pass(ch: Channel, w: Writer, turn: Turn) returns (outcome: Outcome)
    modifies ch`items, ch`done, w
    ensures Passed(old(Pipe(w.received, ch.Contents(), ch.done, StillServing)), MoveOf(turn), Pipe(w.received, ch.Contents(), ch.done, outcome))
  {
    outcome := StillServing;
    Arrive(ch, w, turn);
    ghost var all := w.received + ch.Contents();
    if ch.done && (turn.preferDone || |ch.items| == 0) {
      Drain(ch, w);
      outcome := Stopped;
    } else if |ch.items| > 0 {
      Forward(ch, w);
      if turn.fails {
        outcome := WriteFailed;
      }
    }
    assert w.received + ch.Contents() == all;
  }

  /** `trace` are the stations of a loop that made `n` passes over `moves`, going on exactly while it is serving. */
  ghost predicate Trace(trace: seq<Pipe>, moves: seq<Move>, n: nat) {
    && n <= |moves| && |trace| == n + 1
    && (forall k | 0 <= k < n :: trace[k].outcome.StillServing? && Passed(trace[k], moves[k], trace[k + 1]))
    && (trace[n].outcome.StillServing? ==> n == |moves|)
  }

  /** The serve loop over any schedule of what the others do meanwhile. */
  method Serve(ch: Channel, w: Writer, turns: seq<Turn>) returns (outcome: Outcome, n: nat, ghost moves: seq<Move>, ghost trace: seq<Pipe>)
    modifies ch`items, ch`done, w
    ensures |moves| == |turns| && forall k | 0 <= k < |turns| :: moves[k] == MoveOf(turns[k])
    ensures Trace(trace, moves, n)
    ensures trace[0] == old(Pipe(w.received, ch.Contents(), ch.done, StillServing))
    ensures trace[n] == Pipe(w.received, ch.Contents(), ch.done, outcome)
    ensures w.received + ch.Contents() == old(w.received + ch.Contents()) + AllAccepted(moves[..n])
  {
    outcome, n := StillServing, 0;
    moves := seq(|turns|, k requires 0 <= k < |turns| reads * => MoveOf(turns[k]));
    trace := [Pipe(w.received, ch.Contents(), ch.done, StillServing)];
    while n < |turns| && outcome.StillServing?
      invariant n <= |turns| && |trace| == n + 1 && trace[0] == old(Pipe(w.received, ch.Contents(), ch.done, StillServing))
      invariant trace[n] == Pipe(w.received, ch.Contents(), ch.done, outcome)
      invariant forall k | 0 <= k < n :: trace[k].outcome.StillServing? && Passed(trace[k], moves[k], trace[k + 1])
      invariant forall k | 0 <= k < |turns| :: moves[k] == MoveOf(turns[k])
      decreases |turns| - n
    {
      outcome := Pass(ch, w, turns[n]);
      trace := trace + [Pipe(w.received, ch.Contents(), ch.done, outcome)];
      n := n + 1;
    }
    ServeConserves(trace, moves, n, n);
  }

  function AllAccepted(moves: seq<Move>): seq<Chunk> {
    if moves == [] then [] else AllAccepted(moves[..|moves| - 1]) + moves[|moves| - 1].accepted
  }

  /**
   So after `n` passes what the writer was given followed by what is still queued is what
   was queued at the start followed by what was accepted meanwhile, and a loop that
   returned because of Stop leaves nothing queued.
   */
  lemma {:induction false} ServeConserves(trace: seq<Pipe>, moves: seq<Move>, n: nat, k: nat)
    requires Trace(trace, moves, n) && k <= n
    ensures trace[k].received + trace[k].queue == trace[0].received + trace[0].queue + AllAccepted(moves[..k])
    ensures k > 0 && trace[k].outcome.Stopped? ==> trace[k].done && trace[k].queue == []
    ensures k > 0 && trace[k].outcome.WriteFailed? ==> moves[k - 1].fails
  {
    if k > 0 {
      ServeConserves(trace, moves, n, k - 1);
      assert moves[..k][..k - 1] == moves[..k - 1];
      assert Passed(trace[k - 1], moves[k - 1], trace[k]);
    }
  }

  // ---------- the code follows the transition system ----------

  ghost predicate Path(cap: nat, s: State, ls: seq<Label>, s': State)
    decreases |ls|
  {
    if ls == [] then s == s' else Enabled(s, ls[0]) && Path(cap, Step(cap, s, ls[0]), ls[1..], s')
  }

  lemma {:induction false} PathThen(cap: nat, s: State, a: seq<Label>, s': State, b: seq<Label>, s'': State)
    requires Path(cap, s, a, s') && Path(cap, s', b, s'')
    ensures Path(cap, s, a + b, s'')
    decreases |a|
  {
    if a == [] {
      assert a + b == b;
    } else {
      PathThen(cap, Step(cap, s, a[0]), a[1..], s', b, s'');
      assert (a + b)[1..] == a[1..] + b;
    }
  }

  lemma {:induction false} WritesPath(cap: nat, s: State, chunks: seq<Chunk>) returns (ls: seq<Label>)
    requires |s.queue| + |chunks| <= cap
    ensures Path(cap, s, ls, s.(queue := s.queue + chunks))
    decreases |chunks|
  {
    if chunks == [] {
      ls := [];
      assert s.queue + chunks == s.queue;
    } else {
      var s' := s.(queue := s.queue + [chunks[0]]);
      var rest := WritesPath(cap, s', chunks[1..]);
      assert s'.queue + chunks[1..] == s.queue + chunks;
      ls := [Write(chunks[0])] + rest;
      assert ls[1..] == rest;
    }
  }

  function Lone(queue: seq<Chunk>, stopped: bool, phase: Phase, sent: seq<Chunk>): State {
    State(queue, stopped, map[0 := Server(phase, sent)])
  }

  lemma TakeAndSend(cap: nat, queue: seq<Chunk>, stopped: bool, draining: bool, sent: seq<Chunk>, ok: bool)
    requires queue != []
    ensures Path(cap, Lone(queue, stopped, if draining then Draining else Selecting, sent), [Take(0), Send(0, ok)],
      Lone(queue[1..], stopped, if draining then Draining else if ok then Selecting else Returned(false), sent + [queue[0]]))
  {
    var s := Lone(queue, stopped, if draining then Draining else Selecting, sent);
    var s1 := Lone(queue[1..], stopped, Holding(queue[0], draining), sent);
    assert Step(cap, s, Take(0)) == s1;
    assert [Take(0), Send(0, ok)][1..] == [Send(0, ok)];
    assert [Send(0, ok)][1..] == [];
  }

  lemma {:induction false} DrainPath(cap: nat, queue: seq<Chunk>, sent: seq<Chunk>) returns (ls: seq<Label>)
    ensures Path(cap, Lone(queue, true, Draining, sent), ls, Lone([], true, Draining, sent + queue))
    decreases |queue|
  {
    if queue == [] {
      ls := [];
      assert sent + queue == sent;
    } else {
      TakeAndSend(cap, queue, true, true, sent, true);
      var rest := DrainPath(cap, queue[1..], sent + [queue[0]]);
      assert sent + [queue[0]] + queue[1..] == sent + queue;
      ls := [Take(0), Send(0, true)] + rest;
      PathThen(cap, Lone(queue, true, Draining, sent), [Take(0), Send(0, true)], Lone(queue[1..], true, Draining, sent + [queue[0]]),
               rest, Lone([], true, Draining, sent + queue));
    }
  }

  function PhaseOf(outcome: Outcome): Phase {
    match outcome
    case StillServing => Selecting
    case Stopped => Returned(true)
    case WriteFailed => Returned(false)
  }

  function AsState(p: Pipe): State {
    Lone(p.queue, p.done, PhaseOf(p.outcome), p.received)
  }

  lemma StopPath(cap: nat, queue: seq<Chunk>, done: bool, stop: bool, sent: seq<Chunk>) returns (ls: seq<Label>)
    ensures Path(cap, Lone(queue, done, Selecting, sent), ls, Lone(queue, done || stop, Selecting, sent))
  {
    ls := if stop && !done then [Stop] else [];
    assert [Stop][1..] == [];
  }

  lemma SelectPath(cap: nat, queued: seq<Chunk>, done: bool, sent: seq<Chunk>, p': Pipe, fails: bool) returns (ls: seq<Label>)
    requires p'.received + p'.queue == sent + queued && p'.done == done
    requires p'.outcome.Stopped? ==> done
    requires p'.outcome.WriteFailed? <==> !p'.outcome.Stopped? && queued != [] && fails
    requires |p'.queue| == if p'.outcome.Stopped? || queued == [] then 0 else |queued| - 1
    ensures Path(cap, Lone(queued, done, Selecting, sent), ls, AsState(p'))
  {
    if p'.outcome.Stopped? {
      assert p'.queue == [] && p'.received == sent + queued;
      var drain := DrainPath(cap, queued, sent);
      assert [Notice(0)][1..] == [] && [Finish(0)][1..] == [];
      assert Path(cap, Lone(queued, done, Selecting, sent), [Notice(0)], Lone(queued, true, Draining, sent));
      PathThen(cap, Lone(queued, done, Selecting, sent), [Notice(0)], Lone(queued, true, Draining, sent), drain, Lone([], true, Draining, sent + queued));
      assert Path(cap, Lone([], true, Draining, sent + queued), [Finish(0)], AsState(p'));
      PathThen(cap, Lone(queued, done, Selecting, sent), [Notice(0)] + drain, Lone([], true, Draining, sent + queued), [Finish(0)], AsState(p'));
      ls := [Notice(0)] + drain + [Finish(0)];
    } else if queued == [] {
      ls := [];
      assert p'.queue == [] && p'.received == sent + queued == sent;
    } else {
      TakeAndSend(cap, queued, done, false, sent, !fails);
      OneMoved(sent, queued, p'.received, p'.queue);
      ls := [Take(0), Send(0, !fails)];
    }
  }

  lemma OneMoved(sent: seq<Chunk>, queued: seq<Chunk>, sent': seq<Chunk>, queued': seq<Chunk>)
    requires sent' + queued' == sent + queued && queued != [] && |queued'| == |queued| - 1
    ensures sent' == sent + [queued[0]] && queued' == queued[1..]
  {
    var all := sent + queued;
    assert sent' == all[..|sent| + 1] && queued' == all[|sent| + 1..];
  }

  /** Every pass of the code is a path of the transition system, for chunks the channel has room for. */
  lemma PassIsPath(cap: nat, p: Pipe, m: Move, p': Pipe)
    requires p.outcome.StillServing? && Passed(p, m, p') && |p.queue| + |m.accepted| <= cap
    ensures exists ls :: Path(cap, AsState(p), ls, AsState(p'))
  {
    var queued := p.queue + m.accepted;
    assert p.received + p.queue + m.accepted == p.received + queued;
    var a := WritesPath(cap, AsState(p), m.accepted);
    var b := StopPath(cap, queued, p.done, m.stop, p.received);
    var c := SelectPath(cap, queued, p'.done, p.received, p', m.fails);
    PathThen(cap, AsState(p), a, Lone(queued, p.done, Selecting, p.received), b, Lone(queued, p'.done, Selecting, p.received));
    PathThen(cap, AsState(p), a + b, Lone(queued, p'.done, Selecting, p.received), c, AsState(p'));
  }
}
