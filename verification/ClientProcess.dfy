/**
 The client's side of a running process: streamProcess attaches the output streams,
 a goroutine waits for the result and for the output copies, and any number of callers
 wait on the process object.
 */
module ClientProcess {
  import opened Options
  import opened Transport
  import S = ServerProcess
  import H = ServerHistory

  /** The result of a process: its exit status, or what went wrong. */
  datatype Result = Status(status: int) | Error(message: string)

  // ---------- the wait loop ----------

  /** Error before exit status; anything else is discarded. */
  function ResultOf(p: ProcessPayload): Option<Result> {
    if p.error.Some? then Some(Error("connection: process error: " + p.error.value))
    else if p.exitStatus.Some? then Some(Status(p.exitStatus.value))
    else None
  }

  const DECODE_FAILED := Error("connection: decode failed")

  /** The result of a connection that delivers `ps` and is then lost. */
  function WaitResult(ps: seq<ProcessPayload>): Result {
    if ps == [] then DECODE_FAILED
    else if ResultOf(ps[0]).Some? then ResultOf(ps[0]).value
    else WaitResult(ps[1..])
  }

  lemma {:induction false} WaitResultAt(ps: seq<ProcessPayload>, k: nat)
    requires k <= |ps| && forall j | 0 <= j < k :: ResultOf(ps[j]).None?
    ensures WaitResult(ps) == WaitResult(ps[k..])
  {
    if k > 0 {
      WaitResultAt(ps[1..], k - 1);
      assert ps[1..][k - 1..] == ps[k..];
    }
  }

  predicate HasAnswer(p: ProcessPayload) {
    p.error.Some? || p.exitStatus.Some?
  }

  /** Payload `k` is the first with an error or an exit status. */
  ghost predicate FirstAnswer(ps: seq<ProcessPayload>, k: nat) {
    k < |ps| && HasAnswer(ps[k]) && forall j | 0 <= j < k :: !HasAnswer(ps[j])
  }

  /** `r` is the error in the first payload with an answer, else the status in it, else the failure to decode. */
  ghost predicate IsAnswer(ps: seq<ProcessPayload>, r: Result) {
    && (forall k: nat | FirstAnswer(ps, k) && ps[k].error.Some? :: r == Error("connection: process error: " + ps[k].error.value))
    && (forall k: nat | FirstAnswer(ps, k) && ps[k].error.None? :: r == Status(ps[k].exitStatus.value))
    && ((forall j | 0 <= j < |ps| :: !HasAnswer(ps[j])) ==> r == Error("connection: decode failed"))
  }

  lemma {:induction false} FirstAnswerIsReturned(ps: seq<ProcessPayload>)
    ensures IsAnswer(ps, WaitResult(ps))
  {
    if ps != [] && !HasAnswer(ps[0]) {
      var rest := ps[1..];
      FirstAnswerIsReturned(rest);
      forall k: nat | FirstAnswer(ps, k)
        ensures k > 0 && FirstAnswer(rest, k - 1) && rest[k - 1] == ps[k]
      {
      }
      if forall j | 0 <= j < |ps| :: !HasAnswer(ps[j]) {
        assert forall j | 0 <= j < |rest| :: rest[j] == ps[j + 1];
      }
    } else if ps != [] {
      assert FirstAnswer(ps, 0);
      assert forall k: nat | FirstAnswer(ps, k) :: k == 0;
    }
  }

  /** The decode loop of streamHandler.wait, without its wait for the output copies. */
  method Wait(ps: seq<ProcessPayload>) returns (r: Result)
    ensures r == WaitResult(ps) && IsAnswer(ps, r)
  {
    FirstAnswerIsReturned(ps);
    for k := 0 to |ps|
      invariant forall j | 0 <= j < k :: ResultOf(ps[j]).None?
    {
      WaitResultAt(ps, k);
      assert ps[k..][0] == ps[k];
      if ps[k].error.Some? {
        return Error("connection: process error: " + ps[k].error.value);
      }
      if ps[k].exitStatus.Some? {
        return Status(ps[k].exitStatus.value);
      }
    }
    WaitResultAt(ps, |ps|);
    return DECODE_FAILED;
  }

  /** A status comes only from a payload that carries it. */
  lemma {:induction false} StatusWasReceived(ps: seq<ProcessPayload>, n: int)
    requires WaitResult(ps) == Status(n)
    ensures exists p :: p in ps && p.exitStatus == Some(n)
  {
    if ResultOf(ps[0]).Some? {
      assert ps[0] in ps;
    } else {
      StatusWasReceived(ps[1..], n);
    }
  }

  /**
   From end to end: if the client, having received any prefix of what the server sent,
   returns status `n` without error, then the backend process's Wait returned `n`.
   */
  lemma ClientStatusIsReal(r: S.Run, i: nat, received: seq<ProcessPayload>, n: int)
    requires S.Legal(r) && i < |r.states| && received <= r.states[i].sent && WaitResult(received) == Status(n)
    ensures S.WaitReturned(r, i, S.Exited(n))
  {
    StatusWasReceived(received, n);
    var p :| p in received && p.exitStatus == Some(n);
    assert p in r.states[i].sent;
    S.ReportedResultIsReal(r, i, p);
  }

  /** The process object that callers wait on. */
  class Process {
    var done: bool
    var exitStatus: int
    var exitErr: Option<string>

    ghost function Outcome(): Option<Result>
      reads this
    {
      if !done then None else if exitErr.Some? then Some(Error(exitErr.value)) else Some(Status(exitStatus))
    }

    constructor ()
      ensures Outcome() == None
    {
      done, exitStatus, exitErr := false, 0, None;
    }

    method Exited(status: int, err: Option<string>)
      modifies this
      ensures Outcome() == Some(if err.Some? then Error(err.value) else Status(status))
    {
      exitStatus, exitErr, done := status, err, true;
    }

    /** What a waiter returns once the condition variable has let it through. */
    method Result() returns (status: int, err: Option<string>)
      requires done
      ensures Outcome() == Some(if err.Some? then Error(err.value) else Status(status))
    {
      status, err := exitStatus, exitErr;
    }
  }

  // ---------- streamProcess and its goroutine ----------

  /** An output copy: not wanted or not attached yet, running, or over. */
  datatype Copy = NotAttached | Copying | Copied

  datatype Phase = AttachingOut | AttachingErr | Receiving | Joining(result: Result) | Finished | HijackFailed

  /** `result` is the process object's, once `exited` has set it; `returned` are the results waiters got. */
  datatype State = State(phase: Phase, out: Copy, err: Copy, result: Option<Result>, exitedCalls: nat, returned: map<nat, Result>)

  datatype Stream = Out | Err

  datatype Label =
    | Attach(stream: Stream, ok: bool)
    | CopyEnds(stream: Stream)
    | Receive(payload: ProcessPayload)
    | ReceiveFails
    | CopiesJoined
    | WaiterReturns(w: nat)

  /** Which output streams the caller asked for. */
  datatype Wanted = Wanted(out: bool, err: bool)

  function Start(wanted: Wanted): State {
    State(if wanted.out then AttachingOut else if wanted.err then AttachingErr else Receiving, NotAttached, NotAttached, None, 0, map[])
  }

  predicate Enabled(s: State, l: Label) {
    match l
    case Attach(Out, _) => s.phase.AttachingOut?
    case Attach(Err, _) => s.phase.AttachingErr?
    case CopyEnds(Out) => s.out.Copying?
    case CopyEnds(Err) => s.err.Copying?
    case Receive(_) => s.phase.Receiving?
    case ReceiveFails => s.phase.Receiving?
    case CopiesJoined => s.phase.Joining? && !s.out.Copying? && !s.err.Copying?
    case WaiterReturns(w) => s.result.Some? && w !in s.returned
  }

  function Exit(s: State, result: Result): State {
    s.(result := Some(result), exitedCalls := s.exitedCalls + 1)
  }

  const HIJACK_ERROR := Error("connection: failed to hijack stream")

  function Step(wanted: Wanted, s: State, l: Label): State
    requires Enabled(s, l)
  {
    match l
    case Attach(stream, ok) =>
      if !ok then Exit(s, HIJACK_ERROR).(phase := HijackFailed)
      else if stream.Out? then s.(out := Copying, phase := if wanted.err then AttachingErr else Receiving)
      else s.(err := Copying, phase := Receiving)
    case CopyEnds(stream) => if stream.Out? then s.(out := Copied) else s.(err := Copied)
    case Receive(p) => if ResultOf(p).Some? then s.(phase := Joining(ResultOf(p).value)) else s
    case ReceiveFails => s.(phase := Joining(DECODE_FAILED))
    case CopiesJoined => Exit(s, s.phase.result).(phase := Finished)
    case WaiterReturns(w) => s.(returned := s.returned[w := s.result.value])
  }

  datatype Run = Run(wanted: Wanted, states: seq<State>, labels: seq<Label>)

  ghost predicate StepAt(r: Run, i: nat)
    requires i < |r.labels| && |r.states| == |r.labels| + 1
  {
    Enabled(r.states[i], r.labels[i]) && r.states[i + 1] == Step(r.wanted, r.states[i], r.labels[i])
  }

  ghost predicate Legal(r: Run) {
    && |r.states| == |r.labels| + 1
    && r.states[0] == Start(r.wanted)
    && forall i | 0 <= i < |r.labels| :: StepAt(r, i)
  }

  /** The payloads received up to state `i`. */
  function Received(r: Run, i: nat): seq<ProcessPayload>
    requires i <= |r.labels|
  {
    if i == 0 then []
    else if r.labels[i - 1].Receive? then Received(r, i - 1) + [r.labels[i - 1].payload]
    else Received(r, i - 1)
  }

  ghost predicate Inv(wanted: Wanted, s: State) {
    && (s.result.Some? <==> s.phase.Finished? || s.phase.HijackFailed?)
    && (s.exitedCalls == if s.result.Some? then 1 else 0)
    && (forall w | w in s.returned :: s.result == Some(s.returned[w]))
    && (s.phase.HijackFailed? ==> s.result == Some(HIJACK_ERROR))
    && (s.phase.Receiving? || s.phase.Joining? || s.phase.Finished? ==>
          s.out.NotAttached? != wanted.out && s.err.NotAttached? != wanted.err)
    && (s.phase.AttachingErr? ==> s.out.NotAttached? != wanted.out && wanted.err)
    && (s.phase.Finished? ==> !s.out.Copying? && !s.err.Copying?)
    && (s.phase.AttachingOut? ==> s.out.NotAttached? && wanted.out)
    && (s.phase.AttachingOut? || s.phase.AttachingErr? ==> s.err.NotAttached?)
  }

  lemma InvStep(wanted: Wanted, s: State, l: Label)
    requires Inv(wanted, s) && Enabled(s, l)
    ensures Inv(wanted, Step(wanted, s, l))
    ensures s.result.Some? ==> Step(wanted, s, l).result == s.result
  {
  }

  lemma {:induction false} InvAt(r: Run, i: nat)
    requires Legal(r) && i < |r.states|
    ensures Inv(r.wanted, r.states[i])
  {
    if i > 0 {
      InvAt(r, i - 1);
      assert StepAt(r, i - 1);
      InvStep(r.wanted, r.states[i - 1], r.labels[i - 1]);
    }
  }

  lemma {:induction false} ResultIsStable(r: Run, i: nat, j: nat)
    requires Legal(r) && i <= j < |r.states| && r.states[i].result.Some?
    ensures r.states[j].result == r.states[i].result
  {
    if i < j {
      ResultIsStable(r, i, j - 1);
      InvAt(r, j - 1);
      assert StepAt(r, j - 1);
      InvStep(r.wanted, r.states[j - 1], r.labels[j - 1]);
    }
  }

  /** `exited` is called at most once, and all waiters, whenever they return, get the same result. */
  lemma WaitersAgree(r: Run, i: nat, j: nat, w: nat, v: nat)
    requires Legal(r) && i < |r.states| && j < |r.states|
    ensures r.states[i].exitedCalls <= 1
    ensures w in r.states[i].returned && v in r.states[j].returned ==> r.states[i].returned[w] == r.states[j].returned[v]
  {
    InvAt(r, i);
    InvAt(r, j);
    if w in r.states[i].returned && v in r.states[j].returned {
      ResultIsStable(r, if i < j then i else j, if i < j then j else i);
    }
  }

  /** The phases' results are what the wait loop computes from the payloads received. */
  lemma {:induction false} ResultIsWaitResult(r: Run, i: nat)
    requires Legal(r) && i < |r.states|
    ensures r.states[i].phase.Receiving? || r.states[i].phase.AttachingOut? || r.states[i].phase.AttachingErr? ==>
      forall p | p in Received(r, i) :: ResultOf(p).None?
    ensures r.states[i].phase.Joining? ==> r.states[i].phase.result == WaitResult(Received(r, i))
    ensures r.states[i].phase.Finished? ==> r.states[i].result == Some(WaitResult(Received(r, i)))
  {
    if i > 0 {
      ResultIsWaitResult(r, i - 1);
      assert StepAt(r, i - 1);
      var got := Received(r, i - 1);
      if r.labels[i - 1].Receive? {
        WaitResultAt(got + [r.labels[i - 1].payload], |got|);
        assert (got + [r.labels[i - 1].payload])[|got|..] == [r.labels[i - 1].payload];
      } else if r.labels[i - 1].ReceiveFails? {
        WaitResultAt(got, |got|);
      }
    }
  }

  /**
   Over every pair of a server run and a client run whose received payloads are a prefix
   of what the server sent: a waiter gets status `n` only if the backend's Wait returned it.
   */
  lemma WaiterStatusIsReal(sr: S.Run, k: nat, r: Run, i: nat, w: nat, n: int)
    requires S.Legal(sr) && k < |sr.states| && Legal(r) && i < |r.states|
    requires Received(r, i) <= sr.states[k].sent
    requires w in r.states[i].returned && r.states[i].returned[w] == Status(n)
    ensures S.WaitReturned(sr, k, S.Exited(n))
  {
    InvAt(r, i);
    ResultIsWaitResult(r, i);
    ClientStatusIsReal(sr, k, Received(r, i), n);
  }

  /** What the caller is told of a result that the process's Wait returned. */
  predicate Tells(r: Result, w: S.WaitResult) {
    match w
    case Exited(status) => r == Status(status)
    case Failed(message) => r == Error("connection: process error: " + message)
  }

  /**
   The same in the other direction: where the streams were attached, a waiter gets the
   result that the server reported, or the failure to decode if that did not arrive.
   */
  lemma WaiterGetsReportedResult(sr: S.Run, k: nat, r: Run, i: nat, w: nat, v: S.WaitResult)
    requires S.Legal(sr) && k < |sr.states| && Legal(r) && i < |r.states|
    requires Received(r, i) <= sr.states[k].sent && S.WaitReturned(sr, k, v)
    requires w in r.states[i].returned && !r.states[i].phase.HijackFailed?
    ensures if Received(r, i) == [] then r.states[i].returned[w] == Error("connection: decode failed") else Tells(r.states[i].returned[w], v)
  {
    InvAt(r, i);
    ResultIsWaitResult(r, i);
    var got := Received(r, i);
    FirstAnswerIsReturned(got);
    H.ResultIsSentIff(sr, k);
    if got != [] {
      assert got[0] == sr.states[k].sent[0];
      assert FirstAnswer(got, 0);
    }
  }

  // ---------- the client's state told by its past ----------

  ghost predicate Happened(r: Run, i: nat, l: Label)
    requires i <= |r.labels|
  {
    exists j | 0 <= j < i :: r.labels[j] == l
  }

  function CopyOf(s: State, x: Stream): Copy {
    if x.Out? then s.out else s.err
  }

  /** A copy runs from the attaching of its stream to its own end. */
  lemma {:induction false} CopyPhaseIff(r: Run, i: nat, x: Stream)
    requires Legal(r) && i < |r.states|
    ensures CopyOf(r.states[i], x).NotAttached? <==> !Happened(r, i, Attach(x, true))
    ensures CopyOf(r.states[i], x).Copied? <==> Happened(r, i, CopyEnds(x))
  {
    if i > 0 {
      CopyPhaseIff(r, i - 1, x);
      InvAt(r, i - 1);
      assert StepAt(r, i - 1);
      assert Happened(r, i, Attach(x, true)) <==> Happened(r, i - 1, Attach(x, true)) || r.labels[i - 1] == Attach(x, true);
      assert Happened(r, i, CopyEnds(x)) <==> Happened(r, i - 1, CopyEnds(x)) || r.labels[i - 1] == CopyEnds(x);
    }
  }

  /** The result is set by the joining of the copies or by a failed attach, and a waiter has it once it has returned. */
  lemma {:induction false} ResultIsSetIff(r: Run, i: nat, w: nat)
    requires Legal(r) && i < |r.states|
    ensures r.states[i].phase.Finished? <==> Happened(r, i, CopiesJoined)
    ensures r.states[i].phase.HijackFailed? <==> Happened(r, i, Attach(Out, false)) || Happened(r, i, Attach(Err, false))
    ensures r.states[i].result.Some? <==> r.states[i].phase.Finished? || r.states[i].phase.HijackFailed?
    ensures w in r.states[i].returned <==> Happened(r, i, WaiterReturns(w))
  {
    InvAt(r, i);
    if i > 0 {
      ResultIsSetIff(r, i - 1, w);
      assert StepAt(r, i - 1);
      var l := r.labels[i - 1];
      assert Happened(r, i, CopiesJoined) <==> Happened(r, i - 1, CopiesJoined) || l == CopiesJoined;
      assert Happened(r, i, Attach(Out, false)) <==> Happened(r, i - 1, Attach(Out, false)) || l == Attach(Out, false);
      assert Happened(r, i, Attach(Err, false)) <==> Happened(r, i - 1, Attach(Err, false)) || l == Attach(Err, false);
      assert Happened(r, i, WaiterReturns(w)) <==> Happened(r, i - 1, WaiterReturns(w)) || l == WaiterReturns(w);
    }
  }

  /** The client goes on as long as it has no result or a copy is running. */
  lemma ClientNeverGetsStuck(r: Run, i: nat)
    requires Legal(r) && i < |r.states|
    ensures (exists l: Label :: !l.WaiterReturns? && Enabled(r.states[i], l)) <==>
      r.states[i].result.None? || r.states[i].out.Copying? || r.states[i].err.Copying?
    ensures r.states[i].result.Some? ==> forall w: nat | w !in r.states[i].returned :: Enabled(r.states[i], WaiterReturns(w))
  {
    InvAt(r, i);
    var s := r.states[i];
    if s.result.None? || s.out.Copying? || s.err.Copying? {
      var l :=
        if s.out.Copying? then CopyEnds(Out) else if s.err.Copying? then CopyEnds(Err)
        else match s.phase
          case AttachingOut => Attach(Out, true)
          case AttachingErr => Attach(Err, true)
          case Receiving => ReceiveFails
          case _ => CopiesJoined;
      assert !l.WaiterReturns? && Enabled(s, l);
    }
  }

  /** Both streams are attached, the answer is received, the copies end and are joined, and waiter `w` returns. */
  function UndisturbedRun(p: ProcessPayload, w: nat): (r: Run)
    requires HasAnswer(p)
    ensures |r.labels| == 7 && |r.states| == 8
  {
    var wanted := Wanted(true, true);
    var s3 := State(Joining(ResultOf(p).value), Copying, Copying, None, 0, map[]);
    var s6 := State(Finished, Copied, Copied, Some(ResultOf(p).value), 1, map[]);
    Run(wanted,
        [Start(wanted), State(AttachingErr, Copying, NotAttached, None, 0, map[]), State(Receiving, Copying, Copying, None, 0, map[]), s3,
         s3.(out := Copied), s3.(out := Copied, err := Copied), s6, s6.(returned := map[w := ResultOf(p).value])],
        [Attach(Out, true), Attach(Err, true), Receive(p), CopyEnds(Out), CopyEnds(Err), CopiesJoined, WaiterReturns(w)])
  }

  lemma UndisturbedStart(p: ProcessPayload, w: nat)
    requires HasAnswer(p)
    ensures var r := UndisturbedRun(p, w); StepAt(r, 0) && StepAt(r, 1) && StepAt(r, 2)
  {
  }

  lemma UndisturbedEnd(p: ProcessPayload, w: nat)
    requires HasAnswer(p)
    ensures var r := UndisturbedRun(p, w); StepAt(r, 3) && StepAt(r, 4) && StepAt(r, 5) && StepAt(r, 6)
  {
  }

  lemma UndisturbedReceives(p: ProcessPayload, w: nat)
    requires HasAnswer(p)
    ensures Received(UndisturbedRun(p, w), 7) == [p]
  {
    var r := UndisturbedRun(p, w);
    assert Received(r, 0) == [];
    assert Received(r, 1) == [];
    assert Received(r, 2) == [];
    assert Received(r, 3) == [p];
    assert Received(r, 4) == [p];
    assert Received(r, 5) == [p];
    assert Received(r, 6) == [p];
  }

  /** The undisturbed course can happen, and ends with a waiter that has the result. */
  lemma WaiterCanGetResult(p: ProcessPayload, w: nat)
    requires HasAnswer(p)
    ensures exists r :: Legal(r) && Received(r, |r.labels|) == [p] && r.states[|r.labels|].phase.Finished? && w in r.states[|r.labels|].returned
  {
    var r := UndisturbedRun(p, w);
    UndisturbedStart(p, w);
    UndisturbedEnd(p, w);
    UndisturbedReceives(p, w);
    assert Legal(r);
  }

  /** When every wanted stream was attached, no waiter returns before all output copies are over. */
  lemma WaitersReturnAfterCopies(r: Run, i: nat)
    requires Legal(r) && i < |r.states| && r.states[i].result.Some? && !r.states[i].phase.HijackFailed?
    ensures !r.states[i].out.Copying? && !r.states[i].err.Copying?
    ensures (r.wanted.out ==> r.states[i].out.Copied?) && (r.wanted.err ==> r.states[i].err.Copied?)
  {
    InvAt(r, i);
  }

  /** The step that sets the result leaves a copy running exactly if it fails to attach the second stream. */
  lemma ResultBeforeCopiesIff(r: Run, i: nat)
    requires Legal(r) && i < |r.labels| && r.states[i].result.None? && r.states[i + 1].result.Some?
    ensures r.states[i + 1].out.Copying? || r.states[i + 1].err.Copying? <==>
      r.labels[i] == Attach(Err, false) && r.states[i].out.Copying?
  {
    InvAt(r, i);
    assert StepAt(r, i);
  }

  /** The other case is real: standard output attached, standard error not, and Wait returns during the copy. */
  lemma FailedAttachDoesNotWait()
    ensures exists r :: Legal(r) && r.states[|r.labels|].out.Copying? && 0 in r.states[|r.labels|].returned
  {
    var wanted := Wanted(true, true);
    var s0 := Start(wanted);
    var s1 := Step(wanted, s0, Attach(Out, true));
    var s2 := Step(wanted, s1, Attach(Err, false));
    var s3 := Step(wanted, s2, WaiterReturns(0));
    var r := Run(wanted, [s0, s1, s2, s3], [Attach(Out, true), Attach(Err, false), WaiterReturns(0)]);
    assert StepAt(r, 0) && StepAt(r, 1) && StepAt(r, 2);
    assert Legal(r);
  }
}
