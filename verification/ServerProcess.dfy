/**
 The server's two loops for one process connection, run side by side: streamInput
 feeds the process's stdin pipe, streamProcess waits for the process to end. Both may
 close the pipe; the first close wins. When streamProcess is over, the handler that
 called it closes the connection.
 */
module ServerProcess {
  import opened Options
  import opened Transport
  import opened ProcessInput

  /**
   Where streamInput is. A write to the pipe still has `rest` to hand over, and `met` says
   whether a read has met it; `Failing` lies between closing `connCloseCh` and closing the pipe.
   */
  datatype InputPhase = Decoding | Writing(rest: string, met: bool) | Closing | Failing | InputDone

  /** Where streamProcess is. `Reported` lies between sending the result and closing the pipe. */
  datatype MainPhase = Selecting | Reported | MainDone(reported: bool)

  /** A connection closed on this side yields the payloads that were already buffered, then an error. */
  datatype Conn = Up | Down(buffered: nat)

  /** What the process's Wait returned. */
  datatype WaitResult = Exited(status: int) | Failed(message: string)

  /**
   `close` is the first close of the pipe's write end, `readerGone` a close of its read
   end by the process; `connCloses` counts the closes of `connCloseCh`; `sent` is what
   was written to the client, `fed` what the process has read from the pipe.
   */
  datatype State = State(
    input: InputPhase,
    main: MainPhase,
    conn: Conn,
    close: Option<Ending>,
    readerGone: bool,
    waited: Option<WaitResult>,
    stopping: bool,
    connCloses: nat,
    sent: seq<ProcessPayload>,
    fed: string)

  datatype Label =
    | Decode(payload: ProcessPayload)
    | DecodeFails
    | ReaderTakes(n: nat)
    | WriteReturns(ok: bool)
    | CloseClean
    | CloseBroken
    | ReaderCloses
    | WaitReturns(result: WaitResult)
    | Report(arrives: bool)
    | CloseAfterReport
    | ServerStops
    | NoticeStop
    | NoticeConnClose
    | HandlerReturns(buffered: nat)

  const START := State(Decoding, Selecting, Up, None, false, None, false, 0, [], "")

  /** A write is over once a read has met it and all was handed over, however large the reads are. */
  predicate HandedOver(input: InputPhase) {
    input.Writing? && input.met && input.rest == ""
  }

  /** A read that began before a close of the pipe may still meet a write after it. */
  predicate Enabled(s: State, l: Label) {
    match l
    case Decode(_) => s.input.Decoding? && s.conn != Down(0)
    case DecodeFails => s.input.Decoding? && (s.conn.Up? || s.conn.buffered == 0)
    case ReaderTakes(n) => s.input.Writing? && !HandedOver(s.input) && n <= |s.input.rest| && !s.readerGone
    case WriteReturns(ok) =>
      if ok then HandedOver(s.input) else s.input.Writing? && !HandedOver(s.input) && (s.close.Some? || s.readerGone)
    case CloseClean => s.input.Closing?
    case CloseBroken => s.input.Failing?
    case ReaderCloses => !s.readerGone
    case WaitReturns(_) => s.waited.None?
    case Report(_) => s.main.Selecting? && s.waited.Some?
    case CloseAfterReport => s.main.Reported?
    case ServerStops => !s.stopping
    case NoticeStop => s.main.Selecting? && s.stopping
    case NoticeConnClose => s.main.Selecting? && s.connCloses > 0
    case HandlerReturns(_) => s.main.MainDone? && s.conn.Up?
  }

  function ClosePipe(s: State, ending: Ending): State {
    if s.close.Some? then s else s.(close := Some(ending))
  }

  /** Decoding takes a payload off a closed connection's buffer. */
  function TakePayload(conn: Conn): Conn {
    if conn.Down? && conn.buffered > 0 then Down(conn.buffered - 1) else conn
  }

  function ResultPayload(processID: string, r: WaitResult): ProcessPayload {
    match r
    case Exited(status) => EmptyPayload(processID).(exitStatus := Some(status))
    case Failed(message) => EmptyPayload(processID).(error := Some(message))
  }

  function Step(processID: string, s: State, l: Label): State
    requires Enabled(s, l)
  {
    match l
    case Decode(p) =>
      var r := React(p);
      s.(conn := TakePayload(s.conn),
         input := if r.CloseStdin? then Closing else if r.action.Feed? then Writing(r.action.data, false) else Decoding)
    case DecodeFails => s.(input := Failing, connCloses := s.connCloses + 1)
    case ReaderTakes(n) => s.(input := Writing(s.input.rest[n..], true), fed := s.fed + s.input.rest[..n])
    case WriteReturns(ok) => s.(input := if ok then Decoding else InputDone)
    case CloseClean => ClosePipe(s, CleanEOF).(input := InputDone)
    case CloseBroken => ClosePipe(s, Broken).(input := InputDone)
    case ReaderCloses => s.(readerGone := true)
    case WaitReturns(r) => s.(waited := Some(r))
    case Report(arrives) =>
      s.(main := Reported, sent := if arrives then s.sent + [ResultPayload(processID, s.waited.value)] else s.sent)
    case CloseAfterReport => ClosePipe(s, CleanEOF).(main := MainDone(true))
    case ServerStops => s.(stopping := true)
    case NoticeStop => s.(main := MainDone(false))
    case NoticeConnClose => s.(main := MainDone(false))
    case HandlerReturns(buffered) => s.(conn := Down(buffered))
  }

  datatype Run = Run(processID: string, states: seq<State>, labels: seq<Label>)

  ghost predicate StepAt(r: Run, i: nat)
    requires i < |r.labels| && |r.states| == |r.labels| + 1
  {
    Enabled(r.states[i], r.labels[i]) && r.states[i + 1] == Step(r.processID, r.states[i], r.labels[i])
  }

  ghost predicate Legal(r: Run) {
    && |r.states| == |r.labels| + 1
    && r.states[0] == START
    && forall i | 0 <= i < |r.labels| :: StepAt(r, i)
  }

  // ---------- what ends stdin ----------

  /** The client sent a stdin close, an unknown payload or an unknown signal. */
  predicate ClientCloses(l: Label) {
    l.Decode? && React(l.payload).CloseStdin?
  }

  ghost predicate ClientClosed(r: Run, i: nat)
    requires i <= |r.labels|
  {
    exists j | 0 <= j < i :: ClientCloses(r.labels[j])
  }

  ghost predicate ConnectionLost(r: Run, i: nat)
    requires i <= |r.labels|
  {
    exists j | 0 <= j < i :: r.labels[j].DecodeFails?
  }

  ghost predicate WaitReturned(r: Run, i: nat, result: WaitResult)
    requires i <= |r.labels|
  {
    exists j | 0 <= j < i :: r.labels[j] == WaitReturns(result)
  }

  /** What the phases and the pipe say about the past: whether the client closed stdin, whether decoding failed. */
  ghost predicate Explained(processID: string, s: State, clientClosed: bool, lost: bool) {
    && (s.main.Reported? || s.main == MainDone(true) ==> s.waited.Some?)
    && (s.conn.Down? ==> s.main.MainDone?)
    && (s.input.Closing? ==> clientClosed)
    && (s.input.Failing? ==> lost)
    && (s.close == Some(CleanEOF) ==> clientClosed || s.main == MainDone(true))
    && (s.close == Some(Broken) ==> lost)
    && (s.connCloses == if lost then 1 else 0)
    && (lost ==> s.input.Failing? || s.input.InputDone?)
    && (s.input.InputDone? ==> s.close.Some? || s.readerGone)
    && (s.main.Selecting? ==> s.sent == [])
    && (s.main == MainDone(true) ==> s.close.Some?)
    && (s.main == MainDone(false) ==> s.stopping || lost)
    && (s.sent == [] || (s.waited.Some? && s.sent == [ResultPayload(processID, s.waited.value)]))
  }

  lemma ExplainedStep(processID: string, s: State, l: Label, clientClosed: bool, lost: bool)
    requires Explained(processID, s, clientClosed, lost) && Enabled(s, l)
    ensures Explained(processID, Step(processID, s, l), clientClosed || ClientCloses(l), lost || l.DecodeFails?)
  {
  }

  lemma {:induction false} ExplainedAt(r: Run, i: nat)
    requires Legal(r) && i < |r.states|
    ensures Explained(r.processID, r.states[i], ClientClosed(r, i), ConnectionLost(r, i))
  {
    if i > 0 {
      ExplainedAt(r, i - 1);
      assert StepAt(r, i - 1);
      ExplainedStep(r.processID, r.states[i - 1], r.labels[i - 1], ClientClosed(r, i - 1), ConnectionLost(r, i - 1));
      assert ClientClosed(r, i) <==> ClientClosed(r, i - 1) || ClientCloses(r.labels[i - 1]);
      assert ConnectionLost(r, i) <==> ConnectionLost(r, i - 1) || r.labels[i - 1].DecodeFails?;
    }
  }

  lemma {:induction false} WaitedAt(r: Run, i: nat)
    requires Legal(r) && i < |r.states|
    ensures r.states[i].waited.Some? ==> WaitReturned(r, i, r.states[i].waited.value)
  {
    if i > 0 {
      WaitedAt(r, i - 1);
      assert StepAt(r, i - 1);
      if r.labels[i - 1].WaitReturns? {
        assert r.labels[i - 1] == WaitReturns(r.states[i].waited.value);
      }
    }
  }

  /**
   Stdin sees a clean end of file only if the client asked for it or the process's Wait
   returned; an error close only if the connection was lost.
   */
  lemma StdinEndsForACause(r: Run, i: nat)
    requires Legal(r) && i < |r.states|
    ensures r.states[i].close == Some(CleanEOF) ==> ClientClosed(r, i) || exists w :: WaitReturned(r, i, w)
    ensures r.states[i].close == Some(Broken) ==> ConnectionLost(r, i)
  {
    ExplainedAt(r, i);
    WaitedAt(r, i);
  }

  /**
   If the server was stopped or the connection lost before a result was reported, and the
   client had not closed stdin, then a streamInput that is over has broken stdin off,
   unless the process had closed its end.
   */
  lemma StopOrLossBreaksStdin(r: Run, i: nat)
    requires Legal(r) && i < |r.states| && r.states[i].input.InputDone?
    requires !ClientClosed(r, i) && r.states[i].main != MainDone(true)
    ensures r.states[i].close == Some(Broken) || (r.states[i].readerGone && r.states[i].close.None?)
  {
    ExplainedAt(r, i);
    var c := r.states[i].close;
    assert c.Some? ==> c.value.CleanEOF? || c.value.Broken?;
  }

  /**
   streamProcess ends with a report, and then stdin is closed, or without one because
   the server stops or the connection is lost.
   */
  lemma MainLoopEndsForACause(r: Run, i: nat)
    requires Legal(r) && i < |r.states| && r.states[i].main.MainDone?
    ensures if r.states[i].main.reported then r.states[i].close.Some? else r.states[i].stopping || ConnectionLost(r, i)
  {
    ExplainedAt(r, i);
  }

  lemma ConnCloseChClosedOnce(r: Run, i: nat)
    requires Legal(r) && i < |r.states|
    ensures r.states[i].connCloses <= 1
  {
    ExplainedAt(r, i);
  }

  lemma {:induction false} FirstCloseWins(r: Run, i: nat, j: nat)
    requires Legal(r) && i <= j < |r.states| && r.states[i].close.Some?
    ensures r.states[j].close == r.states[i].close
  {
    if i < j {
      FirstCloseWins(r, i, j - 1);
      assert StepAt(r, j - 1);
    }
  }

  /** The client is told at most one result, and it is the one the process's Wait returned. */
  lemma ReportedResultIsReal(r: Run, i: nat, p: ProcessPayload)
    requires Legal(r) && i < |r.states| && p in r.states[i].sent
    ensures r.states[i].sent == [p]
    ensures p.exitStatus.Some? != p.error.Some?
    ensures p.exitStatus.Some? ==> WaitReturned(r, i, Exited(p.exitStatus.value))
    ensures p.error.Some? ==> WaitReturned(r, i, Failed(p.error.value))
  {
    ExplainedAt(r, i);
    WaitedAt(r, i);
  }

  // ---------- how long streamInput listens ----------

  predicate EndsListening(l: Label) {
    ClientCloses(l) || l.DecodeFails? || l == WriteReturns(false)
  }

  /**
   Exactly when streamInput still listens: nothing the client sent closed stdin, decoding
   did not fail and no write to stdin failed.
   */
  lemma {:induction false} ListensIff(r: Run, i: nat)
    requires Legal(r) && i < |r.states|
    ensures (r.states[i].input.Decoding? || r.states[i].input.Writing?) <==>
      forall j | 0 <= j < i :: !EndsListening(r.labels[j])
  {
    if i > 0 {
      ListensIff(r, i - 1);
      assert StepAt(r, i - 1);
    }
  }

  /** After the end nothing the client sends is looked at any more, a kill signal included. */
  lemma NothingIsDecodedAfterTheEnd(r: Run, j: nat, i: nat)
    requires Legal(r) && j < i < |r.labels| && EndsListening(r.labels[j])
    ensures !r.labels[i].Decode?
  {
    ListensIff(r, i);
    assert StepAt(r, i);
  }

  /** A write that the process does not read holds back everything behind it. */
  lemma {:induction false} PendingWriteHoldsBack(r: Run, i: nat, j: nat)
    requires Legal(r) && i <= j < |r.states| && r.states[i].input.Writing?
    requires forall k | i <= k < j :: !r.labels[k].WriteReturns?
    ensures r.states[j].input.Writing?
    ensures forall k | i <= k < j :: !r.labels[k].Decode?
  {
    if i < j {
      PendingWriteHoldsBack(r, i, j - 1);
      assert StepAt(r, j - 1);
    }
  }

  /** A process that closes its stdin cannot be signalled once the client writes to it. */
  lemma FailedWriteLosesControls(processID: string, data: string)
    ensures exists r: Run ::
      && Legal(r) && r.processID == processID
      && r.labels == [ReaderCloses, Decode(Encode(processID, ClientCall.Write(data))), WriteReturns(false)]
      && forall p :: !Enabled(r.states[|r.labels|], Decode(p))
  {
    var s1 := START.(readerGone := true);
    var s2 := s1.(input := Writing(data, false));
    var s3 := s2.(input := InputDone);
    var r := Run(processID, [START, s1, s2, s3],
                 [ReaderCloses, Decode(Encode(processID, ClientCall.Write(data))), WriteReturns(false)]);
    assert StepAt(r, 0) && StepAt(r, 1) && StepAt(r, 2);
    assert Legal(r);
  }

  // ---------- after the handler has closed the connection ----------

  predicate IsInputStep(l: Label) {
    l.Decode? || l.DecodeFails? || l.WriteReturns? || l.CloseClean? || l.CloseBroken?
  }

  function InputSteps(r: Run, i: nat, j: nat): nat
    requires i <= j <= |r.labels|
  {
    if i == j then 0 else InputSteps(r, i, j - 1) + if IsInputStep(r.labels[j - 1]) then 1 else 0
  }

  /** How many steps streamInput still takes at most. */
  function StepsLeft(s: State): nat
    requires s.conn.Down?
  {
    match s.input
    case Decoding => 2 * s.conn.buffered + 2
    case Writing(_, _) => 2 * s.conn.buffered + 3
    case Closing => 1
    case Failing => 1
    case InputDone => 0
  }

  lemma {:induction false} InputStepsAreBounded(r: Run, i: nat, j: nat)
    requires Legal(r) && i <= j < |r.states| && r.states[i].conn.Down?
    ensures r.states[j].conn.Down? && InputSteps(r, i, j) + StepsLeft(r.states[j]) <= StepsLeft(r.states[i])
  {
    if i < j {
      InputStepsAreBounded(r, i, j - 1);
      assert StepAt(r, j - 1);
    }
  }

  /** A write waits for the process, and nothing but the process can let it go on. */
  predicate WaitsForReader(s: State) {
    s.input.Writing? && !HandedOver(s.input) && s.close.None? && !s.readerGone
  }

  /** A decode waits for the client, unless the connection is closed on this side. */
  predicate WaitsForClient(s: State) {
    s.input.Decoding? && s.conn.Up?
  }

  /** A step of streamInput that does not depend on what the client does next. */
  predicate OwnInputStep(s: State, l: Label) {
    IsInputStep(l) && Enabled(s, l) && !WaitsForClient(s)
  }

  lemma InputGoesOnIff(s: State)
    ensures (exists l: Label :: OwnInputStep(s, l)) <==> !s.input.InputDone? && !WaitsForReader(s) && !WaitsForClient(s)
  {
    if !s.input.InputDone? && !WaitsForReader(s) && !WaitsForClient(s) {
      var l := match s.input
        case Decoding => if s.conn == Down(0) then DecodeFails else Decode(EmptyPayload(""))
        case Writing(_, _) => WriteReturns(HandedOver(s.input))
        case Closing => CloseClean
        case _ => CloseBroken;
      assert OwnInputStep(s, l);
    }
  }

  /**
   So once the handler has returned, streamInput ends after boundedly many steps, unless
   the process neither reads nor closes its stdin. Where it cannot go on, stdin has ended
   for the process, or the process itself is what it waits for; and without a report or a
   client close the end is the error close.
   */
  lemma StoppedInputEnds(r: Run, i: nat, j: nat)
    requires Legal(r) && i < j < |r.states| && r.labels[i].HandlerReturns?
    ensures InputSteps(r, i + 1, j) <= 2 * r.labels[i].buffered + 3
    ensures (forall l: Label :: !OwnInputStep(r.states[j], l)) ==>
      if r.states[j].input.InputDone? then r.states[j].close.Some? || r.states[j].readerGone else WaitsForReader(r.states[j])
    ensures r.states[j].input.InputDone? && r.states[j].main == MainDone(false) && !ClientClosed(r, j) && !r.states[j].readerGone ==>
      r.states[j].close == Some(Broken)
  {
    assert StepAt(r, i);
    InputStepsAreBounded(r, i + 1, j);
    InputGoesOnIff(r.states[j]);
    ExplainedAt(r, j);
    if r.states[j].input.InputDone? && r.states[j].main == MainDone(false) && !ClientClosed(r, j) {
      StopOrLossBreaksStdin(r, j);
    }
  }

  // ---------- what stdin carries ----------

  predicate DecodesData(l: Label) {
    l.Decode? && React(l.payload).Act? && React(l.payload).action.Feed?
  }

  /** The stdin data decoded up to state `i`. */
  function Decoded(r: Run, i: nat): seq<string>
    requires i <= |r.labels|
  {
    if i == 0 then []
    else if DecodesData(r.labels[i - 1]) then Decoded(r, i - 1) + [React(r.labels[i - 1].payload).action.data]
    else Decoded(r, i - 1)
  }

  /**
   `fed` is the decoded data but for a suffix of its last piece: what a write under way
   has still to hand over, or what a failed write never did.
   */
  ghost predicate FedInOrder(s: State, decoded: seq<string>) {
    match s.input
    case Writing(rest, _) =>
      && decoded != [] && |rest| <= |decoded[|decoded| - 1]|
      && Concat(decoded) == s.fed + rest
    case InputDone =>
      || Concat(decoded) == s.fed
      || (decoded != [] && Concat(decoded[..|decoded| - 1]) <= s.fed <= Concat(decoded))
    case _ => Concat(decoded) == s.fed
  }

  lemma FedStep(processID: string, s: State, l: Label, decoded: seq<string>)
    requires FedInOrder(s, decoded) && Enabled(s, l) && !DecodesData(l)
    ensures FedInOrder(Step(processID, s, l), decoded)
  {
    if l.ReaderTakes? {
      assert s.fed + s.input.rest == (s.fed + s.input.rest[..l.n]) + s.input.rest[l.n..];
    } else if l == WriteReturns(false) {
      var n := |decoded| - 1;
      ConcatSnoc(decoded[..n], decoded[n]);
      assert decoded == decoded[..n] + [decoded[n]];
      assert Concat(decoded[..n]) == (s.fed + s.input.rest)[..|Concat(decoded[..n])|];
    }
  }

  /** The process reads the decoded data in order, byte by byte; at most an end of the last piece is missing. */
  lemma {:induction false} StdinDataInOrder(r: Run, i: nat)
    requires Legal(r) && i < |r.states|
    ensures FedInOrder(r.states[i], Decoded(r, i))
  {
    if i > 0 {
      StdinDataInOrder(r, i - 1);
      assert StepAt(r, i - 1);
      if DecodesData(r.labels[i - 1]) {
        ConcatSnoc(Decoded(r, i - 1), React(r.labels[i - 1].payload).action.data);
      } else {
        FedStep(r.processID, r.states[i - 1], r.labels[i - 1], Decoded(r, i - 1));
      }
    }
  }
}
