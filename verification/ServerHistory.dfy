/**
 The server's side of a process connection told by its past: exactly which steps have led
 to each part of the state, and that the undisturbed course can happen.
 */
module ServerHistory {
  import opened Options
  import opened Transport
  import opened ProcessInput
  import opened ServerProcess

  // ---------- what the state says about the past, exactly ----------

  ghost predicate Happened(r: Run, i: nat, l: Label)
    requires i <= |r.labels|
  {
    exists j | 0 <= j < i :: r.labels[j] == l
  }

  lemma {:induction false} WaitedIff(r: Run, i: nat, w: WaitResult)
    requires Legal(r) && i < |r.states|
    ensures r.states[i].waited == Some(w) <==> WaitReturned(r, i, w)
  {
    if i > 0 {
      WaitedIff(r, i - 1, w);
      assert StepAt(r, i - 1);
      assert WaitReturned(r, i, w) <==> WaitReturned(r, i - 1, w) || r.labels[i - 1] == WaitReturns(w);
    }
  }

  lemma {:induction false} SentIff(r: Run, i: nat)
    requires Legal(r) && i < |r.states|
    ensures r.states[i].sent != [] <==> Happened(r, i, Report(true))
  {
    if i > 0 {
      SentIff(r, i - 1);
      assert StepAt(r, i - 1);
      assert Happened(r, i, Report(true)) <==> Happened(r, i - 1, Report(true)) || r.labels[i - 1] == Report(true);
    }
  }

  /**
   Once a report has gone out the client has been sent one message, for this process,
   with what Wait returned: the exit status and no error, or the error and no status.
   */
  lemma ResultIsSentIff(r: Run, i: nat)
    requires Legal(r) && i < |r.states|
    ensures r.states[i].sent != [] <==> Happened(r, i, Report(true))
    ensures forall w | r.states[i].sent != [] && WaitReturned(r, i, w) ::
      && |r.states[i].sent| == 1
      && var p := r.states[i].sent[0];
      && p.processID == r.processID
      && p.exitStatus == (if w.Exited? then Some(w.status) else None)
      && p.error == (if w.Failed? then Some(w.message) else None)
    ensures r.states[i].sent != [] ==> exists w :: WaitReturned(r, i, w)
  {
    SentIff(r, i);
    ExplainedAt(r, i);
    WaitedAt(r, i);
    forall w | WaitReturned(r, i, w)
      ensures r.states[i].waited == Some(w)
    {
      WaitedIff(r, i, w);
    }
  }

  predicate EndsWithoutReport(l: Label) {
    l.NoticeStop? || l.NoticeConnClose?
  }

  /** Where streamProcess is, told by the steps it has taken. */
  lemma {:induction false} MainPhaseIff(r: Run, i: nat)
    requires Legal(r) && i < |r.states|
    ensures r.states[i].main == MainDone(true) <==> Happened(r, i, CloseAfterReport)
    ensures r.states[i].main == MainDone(false) <==> exists j | 0 <= j < i :: EndsWithoutReport(r.labels[j])
    ensures r.states[i].main.Reported? || r.states[i].main == MainDone(true) <==> exists j | 0 <= j < i :: r.labels[j].Report?
  {
    if i > 0 {
      MainPhaseIff(r, i - 1);
      assert StepAt(r, i - 1);
      var m := r.states[i].main;
      assert m.MainDone? ==> m == MainDone(true) || m == MainDone(false);
    }
  }

  lemma {:induction false} ServerStateIff(r: Run, i: nat)
    requires Legal(r) && i < |r.states|
    ensures r.states[i].stopping <==> Happened(r, i, ServerStops)
    ensures r.states[i].readerGone <==> Happened(r, i, ReaderCloses)
    ensures r.states[i].conn.Down? <==> exists j | 0 <= j < i :: r.labels[j].HandlerReturns?
  {
    if i > 0 {
      ServerStateIff(r, i - 1);
      assert StepAt(r, i - 1);
    }
  }

  predicate ClosesPipe(l: Label) {
    l.CloseClean? || l.CloseBroken? || l.CloseAfterReport?
  }

  /** The pipe's write end is closed exactly by the first of the steps that close it, cleanly or not as that step does. */
  lemma {:induction false} PipeCloseIff(r: Run, i: nat, ending: Ending)
    requires Legal(r) && i < |r.states|
    ensures r.states[i].close == Some(ending) <==> exists j | 0 <= j < i :: FirstToClose(r, j) && (r.labels[j].CloseBroken? <==> ending.Broken?)
    ensures r.states[i].close.None? <==> forall j | 0 <= j < i :: !ClosesPipe(r.labels[j])
  {
    if i > 0 {
      PipeCloseIff(r, i - 1, ending);
      assert StepAt(r, i - 1);
      assert ending.Broken? || ending.CleanEOF?;
      if ClosesPipe(r.labels[i - 1]) && r.states[i - 1].close.None? {
        assert FirstToClose(r, i - 1);
      }
    }
  }

  ghost predicate FirstToClose(r: Run, j: nat)
    requires j < |r.labels|
  {
    ClosesPipe(r.labels[j]) && forall n | 0 <= n < j :: !ClosesPipe(r.labels[n])
  }

  /** Where a streamInput that no longer listens is, told by the steps it has taken. */
  lemma {:induction false} InputPhaseIff(r: Run, i: nat)
    requires Legal(r) && i < |r.states|
    ensures r.states[i].input.InputDone? <==> Happened(r, i, CloseClean) || Happened(r, i, CloseBroken) || Happened(r, i, WriteReturns(false))
    ensures r.states[i].input.Closing? <==> ClientClosed(r, i) && !Happened(r, i, CloseClean)
    ensures r.states[i].input.Failing? <==> ConnectionLost(r, i) && !Happened(r, i, CloseBroken)
  {
    if i > 0 {
      InputPhaseIff(r, i - 1);
      assert StepAt(r, i - 1);
      var l := r.labels[i - 1];
      assert ClientClosed(r, i) <==> ClientClosed(r, i - 1) || ClientCloses(l);
      assert ConnectionLost(r, i) <==> ConnectionLost(r, i - 1) || l.DecodeFails?;
      assert Happened(r, i, CloseClean) <==> Happened(r, i - 1, CloseClean) || l == CloseClean;
      assert Happened(r, i, CloseBroken) <==> Happened(r, i - 1, CloseBroken) || l == CloseBroken;
      assert Happened(r, i, WriteReturns(false)) <==> Happened(r, i - 1, WriteReturns(false)) || l == WriteReturns(false);
    }
  }

  predicate IsMainStep(l: Label) {
    l.Report? || l.CloseAfterReport? || l.NoticeStop? || l.NoticeConnClose?
  }

  /** streamProcess waits exactly for the process, a server stop or the loss of the connection. */
  lemma MainGoesOnIff(r: Run, i: nat)
    requires Legal(r) && i < |r.states|
    ensures (exists l: Label :: IsMainStep(l) && Enabled(r.states[i], l)) <==>
      || ((exists j | 0 <= j < i :: r.labels[j].Report?) && !Happened(r, i, CloseAfterReport))
      || (r.states[i].main.Selecting? && (r.states[i].waited.Some? || Happened(r, i, ServerStops) || ConnectionLost(r, i)))
  {
    MainPhaseIff(r, i);
    ServerStateIff(r, i);
    ExplainedAt(r, i);
    var s := r.states[i];
    var steps := [Report(true), CloseAfterReport, NoticeStop, NoticeConnClose];
    assert steps[0] == Report(true) && steps[1] == CloseAfterReport && steps[2] == NoticeStop && steps[3] == NoticeConnClose;
    assert forall k | 0 <= k < 4 :: IsMainStep(steps[k]);
    if s.main.Reported? {
      assert Enabled(s, steps[1]);
    } else if s.main.Selecting? && s.waited.Some? {
      assert Enabled(s, steps[0]);
    } else if s.main.Selecting? && s.stopping {
      assert Enabled(s, steps[2]);
    } else if s.main.Selecting? && s.connCloses > 0 {
      assert Enabled(s, steps[3]);
    }
  }

  // ---------- the undisturbed course ----------

  ghost predicate Reached(processID: string, s: State) {
    exists r: Run :: EndsIn(r, processID, s)
  }

  ghost predicate EndsIn(r: Run, processID: string, s: State) {
    Legal(r) && r.processID == processID && r.states[|r.labels|] == s
  }

  lemma ReachedStart(processID: string)
    ensures Reached(processID, START)
  {
    assert EndsIn(Run(processID, [START], []), processID, START);
  }

  lemma ReachedStep(processID: string, s: State, l: Label)
    requires Reached(processID, s) && Enabled(s, l)
    ensures Reached(processID, Step(processID, s, l))
  {
    var r: Run :| EndsIn(r, processID, s);
    var n := |r.labels|;
    var r' := Run(processID, r.states + [Step(processID, s, l)], r.labels + [l]);
    forall i | 0 <= i < |r'.labels|
      ensures StepAt(r', i)
    {
      assert i < n ==> StepAt(r, i);
    }
    assert EndsIn(r', processID, Step(processID, s, l));
  }

  /** Every chunk a client sends can reach the process. */
  lemma {:induction false} DataCanArrive(processID: string, chunks: seq<string>)
    ensures Reached(processID, START.(fed := Concat(chunks)))
  {
    if chunks == [] {
      ReachedStart(processID);
    } else {
      var n := |chunks| - 1;
      DataCanArrive(processID, chunks[..n]);
      ConcatSnoc(chunks[..n], chunks[n]);
      assert chunks == chunks[..n] + [chunks[n]];
      ChunkCanArrive(processID, Concat(chunks[..n]), chunks[n]);
    }
  }

  lemma ChunkCanArrive(processID: string, fed: string, data: string)
    requires Reached(processID, START.(fed := fed))
    ensures Reached(processID, START.(fed := fed + data))
  {
    var s := START.(fed := fed);
    var l := Decode(Encode(processID, ClientCall.Write(data)));
    ReachedStep(processID, s, l);
    var s1 := s.(input := Writing(data, false));
    assert Step(processID, s, l) == s1;
    ReachedStep(processID, s1, ReaderTakes(|data|));
    var s2 := s.(input := Writing("", true), fed := fed + data);
    assert data[..|data|] == data && data[|data|..] == "";
    assert Step(processID, s1, ReaderTakes(|data|)) == s2;
    ReachedStep(processID, s2, WriteReturns(true));
    assert Step(processID, s2, WriteReturns(true)) == START.(fed := fed + data);
  }

  /**
   The undisturbed course can happen, for every input and every result: the process reads
   all that was sent and a clean end of file, and the client is sent what Wait returned.
   */
  lemma ProcessCanFinish(processID: string, chunks: seq<string>, w: WaitResult)
    ensures exists s :: Reached(processID, s) && FinishedWith(processID, s, chunks, w)
  {
    DataCanArrive(processID, chunks);
    var s := START.(fed := Concat(chunks));
    var l := Decode(Encode(processID, ClientCall.Close));
    ReachedStep(processID, s, l);
    var s1 := s.(input := Closing);
    assert Step(processID, s, l) == s1;
    ReachedStep(processID, s1, CloseClean);
    var s2 := s.(input := InputDone, close := Some(CleanEOF));
    assert Step(processID, s1, CloseClean) == s2;
    ResultCanBeSent(processID, s2, w);
    assert FinishedWith(processID, s2.(waited := Some(w), main := MainDone(true), sent := [ResultPayload(processID, w)], conn := Down(0)), chunks, w);
  }

  ghost predicate FinishedWith(processID: string, s: State, chunks: seq<string>, w: WaitResult) {
    && s.fed == Concat(chunks) && s.close == Some(CleanEOF) && s.input.InputDone?
    && s.main == MainDone(true) && s.conn == Down(0) && s.sent == [ResultPayload(processID, w)]
  }

  lemma ResultCanBeSent(processID: string, s: State, w: WaitResult)
    requires Reached(processID, s) && s.main.Selecting? && s.waited.None? && s.close == Some(CleanEOF) && s.conn.Up? && s.sent == []
    ensures Reached(processID, s.(waited := Some(w), main := MainDone(true), sent := [ResultPayload(processID, w)], conn := Down(0)))
  {
    ReachedStep(processID, s, WaitReturns(w));
    var s1 := s.(waited := Some(w));
    assert Step(processID, s, WaitReturns(w)) == s1;
    ReachedStep(processID, s1, Report(true));
    var s2 := s1.(main := Reported, sent := [ResultPayload(processID, w)]);
    assert Step(processID, s1, Report(true)) == s2;
    ReachedStep(processID, s2, CloseAfterReport);
    var s3 := s2.(main := MainDone(true));
    assert Step(processID, s2, CloseAfterReport) == s3;
    ReachedStep(processID, s3, HandlerReturns(0));
    assert Step(processID, s3, HandlerReturns(0)) == s3.(conn := Down(0));
  }

  /** A server stop can cut the connection and break stdin off, whatever the process has read until then. */
  lemma StopCanBreakStdin(processID: string, chunks: seq<string>)
    ensures exists s :: Reached(processID, s) && s.fed == Concat(chunks) && s.close == Some(Broken) && s.main == MainDone(false) && s.sent == []
  {
    DataCanArrive(processID, chunks);
    var s := START.(fed := Concat(chunks));
    ReachedStep(processID, s, ServerStops);
    var s1 := s.(stopping := true);
    ReachedStep(processID, s1, NoticeStop);
    var s2 := s1.(main := MainDone(false));
    ReachedStep(processID, s2, HandlerReturns(0));
    var s3 := s2.(conn := Down(0));
    ReachedStep(processID, s3, DecodeFails);
    var s4 := s3.(input := Failing, connCloses := 1);
    ReachedStep(processID, s4, CloseBroken);
    assert Step(processID, s4, CloseBroken).close == Some(Broken);
  }

  /** So can the loss of the connection, which streamProcess notices. */
  lemma LossCanBreakStdin(processID: string, chunks: seq<string>)
    ensures exists s :: Reached(processID, s) && s.fed == Concat(chunks) && s.close == Some(Broken) && s.main == MainDone(false) && !s.stopping
  {
    DataCanArrive(processID, chunks);
    var s := START.(fed := Concat(chunks));
    ReachedStep(processID, s, DecodeFails);
    var s1 := s.(input := Failing, connCloses := 1);
    ReachedStep(processID, s1, NoticeConnClose);
    var s2 := s1.(main := MainDone(false));
    ReachedStep(processID, s2, CloseBroken);
    assert Step(processID, s2, CloseBroken).close == Some(Broken);
  }
}
