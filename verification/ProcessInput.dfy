/**
 The input half of a process connection: the client turns calls into payloads
 (client/connection/process_stream.go), the server's streamInput loop turns payloads
 into actions on the process (server/request_handling.go).
 */
module ProcessInput {
  import opened Options
  import opened Transport

  // ---------- the client ----------

  datatype ClientCall = Write(data: string) | Close | SetTTY(spec: TTYSpec) | Signal(signal: int)

  function Encode(processID: string, c: ClientCall): (p: ProcessPayload)
    ensures p.processID == processID && p.exitStatus.None? && p.error.None?
  {
    match c
    case Write(data) => EmptyPayload(processID).(source := Some(Stdin), data := Some(data))
    case Close => EmptyPayload(processID).(source := Some(Stdin))
    case SetTTY(spec) => EmptyPayload(processID).(tty := Some(spec))
    case Signal(signal) => EmptyPayload(processID).(signal := Some(signal))
  }

  function EncodeAll(processID: string, calls: seq<ClientCall>): seq<ProcessPayload> {
    seq(|calls|, i requires 0 <= i < |calls| => Encode(processID, calls[i]))
  }

  /**
   `conn` are the payloads sent, in the order in which the callers got the lock. Whether
   the connection takes a message is not the client's to know: `up` stands for it.
   */
  class ProcessStream {
    const processID: string
    var conn: seq<ProcessPayload>

    method SendPayload(payload: ProcessPayload, up: bool) returns (failed: bool)
      modifies this
      ensures failed <==> !up
      ensures conn == if up then old(conn) + [payload] else old(conn)
    {
      if up {
        conn := conn + [payload];
      }
      failed := !up;
    }

    method Write(data: string, up: bool) returns (n: nat, failed: bool)
      modifies this
      ensures n == |data| && (failed <==> !up)
      ensures conn == if up then old(conn) + [Encode(processID, ClientCall.Write(data))] else old(conn)
    {
      failed := SendPayload(EmptyPayload(processID).(source := Some(Stdin), data := Some(data)), up);
      n := |data|;
    }

    method Close(up: bool) returns (failed: bool)
      modifies this
      ensures failed <==> !up
      ensures conn == if up then old(conn) + [Encode(processID, ClientCall.Close)] else old(conn)
    {
      failed := SendPayload(EmptyPayload(processID).(source := Some(Stdin)), up);
    }

    method SetTTY(spec: TTYSpec, up: bool) returns (failed: bool)
      modifies this
      ensures failed <==> !up
      ensures conn == if up then old(conn) + [Encode(processID, ClientCall.SetTTY(spec))] else old(conn)
    {
      failed := SendPayload(EmptyPayload(processID).(tty := Some(spec)), up);
    }

    method Signal(signal: int, up: bool) returns (failed: bool)
      modifies this
      ensures failed <==> !up
      ensures conn == if up then old(conn) + [Encode(processID, ClientCall.Signal(signal))] else old(conn)
    {
      failed := SendPayload(EmptyPayload(processID).(signal := Some(signal)), up);
    }

    /**
     The stdin goroutine, on a connection that takes `sends` messages: copy what the
     reader yields until a send fails, then close, unless reading or sending failed.
     */
    method StreamIn(chunks: seq<string>, readFails: bool, sends: nat)
      modifies this
      ensures conn == old(conn) + EncodeAll(processID, SentCalls(chunks, readFails, sends))
    {
      for k := 0 to |chunks|
        invariant k <= sends && conn == old(conn) + EncodeAll(processID, Writes(chunks[..k]))
      {
        var _, failed := Write(chunks[k], k < sends);
        if failed {
          return;
        }
        assert Writes(chunks[..k + 1]) == Writes(chunks[..k]) + [ClientCall.Write(chunks[k])];
      }
      assert chunks[..|chunks|] == chunks;
      if !readFails {
        var _ := Close(|chunks| < sends);
      }
    }
  }

  function Writes(chunks: seq<string>): seq<ClientCall> {
    seq(|chunks|, i requires 0 <= i < |chunks| => ClientCall.Write(chunks[i]))
  }

  function StdinCalls(chunks: seq<string>, closed: bool): seq<ClientCall> {
    if closed then Writes(chunks) + [ClientCall.Close] else Writes(chunks)
  }

  /** The stdin calls that get through: a prefix of the chunks, and Close only after all of them. */
  function SentCalls(chunks: seq<string>, readFails: bool, sends: nat): seq<ClientCall> {
    if sends <= |chunks| then StdinCalls(chunks[..sends], false) else StdinCalls(chunks, !readFails)
  }

  // ---------- the server ----------

  datatype Action = Resize(spec: TTYSpec) | Feed(data: string) | Send(signal: int)

  /** How the process's stdin ends: a clean end of file, or an error because the connection is gone. */
  datatype Ending = CleanEOF | Broken

  datatype Reaction = Act(action: Action) | CloseStdin

  /** The server's switch, in the order of its cases. */
  function React(p: ProcessPayload): Reaction {
    if p.tty.Some? then Act(Resize(p.tty.value))
    else if p.source.Some? then
      if p.data.Some? then Act(Feed(p.data.value)) else CloseStdin
    else if p.signal.Some? && p.signal.value in {SIGNAL_KILL, SIGNAL_TERMINATE} then Act(Send(p.signal.value))
    else CloseStdin
  }

  /**
   The process reads its first `takes` stdin writes whole; of the next it reads at most
   `part` bytes, never all, and then closes its end or just reads no more.
   */
  datatype Reader = Reader(takes: nat, part: nat, closes: bool)

  /** How the loop ends: it closes stdin, or a write fails or never returns of which the process has read a part. */
  datatype LoopEnd = Closed(ending: Ending) | WriteFailed(read: string) | Blocked(read: string)

  datatype Served = Served(actions: seq<Action>, end: LoopEnd)

  function Taken(rd: Reader, data: string): (t: string)
    ensures t <= data && (t == data ==> data == "") && (rd.part < |data| ==> |t| == rd.part)
  {
    if rd.part < |data| then data[..rd.part] else if data == "" then "" else data[..|data| - 1]
  }

  function Unread(rd: Reader, data: string): LoopEnd {
    if rd.closes then WriteFailed(Taken(rd, data)) else Blocked(Taken(rd, data))
  }

  function After(rd: Reader, action: Action): Reader {
    if action.Feed? && rd.takes > 0 then rd.(takes := rd.takes - 1) else rd
  }

  predicate LeftUnread(rd: Reader, action: Action) {
    action.Feed? && rd.takes == 0
  }

  /** What the loop does with the payloads of a connection that is then lost. */
  function Serve(ps: seq<ProcessPayload>, rd: Reader): Served {
    if ps == [] then Served([], Closed(Broken))
    else match React(ps[0])
      case CloseStdin => Served([], Closed(CleanEOF))
      case Act(action) =>
        if LeftUnread(rd, action) then Served([], Unread(rd, action.data))
        else
          var rest := Serve(ps[1..], After(rd, action));
          rest.(actions := [action] + rest.actions)
  }

  function Feeds(actions: seq<Action>): nat {
    if actions == [] then 0 else Feeds(actions[..|actions| - 1]) + if actions[|actions| - 1].Feed? then 1 else 0
  }

  lemma {:induction false} FeedsCons(action: Action, rest: seq<Action>)
    ensures Feeds([action] + rest) == (if action.Feed? then 1 else 0) + Feeds(rest)
  {
    var all := [action] + rest;
    if rest == [] {
      assert all[..0] == [];
      assert Feeds(all[..|all| - 1]) == 0;
    } else {
      assert all[..|all| - 1] == [action] + rest[..|rest| - 1];
      FeedsCons(action, rest[..|rest| - 1]);
    }
  }

  /** The loop acts on payloads until one closes stdin, one is left unread, or none is left. */
  lemma {:induction false} ServeUntil(ps: seq<ProcessPayload>, rd: Reader, actions: seq<Action>)
    requires |actions| <= |ps| && forall j | 0 <= j < |actions| :: React(ps[j]) == Act(actions[j])
    requires Feeds(actions) <= rd.takes
    requires |actions| < |ps| && React(ps[|actions|]).Act? ==> React(ps[|actions|]).action.Feed? && Feeds(actions) == rd.takes
    ensures Serve(ps, rd) == Served(actions,
      if |actions| == |ps| then Closed(Broken) else if React(ps[|actions|]).CloseStdin? then Closed(CleanEOF)
      else Unread(rd, React(ps[|actions|]).action.data))
  {
    if actions != [] {
      assert actions == [actions[0]] + actions[1..];
      FeedsCons(actions[0], actions[1..]);
      ServeUntil(ps[1..], After(rd, actions[0]), actions[1..]);
    }
  }

  /** The loop itself. */
  method StreamInput(ps: seq<ProcessPayload>, rd: Reader) returns (actions: seq<Action>, end: LoopEnd, connCloses: nat)
    ensures Served(actions, end) == Serve(ps, rd)
    ensures connCloses == if end == Closed(Broken) then 1 else 0
  {
    actions, end, connCloses := [], Closed(CleanEOF), 0;
    var takes: nat := rd.takes;
    for k := 0 to |ps|
      invariant |actions| == k && forall j | 0 <= j < k :: React(ps[j]) == Act(actions[j])
      invariant takes + Feeds(actions) == rd.takes
    {
      var p := ps[k];
      if p.tty.Some? {
        actions := actions + [Resize(p.tty.value)];
      } else if p.source.Some? {
        if p.data.None? {
          ServeUntil(ps, rd, actions);
          return;
        }
        if takes == 0 {
          end := Unread(rd, p.data.value);
          ServeUntil(ps, rd, actions);
          return;
        }
        actions, takes := actions + [Feed(p.data.value)], takes - 1;
      } else if p.signal == Some(SIGNAL_KILL) {
        actions := actions + [Send(SIGNAL_KILL)];
      } else if p.signal == Some(SIGNAL_TERMINATE) {
        actions := actions + [Send(SIGNAL_TERMINATE)];
      } else {
        ServeUntil(ps, rd, actions);
        return;
      }
      assert actions[..k] == actions[..|actions| - 1];
    }
    end, connCloses := Closed(Broken), 1;
    ServeUntil(ps, rd, actions);
  }

  // ---------- what the client's calls come to ----------

  /** The calls after which the server stops listening. */
  predicate Ends(c: ClientCall) {
    c.Close? || (c.Signal? && c.signal !in {SIGNAL_KILL, SIGNAL_TERMINATE})
  }

  function WritesAmong(calls: seq<ClientCall>): nat {
    if calls == [] then 0 else (if calls[0].Write? then 1 else 0) + WritesAmong(calls[1..])
  }

  lemma {:induction false} WritesAmongPrefix(calls: seq<ClientCall>, i: nat, j: nat)
    requires i <= j <= |calls|
    ensures WritesAmong(calls[..i]) <= WritesAmong(calls[..j])
  {
    if i > 0 {
      assert calls[..i][1..] == calls[1..][..i - 1] && calls[..j][1..] == calls[1..][..j - 1];
      WritesAmongPrefix(calls[1..], i - 1, j - 1);
    }
  }

  /** How many calls take effect: those before the first that ends the input or is a write left unread. */
  function Effective(calls: seq<ClientCall>, takes: nat): (n: nat)
    ensures n <= |calls|
    ensures forall i | 0 <= i < n :: !Ends(calls[i])
    ensures n < |calls| && !Ends(calls[n]) ==> calls[n].Write?
  {
    if calls == [] || Ends(calls[0]) || (calls[0].Write? && takes == 0) then 0
    else 1 + Effective(calls[1..], if calls[0].Write? then takes - 1 else takes)
  }

  lemma {:induction false} EffectiveUntil(calls: seq<ClientCall>, takes: nat)
    ensures var n := Effective(calls, takes);
      && WritesAmong(calls[..n]) <= takes
      && (n < |calls| ==> Ends(calls[n]) || (calls[n].Write? && WritesAmong(calls[..n + 1]) > takes))
  {
    var n := Effective(calls, takes);
    if n > 0 {
      EffectiveUntil(calls[1..], if calls[0].Write? then takes - 1 else takes);
      assert calls[..n][1..] == calls[1..][..n - 1];
      assert n < |calls| ==> calls[..n + 1][1..] == calls[1..][..n];
    } else if calls != [] {
      assert calls[..1][1..] == [];
    }
  }

  /** What the caller meant by a call that does not end the input. */
  function Intended(c: ClientCall): Action
    requires !Ends(c)
  {
    match c
    case Write(data) => Feed(data)
    case SetTTY(spec) => Resize(spec)
    case Signal(signal) => Send(signal)
  }

  /** What the process reads on its stdin. */
  function ReadBy(actions: seq<Action>): string {
    if actions == [] then ""
    else if actions[0].Feed? then actions[0].data + ReadBy(actions[1..])
    else ReadBy(actions[1..])
  }

  /** What one call comes to: it ends the input, is left unread, or is done and the next is served. */
  lemma ServeCall(processID: string, calls: seq<ClientCall>, rd: Reader)
    requires calls != []
    ensures var s := Serve(EncodeAll(processID, calls), rd);
      if Ends(calls[0]) then s == Served([], Closed(CleanEOF))
      else
        var action := Intended(calls[0]);
        if LeftUnread(rd, action) then s == Served([], Unread(rd, calls[0].data))
        else
          var rest := Serve(EncodeAll(processID, calls[1..]), After(rd, action));
          s == Served([action] + rest.actions, rest.end)
  {
    var ps := EncodeAll(processID, calls);
    assert ps[0] == Encode(processID, calls[0]);
    assert ps[1..] == EncodeAll(processID, calls[1..]);
  }

  /**
   The server performs exactly the calls before the first Close, unknown signal or unread
   write, each as it was meant and in order; and that call says how the input ends.
   */
  lemma {:induction false} CallsTakeEffect(processID: string, calls: seq<ClientCall>, rd: Reader)
    ensures var s, n := Serve(EncodeAll(processID, calls), rd), Effective(calls, rd.takes);
      && |s.actions| == n
      && (forall i | 0 <= i < n :: s.actions[i] == Intended(calls[i]))
      && s.end ==
           if n == |calls| then Closed(Broken)
           else if Ends(calls[n]) then Closed(CleanEOF)
           else if rd.closes then WriteFailed(Taken(rd, calls[n].data)) else Blocked(Taken(rd, calls[n].data))
  {
    if calls != [] {
      ServeCall(processID, calls, rd);
      if Effective(calls, rd.takes) > 0 {
        CallsTakeEffect(processID, calls[1..], After(rd, Intended(calls[0])));
        assert forall i | 0 < i < |calls| :: calls[i] == calls[1..][i - 1];
      }
    }
  }

  function Concat(parts: seq<string>): string {
    if parts == [] then "" else parts[0] + Concat(parts[1..])
  }

  lemma {:induction false} ConcatSnoc(parts: seq<string>, last: string)
    ensures Concat(parts + [last]) == Concat(parts) + last
  {
    if parts != [] {
      ConcatSnoc(parts[1..], last);
      assert (parts + [last])[1..] == parts[1..] + [last];
    }
  }

  /** The calls that concern stdin, in order. */
  function OnStdin(calls: seq<ClientCall>): seq<ClientCall> {
    if calls == [] then []
    else if calls[0].Write? || calls[0].Close? then [calls[0]] + OnStdin(calls[1..])
    else OnStdin(calls[1..])
  }

  /**
   However terminal changes and signals are interleaved with the stdin calls that got
   through, the process reads exactly the chunks it takes, and a clean end of file after
   them exactly if it took all and Close was sent; an empty chunk is not taken for the end.
   */
  lemma {:induction false} StdinArrivesWhole(processID: string, calls: seq<ClientCall>, chunks: seq<string>, closed: bool, rd: Reader)
    requires OnStdin(calls) == StdinCalls(chunks, closed)
    requires forall c | c in calls && c.Signal? :: c.signal in {SIGNAL_KILL, SIGNAL_TERMINATE}
    ensures var s := Serve(EncodeAll(processID, calls), rd);
      if |chunks| <= rd.takes then ReadBy(s.actions) == Concat(chunks) && s.end == Closed(if closed then CleanEOF else Broken)
      else ReadBy(s.actions) == Concat(chunks[..rd.takes]) && s.end == Unread(rd, chunks[rd.takes])
  {
    if calls != [] {
      ServeCall(processID, calls, rd);
      if calls[0].Write? {
        assert StdinCalls(chunks, closed)[0] == calls[0];
        assert OnStdin(calls[1..]) == StdinCalls(chunks, closed)[1..] == StdinCalls(chunks[1..], closed);
        if rd.takes > 0 {
          StdinArrivesWhole(processID, calls[1..], chunks[1..], closed, After(rd, Feed(chunks[0])));
          assert |chunks| > rd.takes ==> chunks[..rd.takes][1..] == chunks[1..][..rd.takes - 1];
        }
      } else if calls[0].Close? {
        assert StdinCalls(chunks, closed)[0] == calls[0];
      } else {
        StdinArrivesWhole(processID, calls[1..], chunks, closed, rd);
      }
    }
  }

  lemma {:induction false} OnStdinOfStdin(calls: seq<ClientCall>)
    requires forall c | c in calls :: c.Write? || c.Close?
    ensures OnStdin(calls) == calls
  {
    if calls != [] {
      OnStdinOfStdin(calls[1..]);
    }
  }

  function Min(a: nat, b: nat): nat {
    if a < b then a else b
  }

  /**
   From the caller's reader to the process's stdin: the reader yields `chunks` and then
   fails or ends, the connection takes `sends` of the stdin messages, and the process
   reads whatever it is given. However signals and terminal changes come in between, the
   process reads exactly the chunks that were sent, and sees a clean end of file exactly
   if the reader ended and the connection took all chunks and the close.
   */
  lemma StreamedInputArrives(processID: string, calls: seq<ClientCall>, chunks: seq<string>, readFails: bool, sends: nat, rd: Reader)
    requires OnStdin(calls) == SentCalls(chunks, readFails, sends) && |chunks| <= rd.takes
    requires forall c | c in calls && c.Signal? :: c.signal in {SIGNAL_KILL, SIGNAL_TERMINATE}
    ensures var s := Serve(EncodeAll(processID, calls), rd);
      && ReadBy(s.actions) == Concat(chunks[..Min(sends, |chunks|)])
      && (s.end == Closed(CleanEOF) <==> !readFails && |chunks| < sends)
      && (s.end == Closed(Broken) <==> readFails || sends <= |chunks|)
  {
    if sends <= |chunks| {
      StdinArrivesWhole(processID, calls, chunks[..sends], false, rd);
    } else {
      StdinArrivesWhole(processID, calls, chunks, !readFails, rd);
      assert chunks[..|chunks|] == chunks;
    }
  }

  /** In particular on what StreamIn alone sends. */
  lemma StreamedAloneArrives(processID: string, chunks: seq<string>, readFails: bool, sends: nat, rd: Reader)
    requires |chunks| <= rd.takes
    ensures var s := Serve(EncodeAll(processID, SentCalls(chunks, readFails, sends)), rd);
      && ReadBy(s.actions) == Concat(chunks[..Min(sends, |chunks|)])
      && s.end == Closed(if !readFails && |chunks| < sends then CleanEOF else Broken)
  {
    OnStdinOfStdin(SentCalls(chunks, readFails, sends));
    StreamedInputArrives(processID, SentCalls(chunks, readFails, sends), chunks, readFails, sends, rd);
  }

  /** What the server does with payload `p`, by its fields, when it is not the last it looks at. */
  predicate ActsOn(p: ProcessPayload, action: Action) {
    && (p.tty.Some? ==> action == Resize(p.tty.value))
    && (p.tty.None? && p.source.Some? ==> p.data.Some? && action == Feed(p.data.value))
    && (p.tty.None? && p.source.None? ==> p.signal.Some? && p.signal.value in {SIGNAL_KILL, SIGNAL_TERMINATE} && action == Send(p.signal.value))
  }

  /** A payload that closes stdin: a stdin message without data, an unknown signal, or nothing the server knows. */
  predicate ClosesStdin(p: ProcessPayload) {
    && p.tty.None?
    && (if p.source.Some? then p.data.None? else p.signal.None? || p.signal.value !in {SIGNAL_KILL, SIGNAL_TERMINATE})
  }

  /**
   Whatever the payloads are, from our client or not: the server acts on each, by its
   fields and in order, up to the first that closes stdin or is a write not read whole.
   */
  lemma {:induction false} PayloadsTakeEffect(ps: seq<ProcessPayload>, rd: Reader)
    ensures var s := Serve(ps, rd); var n := |s.actions|;
      && n <= |ps|
      && (forall i | 0 <= i < n :: !ClosesStdin(ps[i]) && ActsOn(ps[i], s.actions[i]))
      && (s.end == Closed(Broken) <==> n == |ps|)
      && (s.end == Closed(CleanEOF) <==> n < |ps| && ClosesStdin(ps[n]))
      && (n < |ps| && !ClosesStdin(ps[n]) ==> ps[n].tty.None? && ps[n].data.Some? && s.end == Unread(rd, ps[n].data.value))
  {
    if ps != [] && React(ps[0]).Act? && !LeftUnread(rd, React(ps[0]).action) {
      PayloadsTakeEffect(ps[1..], After(rd, React(ps[0]).action));
    }
  }

  /**
   A signal or terminal change takes effect exactly if nothing before it ended the input
   and the process took every write before it.
   */
  lemma ControlReachesProcessIff(processID: string, calls: seq<ClientCall>, rd: Reader, i: nat)
    requires i < |calls| && !Ends(calls[i])
    ensures i < |Serve(EncodeAll(processID, calls), rd).actions| <==>
      (forall j | 0 <= j < i :: !Ends(calls[j])) && WritesAmong(calls[..i + 1]) <= rd.takes
  {
    CallsTakeEffect(processID, calls, rd);
    EffectiveUntil(calls, rd.takes);
    var n := Effective(calls, rd.takes);
    if i < n {
      WritesAmongPrefix(calls, i + 1, n);
    } else {
      WritesAmongPrefix(calls, n + 1, i + 1);
    }
  }

  /** In particular a kill is lost after stdin was closed, and after a write that the process does not read. */
  lemma KillIsLostAfter(processID: string, c: ClientCall, rd: Reader)
    requires c.Close? || (c.Write? && rd.takes == 0)
    ensures Serve(EncodeAll(processID, [c, ClientCall.Signal(SIGNAL_KILL)]), rd).actions == []
  {
    CallsTakeEffect(processID, [c, ClientCall.Signal(SIGNAL_KILL)], rd);
  }
}
