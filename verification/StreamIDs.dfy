/**
 The stream registry of server/streamer: ids come from a 64-bit counter printed in
 decimal, a stopped stream stays in the registry for a while and is deleted later.
 */
module StreamIDs {

  // ---------- ids ----------

  function Digit(d: nat): char
    requires d < 10
  {
    ('0' as int + d) as char
  }

  function Decimal(n: nat): string {
    (if n < 10 then "" else Decimal(n / 10)) + [Digit(n % 10)]
  }

  function Parse(s: string): int {
    if s == "" then 0 else 10 * Parse(s[..|s| - 1]) + (s[|s| - 1] as int - '0' as int)
  }

  lemma {:induction false} ParseDecimal(n: nat)
    ensures Parse(Decimal(n)) == n
  {
    var front := if n < 10 then "" else Decimal(n / 10);
    assert Decimal(n)[..|Decimal(n)| - 1] == front;
    if n >= 10 {
      ParseDecimal(n / 10);
    }
  }

  const WORD: nat := 0x1_0000_0000_0000_0000

  /** The id that call number `n` of Stream returns, counted from zero. */
  function IdOf(n: nat): string {
    Decimal((n + 1) % WORD)
  }

  lemma SameSuccessor(m: nat, n: nat)
    ensures (m + 1) % WORD == (n + 1) % WORD <==> m % WORD == n % WORD
    ensures (m % WORD + 1) % WORD == (m + 1) % WORD
  {
  }

  /** Two calls get the same id exactly when the counter has wrapped round between them. */
  lemma IdsCollideIff(m: nat, n: nat)
    ensures IdOf(m) == IdOf(n) <==> m % WORD == n % WORD
  {
    SameSuccessor(m, n);
    ParseDecimal((m + 1) % WORD);
    ParseDecimal((n + 1) % WORD);
  }

  // ---------- the registry ----------

  /**
   `ids` are the ids given out so far, one per call of Stream; `streams` maps an id to
   the call whose channels it names; `closed` holds the streams whose `done` channel is
   closed; `deleting` the ids whose delayed delete is still to come.
   */
  datatype Registry = Registry(current: nat, ids: seq<string>, streams: map<string, nat>, closed: set<nat>, deleting: set<string>)

  datatype Label = Stream | Stop(id: string) | Delete(id: string)

  const EMPTY := Registry(0, [], map[], {}, {})

  /** Stop is called at most once per stream: a second call would close `done` twice. */
  predicate Enabled(g: Registry, l: Label) {
    match l
    case Stream => true
    case Stop(id) => id in g.streams ==> g.streams[id] !in g.closed
    case Delete(id) => id in g.deleting
  }

  function Register(g: Registry, id: string): Registry {
    g.(ids := g.ids + [id], streams := g.streams[id := |g.ids|])
  }

  function Step(g: Registry, l: Label): Registry {
    match l
    case Stream =>
      var current := (g.current + 1) % WORD;
      Register(g, Decimal(current)).(current := current)
    case Stop(id) =>
      if id !in g.streams then g
      else g.(closed := g.closed + {g.streams[id]}, deleting := g.deleting + {id})
    case Delete(id) =>
      g.(streams := g.streams - {id}, deleting := g.deleting - {id})
  }

  datatype Run = Run(states: seq<Registry>, labels: seq<Label>)

  ghost predicate StepAt(r: Run, i: nat)
    requires i < |r.labels| && |r.states| == |r.labels| + 1
  {
    Enabled(r.states[i], r.labels[i]) && r.states[i + 1] == Step(r.states[i], r.labels[i])
  }

  ghost predicate Legal(r: Run) {
    && |r.states| == |r.labels| + 1
    && r.states[0] == EMPTY
    && forall i | 0 <= i < |r.labels| :: StepAt(r, i)
  }

  lemma {:induction false} IdsAt(r: Run, i: nat)
    requires Legal(r) && i < |r.states|
    ensures r.states[i].current == |r.states[i].ids| % WORD
    ensures forall n | 0 <= n < |r.states[i].ids| :: r.states[i].ids[n] == IdOf(n)
  {
    if i > 0 {
      IdsAt(r, i - 1);
      assert StepAt(r, i - 1);
      SameSuccessor(|r.states[i - 1].ids|, 0);
    }
  }

  /** Up to 2^64 calls of Stream return pairwise distinct ids. */
  lemma IdsDistinct(r: Run, i: nat)
    requires Legal(r) && i < |r.states| && |r.states[i].ids| <= WORD
    ensures Distinct(r.states[i].ids)
  {
    IdsAt(r, i);
    var ids := r.states[i].ids;
    forall m, n | 0 <= m < n < |ids|
      ensures ids[m] != ids[n]
    {
      IdsCollideIff(m, n);
    }
  }

  ghost predicate Distinct(ids: seq<string>) {
    forall m, n | 0 <= m < n < |ids| :: ids[m] != ids[n]
  }

  /** A stream is still to be found until its own delayed delete. */
  predicate Registered(g: Registry, n: nat)
    requires n < |g.ids|
  {
    n !in g.closed || g.ids[n] in g.deleting
  }

  /** Exactly the registered streams are found, each under its own id. */
  ghost predicate Inv(g: Registry) {
    && (forall n | n in g.closed :: n < |g.ids|)
    && (forall id | id in g.streams :: g.streams[id] < |g.ids| && g.ids[g.streams[id]] == id)
    && (forall id | id in g.deleting :: id in g.streams && g.streams[id] in g.closed)
    && (forall n | 0 <= n < |g.ids| :: g.ids[n] in g.streams <==> Registered(g, n))
  }

  lemma InvStep(g: Registry, l: Label)
    requires Inv(g) && Enabled(g, l) && Distinct(Step(g, l).ids)
    ensures Inv(Step(g, l))
  {
    match l
    case Stream => RegisterKeepsInv(g, Decimal((g.current + 1) % WORD));
    case Stop(id) =>
    case Delete(id) =>
  }

  lemma RegisterKeepsInv(g: Registry, id: string)
    requires Inv(g) && Distinct(g.ids + [id])
    ensures Inv(Register(g, id))
  {
    var ids := g.ids + [id];
    assert forall n | 0 <= n < |g.ids| :: ids[n] == g.ids[n] && ids[n] != ids[|g.ids|];
  }

  lemma {:induction false} InvAt(r: Run, i: nat)
    requires Legal(r) && i < |r.states| && |r.states[i].ids| <= WORD
    ensures Inv(r.states[i])
  {
    if i > 0 {
      assert StepAt(r, i - 1);
      InvAt(r, i - 1);
      IdsDistinct(r, i);
      InvStep(r.states[i - 1], r.labels[i - 1]);
    }
  }

  /** A stream's id leads to that stream's channels, from Stream until its own delayed delete. */
  lemma IdResolvesToItsStream(r: Run, i: nat, n: nat)
    requires Legal(r) && i < |r.states| && n < |r.states[i].ids| <= WORD
    ensures var g := r.states[i];
      && (g.ids[n] in g.streams <==> n !in g.closed || g.ids[n] in g.deleting)
      && (g.ids[n] in g.streams ==> g.streams[g.ids[n]] == n)
  {
    InvAt(r, i);
    IdsDistinct(r, i);
  }

  /** Before state `i` a Stop came for stream `n` that found it. */
  ghost predicate Stopped(r: Run, i: nat, n: nat)
    requires i < |r.states| == |r.labels| + 1 && n < |r.states[i].ids|
  {
    exists j | 0 <= j < i :: r.labels[j] == Stop(r.states[i].ids[n]) && r.states[i].ids[n] in r.states[j].streams
  }

  ghost predicate Deleted(r: Run, i: nat, n: nat)
    requires i < |r.states| == |r.labels| + 1 && n < |r.states[i].ids|
  {
    exists j | 0 <= j < i :: r.labels[j] == Delete(r.states[i].ids[n])
  }

  lemma NewIdIsUnknown(g: Registry, ids: seq<string>)
    requires Inv(g) && ids != [] && g.ids <= ids[..|ids| - 1] && Distinct(ids)
    ensures ids[|ids| - 1] !in g.streams && ids[|ids| - 1] !in g.deleting
  {
    var n := |ids| - 1;
    assert forall m | 0 <= m < |g.ids| :: g.ids[m] == ids[m] && ids[m] != ids[n];
  }

  /** A stream that is new at state `i` was stopped by none and deleted by none. */
  lemma NewStreamIsUntouched(r: Run, i: nat)
    requires Legal(r) && 0 < i < |r.states| && |r.states[i].ids| <= WORD && r.labels[i - 1].Stream?
    ensures var n := |r.states[i].ids| - 1;
      && n >= 0 && !Stopped(r, i, n) && !Deleted(r, i, n)
      && n !in r.states[i].closed && r.states[i].ids[n] in r.states[i].streams && r.states[i].ids[n] !in r.states[i].deleting
  {
    assert StepAt(r, i - 1);
    InvAt(r, i - 1);
    IdsDistinct(r, i);
    var n := |r.states[i].ids| - 1;
    var id := r.states[i].ids[n];
    forall j | 0 <= j < i
      ensures id !in r.states[j].streams && id !in r.states[j].deleting
    {
      IdsPrefix(r, j, i - 1);
      InvAt(r, j);
      NewIdIsUnknown(r.states[j], r.states[i].ids);
    }
    forall j | 0 <= j < i
      ensures r.labels[j] != Delete(id)
    {
      assert StepAt(r, j);
    }
  }

  lemma {:induction false} IdsPrefix(r: Run, i: nat, j: nat)
    requires Legal(r) && i <= j < |r.states|
    ensures r.states[i].ids <= r.states[j].ids
  {
    if i < j {
      IdsPrefix(r, i, j - 1);
      assert StepAt(r, j - 1);
    }
  }

  ghost predicate Tells(g: Registry, n: nat, stopped: bool, deleted: bool)
    requires n < |g.ids|
  {
    && (n in g.closed <==> stopped)
    && (g.ids[n] in g.streams <==> !deleted)
    && (g.ids[n] in g.deleting <==> stopped && !deleted)
  }

  ghost predicate ToldByPast(r: Run, i: nat, n: nat)
    requires i < |r.states| == |r.labels| + 1 && n < |r.states[i].ids|
  {
    Tells(r.states[i], n, Stopped(r, i, n), Deleted(r, i, n))
  }

  lemma TellsStep(g: Registry, l: Label, n: nat, stopped: bool, deleted: bool)
    requires Inv(g) && Enabled(g, l) && Distinct(Step(g, l).ids) && n < |g.ids| && Tells(g, n, stopped, deleted)
    ensures n < |Step(g, l).ids| && Step(g, l).ids[n] == g.ids[n]
    ensures Tells(Step(g, l), n, stopped || (l == Stop(g.ids[n]) && g.ids[n] in g.streams), deleted || l == Delete(g.ids[n]))
  {
    var ids := Step(g, l).ids;
    assert g.ids[n] == ids[n];
    match l
    case Stream => assert ids[n] != ids[|g.ids|];
    case Stop(id) => assert id in g.streams ==> g.ids[g.streams[id]] == id && ids[g.streams[id]] == id;
    case Delete(id) =>
  }

  lemma PastStep(r: Run, i: nat, n: nat)
    requires Legal(r) && i < |r.labels| && |r.states[i + 1].ids| <= WORD && n < |r.states[i].ids| && ToldByPast(r, i, n)
    ensures n < |r.states[i + 1].ids| && ToldByPast(r, i + 1, n)
  {
    assert StepAt(r, i);
    IdsPrefix(r, i, i + 1);
    InvAt(r, i);
    IdsDistinct(r, i + 1);
    var id, l := r.states[i].ids[n], r.labels[i];
    TellsStep(r.states[i], l, n, Stopped(r, i, n), Deleted(r, i, n));
    assert Stopped(r, i + 1, n) <==> Stopped(r, i, n) || (l == Stop(id) && id in r.states[i].streams);
    assert Deleted(r, i + 1, n) <==> Deleted(r, i, n) || l == Delete(id);
  }

  /**
   In every run of up to 2^64 calls of Stream: a stream's done channel is closed exactly
   if a Stop came for its id that found it, the stream is found exactly until its delayed
   delete, and that delete is to come exactly if the stream was stopped and not deleted.
   */
  lemma {:induction false} StreamToldByPast(r: Run, i: nat, n: nat)
    requires Legal(r) && i < |r.states| && n < |r.states[i].ids| <= WORD
    ensures ToldByPast(r, i, n)
  {
    assert i > 0 && StepAt(r, i - 1);
    if n < |r.states[i - 1].ids| {
      StreamToldByPast(r, i - 1, n);
      PastStep(r, i - 1, n);
    } else {
      NewStreamIsUntouched(r, i);
    }
  }

  /** The done channel of a stream is closed once: no second Stop finds the stream. */
  lemma DoneIsClosedOnce(r: Run, i: nat, j: nat)
    requires Legal(r) && i < j < |r.labels| && |r.states[j].ids| <= WORD
    requires r.labels[i].Stop? && r.labels[i].id in r.states[i].streams
    ensures r.labels[j] == r.labels[i] ==> r.labels[j].id !in r.states[j].streams
  {
    assert StepAt(r, j);
    if r.labels[j] == r.labels[i] && r.labels[j].id in r.states[j].streams {
      var id := r.labels[i].id;
      InvAt(r, j);
      IdsPrefix(r, i, j);
      InvAt(r, i);
      StreamToldByPast(r, j, r.states[j].streams[id]);
    }
  }

  /** A delayed delete removes a stopped stream and leaves every other where it was. */
  lemma DeleteRemovesOnlyTheStopped(r: Run, i: nat)
    requires Legal(r) && i < |r.labels| && r.labels[i].Delete? && |r.states[i].ids| <= WORD
    ensures var g, id := r.states[i], r.labels[i].id;
      && id in g.streams && g.streams[id] in g.closed && id !in r.states[i + 1].streams && id !in r.states[i + 1].deleting
      && forall n | 0 <= n < |g.ids| && g.ids[n] in g.streams && n != g.streams[id] ::
           g.ids[n] in r.states[i + 1].streams && r.states[i + 1].streams[g.ids[n]] == n
  {
    assert StepAt(r, i);
    InvAt(r, i);
    IdsDistinct(r, i);
  }

  /** One call too many: when the counter comes round again, a stream loses its id to the new one. */
  lemma WrappedIdTakesOver(r: Run, i: nat, n: nat)
    requires Legal(r) && i < |r.labels| && r.labels[i].Stream?
    requires n < |r.states[i].ids| && |r.states[i].ids| % WORD == n % WORD
    ensures var id := r.states[i].ids[n];
      id in r.states[i + 1].streams && r.states[i + 1].streams[id] == |r.states[i].ids| != n
  {
    assert StepAt(r, i);
    IdsAt(r, i);
    IdsAt(r, i + 1);
    var m := |r.states[i].ids|;
    IdsCollideIff(m, n);
    assert r.states[i + 1].ids[m] == IdOf(m);
  }

  /** A run of `n` calls of Stream and nothing else. */
  ghost predicate OnlyStreams(r: Run, n: nat) {
    Legal(r) && |r.labels| == n && forall i | 0 <= i < n :: r.labels[i].Stream?
  }

  lemma {:induction false} StreamsExist(n: nat)
    ensures exists r: Run :: OnlyStreams(r, n)
  {
    if n == 0 {
      assert OnlyStreams(Run([EMPTY], []), 0);
    } else {
      StreamsExist(n - 1);
      var q: Run :| OnlyStreams(q, n - 1);
      var r := Run(q.states + [Step(q.states[n - 1], Label.Stream)], q.labels + [Label.Stream]);
      forall i | 0 <= i < n
        ensures StepAt(r, i)
      {
        assert i < n - 1 ==> StepAt(q, i);
      }
      assert OnlyStreams(r, n);
    }
  }

  lemma {:induction false} OnlyStreamsAt(r: Run, n: nat, i: nat)
    requires OnlyStreams(r, n) && i <= n
    ensures |r.states[i].ids| == i && r.states[i].closed == {}
  {
    if i > 0 {
      OnlyStreamsAt(r, n, i - 1);
      assert StepAt(r, i - 1);
    }
  }

  /** The first stream is found under its id before the last call, and the last stream after it. */
  ghost predicate FirstIsReplaced(r: Run, n: nat) {
    && OnlyStreams(r, n + 1) && |r.states[n].ids| == n > 0
    && var id := r.states[n].ids[0];
    && id in r.states[n].streams && r.states[n].streams[id] == 0
    && id in r.states[n + 1].streams && r.states[n + 1].streams[id] == n
  }

  /** The bound on the number of calls is sharp: 2^64 + 1 calls, none of them stopped, can be made. */
  lemma WrapIsReachable()
    ensures exists r: Run :: FirstIsReplaced(r, WORD)
  {
    StreamsExist(WORD + 1);
    var r: Run :| OnlyStreams(r, WORD + 1);
    OnlyStreamsAt(r, WORD + 1, WORD);
    IdResolvesToItsStream(r, WORD, 0);
    WrappedIdTakesOver(r, WORD, 0);
    assert FirstIsReplaced(r, WORD);
  }

  /** A stream can be stopped and then deleted, and its id leads nowhere afterwards. */
  lemma StopAndDeleteCanHappen()
    ensures exists r: Run ::
      && Legal(r) && r.labels == [Label.Stream, Label.Stop(Decimal(1)), Delete(Decimal(1))]
      && r.states[2].closed == {0} && r.states[3].streams == map[]
  {
    var id := Decimal(1);
    var s1 := Registry(1, [id], map[id := 0], {}, {});
    var s2 := s1.(closed := {0}, deleting := {id});
    var s3 := s2.(streams := map[], deleting := {});
    var r := Run([EMPTY, s1, s2, s3], [Label.Stream, Label.Stop(id), Delete(id)]);
    assert Step(EMPTY, Label.Stream) == s1;
    assert Step(s1, Label.Stop(id)) == s2;
    assert map[id := 0] - {id} == map[] && {id} - {id} == {};
    assert StepAt(r, 0) && StepAt(r, 1) && StepAt(r, 2);
    assert Legal(r);
  }

  // ---------- the source's object ----------

  class Streamer {
    var current: nat
    var streams: map<string, nat>
    var closed: set<nat>
    var made: nat  // identity of the next channel pair; the source has pointers
    ghost var ids: seq<string>
    ghost var deleting: set<string>

    ghost function Abs(): Registry
      reads this
    {
      Registry(current, ids, streams, closed, deleting)
    }

    constructor ()
      ensures Abs() == EMPTY && made == |ids|
    {
      current, streams, closed, made, ids, deleting := 0, map[], {}, 0, [], {};
    }

    method NextID() returns (id: string)
      modifies this`current
      ensures current == (old(current) + 1) % WORD && id == Decimal(current)
    {
      current := (current + 1) % WORD;
      id := Decimal(current);
    }

    method Stream() returns (id: string)
      requires made == |ids|
      modifies this
      ensures Abs() == Step(old(Abs()), Label.Stream) && ids == old(ids) + [id] && made == |ids|
    {
      id := NextID();
      streams, made, ids := streams[id := made], made + 1, ids + [id];
    }

    method LoadStream(id: string) returns (ok: bool, pair: nat)
      ensures ok <==> id in streams
      ensures ok ==> pair == streams[id]
    {
      ok := id in streams;
      pair := if ok then streams[id] else 0;
    }

    method Stop(id: string)
      requires Enabled(Abs(), Label.Stop(id))
      modifies this`closed, this`deleting
      ensures Abs() == Step(old(Abs()), Label.Stop(id))
    {
      var ok, pair := LoadStream(id);
      if ok {
        closed, deleting := closed + {pair}, deleting + {id};
      }
    }

    /** The goroutine that Stop leaves behind, when its sleep is over. */
    method DeleteLater(id: string)
      requires Enabled(Abs(), Delete(id))
      modifies this`streams, this`deleting
      ensures Abs() == Step(old(Abs()), Delete(id))
    {
      streams, deleting := streams - {id}, deleting - {id};
    }
  }
}
