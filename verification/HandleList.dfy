/**
 The handle list of the bulk calls: the client joins the handles with commas into one
 query value, the server splits it again.
 */
module HandleList {

  function Join(handles: seq<string>): string {
    if handles == [] then ""
    else if |handles| == 1 then handles[0]
    else handles[0] + "," + Join(handles[1..])
  }

  /** Split at every comma: one more part than there are commas. */
  function Split(s: string): (parts: seq<string>)
    ensures parts != []
  {
    if s == "" then [""]
    else
      var rest := Split(s[1..]);
      if s[0] == ',' then [""] + rest else [[s[0]] + rest[0]] + rest[1..]
  }

  function SplitHandles(queryHandles: string): seq<string> {
    if queryHandles == "" then [] else Split(queryHandles)
  }

  predicate CommaFree(handles: seq<string>) {
    forall h | h in handles :: ',' !in h
  }

  lemma {:induction false} JoinSplit(s: string)
    ensures Join(Split(s)) == s
  {
    if s != "" {
      JoinSplit(s[1..]);
      var rest := Split(s[1..]);
      var parts := Split(s);
      if s[0] == ',' {
        assert parts[1..] == rest;
      } else if |rest| > 1 {
        assert parts[1..] == rest[1..];
        assert [s[0]] + rest[0] + "," == [s[0]] + (rest[0] + ",");
      }
    }
  }

  lemma {:induction false} SplitIsCommaFree(s: string)
    ensures CommaFree(Split(s))
  {
    if s != "" {
      SplitIsCommaFree(s[1..]);
    }
  }

  /** Reading one handle and its comma off the front. */
  lemma {:induction false} SplitFront(h: string, s: string)
    requires ',' !in h
    ensures Split(h + "," + s) == [h] + Split(s)
    ensures Split(h) == [h]
  {
    if h == "" {
      assert "" + "," + s == "," + s;
      assert ("," + s)[1..] == s;
    } else {
      SplitFront(h[1..], s);
      assert (h + "," + s)[1..] == h[1..] + "," + s;
      assert [h[0]] + h[1..] == h;
    }
  }

  lemma {:induction false} SplitJoin(handles: seq<string>)
    requires CommaFree(handles) && handles != []
    ensures Split(Join(handles)) == handles
  {
    SplitFront(handles[0], Join(handles[1..]));
    if |handles| == 1 {
      assert handles == [handles[0]];
    } else {
      SplitJoin(handles[1..]);
      assert handles == [handles[0]] + handles[1..];
    }
  }

  /** The server reads back the client's list exactly when it is comma-free and not a lone empty handle. */
  lemma HandlesSurviveIff(handles: seq<string>)
    ensures SplitHandles(Join(handles)) == handles <==> CommaFree(handles) && handles != [""]
  {
    if CommaFree(handles) && handles != [] {
      SplitJoin(handles);
    } else if !CommaFree(handles) {
      SplitIsCommaFree(Join(handles));
    }
  }

  /** Nothing of the query is lost by splitting it, whatever it is. */
  lemma QuerySurvives(queryHandles: string)
    ensures Join(SplitHandles(queryHandles)) == queryHandles
  {
    JoinSplit(queryHandles);
  }
}
