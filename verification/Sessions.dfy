// However an application cuts its input, and wherever its callbacks pause the
// parser, the parse is that of the whole input one byte at a time.
module Sessions {
  import opened Types
  import opened Views
  import opened Machine
  import opened Runs
  import opened Budget
  import opened Steps
  import opened Calls

  // One call: the bytes handed in, how many were taken, nread before and after, and the view after.
  datatype Call = Call(data: string, n: nat, n0: nat, n1: nat, after: View)

  // A call on a prefix of input from view v.
  ghost predicate IsCall(v: View, input: string, c: Call) {
    && 0 < |c.data| <= |input| && c.data == input[..|c.data|]
    && Called(Opened(v), c.n0, c.data, c.n, c.after, c.n1)
  }

  // The call took all it was given, or a callback paused it and http_parser_pause lets it go on.
  predicate GoesOn(c: Call) {
    (c.after.errno.OK? || c.after.errno.Paused?) && !c.after.app.left && c.n <= |c.data|
  }

  function Resumed(v: View): View { v.(errno := OK) }

  // Calls on consecutive pieces of input; what a stopped call has not taken is handed in again.
  ghost predicate Session(v: View, input: string, calls: seq<Call>)
    decreases |calls|
  {
    |calls| > 0 ==>
      && IsCall(v, input, calls[0]) && GoesOn(calls[0])
      && Session(Resumed(calls[0].after), input[calls[0].n..], calls[1..])
  }

  function Taken(calls: seq<Call>): nat { if |calls| == 0 then 0 else calls[0].n + Taken(calls[1..]) }

  function Last(v: View, calls: seq<Call>): View
    decreases |calls|
  {
    if |calls| == 0 then v else Last(Resumed(calls[0].after), calls[1..])
  }

  lemma FeedSuffix(v: View, a: string, n: nat, b: string)
    requires n <= |a|
    ensures Feed(Run(v, a, n, |a|), b) == Feed(v, a[n..] + b)
  {
    hide Step;
    FeedConcat(v, a[n..], b);
    assert a[n..|a|] == a[n..][0..|a[n..]|];
    RunShift(v, a, n, |a|, a[n..], 0);
  }

  lemma CallFeeds(v: View, input: string, c: Call)
    requires IsCall(v, input, c) && GoesOn(c)
    ensures Feed(Resumed(c.after), input[c.n..]) == Feed(Opened(v), input)
  {
    hide Step, Run, Count, Peak, Longest, Tallied, StopsAfter, StopsBefore;
    var w, rest := Resumed(c.after), input[|c.data|..];
    assert input == c.data + rest;
    FeedConcat(Opened(v), c.data, rest);
    if c.after.errno.OK? {
      assert c.after == w;
    } else {
      StopResumes(Opened(v), c.n0, c.data, c.n, c.after, c.n1);
      assert input[c.n..] == c.data[c.n..] + rest;
      FeedSuffix(w, c.data, c.n, rest);
    }
  }

  // Split invariance and pause transparency: what a session leads to depends on its input alone.
  lemma {:induction false} SessionFeeds(v: View, input: string, calls: seq<Call>)
    requires Session(v, input, calls) && !v.app.left
    ensures Taken(calls) <= |input|
    ensures Feed(Last(v, calls), input[Taken(calls)..]) == Feed(v, input)
    ensures !Last(v, calls).app.left
    decreases |calls|
  {
    hide Feed, Called;
    if |calls| > 0 {
      var c := calls[0];
      assert Opened(v) == v;
      CallFeeds(v, input, c);
      SessionFeeds(Resumed(c.after), input[c.n..], calls[1..]);
      assert input[c.n..][Taken(calls[1..])..] == input[Taken(calls)..];
    } else {
      assert input[0..] == input;
    }
  }

  // Two ways to cut and pause the same input end in the same state, with the same callbacks.
  lemma SessionsAgree(v: View, input: string, one: seq<Call>, two: seq<Call>)
    requires !v.app.left && Session(v, input, one) && Session(v, input, two)
    requires Taken(one) == Taken(two) == |input|
    ensures Last(v, one) == Last(v, two) == Feed(v, input)
  {
    hide Called;
    SessionFeeds(v, input, one);
    SessionFeeds(v, input, two);
    assert input[|input|..] == [];
  }

  // The call found a parse error, or returned because of an upgrade.
  predicate Ends(c: Call) {
    && c.n <= |c.data| && c.after.errno != HeaderOverflow
    && (!Healthy(c.after.errno) || c.after.app.left)
  }

  // A session stands where the one-byte parser stands, or it has seen the next byte too, which it sees again.
  predicate StandsAt(v: View, input: string, t: nat, w: View) {
    && t <= |input|
    && (w == Run(v, input, 0, t) ||
        (t < |input| && !Halted(w) && !Halted(Run(v, input, 0, t)) &&
         Step(w, input[t]) == Step(Run(v, input, 0, t), input[t])))
  }

  lemma CallStands(v: View, input: string, c: Call)
    requires !Halted(v) && IsCall(v, input, c) && GoesOn(c)
    ensures StandsAt(v, input, c.n, Resumed(c.after))
  {
    hide Step, Resets, Count, Peak, Longest, Tallied, Forgotten;
    assert Opened(v) == v && input[0..c.n] == c.data[0..c.n];
    RunShift(v, input, 0, c.n, c.data, 0);
  }

  // What stands after a part of a part of the input.
  lemma StandsOn(v: View, input: string, n: nat, w: View, t: nat, x: View)
    requires StandsAt(v, input, n, w) && !Halted(w) && StandsAt(w, input[n..], t, x)
    ensures StandsAt(v, input, n + t, x)
  {
    hide Step;
    var u, rest := Run(v, input, 0, n), input[n..];
    RunSplit(v, input, 0, n, n + t);
    assert input[n..n + t] == rest[0..t];
    RunShift(w, input, n, n + t, rest, 0);
    if t > 0 && w != u {
      RunSameStep(w, u, input, n, n + t);
    }
  }

  lemma StandsFirst(v: View, input: string)
    ensures StandsAt(v, input, 0, v)
  {
  }

  lemma {:induction false} SessionStands(v: View, input: string, calls: seq<Call>)
    requires !Halted(v) && Session(v, input, calls)
    ensures StandsAt(v, input, Taken(calls), Last(v, calls)) && !Halted(Last(v, calls))
    decreases |calls|
  {
    hide StandsAt, Called;
    if |calls| == 0 {
      StandsFirst(v, input);
    } else {
      var c := calls[0];
      CallStands(v, input, c);
      SessionStands(Resumed(c.after), input[c.n..], calls[1..]);
      StandsOn(v, input, c.n, Resumed(c.after), Taken(calls[1..]), Last(v, calls));
    }
  }

  // A session that ends early ends where the one-byte parser ends, with the same error: the trace of
  // after includes the bytes that the error left undelivered.
  lemma SessionEnds(v: View, input: string, calls: seq<Call>, c: Call)
    requires !v.app.left && Session(v, input, calls) && Taken(calls) <= |input|
    requires IsCall(Last(v, calls), input[Taken(calls)..], c) && Ends(c)
    ensures Feed(v, input) == if Healthy(c.after.errno) then Resumed(c.after) else c.after
  {
    hide Step, Count, Peak, Tallied, IsCall;
    SessionFeeds(v, input, calls);
    CallEnds(Last(v, calls), input[Taken(calls)..], c);
  }

  // The offset after the byte that ends HTTP, or that is wrong.
  function EndOf(calls: seq<Call>, c: Call): nat { Taken(calls) + c.n + if Healthy(c.after.errno) then 0 else 1 }

  // And it ends at the very byte: the one-byte parser takes no byte after it, and takes all those before it.
  lemma SessionEndsAt(v: View, input: string, calls: seq<Call>, c: Call)
    requires !Halted(v) && Session(v, input, calls)
    requires Taken(calls) <= |input| && IsCall(Last(v, calls), input[Taken(calls)..], c) && Ends(c)
    ensures var e := EndOf(calls, c);
            && 0 < e <= |input| && !Halted(Run(v, input, 0, e - 1)) && Halted(Run(v, input, 0, e))
            && Run(v, input, 0, e) == if Healthy(c.after.errno) then Resumed(c.after) else c.after
  {
    hide Step, Count, Peak, Longest, Tallied, Forgotten, Resets, Session, Taken, Last, Run;
    var t, w := Taken(calls), Last(v, calls);
    var rest, k := input[t..], EndOf(calls, c) - t;
    SessionStands(v, input, calls);
    assert Opened(w) == w;
    StandsRuns(v, input, t, w, rest, c.data, k);
    if k > 1 {
      StandsRuns(v, input, t, w, rest, c.data, k - 1);
    } else {
      StandsStill(v, input, t, w);
    }
  }

  lemma StandsStill(v: View, input: string, t: nat, w: View)
    requires StandsAt(v, input, t, w) && !Halted(w)
    ensures !Halted(Run(v, input, 0, t))
  {
    hide Step;
  }

  lemma StandsRuns(v: View, input: string, t: nat, w: View, rest: string, data: string, k: nat)
    requires StandsAt(v, input, t, w) && !Halted(w) && rest == input[t..]
    requires 0 < k <= |data| <= |rest| && data == rest[..|data|]
    ensures Run(v, input, 0, t + k) == Run(w, data, 0, k)
  {
    hide Step;
    RunSplit(v, input, 0, t, t + k);
    assert input[t..t + k] == data[0..k];
    RunShift(w, input, t, t + k, data, 0);
    if w != Run(v, input, 0, t) {
      RunSameStep(w, Run(v, input, 0, t), input, t, t + k);
    }
  }

  lemma CallEnds(v: View, input: string, c: Call)
    requires !v.app.left && IsCall(v, input, c) && Ends(c)
    ensures Feed(v, input) == if Healthy(c.after.errno) then Resumed(c.after) else c.after
  {
    hide Step, Count, Peak, Longest, Tallied, Forgotten;
    var rest := input[|c.data|..];
    assert Opened(v) == v && input == c.data + rest;
    FeedConcat(v, c.data, rest);
    var k := if Healthy(c.after.errno) then c.n else c.n + 1;
    RunSplit(v, c.data, 0, k, |c.data|);
  }
}
