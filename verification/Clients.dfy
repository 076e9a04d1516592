// An application that hands its input to the parser piece by piece and goes on where a callback has
// paused it: its calls are a session, so all that is proved of sessions holds of it.
module Clients {
  import opened Types
  import opened Views
  import opened Machine
  import opened Invariant
  import opened Budget
  import opened Steps
  import opened Calls
  import opened Callbacks
  import opened Executor
  import opened Sessions
  import opened Allowance
  import opened Monitor
  import opened Grammar
  import opened Delivery

  // One more call of a session.
  lemma {:induction false} SessionSnoc(v: View, n: nat, input: string, calls: seq<Call>, c: Call)
    requires Session(v, input, calls) && Chained(n, calls) && Taken(calls) <= |input|
    requires IsCall(Last(v, calls), input[Taken(calls)..], c) && GoesOn(c) && c.n0 == Nread(n, calls)
    ensures Session(v, input, calls + [c]) && Chained(n, calls + [c])
    ensures Taken(calls + [c]) == Taken(calls) + c.n && Taken(calls + [c]) <= |input|
    ensures Last(v, calls + [c]) == Resumed(c.after) && Nread(n, calls + [c]) == c.n1
    decreases |calls|
  {
    hide Called;
    if |calls| == 0 {
      assert input[0..] == input && calls + [c] == [c] && [c][1..] == [];
    } else {
      var d := calls[0];
      assert (calls + [c])[1..] == calls[1..] + [c];
      assert input[d.n..][Taken(calls[1..])..] == input[Taken(calls)..];
      SessionSnoc(Resumed(d.after), d.n1, input[d.n..], calls[1..], c);
    }
  }

  // The calls that did not take all they were given.
  function Hindered(calls: seq<Call>): nat
    decreases |calls|
  {
    if |calls| == 0 then 0
    else
      var c := calls[|calls| - 1];
      Hindered(calls[..|calls| - 1]) + if c.n < |c.data| then 1 else 0
  }

  function Sum(cuts: seq<nat>): nat
    decreases |cuts|
  {
    if |cuts| == 0 then 0 else Sum(cuts[..|cuts| - 1]) + cuts[|cuts| - 1]
  }

  function Min(a: nat, b: nat): nat { if a < b then a else b }

  // How far a session has come when no call was hindered: the pieces have the lengths in cuts.
  predicate Progress(input: string, cuts: seq<nat>, calls: seq<Call>) {
    Hindered(calls) == 0 ==> Taken(calls) == Min(|input|, Sum(cuts))
  }

  lemma ProgressOn(input: string, cuts: seq<nat>, i: nat, calls: seq<Call>, c: Call)
    requires i < |cuts| && Progress(input, cuts[..i], calls) && Taken(calls) <= |input|
    requires Taken(calls + [c]) == Taken(calls) + c.n
    requires |c.data| == Min(cuts[i], |input| - Taken(calls)) && c.n <= |c.data|
    ensures Hindered(calls + [c]) == Hindered(calls) + if c.n < |c.data| then 1 else 0
    ensures Progress(input, cuts[..i + 1], calls + [c])
  {
    hide Taken;
    assert (calls + [c])[..|calls|] == calls;
    assert cuts[..i + 1][..i] == cuts[..i];
  }

  // Whether the parser has gone on from view v with count n0, and how a call that did not was ended.
  ghost predicate Driven(v: View, n0: nat, input: string, rest: string, on: bool, calls: seq<Call>, end: Call,
                         now: View, nread: nat) {
    && Session(v, input, calls) && Chained(n0, calls) && Taken(calls) <= |input| && rest == input[Taken(calls)..]
    && (on ==> now == Last(v, calls) && nread == Nread(n0, calls) && !Halted(now))
    && (!on ==>
          && IsCall(Last(v, calls), rest, end) && end.n0 == Nread(n0, calls) && !GoesOn(end)
          && end.after.errno == now.errno && (Healthy(now.errno) ==> end.after == now))
  }

  // One piece.
  method Piece(p: HttpParser, input: string, cut: nat, ghost strict: bool, ghost v: View, ghost n0: nat, rest: string,
               ghost calls: seq<Call>)
    returns (n: nat, on: bool, ghost c: Call)
    requires p.Valid() && 0 < cut && cut + MAX_HEADER_SIZE < 0x1_0000_0000 && rest != []
    requires Inv(v) && !v.app.left
    requires Session(v, input, calls) && Chained(n0, calls) && Taken(calls) <= |input| && rest == input[Taken(calls)..]
    requires p.V() == Last(v, calls) && p.nread == Nread(n0, calls) && !Halted(p.V())
    modifies p
    ensures p.Valid() && |c.data| == Min(cut, |rest|) && c.n == n <= |c.data|
    ensures |old(p.told)| <= |p.told|
    ensures Refusals(p.replies, |old(p.told)|, |p.told|) >= if on && n < |c.data| then 1 else 0
    ensures Refusals(p.replies, |old(p.told)|, |p.told|) == 0 ==> !ByCallback(p.errno)
    ensures Tracks(strict, v) ==> Accepted(strict, p.log)
    ensures IsCall(Last(v, calls), rest, c) && c.n0 == Nread(n0, calls)
    ensures on ==> GoesOn(c) && p.V() == Resumed(c.after) && p.nread == c.n1 && !Halted(p.V())
    ensures !on ==> !GoesOn(c) && c.after.errno == p.errno && (Healthy(p.errno) ==> c.after == p.V())
  {
    hide HttpParser.Valid, Called, Session, Chained, Taken, Last, Nread, Feed, Pending, Inv, Tracks, Accepted, Answered;
    var data := rest[..if cut < |rest| then cut else |rest|];
    ghost var w, n1, was, t0 := p.V(), p.nread, p.told, p.log;
    ghost var lost, seen;
    n, lost, seen := p.Execute(data);
    OneRefusal(p.replies, was, t0, p.told, p.log, p.errno);
    c := Call(data, n, n1, p.nread, if Healthy(p.errno) then p.V() else p.Seen(lost, data, seen));
    assert Opened(w) == w;
    TakenWithin(w, rest, c);
    if Tracks(strict, v) {
      if Healthy(p.errno) {
        CallAccepted(strict, v, input, calls, c);
      } else {
        DeliveredAccepted(strict, v, input, calls, c, p.log, lost, seen);
      }
    }
    on := (p.errno == OK || p.errno == Paused) && !p.app.left;
    if on {
      p.Pause(false);
    }
  }

  // Pieces of the lengths in cuts, for as long as there are any, the input lasts, and the parser goes on.
  // What is not taken is returned. calls are the calls that went on, and end is the one that did not.
  method Drive(p: HttpParser, input: string, cuts: seq<nat>, ghost strict: bool)
    returns (rest: string, on: bool, ghost calls: seq<Call>, ghost end: Call)
    requires p.Valid() && !Halted(p.V())
    requires forall k :: 0 <= k < |cuts| ==> 0 < cuts[k] && cuts[k] + MAX_HEADER_SIZE < 0x1_0000_0000
    modifies p
    ensures p.Valid() && |old(p.told)| <= |p.told|
    ensures Driven(old(p.V()), old(p.nread), input, rest, on, calls, end, p.V(), p.nread)
    // what is left of the input takes the parser where the whole input takes one that was never stopped
    ensures on ==> Feed(p.V(), rest) == Feed(old(p.V()), input)
    ensures on && rest == [] ==> p.V() == Feed(old(p.V()), input)
    // all pieces are handed in, and only a refusal keeps a call from taking its piece
    ensures on ==> rest == [] || |calls| == |cuts|
    ensures Hindered(calls) <= Refusals(p.replies, |old(p.told)|, |p.told|)
    // callbacks that answer 0 leave the one-byte parser, but for the header budget
    ensures Zeros(p.replies, |old(p.told)|, |p.told|) ==>
              && (on ==> Taken(calls) == Min(|input|, Sum(cuts)))
              && (!on && p.errno != HeaderOverflow ==> Feed(old(p.V()), input) == end.after)
    // and the callbacks that were made are in order
    ensures old(Tracks(strict, p.V())) ==> Accepted(strict, p.log)
  {
    hide HttpParser.Valid, Called, Session, Chained, Taken, Last, Nread, Feed, Inv, Tracks, Accepted, Zeros, Hindered;
    hide Sum, Progress, IsCall;
    ghost var v, n0, was := p.V(), p.nread, |p.told|;
    rest, on, calls, end := input, true, [], Call([], 0, 0, 0, v);
    NoCalls(v, n0, input);
    ValidInv(p);
    if Tracks(strict, v) {
      SessionAccepted(strict, v, input, []);
    }
    var i := 0;
    while i < |cuts| && rest != [] && on
      invariant i <= |cuts| && p.Valid() && was <= |p.told|
      invariant Driven(v, n0, input, rest, on, calls, end, p.V(), p.nread)
      invariant Hindered(calls) <= Refusals(p.replies, was, |p.told|)
      invariant on ==> |calls| == i && Progress(input, cuts[..i], calls)
      invariant !on && Refusals(p.replies, was, |p.told|) == 0 ==> !ByCallback(p.errno)
      invariant old(Tracks(strict, p.V())) ==> Accepted(strict, p.log)
    {
      ghost var mid := |p.told|;
      var n;
      n, on, end := Piece(p, input, cuts[i], strict, v, n0, rest, calls);
      RefusalsSplit(p.replies, was, mid, |p.told|);
      if on {
        SessionSnoc(v, n0, input, calls, end);
        ProgressOn(input, cuts, i, calls, end);
        calls, rest := calls + [end], rest[n..];
      }
      i := i + 1;
    }
    NoRefusals(p.replies, was, |p.told|);
    if on {
      SessionFeeds(v, input, calls);
      Empty(p.V());
      EnoughCuts(input, cuts, i, calls, rest);
    } else if p.errno != HeaderOverflow && !ByCallback(p.errno) {
      TakenWithin(Last(v, calls), rest, end);
      SessionEnds(v, input, calls, end);
    }
  }

  // The pieces that were handed in are as many as there are, or take all the input.
  lemma EnoughCuts(input: string, cuts: seq<nat>, i: nat, calls: seq<Call>, rest: string)
    requires i <= |cuts| && Taken(calls) <= |input| && rest == input[Taken(calls)..]
    requires Progress(input, cuts[..i], calls) && (i == |cuts| || rest == [])
    ensures Hindered(calls) == 0 ==> Taken(calls) == Min(|input|, Sum(cuts))
  {
    hide Taken, Hindered;
    SumGrows(cuts, i);
    assert cuts[..|cuts|] == cuts;
  }

  lemma {:induction false} SumGrows(cuts: seq<nat>, i: nat)
    requires i <= |cuts|
    ensures Sum(cuts[..i]) <= Sum(cuts)
    decreases |cuts|
  {
    if i < |cuts| {
      assert cuts[..|cuts| - 1][..i] == cuts[..i];
      SumGrows(cuts[..|cuts| - 1], i);
    } else {
      assert cuts[..i] == cuts;
    }
  }

  lemma ValidInv(p: HttpParser)
    requires p.Valid() && p.errno == OK
    ensures Inv(p.V())
  {
    hide Inv;
  }

  lemma NoCalls(v: View, n: nat, input: string)
    ensures Session(v, input, []) && Chained(n, []) && Taken([]) == 0 && Last(v, []) == v && Nread(n, []) == n
    ensures input[0..] == input && Hindered([]) == 0 && forall cuts: seq<nat> :: Progress(input, cuts[..0], [])
  {
  }

  lemma Empty(v: View)
    ensures Feed(v, []) == v
  {
  }

  lemma TakenWithin(v: View, input: string, c: Call)
    requires IsCall(v, input, c)
    ensures c.n <= |c.data| && (c.after.errno.OK? && !c.after.app.left ==> c.n == |c.data|)
  {
    hide Step, Run, Count, Peak, Longest;
  }
}
