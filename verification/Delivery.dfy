// What the callbacks of a session have been given is accepted, whatever ended its last call.
module Delivery {
  import opened Chars
  import opened Types
  import opened Events
  import opened Views
  import opened StartLine
  import opened Headers
  import opened Body
  import opened Machine
  import opened Invariant
  import opened Runs
  import opened Budget
  import opened Steps
  import opened Calls
  import opened Sessions
  import opened Monitor
  import opened Grammar

  lemma BrokenStays(strict: bool)
    ensures forall t, e {:trigger Emit(t, e)} :: !Accepted(strict, t) ==> !Accepted(strict, Emit(t, e))
  {
    FollowEmits(strict);
  }

  lemma BodyStuck(strict: bool, v: View, ch: char)
    requires (v.state.Msg? || v.state.Chunk?) && !Accepted(strict, v.trace)
    ensures !Accepted(strict, Step(v, ch).trace)
  {
    hide Accepted, Emit, StepResponseLine, StepRequestLine, StepUrl, StepHeader, Wrap64, Unhex, NewMessage, HeadOf;
    hide NeedsEof;
    BrokenStays(strict);
  }

  lemma HeaderStuck(strict: bool, v: View, h: HdrState, ch: char)
    requires !Accepted(strict, v.trace)
    ensures !Accepted(strict, StepHeader(v, h, ch).trace)
  {
    hide Accepted, Emit, StepHeadersAlmostDone, Mark, NameNext, Token, Counts, ValueNext, FlagsNext, IndexNext;
    hide Wrap64, Digit, Lower, FirstValueState, NameStart;
    BrokenStays(strict);
    HeadEndStuck(strict, v, ch);
    HeadEndStuck(strict, v.(flags := Mark(v.flags, v.hstate)), ch);
    HeadEndStuck(strict, Tell(v.(flags := Mark(v.flags, v.hstate)), Data(Events.Value, [])), ch);
  }

  lemma HeadEndStuck(strict: bool, v: View, ch: char)
    ensures !Accepted(strict, v.trace) ==>
              !Accepted(strict, StepHeadersAlmostDone(v.(state := Msg(HeadersAlmostDone)), ch).trace)
  {
    var w := v.(state := Msg(HeadersAlmostDone));
    if !Accepted(strict, v.trace) {
      BodyStuck(strict, w, ch);
      assert Step(w, ch) == StepHeadersAlmostDone(w, ch);
    }
  }

  lemma LineStuck(strict: bool, v: View, ch: char)
    requires v.state.Dead? || v.state.Res? || v.state.Req? || v.state.InUrl?
    requires !Accepted(strict, v.trace)
    ensures !Accepted(strict, Step(v, ch).trace)
  {
    hide Accepted, Emit, StepHeader, StepChunk, StepMsg, FirstMethod, Retarget, Expected, Digit, ParseUrlChar;
    BrokenStays(strict);
  }

  // What the monitor has rejected stays rejected.
  lemma {:induction false} RunStuck(strict: bool, v: View, data: string, i: nat, j: nat)
    requires i <= j <= |data| && !Accepted(strict, v.trace)
    ensures !Accepted(strict, Run(v, data, i, j).trace)
    decreases j - i
  {
    if i < j && !Halted(v) {
      match v.state {
        case Msg(_) => BodyStuck(strict, v, data[i]);
        case Chunk(_) => BodyStuck(strict, v, data[i]);
        case Hdr(h) => HeaderStuck(strict, v, h, data[i]);
        case _ => LineStuck(strict, v, data[i]);
      }
      hide StepResponseLine, StepRequestLine, StepUrl, StepHeader, StepChunk, StepMsg, Follow;
      RunStuck(strict, Step(v, data[i]), data, i + 1, j);
    }
  }

  // The callbacks of a call are those of a point of the run over its input, so if they were out of order,
  // so would be those of the whole run.
  lemma CallStuck(strict: bool, v: View, input: string, c: Call)
    requires !v.app.left && IsCall(v, input, c) && !Accepted(strict, c.after.trace)
    ensures !Accepted(strict, Feed(v, input).trace)
  {
    hide Step, Follow, Accepted, Count, Peak, Longest, Tallied, StopsAfter, StopsBefore;
    var rest := input[|c.data|..];
    assert Opened(v) == v && input == c.data + rest;
    FeedConcat(v, c.data, rest);
    if ByCallback(c.after.errno) {
      StopResumes(v, c.n0, c.data, c.n, c.after, c.n1);
    }
    if ByCallback(c.after.errno) && !c.after.app.left {
      RunStuck(strict, Resumed(c.after), c.data, c.n, |c.data|);
    } else if c.after.errno == HeaderOverflow {
      var r: nat, x: nat :| OverranAt(v, c.n0, c.data, c.n, r, x, c.after);
      RunSplit(v, c.data, 0, r, |c.data|);
      RunStuck(strict, Run(v, c.data, 0, r), c.data, r, |c.data|);
    } else {
      var k := if Healthy(c.after.errno) then c.n else c.n + 1;
      RunSplit(v, c.data, 0, k, |c.data|);
      RunStuck(strict, Run(v, c.data, 0, k), c.data, k, |c.data|);
    }
    RunStuck(strict, Feed(v, c.data), rest, 0, |rest|);
  }

  // After any session, wherever it was cut and paused, the callbacks made were in order.
  lemma SessionAccepted(strict: bool, v: View, input: string, calls: seq<Call>)
    requires Inv(v) && Tracks(strict, v) && !v.app.left && Session(v, input, calls)
    ensures Accepted(strict, Last(v, calls).trace)
  {
    hide Step, Run, Inv, Accepted, Agrees, Session;
    SessionFeeds(v, input, calls);
    RunTracks(strict, v, input, 0, |input|);
    if !Accepted(strict, Last(v, calls).trace) {
      RunStuck(strict, Last(v, calls), input[Taken(calls)..], 0, |input[Taken(calls)..]|);
    }
  }

  // So were they after one more call, whatever ended it: all its bytes taken, an upgrade, a callback, a
  // parse error, or the header budget.
  lemma CallAccepted(strict: bool, v: View, input: string, calls: seq<Call>, c: Call)
    requires Inv(v) && Tracks(strict, v) && !v.app.left && Session(v, input, calls) && Taken(calls) <= |input|
    requires IsCall(Last(v, calls), input[Taken(calls)..], c)
    ensures Accepted(strict, c.after.trace)
  {
    hide Step, Run, Inv, Accepted, Agrees, Session, IsCall;
    SessionFeeds(v, input, calls);
    RunTracks(strict, v, input, 0, |input|);
    if !Accepted(strict, c.after.trace) {
      CallStuck(strict, Last(v, calls), input[Taken(calls)..], c);
    }
  }

  // What the monitor accepts it accepts without the bytes that are still marked.
  lemma LostAccepted(strict: bool, t: Trace, m: Marks, data: string, end: nat)
    requires Accepted(strict, Pending(t, m, data, end))
    ensures Accepted(strict, t)
  {
    hide Accepted, Emit, Slice;
    BrokenStays(strict);
  }

  // So the callbacks that were made are in order also when an error has left marked bytes undelivered.
  lemma DeliveredAccepted(strict: bool, v: View, input: string, calls: seq<Call>, c: Call,
                          log: Trace, lost: Marks, seen: nat)
    requires Inv(v) && Tracks(strict, v) && !v.app.left && Session(v, input, calls) && Taken(calls) <= |input|
    requires IsCall(Last(v, calls), input[Taken(calls)..], c)
    requires c.after.trace == Pending(log, lost, c.data, seen)
    ensures Accepted(strict, log)
  {
    hide Inv, Tracks, Accepted, Session, IsCall, Pending;
    CallAccepted(strict, v, input, calls, c);
    LostAccepted(strict, log, lost, c.data, seen);
  }
}
