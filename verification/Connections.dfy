// The session and the connection as they are written: fields and a buffer changed in place, proved
// against the machine of Output.
module Connections {
  import opened Output

  class Session {
    // output_data_ and output_size_; empty when there is no held-over chunk.
    var held: string
    // callback_inside_
    var inside: bool

    ghost var drained: seq<string>
    ghost var quiet: bool
    ghost var failed: bool
    ghost var primed: bool

    constructor ()
      ensures held == [] && !inside && drained == [] && !failed && !primed
    {
      held, inside := [], false;
      drained, quiet, failed, primed := [], false, false, false;
    }

    // signal_write: says whether the connection is asked to write.
    method SignalWrite() returns (fire: bool)
      ensures fire == !inside
    {
      fire := !inside;
    }

    // on_write. The replies are the answers of nghttp2_session_mem_send, in order.
    method OnWrite(buffer: array<char>, replies: seq<Reply>) returns (ok: bool, length: nat)
      requires buffer.Length == N && |held| <= N && Fit(replies)
      modifies this, buffer
      ensures var r := Pack(replies, old(held), old(drained));
              && ok == r.ok && length == |r.out| && buffer[..] == Overwrite(old(buffer[..]), r.out)
              && held == r.held && drained == r.drained && quiet == r.quiet
      ensures failed == (old(failed) || !ok) && primed && !inside
    {
      hide Pack, Overwrite;
      ghost var first, before := held, drained;
      inside := true;
      length := 0;
      if held != [] {
        forall i | 0 <= i < |held| { buffer[i] := held[i]; }
        length := |held|;
        held := [];
      }
      assert buffer[..length] == first;
      var i := 0;
      ok := true;
      while i < |replies| && replies[i] != Sent([])
        invariant i <= |replies| && length <= N && held == [] && inside && ok
        invariant Pack(replies[i..], buffer[..length], drained) == Pack(replies, first, before)
        invariant buffer[length..] == old(buffer[..])[length..]
        invariant failed == old(failed)
      {
        assert replies[i..][0] == replies[i] && replies[i..][1..] == replies[i + 1..];
        // a callback made by the library in here does not start another write
        var fire := SignalWrite();
        assert !fire;
        PackStep(replies[i..], buffer[..length], drained);
        match replies[i] {
          case Failed =>
            quiet, failed, primed, inside := false, true, true, false;
            Overwritten(buffer[..], old(buffer[..]), length);
            return false, length;
          case Sent(b) =>
            drained := drained + [b];
            if length + |b| > buffer.Length {
              held := b;
              quiet, primed, inside := false, true, false;
              Overwritten(buffer[..], old(buffer[..]), length);
              return;
            }
            ghost var out := buffer[..length];
            Append(buffer, length, b);
            assert buffer[..length + |b|] == out + b;
            length := length + |b|;
            i := i + 1;
        }
      }
      PackStep(replies[i..], buffer[..length], drained);
      quiet, primed, inside := true, true, false;
      Overwritten(buffer[..], old(buffer[..]), length);
    }
  }

  // std::copy_n to an offset
  method Append(buffer: array<char>, at: nat, s: string)
    requires at + |s| <= buffer.Length
    modifies buffer
    ensures buffer[..at + |s|] == old(buffer[..at]) + s
    ensures buffer[at + |s|..] == old(buffer[at + |s|..])
  {
    forall i | 0 <= i < |s| { buffer[at + i] := s[i]; }
  }

  // One reply of the library.
  lemma PackStep(replies: seq<Reply>, out: string, drained: seq<string>)
    ensures Pack(replies, out, drained) ==
            if |replies| == 0 || replies[0] == Sent([]) then Packed(true, out, [], drained, true)
            else if replies[0].Failed? then Packed(false, out, [], drained, false)
            else
              var b := replies[0].chunk;
              if |out| + |b| > N then Packed(true, out, b, drained + [b], false)
              else Pack(replies[1..], out + b, drained + [b])
  {
  }

  lemma Overwritten(now: string, was: string, length: nat)
    requires |now| == |was| && length <= |now| && now[length..] == was[length..]
    ensures now == Overwrite(was, now[..length])
  {
    assert now == now[..length] + now[length..];
  }

  lemma SizesSound(c: Wire)
    requires Sound(c)
    ensures |c.buffer| == N && |c.held| <= N
  {
  }

  class Connection {
    const session: Session
    const buffer: array<char>
    var writing: bool
    var stopped: bool

    ghost var handed: seq<string>
    ghost var inFlight: bool
    ghost var reading: bool

    // The connection as a value.
    ghost function W(): Wire
      reads this, session, buffer
    {
      Wire(session.held, buffer[..], writing, stopped, handed, session.drained, session.quiet, session.failed,
           inFlight, reading, session.primed)
    }

    ghost predicate Valid()
      reads this, session, buffer
    {
      Sound(W()) && !session.inside
    }

    constructor ()
      ensures fresh(session) && fresh(buffer)
      ensures Fresh(W().(reading := true)) && !reading && !session.inside
    {
      session := new Session();
      buffer := new char[N];
      writing, stopped, handed, inFlight, reading := false, false, [], false, false;
    }

    // start; ready is the answer of the handler.
    method Start(ready: bool)
      requires Fresh(W().(reading := true)) && !reading && !session.inside
      modifies this
      ensures Valid()
      ensures W() == if ready then old(W()).(reading := true) else Output.Stop(old(W()))
    {
      if !ready {
        Stop();
        return;
      }
      reading := true;
    }

    // stop
    method Stop()
      modifies `stopped
      ensures stopped
    {
      if stopped {
        return;
      }
      stopped := true;
    }

    // write_data
    method WriteData(replies: seq<Reply>, quits: bool)
      requires buffer.Length == N && |session.held| <= N && Fit(replies)
      modifies this, session, buffer
      ensures W() == Output.WriteData(old(W()), replies, quits)
      ensures session.inside ==> old(session.inside)
    {
      hide Pack;
      if writing {
        return;
      }
      PackFits(replies, session.held, session.drained);
      var ok, length := session.OnWrite(buffer, replies);
      if !ok {
        Stop();
        return;
      }
      if length == 0 {
        if quits {
          Stop();
        }
        return;
      }
      writing := true;
      // async_write_some
      handed, inFlight := handed + [buffer[..length]], true;
    }

    // What follows when the session has taken the bytes of a read.
    method Answer(replies: seq<Reply>, quits: bool, closes: bool)
      requires buffer.Length == N && |session.held| <= N && Fit(replies)
      modifies this, session, buffer
      ensures W() == Answered(old(W()), replies, quits, closes)
      ensures session.inside ==> old(session.inside)
    {
      hide Output.WriteData;
      WriteData(replies, quits);
      if !writing && closes {
        Stop();
        return;
      }
      // read_data
      reading := true;
    }

    // The completion of a read; accepted is the answer of on_read.
    method ReadDone(error: bool, accepted: bool, replies: seq<Reply>, quits: bool, closes: bool)
      requires Valid() && reading && Fit(replies)
      modifies this, session, buffer
      ensures Valid()
      ensures W() == Handle(old(W()), Event.ReadDone(error, accepted, replies, quits, closes))
    {
      hide Sound, Answered;
      HandleSound(W(), Event.ReadDone(error, accepted, replies, quits, closes));
      SizesSound(W());
      reading := false;
      if error || !accepted {
        Stop();
        return;
      }
      Answer(replies, quits, closes);
    }

    // The completion of a write.
    method WriteDone(error: bool, replies: seq<Reply>, quits: bool)
      requires Valid() && inFlight && Fit(replies)
      modifies this, session, buffer
      ensures Valid()
      ensures W() == Handle(old(W()), Event.WriteDone(error, replies, quits))
    {
      hide Sound, Output.WriteData;
      HandleSound(W(), Event.WriteDone(error, replies, quits));
      SizesSound(W());
      inFlight := false;
      if error {
        Stop();
        return;
      }
      writing := false;
      WriteData(replies, quits);
    }

    // signal_write from outside of the library's callbacks
    method Signal(replies: seq<Reply>, quits: bool)
      requires Valid() && Fit(replies)
      modifies this, session, buffer
      ensures Valid()
      ensures W() == Handle(old(W()), Event.Signal(replies, quits))
    {
      HandleSound(W(), Event.Signal(replies, quits));
      var fire := session.SignalWrite();
      if fire {
        WriteData(replies, quits);
      }
    }

    // timeout_handler
    method Timeout(expired: bool)
      requires Valid()
      modifies this
      ensures Valid()
      ensures W() == Handle(old(W()), Event.Timeout(expired))
    {
      HandleSound(W(), Event.Timeout(expired));
      if stopped {
        return;
      }
      if expired {
        Stop();
      }
    }
  }
}
