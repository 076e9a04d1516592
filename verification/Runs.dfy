// Laws of runs: they compose, keep the invariant, and can skip over stretches
// of bytes that are all treated alike. Also the header budget as a run sees it.
module Runs {
  import opened Chars
  import opened Types
  import opened Events
  import opened Views
  import opened Body
  import opened Machine
  import opened Invariant

  lemma {:induction false} RunSplit(v: View, data: string, i: nat, j: nat, k: nat)
    requires i <= j <= k <= |data|
    ensures Run(v, data, i, k) == Run(Run(v, data, i, j), data, j, k)
    decreases j - i
  {
    hide Step;
    if i < j && !Halted(v) {
      RunSplit(Step(v, data[i]), data, i + 1, j, k);
    }
  }

  lemma RunOne(v: View, data: string, i: nat)
    requires i < |data| && !Halted(v)
    ensures Run(v, data, i, i + 1) == Step(v, data[i])
  {
    hide Step;
    assert Run(Step(v, data[i]), data, i + 1, i + 1) == Step(v, data[i]);
  }

  lemma RunExtend(v: View, data: string, i: nat, j: nat)
    requires i <= j < |data| && !Halted(Run(v, data, i, j))
    ensures Run(v, data, i, j + 1) == Step(Run(v, data, i, j), data[j])
  {
    hide Step;
    RunSplit(v, data, i, j, j + 1);
    RunOne(Run(v, data, i, j), data, j);
  }

  // Two states that take their next byte to the same state have the same runs.
  lemma RunSameStep(v: View, w: View, data: string, i: nat, j: nat)
    requires i < j <= |data| && !Halted(v) && !Halted(w) && Step(v, data[i]) == Step(w, data[i])
    ensures Run(v, data, i, j) == Run(w, data, i, j)
  {
    hide Step;
  }

  lemma {:induction false} RunKeepsInv(v: View, data: string, i: nat, j: nat)
    requires i <= j <= |data| && Inv(v) && Run(v, data, i, j).errno == OK
    ensures Inv(Run(v, data, i, j))
    decreases j - i
  {
    hide Step;
    if i < j && !Halted(v) {
      if Step(v, data[i]).errno == OK {
        StepKeepsInv(v, data[i]);
        RunKeepsInv(Step(v, data[i]), data, i + 1, j);
      }
    }
  }

  // A run over a buffer depends only on the bytes, not on where they lie.
  lemma {:induction false} RunShift(v: View, a: string, i: nat, j: nat, b: string, k: nat)
    requires i <= j <= |a| && k + (j - i) <= |b| && a[i..j] == b[k..k + (j - i)]
    ensures Run(v, a, i, j) == Run(v, b, k, k + (j - i))
    decreases j - i
  {
    hide Step;
    if i < j && !Halted(v) {
      assert a[i] == a[i..j][0] == b[k..k + (j - i)][0] == b[k];
      assert a[i + 1..j] == a[i..j][1..] == b[k..k + (j - i)][1..] == b[k + 1..k + (j - i)];
      RunShift(Step(v, a[i]), a, i + 1, j, b, k + 1);
    }
  }

  // Feeding a and then b is feeding a + b.
  lemma FeedConcat(v: View, a: string, b: string)
    ensures Feed(v, a + b) == Feed(Feed(v, a), b)
  {
    hide Step;
    var d := a + b;
    RunSplit(v, d, 0, |a|, |d|);
    assert d[0..|a|] == a[0..|a|];
    RunShift(v, d, 0, |a|, a, 0);
    assert d[|a|..|d|] == b[0..|b|];
    RunShift(Feed(v, a), d, |a|, |d|, b, 0);
  }

  function Slice(data: string, i: nat, j: nat): string { if i <= j <= |data| then data[i..j] else [] }

  lemma SliceGrows(t: Trace, k: Kind, data: string, i: nat, j: nat)
    requires i <= j < |data|
    ensures Emit(Emit(t, Data(k, Slice(data, i, j))), Data(k, [data[j]])) == Emit(t, Data(k, Slice(data, i, j + 1)))
    ensures Slice(data, j, j + 1) == [data[j]]
  {
    assert data[i..j] + [data[j]] == data[i..j + 1];
    EmitTwice(t, k, data[i..j], [data[j]]);
  }

  lemma SliceJoin(t: Trace, k: Kind, data: string, i: nat, j: nat, n: nat)
    requires i <= j <= n <= |data|
    ensures Emit(Emit(t, Data(k, Slice(data, i, j))), Data(k, Slice(data, j, n))) == Emit(t, Data(k, Slice(data, i, n)))
  {
    assert data[i..j] + data[j..n] == data[i..n];
    EmitTwice(t, k, data[i..j], data[j..n]);
  }

  lemma GeneralByte(v: View, ch: char)
    requires v.state == Hdr(FieldValue) && v.hstate == General && !IsEol(ch)
    ensures Step(v, ch) == Tell(v, Data(Events.Value, [ch]))
  {
  }

  // More data of the run at hand.
  lemma InvTell(v: View, k: Kind, s: string)
    requires Inv(v) && RunKind(v.state) == Some(k)
    ensures Inv(Tell(v, Data(k, s)))
  {
  }

  // Bytes of an ordinary header value are only collected.
  lemma {:induction false} GeneralRun(v: View, data: string, i: nat, j: nat)
    requires i < j <= |data| && !Halted(v) && v.state == Hdr(FieldValue) && v.hstate == General
    requires forall n :: i <= n < j ==> !IsEol(data[n])
    ensures Run(v, data, i, j) == Tell(v, Data(Events.Value, Slice(data, i, j)))
    decreases j - i
  {
    var w := Step(v, data[i]);
    assert w == Tell(v, Data(Events.Value, [data[i]]));
    assert [data[i]] == data[i..i + 1];
    if i + 1 < j {
      GeneralRun(w, data, i + 1, j);
      EmitTwice(v.trace, Events.Value, [data[i]], data[i + 1..j]);
      assert [data[i]] + data[i + 1..j] == data[i..j];
    }
  }

  predicate Counted(s: ParseState) { s == Msg(Identity) || s == Chunk(ChunkData) }

  // Body bytes short of the end of a counted body are only collected.
  lemma {:induction false} CountedRun(v: View, data: string, i: nat, j: nat)
    requires i < j <= |data| && !Halted(v) && Counted(v.state) && j - i < v.contentLength
    ensures Run(v, data, i, j) ==
            Tell(v.(contentLength := v.contentLength - (j - i)), Data(Events.Body, Slice(data, i, j)))
    decreases j - i
  {
    var w := Step(v, data[i]);
    assert w == Tell(v.(contentLength := v.contentLength - 1), Data(Events.Body, [data[i]]));
    assert [data[i]] == data[i..i + 1];
    if i + 1 < j {
      CountedRun(w, data, i + 1, j);
      EmitTwice(v.trace, Events.Body, [data[i]], data[i + 1..j]);
      assert [data[i]] + data[i + 1..j] == data[i..j];
    }
  }

  // A body that ends with the connection takes every byte.
  lemma {:induction false} UntilEofRun(v: View, data: string, i: nat, j: nat)
    requires i < j <= |data| && !Halted(v) && v.state == Msg(IdentityEof)
    ensures Run(v, data, i, j) == Tell(v, Data(Events.Body, Slice(data, i, j)))
    decreases j - i
  {
    var w := Step(v, data[i]);
    assert w == Tell(v, Data(Events.Body, [data[i]]));
    assert [data[i]] == data[i..i + 1];
    if i + 1 < j {
      UntilEofRun(w, data, i + 1, j);
      EmitTwice(v.trace, Events.Body, [data[i]], data[i + 1..j]);
      assert [data[i]] + data[i + 1..j] == data[i..j];
    }
  }
}
