// Which method names the matcher accepts, exactly.
module Methods {
  import opened Chars
  import opened Types
  import opened Events
  import opened Views
  import opened StartLine
  import opened Machine
  import opened Runs
  import opened Lengths

  // The methods whose second byte is not compared: nothing is listed for it when it differs.
  predicate FreeSecond(m: Method) {
    m.ACL? || m.BIND? || m.DELETE? || m.GET? || m.HEAD? || m.NOTIFY? || m.OPTIONS? || m.TRACE? ||
    m.UNLOCK? || m.UNSUBSCRIBE? || m.UNBIND? || m.UNLINK?
  }

  // p agrees with the beginning of the name of m.
  predicate Reading(m: Method, p: string) {
    && |p| <= |MethodName(m)|
    && forall k :: 0 <= k < |p| ==> p[k] == MethodName(m)[k] || (k == 1 && FreeSecond(m) && p[1] != NUL)
  }

  // The names that are accepted as m.
  predicate Names(m: Method, n: string) { |n| == |MethodName(m)| && Reading(m, n) }

  // The method after the bytes s, if the matcher is still at it; m and index are where it stands.
  function Walk(m: Method, index: nat, s: string): Option<Method>
    decreases |s|
  {
    if |s| == 0 then Some(m)
    else if s[0] == NUL || (s[0] == ' ' && Expected(m, index) == NUL) then None
    else if s[0] == Expected(m, index) then Walk(m, index + 1, s[1..])
    else
      match Retarget(m, index, s[0])
      case None => None
      case Some(m') => Walk(m', index + 1, s[1..])
  }

  lemma MethodByte(v: View, ch: char)
    requires !Halted(v) && v.state == Req(ReqMethod)
    ensures Step(v, ch) == StepMethod(v, ch)
  {
    hide StepMethod;
  }

  lemma {:induction false} WalkRuns(v: View, s: string)
    requires !Halted(v) && v.state == Req(ReqMethod) && Walk(v.line.verb, v.index, s).Some?
    ensures Feed(v, s) == v.(line := v.line.(verb := Walk(v.line.verb, v.index, s).value), index := v.index + |s|)
    decreases |s|
  {
    if |s| == 0 {
      FeedNothing(v);
    } else {
      MethodByte(v, s[0]);
      hide Step, Feed, Expected, Retarget;
      FeedCons(v, s);
      WalkRuns(Step(v, s[0]), s[1..]);
    }
  }

  lemma NameStarts(m: Method)
    ensures |MethodName(m)| >= 3 && IsAlpha(MethodName(m)[0]) && FirstMethod(MethodName(m)[0]).Some?
  {
  }

  // The name of to begins with n bytes of that of from, and goes on with ch.
  predicate Branches(from: Method, to: Method, n: nat, ch: char) {
    && n < |MethodName(to)| && n <= |MethodName(from)|
    && MethodName(to)[..n] == MethodName(from)[..n] && MethodName(to)[n] == ch
  }

  lemma BranchingEarly()
    ensures Branches(CONNECT, CHECKOUT, 1, 'H') && Branches(CONNECT, COPY, 2, 'P')
    ensures Branches(MKCOL, MOVE, 1, 'O') && Branches(MKCOL, MERGE, 1, 'E') && Branches(MKCOL, MSEARCH, 1, '-')
    ensures Branches(MKCOL, MKACTIVITY, 2, 'A') && Branches(MKCOL, MKCALENDAR, 3, 'A')
    ensures Branches(SUBSCRIBE, SEARCH, 1, 'E') && Branches(REPORT, REBIND, 2, 'B')
  {
  }

  lemma BranchingLate()
    ensures Branches(POST, PROPFIND, 1, 'R') && Branches(POST, PUT, 1, 'U') && Branches(POST, PATCH, 1, 'A')
    ensures Branches(LOCK, LINK, 1, 'I') && Branches(PUT, PURGE, 2, 'R') && Branches(PROPFIND, PROPPATCH, 4, 'P')
    ensures Branches(UNLOCK, UNSUBSCRIBE, 2, 'S') && Branches(UNLOCK, UNBIND, 2, 'B')
    ensures Branches(UNLOCK, UNLINK, 3, 'I')
  {
  }

  // The methods a first byte can stand for.
  predicate IsFirst(m: Method) {
    m.ACL? || m.BIND? || m.CONNECT? || m.DELETE? || m.GET? || m.HEAD? || m.LOCK? || m.MKCOL? || m.NOTIFY? ||
    m.OPTIONS? || m.POST? || m.REPORT? || m.SUBSCRIBE? || m.TRACE? || m.UNLOCK?
  }

  // A method the matcher turns to begins like the one before.
  lemma RetargetBranches(m: Method, index: nat, ch: char)
    requires 1 <= index && Retarget(m, index, ch).Some? && (index == 1 ==> IsFirst(m))
    ensures var m' := Retarget(m, index, ch).value;
            (FreeSecond(m) ==> FreeSecond(m')) &&
            (Branches(m, m', index, ch) || (m' == m && index == 1 && FreeSecond(m)))
  {
    hide Branches;
    BranchingEarly();
    BranchingLate();
  }

  // Reading on: the byte that is expected, or one that leads to another method.
  lemma ReadingNext(m: Method, p: string, ch: char)
    requires |p| > 0 && Reading(m, p) && ch != NUL && (|p| == 1 ==> IsFirst(m))
    ensures ch == Expected(m, |p|) ==> Reading(m, p + [ch])
    ensures Retarget(m, |p|, ch).Some? ==> Reading(Retarget(m, |p|, ch).value, p + [ch])
  {
    hide MethodName, FirstMethod, Retarget, IsFirst, Branches;
    NameStarts(m);
    var x := p + [ch];
    assert forall k :: 0 <= k < |p| ==> x[k] == p[k];
    if Retarget(m, |p|, ch).Some? {
      RetargetBranches(m, |p|, ch);
      var m' := Retarget(m, |p|, ch).value;
      if Branches(m, m', |p|, ch) {
        BranchLetters(m, m', |p|, ch);
      }
    }
  }

  lemma BranchLetters(from: Method, to: Method, n: nat, ch: char)
    requires Branches(from, to, n, ch)
    ensures n < |MethodName(to)| && n <= |MethodName(from)| && MethodName(to)[n] == ch
    ensures forall k :: 0 <= k < n ==> MethodName(to)[k] == MethodName(from)[k]
  {
    hide MethodName;
    forall k | 0 <= k < n ensures MethodName(to)[k] == MethodName(from)[k] {
      assert MethodName(to)[..n][k] == MethodName(from)[..n][k];
    }
  }

  // Soundness: as long as the matcher is at it, what it has read agrees with its method, so it never
  // reads beyond the end of the name.
  lemma {:induction false} WalkReads(m: Method, p: string, s: string)
    requires |p| > 0 && Reading(m, p) && (|p| == 1 ==> IsFirst(m)) && Walk(m, |p|, s).Some?
    ensures Reading(Walk(m, |p|, s).value, p + s)
    decreases |s|
  {
    hide Reading, Retarget, Expected;
    if |s| == 0 {
      assert p + s == p;
    } else {
      ReadingNext(m, p, s[0]);
      assert p + [s[0]] + s[1..] == p + s;
      WalkReads(if s[0] == Expected(m, |p|) then m else Retarget(m, |p|, s[0]).value, p + [s[0]], s[1..]);
    }
  }

  lemma NoNul(m: Method, k: nat)
    requires k < |MethodName(m)|
    ensures MethodName(m)[k] != NUL
  {
  }

  lemma {:induction false} WalkStays(m: Method, i: nat, j: nat, n: string)
    requires i <= j <= |n| && j <= |MethodName(m)| && forall k :: i <= k < j ==> n[k] == MethodName(m)[k]
    ensures Walk(m, i, n[i..]) == Walk(m, j, n[j..])
    decreases j - i
  {
    hide MethodName, Retarget;
    if i < j {
      NoNul(m, i);
      assert n[i..][0] == n[i] && n[i..][1..] == n[i + 1..];
      WalkStays(m, i + 1, j, n);
    }
  }

  // Where the matcher turns to m: from which method, at which index, on which byte.
  function Turn(m: Method): Option<(Method, nat, char)> {
    match m
    case CHECKOUT => Some((CONNECT, 1, 'H'))
    case COPY => Some((CONNECT, 2, 'P'))
    case MOVE => Some((MKCOL, 1, 'O'))
    case MERGE => Some((MKCOL, 1, 'E'))
    case MSEARCH => Some((MKCOL, 1, '-'))
    case MKACTIVITY => Some((MKCOL, 2, 'A'))
    case MKCALENDAR => Some((MKCOL, 3, 'A'))
    case SEARCH => Some((SUBSCRIBE, 1, 'E'))
    case REBIND => Some((REPORT, 2, 'B'))
    case PROPFIND => Some((POST, 1, 'R'))
    case PUT => Some((POST, 1, 'U'))
    case PATCH => Some((POST, 1, 'A'))
    case PURGE => Some((PUT, 2, 'R'))
    case PROPPATCH => Some((PROPFIND, 4, 'P'))
    case LINK => Some((LOCK, 1, 'I'))
    case UNSUBSCRIBE => Some((UNLOCK, 2, 'S'))
    case UNBIND => Some((UNLOCK, 2, 'B'))
    case UNLINK => Some((UNLOCK, 3, 'I'))
    case _ => None
  }

  lemma TurnRight(m: Method)
    ensures Turn(m).None? ==> IsFirst(m) && FirstMethod(MethodName(m)[0]) == Some(m)
    ensures Turn(m).Some? ==>
              var (from, i, ch) := Turn(m).value;
              && Branches(from, m, i, ch) && i >= 1 && ch != NUL && ch != ' '
              && Retarget(from, i, ch) == Some(m)
              && (i == 1 ==> Turn(from).None? && !FreeSecond(m))
              && (i > 1 ==> (Turn(from).Some? ==> Turn(from).value.1 < i) && (FreeSecond(m) ==> FreeSecond(from)))
  {
    hide Branches, MethodName, Retarget, FirstMethod;
    BranchingEarly();
    BranchingLate();
    FirstLetter(m);
    TurnRetargets(m);
  }

  lemma TurnRetargets(m: Method)
    ensures Turn(m).Some? ==>
              var (from, i, ch) := Turn(m).value;
              Retarget(from, i, ch) == Some(m)
  {
  }

  lemma FirstLetter(m: Method)
    ensures Turn(m).None? ==> FirstMethod(MethodName(m)[0]) == Some(m)
  {
  }

  lemma TurnDiffers(m: Method)
    requires Turn(m).Some?
    ensures Expected(Turn(m).value.0, Turn(m).value.1) != Turn(m).value.2
  {
  }

  // The second byte, for a method that a first byte stands for.
  lemma SecondByte(m: Method, n: string)
    requires IsFirst(m) && |n| > 1 && Reading(m, n[..2])
    ensures Walk(m, 1, n[1..]) == Walk(m, 2, n[2..])
  {
    assert n[..2][1] == n[1] && n[1..][0] == n[1] && n[1..][1..] == n[2..];
    NameStarts(m);
    NoNul(m, 1);
    hide MethodName, FirstMethod, Reading;
    if n[1] != MethodName(m)[1] {
      assert Retarget(m, 1, n[1]) == Some(m) by { FreeKeeps(m, n[1]); }
    }
  }

  lemma FreeKeeps(m: Method, ch: char)
    requires FreeSecond(m) && IsFirst(m)
    ensures Retarget(m, 1, ch) == Some(m)
  {
  }

  lemma ReadingPart(m: Method, n: string, i: nat, j: nat)
    requires i <= j <= |n| && Reading(m, n[..j])
    ensures Reading(m, n[..i])
    ensures forall k :: 2 <= k < j ==> n[k] == MethodName(m)[k]
    ensures j > 0 ==> n[0] == MethodName(m)[0]
    ensures j > 1 && !FreeSecond(m) ==> n[1] == MethodName(m)[1]
  {
    hide MethodName;
    assert forall k :: 0 <= k < j ==> n[..j][k] == n[k];
    assert forall k :: 0 <= k < i ==> n[..i][k] == n[k];
  }

  lemma ReadingParent(m: Method, from: Method, i: nat, ch: char, n: string)
    requires i <= |n| && Reading(m, n[..i]) && Branches(from, m, i, ch) && (FreeSecond(m) ==> FreeSecond(from))
    ensures Reading(from, n[..i])
  {
    hide MethodName;
    BranchLetters(from, m, i, ch);
  }

  function TurnIndex(m: Method): nat { if Turn(m).None? then 1 else Turn(m).value.1 }

  // Completeness: reading the name of m, the matcher comes to m.
  lemma {:induction false} Reach(m: Method, n: string, j: nat)
    requires TurnIndex(m) < j <= |n| && 2 <= j && Reading(m, n[..j])
    ensures FirstMethod(n[0]).Some? && Walk(FirstMethod(n[0]).value, 1, n[1..]) == Walk(m, j, n[j..])
    decreases TurnIndex(m), j
  {
    hide MethodName, FirstMethod, Retarget, Reading, Branches, Walk, FreeSecond;
    TurnRight(m);
    ReadingLength(m, n[..j]);
    if Turn(m).None? {
      ReadingPart(m, n, 2, j);
      SecondByte(m, n);
      WalkStays(m, 2, j, n);
    } else {
      var (from, i, ch) := Turn(m).value;
      BranchLetters(from, m, i, ch);
      ReadingPart(m, n, i, j);
      TurnDiffers(m);
      if i == 1 {
        TurnRight(from);
      } else {
        ReadingParent(m, from, i, ch, n);
        Reach(from, n, i);
      }
      WalkTurn(from, i, n, ch, m);
      WalkStays(m, i + 1, j, n);
    }
  }

  lemma ReadingLength(m: Method, p: string)
    requires Reading(m, p)
    ensures |p| <= |MethodName(m)|
  {
  }

  lemma WalkTurn(from: Method, i: nat, n: string, ch: char, m: Method)
    requires i < |n| && n[i] == ch && ch != NUL && ch != ' ' && ch != Expected(from, i)
    requires Retarget(from, i, ch) == Some(m)
    ensures Walk(from, i, n[i..]) == Walk(m, i + 1, n[i + 1..])
  {
    hide MethodName, Retarget;
    assert n[i..][0] == ch && n[i..][1..] == n[i + 1..];
  }

  lemma FirstByteStep(v: View, ch: char)
    requires !Halted(v) && v.state == Req(StartReq) && FirstMethod(ch).Some?
    ensures Step(v, ch) == Tell(v.(flags := NO_FLAGS, contentLength := ULLONG_MAX, index := 1, state := Req(ReqMethod),
                                   line := v.line.(verb := FirstMethod(ch).value)), MessageBegin)
  {
  }

  lemma SpaceStep(v: View)
    requires !Halted(v) && v.state == Req(ReqMethod) && Expected(v.line.verb, v.index) == NUL
    ensures Step(v, ' ') == v.(state := InUrl(SpacesBeforeUrl), index := v.index + 1)
  {
  }

  // What a parser is like after a request method and the space after it.
  function AfterMethod(v: View, m: Method, n: nat): View {
    Tell(v.(flags := NO_FLAGS, contentLength := ULLONG_MAX, index := n + 1, state := InUrl(SpacesBeforeUrl),
            line := v.line.(verb := m)), MessageBegin)
  }

  // Every name that agrees with a method, up to the second byte of some, is accepted as that method.
  lemma MethodComplete(v: View, m: Method, n: string)
    requires !Halted(v) && v.state == Req(StartReq) && Names(m, n)
    ensures Feed(v, n + [' ']) == AfterMethod(v, m, |n|)
  {
    hide Step, Feed, FirstMethod, Retarget, MethodName, Turn;
    NameStarts(m);
    TurnShort(m);
    assert n[..|n|] == n;
    Reach(m, n, |n|);
    FirstByteStep(v, n[0]);
    assert n[|n|..] == [];
    var w := Step(v, n[0]);
    WalkRuns(w, n[1..]);
    FeedCons(v, n);
    FeedConcat(v, n, [' ']);
    FeedOne(Feed(v, n), ' ');
    SpaceStep(Feed(v, n));
  }

  lemma TurnShort(m: Method)
    ensures TurnIndex(m) < |MethodName(m)|
  {
  }

  lemma LeaveStep(v: View, ch: char)
    requires !Halted(v) && v.state == Req(ReqMethod) && Step(v, ch).state != Req(ReqMethod)
    ensures ch == ' ' && Expected(v.line.verb, v.index) == NUL && Step(v, ch).line.verb == v.line.verb
  {
    hide Retarget, MethodName, Expected;
  }

  // The matcher has been at it ever since the first byte of n.
  predicate AtMethod(v: View, n: string) {
    forall i :: 0 < i <= |n| ==> Feed(v, n[..i]).errno == OK && Feed(v, n[..i]).state == Req(ReqMethod)
  }

  lemma AtMethodNext(v: View, s: string)
    requires !Halted(v) && v.state == Req(ReqMethod) && AtMethod(v, s) && |s| > 0
    ensures var w := Step(v, s[0]); w.errno == OK && w.state == Req(ReqMethod) && AtMethod(w, s[1..])
  {
    hide Step, Feed;
    var w := Step(v, s[0]);
    assert s[..1] == [s[0]];
    FeedOne(v, s[0]);
    forall i | 0 < i <= |s[1..]| ensures Feed(w, s[1..][..i]) == Feed(v, s[..i + 1]) {
      FeedCons(v, s[..i + 1]);
      assert s[..i + 1][1..] == s[1..][..i];
    }
  }

  lemma {:induction false} StaysWalks(v: View, s: string)
    requires !Halted(v) && v.state == Req(ReqMethod) && AtMethod(v, s)
    ensures Walk(v.line.verb, v.index, s).Some?
    decreases |s|
  {
    if |s| > 0 {
      hide Step, AtMethod, Expected, Retarget;
      AtMethodNext(v, s);
      MethodByte(v, s[0]);
      StaysWalks(Step(v, s[0]), s[1..]);
    }
  }

  lemma AtMethodWalks(v: View, n: string)
    requires !Halted(v) && v.state == Req(StartReq) && |n| > 0 && FirstMethod(n[0]).Some? && AtMethod(v, n)
    ensures Walk(FirstMethod(n[0]).value, 1, n[1..]).Some?
  {
    hide Step, Feed, FirstMethod;
    FirstByteStep(v, n[0]);
    var w := Step(v, n[0]);
    forall i | 0 < i <= |n[1..]| ensures Feed(w, n[1..][..i]) == Feed(v, n[..i + 1]) {
      FeedCons(v, n[..i + 1]);
      assert n[..i + 1][1..] == n[1..][..i];
    }
    StaysWalks(w, n[1..]);
  }

  // Whenever the matcher is left without an error, what it has read is a name of the method it leaves with.
  lemma MethodSound(v: View, n: string, ch: char)
    requires !Halted(v) && v.state == Req(StartReq) && |n| > 0 && !IsEol(n[0]) && AtMethod(v, n)
    requires Step(Feed(v, n), ch).errno == OK && Step(Feed(v, n), ch).state != Req(ReqMethod)
    ensures ch == ' ' && Names(Step(Feed(v, n), ch).line.verb, n)
  {
    hide Step, Feed, FirstMethod, Retarget, MethodName, Reading, AtMethod;
    FirstOk(v, n);
    AtMethodWalks(v, n);
    FirstByteStep(v, n[0]);
    FirstReads(n[0]);
    var f := FirstMethod(n[0]).value;
    WalkRuns(Step(v, n[0]), n[1..]);
    FeedCons(v, n);
    LeaveStep(Feed(v, n), ch);
    WalkReads(f, [n[0]], n[1..]);
    assert [n[0]] + n[1..] == n;
    var m := Walk(f, 1, n[1..]).value;
    ReadingLength(m, n);
    if |n| < |MethodName(m)| {
      NoNul(m, |n|);
    }
  }

  // Only a letter that some method starts with leads to the matcher.
  lemma FirstOk(v: View, n: string)
    requires !Halted(v) && v.state == Req(StartReq) && |n| > 0 && !IsEol(n[0]) && AtMethod(v, n)
    ensures FirstMethod(n[0]).Some?
  {
    hide Feed;
    assert n[..1] == [n[0]];
    FeedOne(v, n[0]);
    assert Feed(v, n[..1]).errno == OK;
  }

  lemma FirstReads(ch: char)
    requires FirstMethod(ch).Some?
    ensures IsFirst(FirstMethod(ch).value) && Reading(FirstMethod(ch).value, [ch])
  {
  }
}
