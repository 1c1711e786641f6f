/** When the socket proxy comes to an end: exactly which applications it may hang with. */
module Unwinding {
  import opened Proxy
  import opened Conversations

  // ---------------------------------------------------------------- where nothing moves

  /** Nothing can move any more. */
  ghost predicate Quiet(s: Pair) {
    forall step :: !Enabled(s, step)
  }

  ghost predicate QuietSide(x: Side, y: Side) {
    forall a :: !Can(x, y, a)
  }

  lemma QuietSides(s: Pair)
    ensures Quiet(s) <==> QuietSide(s.a, s.b) && QuietSide(s.b, s.a)
  {
    hide Can;
    if Quiet(s) {
      forall a
        ensures !Can(s.a, s.b, a) && !Can(s.b, s.a, a)
      {
        assert !Enabled(s, Left(a)) && !Enabled(s, Right(a));
      }
    }
  }

  /** A quiet goroutine has returned, or waits in a read or a receive for something that is not there. */
  lemma QuietFacts(x: Side, y: Side)
    requires QuietSide(x, y)
    ensures x.reader.RStopped? || (x.reader.Reading? && x.connOpen && !x.closes)
    ensures x.writer.WStopped? || (x.writer.Receiving? && x.taken >= |y.sent| && !(x.taken == |y.sent| && y.finished))
    ensures x.reader.RStopped? && x.writer.WStopped? ==> x.finished
  {
    assert !Can(x, y, StartRead) && !Can(x, y, ReadEnd) && !Can(x, y, SendOk) && !Can(x, y, StartReceive);
    assert !Can(x, y, Receive) && !Can(x, y, ReceiveFail) && !Can(x, y, WriteOk) && !Can(x, y, Finish);
  }

  /** Every run can be continued until nothing moves. */
  lemma {:induction false} RunsOn(ss: seq<Pair>, steps: seq<Step>) returns (ss': seq<Pair>, steps': seq<Step>)
    requires Run(ss, steps)
    ensures Run(ss', steps') && ss <= ss' && Quiet(Last(ss'))
    decreases Rank(ss[0].a, ss[0].b) + 1 - |ss|
  {
    hide Can, Done, Rank;
    RunBounded(ss, steps, |steps|);
    if Quiet(Last(ss)) {
      ss', steps' := ss, steps;
    } else {
      var step :| Enabled(Last(ss), step);
      ss', steps' := Extend(ss, steps, step);
      RunBounded(ss', steps', |steps'|);
      ss', steps' := RunsOn(ss', steps');
    }
  }

  // ---------------------------------------------------------------- what the applications have to do with it

  /**
   * The side that started as `x0`: a write to it fails only after its peer has sent something, and no read ends
   * unless an application closes.
   */
  ghost predicate Origin(x0: Side, x: Side, y: Side) {
    && x.closes == x0.closes && x.deaf == x0.deaf && x.serves == x0.serves && x.read + x.input == x0.input
    && (x.writer.Writing? ==> x.writer.payload != [])
    && (x.writeFailed ==> y.read != [])
    && (x.readEnded ==> x.closes || y.closes)
  }

  lemma WriteFailOrigin(x0: Side, x: Side, y: Side, n: nat)
    requires Half(x, y) && Half(y, x) && Origin(x0, x, y) && Can(x, y, WriteFail(n))
    ensures Origin(x0, Done(x, y, WriteFail(n)), y)
  {
    hide Payload;
    PayloadPrefix(y.sent, x.taken);
  }

  lemma OriginMoves(x0: Side, y0: Side, x: Side, y: Side, a: Action)
    requires Half(x, y) && Half(y, x) && Origin(x0, x, y) && Origin(y0, y, x) && Can(x, y, a)
    ensures Origin(x0, Done(x, y, a), y) && Origin(y0, y, Done(x, y, a))
  {
    hide Payload;
    match a
    case WriteFail(n) => WriteFailOrigin(x0, x, y, n);
    case ReadData(n) => assert x.read + x.input == (x.read + x.input[..n]) + x.input[n..];
    case _ =>
  }

  lemma {:induction false} RunOrigin(ss: seq<Pair>, steps: seq<Step>, i: nat)
    requires Run(ss, steps) && i < |ss|
    ensures Inv(ss[i]) && Origin(ss[0].a, ss[i].a, ss[i].b) && Origin(ss[0].b, ss[i].b, ss[i].a)
  {
    hide Half, Can, Done, Origin;
    RunInv(ss, steps, i);
    if i > 0 {
      RunOrigin(ss, steps, i - 1);
      var s := ss[i - 1];
      match steps[i - 1]
      case Left(act) => OriginMoves(ss[0].a, ss[0].b, s.a, s.b, act);
      case Right(act) => OriginMoves(ss[0].b, ss[0].a, s.b, s.a, act);
    } else {
      FreshOrigin(ss[0].a, ss[0].b);
      FreshOrigin(ss[0].b, ss[0].a);
    }
  }

  lemma FreshOrigin(x: Side, y: Side)
    requires IsFresh(x)
    ensures Origin(x, x, y)
  {
  }

  // ---------------------------------------------------------------- unwinding

  predicate ReadEnded(s: Pair) {
    s.a.readEnded || s.b.readEnded
  }

  /** All four goroutines have returned and both sockets are closed. */
  predicate Unwound(s: Pair) {
    s.a.finished && s.b.finished && !s.a.connOpen && !s.b.connOpen
  }

  /** A run from `s` to where nothing moves. */
  ghost predicate Ends(s: Pair, ss: seq<Pair>, steps: seq<Step>) {
    Run(ss, steps) && ss[0] == s && Quiet(Last(ss))
  }

  /** Once the peer is done, a quiet side whose reading ended is done. */
  lemma PeerFinished(x: Side, y: Side)
    requires Half(x, y) && Half(y, x) && QuietSide(x, y) && y.finished && x.reader.RStopped?
    ensures x.finished
  {
    hide Payload, Can, QuietSide;
    QuietFacts(x, y);
  }

  lemma ReadEndedUnwinds(x: Side, y: Side)
    requires Half(x, y) && Half(y, x) && QuietSide(x, y) && QuietSide(y, x)
    requires x.readEnded && (y.writeFailed && y.deaf ==> y.closes)
    ensures x.finished && y.finished
  {
    hide Payload, Can, QuietSide;
    QuietFacts(x, y);
    QuietFacts(y, x);
    PeerFinished(x, y);
  }

  /**
   * The application of `x` has shut down its receiving half only and stays, while that of `y` has something to
   * say and then closes.
   */
  predicate Deafened(x: Side, y: Side) {
    x.deaf && !x.closes && y.closes && y.input != []
  }

  lemma NotDeafened(x0: Side, y0: Side, x: Side, y: Side)
    requires Origin(x0, x, y) && Origin(y0, y, x) && !Deafened(x0, y0) && (x.readEnded || y.readEnded)
    ensures x.writeFailed && x.deaf ==> x.closes
  {
  }

  /**
   * Unwinding. Once a read has ended on either side, a run that can go no further has brought all four
   * goroutines to an end with both sockets closed, unless one application is deaf to what the other has to say.
   * If no write failed at all, that a read ended is also necessary.
   */
  lemma Unwinds(s0: Pair, ss: seq<Pair>, steps: seq<Step>)
    requires Ends(s0, ss, steps) && !Deafened(s0.a, s0.b) && !Deafened(s0.b, s0.a)
    ensures var s := Last(ss);
            && (ReadEnded(s) ==> Unwound(s))
            && (!s.a.writeFailed && !s.b.writeFailed ==> (Unwound(s) <==> ReadEnded(s)))
  {
    hide Can, Done, Payload, Quiet, QuietSide, Takes, Origin, Deafened;
    var s := Last(ss);
    RunOrigin(ss, steps, |steps|);
    QuietSides(s);
    if ReadEnded(s) {
      NotDeafened(s0.a, s0.b, s.a, s.b);
      NotDeafened(s0.b, s0.a, s.b, s.a);
      if s.a.readEnded {
        ReadEndedUnwinds(s.a, s.b);
      } else {
        ReadEndedUnwinds(s.b, s.a);
      }
    }
  }

  // ---------------------------------------------------------------- hanging

  /** The side waits for its application and its peer, and neither comes. */
  lemma WaitingQuiet(x: Side, y: Side)
    requires x.reader.Reading? && x.input == [] && x.connOpen && !x.closes
    requires x.writer.WStopped? || (x.writer.Receiving? && x.taken == |y.sent| && !y.finished)
    ensures QuietSide(x, y)
  {
  }

  lemma StoppedQuiet(x: Side, y: Side)
    requires x.reader.RStopped?
    requires (x.writer.WStopped? && x.finished) || (x.writer.Receiving? && x.taken == |y.sent| && !y.finished)
    ensures QuietSide(x, y)
  {
  }

  /** The right side says all it has. */
  lemma RightSpeaks(a: Side, b: Side) returns (ss: seq<Pair>, steps: seq<Step>)
    requires Init(Pair(a, b))
    ensures Run(ss, steps) && ss[0] == Pair(a, b) && Last(ss).a == a && SaidAll(b, Last(ss).b)
  {
    hide Run, SaidAll;
    ss, steps := Start(b, a);
    ss, steps := Speak(ss, steps);
    ss, steps := MirrorRun(ss, steps);
  }

  /** Both sides have said all they have, and wait. */
  lemma BothSpeak(a: Side, b: Side) returns (ss: seq<Pair>, steps: seq<Step>)
    requires Init(Pair(a, b))
    ensures Run(ss, steps) && ss[0] == Pair(a, b) && SaidAll(a, Last(ss).a) && SaidAll(b, Last(ss).b)
  {
    hide Run, SaidAll;
    ss, steps := RightSpeaks(a, b);
    ss, steps := Speak(ss, steps);
  }

  /** Where neither application closes, nothing ever ends. */
  lemma HangsForever(a: Side, b: Side) returns (ss: seq<Pair>, steps: seq<Step>)
    requires Init(Pair(a, b)) && !a.closes && !b.closes
    ensures Ends(Pair(a, b), ss, steps) && !Unwound(Last(ss))
  {
    hide Run, Can, Quiet;
    ss, steps := BothSpeak(a, b);
    ss, steps := Listen(ss, steps);
    ss, steps := MirrorRun(ss, steps);
    ss, steps := Listen(ss, steps);
    ss, steps := MirrorRun(ss, steps);
    WaitingQuiet(Last(ss).a, Last(ss).b);
    WaitingQuiet(Last(ss).b, Last(ss).a);
    QuietSides(Last(ss));
  }

  /**
   * A side whose write fails may leave without sending the end frame, since its reader sees the cancelled
   * context first. Its peer then hangs in a read, with its socket open, for as long as its own application says
   * nothing. So it goes whenever an application closes while the other has something to say and does not.
   */
  lemma HangsAfterWriteFailure(a: Side, b: Side) returns (ss: seq<Pair>, steps: seq<Step>)
    requires Init(Pair(a, b)) && a.closes && !b.closes && b.input != []
    ensures Ends(Pair(a, b), ss, steps)
    ensures var s := Last(ss); s.a.finished && s.a.writeFailed && !s.b.finished && s.b.connOpen
  {
    hide Run, Can, Quiet;
    ss, steps := RightSpeaks(a, b);
    assert Last(ss).b.sent[0] in Last(ss).b.sent;
    ss, steps := FailToWrite(ss, steps);
    ss, steps := Leave(ss, steps);
    ss, steps := GiveUp(ss, steps);
    StoppedQuiet(Last(ss).a, Last(ss).b);
    WaitingQuiet(Last(ss).b, Last(ss).a);
    QuietSides(Last(ss));
  }

  /** The right side receives from a peer that has left. */
  lemma GiveUp(ss: seq<Pair>, steps: seq<Step>) returns (ss': seq<Pair>, steps': seq<Step>)
    requires Run(ss, steps) && Last(ss).a.finished && Last(ss).b.writer.WTop? && !Last(ss).b.Cancelled()
    requires Last(ss).b.taken == |Last(ss).a.sent|
    ensures Run(ss', steps') && ss'[0] == ss[0] && Last(ss').a == Last(ss).a
    ensures Last(ss').b == Last(ss).b.(writer := WStopped, recvFailed := true)
  {
    hide Run;
    ss', steps' := Extend(ss, steps, Right(StartReceive));
    ss', steps' := Extend(ss', steps', Right(ReceiveFail));
  }

  /**
   * Where an application has shut down its receiving half only and stays, and the other has something to say
   * and closes, both sides may hang although a read has ended.
   */
  lemma HangsAtDeafApplication(a: Side, b: Side) returns (ss: seq<Pair>, steps: seq<Step>)
    requires Init(Pair(a, b)) && Deafened(b, a)
    ensures Ends(Pair(a, b), ss, steps) && Last(ss).a.readEnded && !Last(ss).a.finished && !Last(ss).b.finished
  {
    hide Run, Can, Quiet;
    ss, steps := BothSpeak(a, b);
    ss, steps := Listen(ss, steps);
    ss, steps := Close(ss, steps);
    ss, steps := MirrorRun(ss, steps);
    assert a.input != [] && Last(ss).b.sent[0].Chunk? && Last(ss).b.sent[0].bytes != [];
    ss, steps := FailToWrite(ss, steps);
    ss, steps := MirrorRun(ss, steps);
    StoppedQuiet(Last(ss).a, Last(ss).b);
    WaitingQuiet(Last(ss).b, Last(ss).a);
    QuietSides(Last(ss));
  }

  /** The application of the left side closes, and the end frame is sent. */
  lemma Close(ss: seq<Pair>, steps: seq<Step>) returns (ss': seq<Pair>, steps': seq<Step>)
    requires Run(ss, steps) && Last(ss).a.reader.Reading? && Last(ss).a.closes
    requires Last(ss).a.sent != [] && Filled(Last(ss).a.sent)
    ensures Run(ss', steps') && ss'[0] == ss[0] && Last(ss').b == Last(ss).b
    ensures Last(ss').a == Last(ss).a.(reader := RStopped, readEnded := true, sent := Last(ss).a.sent + [Eof])
    ensures Last(ss').a.sent[0].Chunk? && Last(ss').a.sent[0].bytes != []
  {
    var x := Last(ss).a;
    assert x.sent[0] in x.sent;
    hide Run;
    ss', steps' := Extend(ss, steps, Left(ReadEnd));
    ss', steps' := Extend(ss', steps', Left(SendOk));
  }

  // ---------------------------------------------------------------- exactly when

  lemma MirrorEnds(s: Pair, ss: seq<Pair>, steps: seq<Step>) returns (ss': seq<Pair>, steps': seq<Step>)
    requires Ends(s, ss, steps)
    ensures Ends(Mirror(s), ss', steps') && Last(ss') == Mirror(Last(ss))
  {
    hide Quiet, Can, Done;
    ss', steps' := MirrorRun(ss, steps);
    QuietSides(Last(ss));
    QuietSides(Last(ss'));
  }

  /**
   * Exactly when a run in which a read has ended unwinds: for all runs of two applications, if and only if
   * neither is deaf to something the other has to say before it closes.
   */
  lemma UnwindsIff(a: Side, b: Side)
    requires Init(Pair(a, b))
    ensures (forall ss, steps | Ends(Pair(a, b), ss, steps) && ReadEnded(Last(ss)) :: Unwound(Last(ss))) <==>
            !Deafened(a, b) && !Deafened(b, a)
  {
    hide Run, Quiet, Deafened;
    if !Deafened(a, b) && !Deafened(b, a) {
      forall ss, steps | Ends(Pair(a, b), ss, steps) && ReadEnded(Last(ss))
        ensures Unwound(Last(ss))
      {
        Unwinds(Pair(a, b), ss, steps);
      }
    } else if Deafened(b, a) {
      var ss, steps := HangsAtDeafApplication(a, b);
    } else {
      var ss, steps := HangsAtDeafApplication(b, a);
      ss, steps := MirrorEnds(Pair(b, a), ss, steps);
    }
  }

  /** The application of `x` closes, and either so does that of `y`, or no write can fail. */
  predicate Certain(x: Side, y: Side) {
    x.closes && (y.closes || (y.input == [] && (!y.deaf || x.input == [])))
  }

  lemma BothClose(x: Side, y: Side)
    requires Half(x, y) && Half(y, x) && QuietSide(x, y) && QuietSide(y, x) && x.closes && y.closes
    ensures x.finished && y.finished
  {
    hide Payload, Can, QuietSide;
    QuietFacts(x, y);
    QuietFacts(y, x);
  }

  lemma OneCloses(x0: Side, y0: Side, x: Side, y: Side)
    requires Half(x, y) && Half(y, x) && QuietSide(x, y) && QuietSide(y, x)
    requires Origin(x0, x, y) && Origin(y0, y, x) && Certain(x0, y0) && !y0.closes
    ensures x.finished && y.finished
  {
    hide Payload, Can, QuietSide;
    QuietFacts(x, y);
    assert !x.writeFailed && !y.writeFailed;
    ReadEndedUnwinds(x, y);
  }

  lemma CertainUnwinds(x0: Side, y0: Side, x: Side, y: Side)
    requires Half(x, y) && Half(y, x) && QuietSide(x, y) && QuietSide(y, x)
    requires Origin(x0, x, y) && Origin(y0, y, x) && Certain(x0, y0)
    ensures x.finished && y.finished && !x.connOpen && !y.connOpen
  {
    hide Payload, Can, QuietSide, Sends, Takes, Clean;
    if y0.closes {
      BothClose(x, y);
    } else {
      OneCloses(x0, y0, x, y);
    }
  }

  lemma Hangs(a: Side, b: Side) returns (ss: seq<Pair>, steps: seq<Step>)
    requires Init(Pair(a, b)) && !Certain(a, b) && !b.closes
    ensures Ends(Pair(a, b), ss, steps) && !Unwound(Last(ss))
  {
    hide Run, Quiet;
    if !a.closes {
      ss, steps := HangsForever(a, b);
    } else if b.input != [] {
      ss, steps := HangsAfterWriteFailure(a, b);
    } else {
      ss, steps := HangsAtDeafApplication(a, b);
    }
  }

  /**
   * Exactly when the proxy is certain to come to an end: if and only if both applications close, or one does
   * and the other has nothing to say and hears what there is to hear.
   */
  lemma AlwaysUnwindsIff(a: Side, b: Side)
    requires Init(Pair(a, b))
    ensures (forall ss, steps | Ends(Pair(a, b), ss, steps) :: Unwound(Last(ss))) <==> Certain(a, b) || Certain(b, a)
  {
    hide Run, Quiet, Certain, Can, Done, Half, Origin;
    if Certain(a, b) || Certain(b, a) {
      forall ss, steps | Ends(Pair(a, b), ss, steps)
        ensures Unwound(Last(ss))
      {
        CertainRun(a, b, ss, steps);
      }
    } else if !b.closes {
      var ss, steps := Hangs(a, b);
    } else {
      CertainIfBoth(a, b);
      var ss, steps := Hangs(b, a);
      ss, steps := MirrorEnds(Pair(b, a), ss, steps);
    }
  }

  lemma CertainIfBoth(a: Side, b: Side)
    ensures a.closes && b.closes ==> Certain(a, b)
  {
  }

  lemma CertainRun(a: Side, b: Side, ss: seq<Pair>, steps: seq<Step>)
    requires Ends(Pair(a, b), ss, steps) && (Certain(a, b) || Certain(b, a))
    ensures Unwound(Last(ss))
  {
    hide Quiet, Certain, Can, Done, Half, Origin, QuietSide;
    var s := Last(ss);
    RunOrigin(ss, steps, |steps|);
    QuietSides(s);
    if Certain(a, b) {
      CertainUnwinds(a, b, s.a, s.b);
    } else {
      CertainUnwinds(b, a, s.b, s.a);
    }
  }
}
