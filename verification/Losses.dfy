/** Which applications may lose bytes through the socket proxy: exactly those. */
module Losses {
  import opened Proxy
  import opened Conversations
  import opened Unwinding

  /** Once the socket of `y` is closed, all that was read at `x` has been written to it. */
  predicate AllArrived(x: Side, y: Side) {
    !y.connOpen ==> y.wrote == x.read
  }

  /**
   * The application of `x` has something to say, and that of `y` may not take it, or `x` serves the call and the
   * write of a first chunk from `y` fails at `x` while `y` holds a second one.
   */
  predicate Lossy(x: Side, y: Side) {
    x.input != [] && (y.closes || y.deaf || (x.serves && (x.closes || x.deaf) && |y.input| >= 2))
  }

  // ---------------------------------------------------------------- nothing is lost

  /** What is known of frames from `x` to `y` when one of them stops early; `y` started as `y0`. */
  ghost predicate Tidy(y0: Side, x: Side, y: Side) {
    && (x.reader.RStopped? && !x.sendFailed ==> Payload(x.sent) == x.read)
    && (y.recvFailed ==> Payload(x.sent) == x.read)
    && (y.readEnded && !y.closes ==> TookEof(x, y))
    && (y.reader.Sending? && y.reader.frame.Chunk? ==> y.reader.frame.bytes != [])
    && (x.writeFailed ==> Payload(y.sent) != [])
    && (|y0.input| <= 1 && !y.closes && !y.deaf && y.sendFailed ==> TookEof(x, y))
  }

  lemma PayloadGrows(fs: seq<Frame>, f: Frame)
    ensures Payload(fs) <= Payload(fs + [f])
  {
    hide Payload;
    PayloadSnoc(fs, f);
  }

  /** The writing side of the frames moves. */
  lemma TidyFrom(x0: Side, y0: Side, x: Side, y: Side, a: Action)
    requires Half(x, y) && Half(y, x) && Origin(x0, x, y) && Origin(y0, y, x) && Tidy(y0, x, y) && Can(x, y, a)
    ensures Tidy(y0, Done(x, y, a), y)
  {
    hide Payload;
    match a
    case SendOk => PayloadSnoc(x.sent, x.reader.frame);
    case WriteFail(n) => PayloadPrefix(y.sent, x.taken);
    case _ =>
  }

  /** A send fails only where the peer has left, and after one byte at most that takes an end of both. */
  lemma SendFailTook(x0: Side, y0: Side, x: Side, y: Side)
    requires Half(x, y) && Half(y, x) && Origin(x0, x, y) && Origin(y0, y, x) && Tidy(y0, x, y)
    requires Can(y, x, SendFail) && |y0.input| <= 1 && !y.closes && !y.deaf
    ensures TookEof(x, y)
  {
    hide Payload;
  }

  /** The side that takes them moves. */
  lemma TidyTo(x0: Side, y0: Side, x: Side, y: Side, a: Action)
    requires Half(x, y) && Half(y, x) && Origin(x0, x, y) && Origin(y0, y, x) && Tidy(y0, x, y) && Can(y, x, a)
    ensures Tidy(y0, x, Done(y, x, a))
  {
    hide Payload;
    match a
    case SendOk => PayloadGrows(y.sent, y.reader.frame);
    case SendFail =>
      if |y0.input| <= 1 && !y.closes && !y.deaf {
        SendFailTook(x0, y0, x, y);
      }
    case _ =>
  }

  lemma {:induction false} RunTidy(ss: seq<Pair>, steps: seq<Step>, i: nat)
    requires Run(ss, steps) && i < |ss|
    ensures Tidy(ss[0].b, ss[i].a, ss[i].b)
  {
    hide Half, Can, Done, Origin, Tidy;
    if i > 0 {
      RunTidy(ss, steps, i - 1);
      RunOrigin(ss, steps, i - 1);
      var s := ss[i - 1];
      match steps[i - 1]
      case Left(act) => TidyFrom(ss[0].a, ss[0].b, s.a, s.b, act);
      case Right(act) => TidyTo(ss[0].a, ss[0].b, s.a, s.b, act);
    } else {
      FreshTidy(ss[0].a, ss[0].b);
    }
  }

  lemma FreshTidy(x: Side, y: Side)
    requires IsFresh(x) && IsFresh(y)
    ensures Tidy(y, x, y)
  {
  }

  lemma NothingLost(x0: Side, y0: Side, x: Side, y: Side)
    requires Half(x, y) && Half(y, x) && Origin(x0, x, y) && Origin(y0, y, x) && Tidy(y0, x, y) && !Lossy(x0, y0)
    ensures AllArrived(x, y)
  {
    hide Payload;
    Prefix(x, y);
    HalfDelivered(x, y);
  }

  // ---------------------------------------------------------------- something is lost

  /** The socket of `b` may not take what `a` has to say. */
  lemma LostAtSocket(a: Side, b: Side) returns (ss: seq<Pair>, steps: seq<Step>)
    requires Init(Pair(a, b)) && a.input != [] && (b.closes || b.deaf)
    ensures Run(ss, steps) && ss[0] == Pair(a, b) && !AllArrived(Last(ss).a, Last(ss).b)
  {
    hide Run;
    ss, steps := RightSpeaks(b, a);
    assert Last(ss).b.sent[0] in Last(ss).b.sent;
    ss, steps := FailToWrite(ss, steps);
    ss, steps := Leave(ss, steps);
    ss, steps := MirrorRun(ss, steps);
  }

  /** The left side has sent one chunk and holds the next. */
  lemma HoldTwo(ss: seq<Pair>, steps: seq<Step>) returns (ss': seq<Pair>, steps': seq<Step>)
    requires Run(ss, steps) && Speaks(Last(ss).a) && |Last(ss).a.input| >= 2 && Last(ss).a.sent == []
    ensures Run(ss', steps') && ss'[0] == ss[0] && Last(ss').b == Last(ss).b
    ensures var x, x' := Last(ss).a, Last(ss').a;
            && x'.reader.Sending? && x'.sent == [Chunk(x.input[..1])]
            && x' == x.(reader := x'.reader, sent := x'.sent, input := x'.input, read := x'.read)
  {
    hide Run;
    ss', steps' := SayOne(ss, steps);
    ss', steps' := Extend(ss', steps', Left(StartRead));
    ss', steps' := Extend(ss', steps', Left(ReadData(1)));
  }

  /** The send of the right side fails, and it leaves without taking what waits for it. */
  lemma Abandon(ss: seq<Pair>, steps: seq<Step>) returns (ss': seq<Pair>, steps': seq<Step>)
    requires Run(ss, steps) && Last(ss).a.finished && Last(ss).a.serves && !Last(ss).b.finished
    requires Last(ss).b.reader.Sending? && Last(ss).b.writer.WTop?
    ensures Run(ss', steps') && ss'[0] == ss[0] && Last(ss').a == Last(ss).a
    ensures var y := Last(ss).b;
            Last(ss').b ==
            y.(reader := RStopped, writer := WStopped, sendFailed := true, finished := true, connOpen := false)
  {
    hide Run;
    ss', steps' := Extend(ss, steps, Right(SendFail));
    ss', steps' := Extend(ss', steps', Right(StartReceive));
    ss', steps' := Extend(ss', steps', Right(Finish));
  }

  /**
   * Bytes can be lost at a socket that works. A write of the serving side fails, and it leaves. The other side's
   * send then fails, which cancels its group, and its writer leaves before it takes the frames that wait for it.
   */
  lemma LostAfterWriteFailure(a: Side, b: Side) returns (ss: seq<Pair>, steps: seq<Step>)
    requires Init(Pair(a, b)) && a.serves && a.input != [] && (a.closes || a.deaf) && |b.input| >= 2
    ensures Run(ss, steps) && ss[0] == Pair(a, b) && !AllArrived(Last(ss).a, Last(ss).b)
    ensures var s := Last(ss); s.a.finished && s.b.finished && !s.b.writeFailed && s.b.sendFailed
  {
    hide Run;
    ss, steps := Start(b, a);
    ss, steps := HoldTwo(ss, steps);
    ss, steps := MirrorRun(ss, steps);
    ss, steps := SayOne(ss, steps);
    ss, steps := FailToWrite(ss, steps);
    ss, steps := Leave(ss, steps);
    ss, steps := Abandon(ss, steps);
  }

  // ---------------------------------------------------------------- exactly when

  lemma MayLose(a: Side, b: Side) returns (ss: seq<Pair>, steps: seq<Step>)
    requires Init(Pair(a, b)) && Lossy(a, b)
    ensures Run(ss, steps) && ss[0] == Pair(a, b) && !AllArrived(Last(ss).a, Last(ss).b)
  {
    hide Run, AllArrived;
    if b.closes || b.deaf {
      ss, steps := LostAtSocket(a, b);
    } else {
      ss, steps := LostAfterWriteFailure(a, b);
    }
  }

  /** In every state of every run all that was read at the left side has arrived when the right socket is closed. */
  ghost predicate Arrives(a: Side, b: Side) {
    forall ss, steps | Run(ss, steps) && ss[0] == Pair(a, b) :: AllArrived(Last(ss).a, Last(ss).b)
  }

  ghost predicate ArrivesBack(a: Side, b: Side) {
    forall ss, steps | Run(ss, steps) && ss[0] == Pair(a, b) :: AllArrived(Last(ss).b, Last(ss).a)
  }

  lemma ArrivesIff(a: Side, b: Side)
    requires Init(Pair(a, b))
    ensures Arrives(a, b) <==> !Lossy(a, b)
  {
    hide Run, AllArrived, Lossy, Half, Origin, Tidy;
    if Lossy(a, b) {
      var ss, steps := MayLose(a, b);
    } else {
      forall ss, steps | Run(ss, steps) && ss[0] == Pair(a, b)
        ensures AllArrived(Last(ss).a, Last(ss).b)
      {
        RunOrigin(ss, steps, |steps|);
        RunTidy(ss, steps, |steps|);
        NothingLost(a, b, Last(ss).a, Last(ss).b);
      }
    }
  }

  lemma MirrorArrives(a: Side, b: Side)
    requires Arrives(b, a)
    ensures ArrivesBack(a, b)
  {
    hide Run, AllArrived;
    forall ss, steps | Run(ss, steps) && ss[0] == Pair(a, b)
      ensures AllArrived(Last(ss).b, Last(ss).a)
    {
      var ss', steps' := MirrorRun(ss, steps);
    }
  }

  lemma MirrorBack(a: Side, b: Side)
    requires ArrivesBack(a, b)
    ensures Arrives(b, a)
  {
    hide Run, AllArrived;
    forall ss, steps | Run(ss, steps) && ss[0] == Pair(b, a)
      ensures AllArrived(Last(ss).a, Last(ss).b)
    {
      var ss', steps' := MirrorRun(ss, steps);
    }
  }

  /**
   * Exactly when nothing is lost, each direction for itself: in every state of every run all that was read at one
   * side has been written to the other by the time that socket is closed, if and only if the two applications
   * are not such that it may be lost.
   */
  lemma LosslessIff(a: Side, b: Side)
    requires Init(Pair(a, b))
    ensures Arrives(a, b) <==> !Lossy(a, b)
    ensures ArrivesBack(a, b) <==> !Lossy(b, a)
  {
    hide Arrives, ArrivesBack, Lossy;
    ArrivesIff(a, b);
    ArrivesIff(b, a);
    if Arrives(b, a) {
      MirrorArrives(a, b);
    }
    if ArrivesBack(a, b) {
      MirrorBack(a, b);
    }
  }
}
