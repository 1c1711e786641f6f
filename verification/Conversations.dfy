/** Runs of the socket proxy put together from their parts, for all inputs. */
module Conversations {
  import opened Proxy

  function Last(ss: seq<Pair>): Pair
    requires ss != []
  {
    ss[|ss| - 1]
  }

  lemma Start(a: Side, b: Side) returns (ss: seq<Pair>, steps: seq<Step>)
    requires Init(Pair(a, b))
    ensures Run(ss, steps) && ss[0] == Last(ss) == Pair(a, b)
  {
    ss, steps := [Pair(a, b)], [];
  }

  lemma Extend(ss: seq<Pair>, steps: seq<Step>, step: Step) returns (ss': seq<Pair>, steps': seq<Step>)
    requires Run(ss, steps) && Enabled(Last(ss), step)
    ensures Run(ss', steps') && ss < ss' && ss'[0] == ss[0] && Last(ss') == After(Last(ss), step)
  {
    hide Enabled, After;
    ss', steps' := ss + [After(Last(ss), step)], steps + [step];
  }

  // ---------------------------------------------------------------- the two sides change places

  function Mirror(s: Pair): Pair {
    Pair(s.b, s.a)
  }

  function MirrorStep(step: Step): Step {
    match step case Left(act) => Right(act) case Right(act) => Left(act)
  }

  lemma MirrorRun(ss: seq<Pair>, steps: seq<Step>) returns (ss': seq<Pair>, steps': seq<Step>)
    requires Run(ss, steps)
    ensures Run(ss', steps') && ss'[0] == Mirror(ss[0]) && Last(ss') == Mirror(Last(ss))
  {
    hide Can, Done;
    ss' := seq(|ss|, i requires 0 <= i < |ss| => Mirror(ss[i]));
    steps' := seq(|steps|, i requires 0 <= i < |steps| => MirrorStep(steps[i]));
    forall i | 0 <= i < |steps'|
      ensures Enabled(ss'[i], steps'[i]) && ss'[i + 1] == After(ss'[i], steps'[i])
    {
      assert Enabled(ss[i], steps[i]) && ss[i + 1] == After(ss[i], steps[i]);
    }
  }

  // ---------------------------------------------------------------- speaking and listening

  /** At the top of both loops, with nothing gone wrong. */
  predicate Speaks(x: Side) {
    x.reader.RTop? && x.connOpen && !x.Cancelled()
  }

  /** One byte read and sent. */
  function Spoken(x: Side): Side
    requires x.input != []
  {
    x.(input := x.input[1..], read := x.read + x.input[..1], sent := x.sent + [Chunk(x.input[..1])])
  }

  lemma SayOne(ss: seq<Pair>, steps: seq<Step>) returns (ss': seq<Pair>, steps': seq<Step>)
    requires Run(ss, steps) && Speaks(Last(ss).a) && Last(ss).a.input != []
    ensures Run(ss', steps') && ss'[0] == ss[0] && Last(ss') == Pair(Spoken(Last(ss).a), Last(ss).b)
  {
    hide Run;
    ss', steps' := Extend(ss, steps, Left(StartRead));
    ss', steps' := Extend(ss', steps', Left(ReadData(1)));
    ss', steps' := Extend(ss', steps', Left(SendOk));
  }

  /** Frames with something in them, as a reader sends them. */
  predicate Filled(fs: seq<Frame>) {
    forall f | f in fs :: f.Chunk? && f.bytes != []
  }

  /** All input of `x` is read and sent, and it waits for more. */
  predicate SaidAll(x: Side, x': Side) {
    && x' == x.(reader := Reading, input := [], read := x.read + x.input, sent := x'.sent)
    && |x'.sent| >= |x.sent| && (Filled(x.sent) ==> Filled(x'.sent)) && (x.input != [] ==> x'.sent != [])
  }

  lemma {:induction false} Speak(ss: seq<Pair>, steps: seq<Step>) returns (ss': seq<Pair>, steps': seq<Step>)
    requires Run(ss, steps) && Speaks(Last(ss).a)
    ensures Run(ss', steps') && ss'[0] == ss[0] && Last(ss').b == Last(ss).b && SaidAll(Last(ss).a, Last(ss').a)
    decreases |Last(ss).a.input|
  {
    var x := Last(ss).a;
    hide Run;
    if x.input == [] {
      ss', steps' := Extend(ss, steps, Left(StartRead));
      assert x.read + x.input == x.read;
    } else {
      ss', steps' := SayOne(ss, steps);
      ss', steps' := Speak(ss', steps');
      assert x.read + x.input == x.read + x.input[..1] + x.input[1..];
      assert Filled(x.sent) ==> Filled(Spoken(x).sent);
    }
  }

  /** All frames of the peer are taken and written. */
  lemma {:induction false} Listen(ss: seq<Pair>, steps: seq<Step>) returns (ss': seq<Pair>, steps': seq<Step>)
    requires Run(ss, steps) && Last(ss).a.writer.WTop? && !Last(ss).a.Cancelled()
    requires Last(ss).a.taken <= |Last(ss).b.sent| && Filled(Last(ss).b.sent)
    ensures Run(ss', steps') && ss'[0] == ss[0] && Last(ss').b == Last(ss).b
    ensures Last(ss').a ==
            Last(ss).a.(writer := Receiving, taken := |Last(ss).b.sent|, wrote := Last(ss').a.wrote)
    decreases |Last(ss).b.sent| - Last(ss).a.taken
  {
    var x, y := Last(ss).a, Last(ss).b;
    hide Run;
    ss', steps' := Extend(ss, steps, Left(StartReceive));
    if x.taken < |y.sent| {
      assert y.sent[x.taken] in y.sent;
      ss', steps' := Extend(ss', steps', Left(Receive));
      ss', steps' := Extend(ss', steps', Left(WriteOk));
      ss', steps' := Listen(ss', steps');
    }
  }

  /** The first frame of the peer is taken and cannot be written. */
  lemma FailToWrite(ss: seq<Pair>, steps: seq<Step>) returns (ss': seq<Pair>, steps': seq<Step>)
    requires Run(ss, steps) && Last(ss).a.writer.WTop? && !Last(ss).a.Cancelled() && Last(ss).a.taken == 0
    requires Last(ss).a.closes || Last(ss).a.deaf
    requires Last(ss).b.sent != [] && Last(ss).b.sent[0].Chunk? && Last(ss).b.sent[0].bytes != []
    ensures Run(ss', steps') && ss'[0] == ss[0] && Last(ss').b == Last(ss).b
    ensures Last(ss').a == Last(ss).a.(writer := WStopped, taken := 1, writeFailed := true)
  {
    var x := Last(ss).a;
    hide Run;
    ss', steps' := Extend(ss, steps, Left(StartReceive));
    ss', steps' := Extend(ss', steps', Left(Receive));
    ss', steps' := Extend(ss', steps', Left(WriteFail(0)));
    assert Last(ss').a.wrote == x.wrote;
  }

  /** A side that is cancelled leaves from the tops of its loops. */
  lemma Leave(ss: seq<Pair>, steps: seq<Step>) returns (ss': seq<Pair>, steps': seq<Step>)
    requires Run(ss, steps) && Last(ss).a.Cancelled() && Last(ss).a.reader.RTop? && Last(ss).a.writer.WStopped?
    requires !Last(ss).a.finished
    ensures Run(ss', steps') && ss'[0] == ss[0] && Last(ss').b == Last(ss).b
    ensures Last(ss').a == Last(ss).a.(reader := RStopped, finished := true, connOpen := false)
  {
    hide Run;
    ss', steps' := Extend(ss, steps, Left(StartRead));
    ss', steps' := Extend(ss', steps', Left(Finish));
  }
}
