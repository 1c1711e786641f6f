/**
 * The socket proxy: two sides, each with a local socket and two goroutines, joined by two reliable
 * streams of frames (`socketproxy/transport.go`, `socketproxy/controller.go`).
 */
module Proxy {
  import opened Wrappers

  /** `socketReadChunkSize`. */
  const READ_SIZE: nat := 32 * 1024

  datatype Frame = Chunk(bytes: seq<Byte>) | Eof

  /** Socket to stream: at the top of its loop, in a read, in a send, or returned. */
  datatype Reader = RTop | Reading | Sending(frame: Frame) | RStopped

  /** Stream to socket. */
  datatype Writer = WTop | Receiving | Writing(payload: seq<Byte>) | WStopped

  /**
   * One side. The application at its socket has `input` left to say, then closes or stays silent; it may
   * be deaf, that is, have shut down its receiving half. `read` and `wrote` are the bytes that went
   * through the socket, `sent` the frames put on the stream, `taken` how many of the peer's were received. One
   * of two sides serves the call, the other made it.
   */
  datatype Side = Side(input: seq<Byte>, closes: bool, deaf: bool, serves: bool, connOpen: bool, reader: Reader,
                       writer: Writer, read: seq<Byte>, wrote: seq<Byte>, sent: seq<Frame>, taken: nat,
                       readEnded: bool, writeFailed: bool, sendFailed: bool, recvFailed: bool, finished: bool)
  {
    /** The context of the group is cancelled by the first goroutine that returns an error. */
    predicate Cancelled() {
      writeFailed || sendFailed || recvFailed
    }
  }

  function Fresh(input: seq<Byte>, closes: bool, deaf: bool, serves: bool): Side {
    Side(input, closes, deaf, serves, true, RTop, WTop, [], [], [], 0, false, false, false, false, false)
  }

  datatype Action =
    | StartRead | ReadData(n: nat) | ReadEnd | SendOk | SendFail
    | StartReceive | Receive | ReceiveFail | WriteOk | WriteFail(n: nat)
    | Finish

  /**
   * What side `x` may do next to its peer `y`. A cancelled context is looked at only at the top of a loop. When the
   * serving side is done the call is over, and sends to it may fail; the other side only closes its direction.
   */
  predicate Can(x: Side, y: Side, a: Action) {
    match a
    case StartRead => x.reader.RTop?
    case ReadData(n) => x.reader.Reading? && x.connOpen && 1 <= n <= |x.input| && n <= READ_SIZE
    case ReadEnd => x.reader.Reading? && (!x.connOpen || x.closes)
    case SendOk => x.reader.Sending?
    case SendFail => x.reader.Sending? && y.finished && y.serves
    case StartReceive => x.writer.WTop?
    case Receive => x.writer.Receiving? && x.taken < |y.sent|
    case ReceiveFail => x.writer.Receiving? && x.taken == |y.sent| && y.finished
    case WriteOk => x.writer.Writing?
    case WriteFail(n) => x.writer.Writing? && (x.closes || x.deaf) && n <= |x.writer.payload|
    case Finish => x.reader.RStopped? && x.writer.WStopped? && !x.finished
  }

  /** A frame arrives: the end closes the socket, an empty chunk is passed over. */
  function Taken(x: Side, f: Frame): Side {
    var w := match f case Eof => WStopped case Chunk(p) => if |p| == 0 then WTop else Writing(p);
    x.(taken := x.taken + 1, connOpen := x.connOpen && f.Chunk?, writer := w)
  }

  function Done(x: Side, y: Side, a: Action): Side
    requires Can(x, y, a)
  {
    match a
    case StartRead => x.(reader := if x.Cancelled() then RStopped else Reading)
    case ReadData(n) => x.(reader := Sending(Chunk(x.input[..n])), read := x.read + x.input[..n], input := x.input[n..])
    case ReadEnd => x.(reader := Sending(Eof), readEnded := true)
    case SendOk => x.(reader := if x.reader.frame.Eof? then RStopped else RTop, sent := x.sent + [x.reader.frame])
    case SendFail => x.(reader := RStopped, sendFailed := true)
    case StartReceive => x.(writer := if x.Cancelled() then WStopped else Receiving)
    case Receive => Taken(x, y.sent[x.taken])
    case ReceiveFail => x.(writer := WStopped, recvFailed := true)
    case WriteOk => x.(writer := WTop, wrote := x.wrote + x.writer.payload)
    case WriteFail(n) => x.(writer := WStopped, writeFailed := true, wrote := x.wrote + x.writer.payload[..n])
    case Finish => x.(finished := true, connOpen := false)
  }

  datatype Pair = Pair(a: Side, b: Side)

  datatype Step = Left(action: Action) | Right(action: Action)

  predicate Enabled(s: Pair, step: Step) {
    match step case Left(act) => Can(s.a, s.b, act) case Right(act) => Can(s.b, s.a, act)
  }

  function After(s: Pair, step: Step): Pair
    requires Enabled(s, step)
  {
    match step
    case Left(act) => s.(a := Done(s.a, s.b, act))
    case Right(act) => s.(b := Done(s.b, s.a, act))
  }

  predicate IsFresh(x: Side) {
    x == Fresh(x.input, x.closes, x.deaf, x.serves)
  }

  predicate Init(s: Pair) {
    IsFresh(s.a) && IsFresh(s.b) && s.a.serves != s.b.serves
  }

  // ---------------------------------------------------------------- what the frames carry

  function Payload(fs: seq<Frame>): seq<Byte> {
    if fs == [] then []
    else Payload(fs[..|fs| - 1]) + (match fs[|fs| - 1] case Chunk(p) => p case Eof => [])
  }

  lemma PayloadSnoc(fs: seq<Frame>, f: Frame)
    ensures Payload(fs + [f]) == Payload(fs) + (match f case Chunk(p) => p case Eof => [])
  {
    assert (fs + [f])[..|fs|] == fs;
  }

  lemma {:induction false} PayloadPrefix(fs: seq<Frame>, n: nat)
    requires n <= |fs|
    ensures Payload(fs[..n]) <= Payload(fs)
  {
    if n == |fs| {
      assert fs[..n] == fs;
    } else {
      PayloadPrefix(fs[..|fs| - 1], n);
      assert fs[..|fs| - 1][..n] == fs[..n];
    }
  }

  predicate EofSent(x: Side) {
    x.sent != [] && x.sent[|x.sent| - 1].Eof?
  }

  /** `y` has received everything `x` had to say, down to its end. */
  predicate TookEof(x: Side, y: Side) {
    EofSent(x) && y.taken == |x.sent|
  }

  // ---------------------------------------------------------------- invariants

  /** The socket of `x` and the frames it sent. */
  ghost predicate Sends(x: Side) {
    && (forall i | 0 <= i < |x.sent| - 1 :: x.sent[i].Chunk?)
    && (EofSent(x) ==> x.reader.RStopped? && x.readEnded)
    && Payload(x.sent) <= x.read
    && (match x.reader
        case Sending(Chunk(p)) => Payload(x.sent) + p == x.read && !x.readEnded
        case Sending(Eof) => Payload(x.sent) == x.read && x.readEnded
        case RStopped =>
          && (EofSent(x) ==> Payload(x.sent) == x.read)
          && (EofSent(x) || x.Cancelled())
          && (x.readEnded ==> EofSent(x) || x.sendFailed)
        case _ => Payload(x.sent) == x.read && !x.readEnded)
  }

  /** The frames of `x` that `y` took, and what it wrote of them. */
  ghost predicate Takes(x: Side, y: Side) {
    && y.taken <= |x.sent|
    && y.wrote <= Payload(x.sent[..y.taken])
    && (TookEof(x, y) ==> y.writer.WStopped? && !y.connOpen && y.wrote == Payload(x.sent))
    && (match y.writer
        case Writing(p) => y.wrote + p == Payload(x.sent[..y.taken])
        case WStopped => TookEof(x, y) || y.Cancelled()
        case _ => y.wrote == Payload(x.sent[..y.taken]))
    && (!y.connOpen ==> TookEof(x, y) || y.finished)
  }

  /** Why a side stopped. */
  ghost predicate Stops(x: Side, y: Side) {
    && (x.finished ==> x.reader.RStopped? && x.writer.WStopped? && !x.connOpen)
    && (x.writeFailed ==> x.writer.WStopped? && (x.closes || x.deaf))
    && (x.sendFailed ==> x.reader.RStopped? && y.finished && y.serves)
    && (x.recvFailed ==> x.writer.WStopped? && y.finished && !EofSent(y) && x.wrote == Payload(y.sent))
  }

  /** Nothing is cut short unless a write to a socket fails. */
  ghost predicate Clean(x: Side, y: Side) {
    !x.writeFailed && !y.writeFailed ==>
      && !x.sendFailed && !x.recvFailed
      && (x.finished ==> EofSent(x) && TookEof(y, x))
  }

  ghost predicate Half(x: Side, y: Side) {
    Sends(x) && Takes(y, x) && Stops(x, y) && Clean(x, y)
  }

  ghost predicate Inv(s: Pair) {
    Half(s.a, s.b) && Half(s.b, s.a)
  }

  lemma StartReadKeeps(x: Side, y: Side)
    requires Half(x, y) && Half(y, x) && Can(x, y, StartRead)
    ensures Half(Done(x, y, StartRead), y) && Half(y, Done(x, y, StartRead))
  {
    hide Payload;
  }

  lemma ReadDataKeeps(x: Side, y: Side, n: nat)
    requires Half(x, y) && Half(y, x) && Can(x, y, ReadData(n))
    ensures Half(Done(x, y, ReadData(n)), y) && Half(y, Done(x, y, ReadData(n)))
  {
    hide Payload;
  }

  lemma ReadEndKeeps(x: Side, y: Side)
    requires Half(x, y) && Half(y, x) && Can(x, y, ReadEnd)
    ensures Half(Done(x, y, ReadEnd), y) && Half(y, Done(x, y, ReadEnd))
  {
    hide Payload;
  }

  lemma SendOkKeeps(x: Side, y: Side)
    requires Half(x, y) && Half(y, x) && Can(x, y, SendOk)
    ensures Half(Done(x, y, SendOk), y) && Half(y, Done(x, y, SendOk))
  {
    hide Payload;
    PayloadSnoc(x.sent, x.reader.frame);
    assert Done(x, y, SendOk).sent[..y.taken] == x.sent[..y.taken];
  }

  lemma SendFailKeeps(x: Side, y: Side)
    requires Half(x, y) && Half(y, x) && Can(x, y, SendFail)
    ensures Half(Done(x, y, SendFail), y) && Half(y, Done(x, y, SendFail))
  {
    hide Payload;
  }

  lemma StartReceiveKeeps(x: Side, y: Side)
    requires Half(x, y) && Half(y, x) && Can(x, y, StartReceive)
    ensures Half(Done(x, y, StartReceive), y) && Half(y, Done(x, y, StartReceive))
  {
    hide Payload;
  }

  lemma ReceiveEofKeeps(x: Side, y: Side)
    requires Half(x, y) && Half(y, x) && Can(x, y, Receive) && y.sent[x.taken].Eof?
    ensures Half(Done(x, y, Receive), y) && Half(y, Done(x, y, Receive))
  {
    hide Payload;
    assert x.taken + 1 == |y.sent|;
    assert y.sent[..x.taken] + [Eof] == y.sent == y.sent[..x.taken + 1];
    PayloadSnoc(y.sent[..x.taken], Eof);
  }

  lemma ReceiveChunkKeeps(x: Side, y: Side, p: seq<Byte>)
    requires Half(x, y) && Half(y, x) && Can(x, y, Receive) && y.sent[x.taken] == Chunk(p)
    ensures Half(Done(x, y, Receive), y) && Half(y, Done(x, y, Receive))
  {
    hide Payload;
    var x' := Done(x, y, Receive);
    assert y.sent[..x.taken + 1] == y.sent[..x.taken] + [Chunk(p)];
    PayloadSnoc(y.sent[..x.taken], Chunk(p));
    assert !TookEof(y, x');
  }

  lemma ReceiveKeeps(x: Side, y: Side)
    requires Half(x, y) && Half(y, x) && Can(x, y, Receive)
    ensures Half(Done(x, y, Receive), y) && Half(y, Done(x, y, Receive))
  {
    hide Half, Done;
    match y.sent[x.taken]
    case Eof => ReceiveEofKeeps(x, y);
    case Chunk(p) => ReceiveChunkKeeps(x, y, p);
  }

  lemma ReceiveFailKeeps(x: Side, y: Side)
    requires Half(x, y) && Half(y, x) && Can(x, y, ReceiveFail)
    ensures Half(Done(x, y, ReceiveFail), y) && Half(y, Done(x, y, ReceiveFail))
  {
    hide Payload;
    assert y.sent[..x.taken] == y.sent;
  }

  lemma WriteOkKeeps(x: Side, y: Side)
    requires Half(x, y) && Half(y, x) && Can(x, y, WriteOk)
    ensures Half(Done(x, y, WriteOk), y) && Half(y, Done(x, y, WriteOk))
  {
    hide Payload;
  }

  lemma WriteFailKeeps(x: Side, y: Side, n: nat)
    requires Half(x, y) && Half(y, x) && Can(x, y, WriteFail(n))
    ensures Half(Done(x, y, WriteFail(n)), y) && Half(y, Done(x, y, WriteFail(n)))
  {
    hide Payload;
  }

  lemma FinishKeeps(x: Side, y: Side)
    requires Half(x, y) && Half(y, x) && Can(x, y, Finish)
    ensures Half(Done(x, y, Finish), y) && Half(y, Done(x, y, Finish))
  {
    hide Payload;
  }

  lemma ActionKeeps(x: Side, y: Side, a: Action)
    requires Half(x, y) && Half(y, x) && Can(x, y, a)
    ensures Half(Done(x, y, a), y) && Half(y, Done(x, y, a))
  {
    hide Half, Can, Done;
    match a
    case StartRead => StartReadKeeps(x, y);
    case ReadData(n) => ReadDataKeeps(x, y, n);
    case ReadEnd => ReadEndKeeps(x, y);
    case SendOk => SendOkKeeps(x, y);
    case SendFail => SendFailKeeps(x, y);
    case StartReceive => StartReceiveKeeps(x, y);
    case Receive => ReceiveKeeps(x, y);
    case ReceiveFail => ReceiveFailKeeps(x, y);
    case WriteOk => WriteOkKeeps(x, y);
    case WriteFail(n) => WriteFailKeeps(x, y, n);
    case Finish => FinishKeeps(x, y);
  }

  ghost predicate Run(ss: seq<Pair>, steps: seq<Step>): (r: bool)
    ensures r ==> |ss| == |steps| + 1
  {
    && |ss| == |steps| + 1 && Init(ss[0])
    && forall i | 0 <= i < |steps| :: Enabled(ss[i], steps[i]) && ss[i + 1] == After(ss[i], steps[i])
  }

  lemma {:induction false} RunInv(ss: seq<Pair>, steps: seq<Step>, i: nat)
    requires Run(ss, steps) && i < |ss|
    ensures Inv(ss[i])
  {
    hide Half, Can, Done;
    if i > 0 {
      RunInv(ss, steps, i - 1);
      var s := ss[i - 1];
      match steps[i - 1]
      case Left(act) => ActionKeeps(s.a, s.b, act);
      case Right(act) => ActionKeeps(s.b, s.a, act);
    } else {
      InitHalf(ss[0].a, ss[0].b);
      InitHalf(ss[0].b, ss[0].a);
    }
  }

  lemma InitHalf(x: Side, y: Side)
    requires IsFresh(x) && IsFresh(y)
    ensures Half(x, y)
  {
  }

  // ---------------------------------------------------------------- integrity

  lemma Prefix(x: Side, y: Side)
    requires Half(x, y) && Half(y, x)
    ensures y.wrote <= x.read
  {
    hide Payload;
    PayloadPrefix(x.sent, y.taken);
  }

  /**
   * In every reachable state each socket was written a prefix of what the other one gave, and the end frame
   * comes last.
   */
  lemma Integrity(ss: seq<Pair>, steps: seq<Step>, i: nat)
    requires Run(ss, steps) && i < |ss|
    ensures var s := ss[i];
            && s.b.wrote <= s.a.read && s.a.wrote <= s.b.read
            && (forall k | 0 <= k < |s.a.sent| - 1 :: s.a.sent[k].Chunk?)
            && (forall k | 0 <= k < |s.b.sent| - 1 :: s.b.sent[k].Chunk?)
  {
    hide Can, Done, Payload, Takes, Stops, Clean;
    RunInv(ss, steps, i);
    Prefix(ss[i].a, ss[i].b);
    Prefix(ss[i].b, ss[i].a);
  }

  /** What has arrived at the socket of `y` once it is closed, if nothing failed at `y` itself but receiving. */
  ghost predicate Delivered(x: Side, y: Side) {
    !y.connOpen && !y.writeFailed && !y.sendFailed ==>
      && y.wrote == Payload(x.sent)
      && (EofSent(x) ==> y.wrote == x.read)
      && (!x.writeFailed ==> x.readEnded && y.wrote == x.read)
  }

  lemma HalfDelivered(x: Side, y: Side)
    requires Half(x, y) && Half(y, x)
    ensures Delivered(x, y)
  {
    hide Payload;
  }

  /**
   * Delivery, each direction for itself. When a socket is closed, all frames of the peer were written to
   * it, unless a write to it or a send of its own side failed; if the peer's reading ended, that is all
   * the peer read. If no write failed on either side, the peer's reading has always ended by then.
   */
  lemma FullDelivery(ss: seq<Pair>, steps: seq<Step>, i: nat)
    requires Run(ss, steps) && i < |ss|
    ensures Delivered(ss[i].a, ss[i].b) && Delivered(ss[i].b, ss[i].a)
  {
    hide Can, Done, Payload, Half, Delivered;
    RunInv(ss, steps, i);
    HalfDelivered(ss[i].a, ss[i].b);
    HalfDelivered(ss[i].b, ss[i].a);
  }

  /** Chunks on their way are never empty and fit a read. */
  ghost predicate FramesFit(x: Side) {
    && (forall i | 0 <= i < |x.sent| && x.sent[i].Chunk? :: 0 < |x.sent[i].bytes| <= 32768)
    && (x.reader.Sending? && x.reader.frame.Chunk? ==> 0 < |x.reader.frame.bytes| <= 32768)
  }

  /** In every reachable state no chunk is empty or larger than 32 KiB. */
  lemma {:induction false} ChunkSizes(ss: seq<Pair>, steps: seq<Step>, i: nat)
    requires Run(ss, steps) && i < |ss|
    ensures FramesFit(ss[i].a) && FramesFit(ss[i].b)
  {
    hide Can, Done, FramesFit;
    if i > 0 {
      ChunkSizes(ss, steps, i - 1);
      var s := ss[i - 1];
      match steps[i - 1]
      case Left(act) => ActionFits(s.a, s.b, act);
      case Right(act) => ActionFits(s.b, s.a, act);
    } else {
      FreshFits(ss[0].a);
      FreshFits(ss[0].b);
    }
  }

  lemma ActionFits(x: Side, y: Side, a: Action)
    requires FramesFit(x) && Can(x, y, a)
    ensures FramesFit(Done(x, y, a))
  {
    if a.SendOk? {
      SendFits(x, y);
    } else if a.ReadData? {
      assert |x.input[..a.n]| == a.n;
    } else {
      OthersSend(x, y, a);
    }
  }

  lemma SendFits(x: Side, y: Side)
    requires FramesFit(x) && Can(x, y, SendOk)
    ensures FramesFit(Done(x, y, SendOk))
  {
  }

  lemma OthersSend(x: Side, y: Side, a: Action)
    requires Can(x, y, a) && !a.SendOk? && !a.ReadData?
    ensures var x' := Done(x, y, a);
            x'.sent == x.sent && (x'.reader.Sending? ==> x'.reader == x.reader || x'.reader.frame.Eof?)
  {
    hide Taken;
    match a
    case StartRead =>
    case ReadEnd =>
    case SendFail =>
    case StartReceive =>
    case Receive => TakenSends(x, y.sent[x.taken]);
    case ReceiveFail =>
    case WriteOk =>
    case WriteFail(_) =>
    case Finish =>
  }

  lemma TakenSends(x: Side, f: Frame)
    ensures Taken(x, f).sent == x.sent && Taken(x, f).reader == x.reader
  {
  }

  lemma FreshFits(x: Side)
    requires IsFresh(x)
    ensures FramesFit(x)
  {
  }

  // ---------------------------------------------------------------- every run ends

  function ReaderRank(r: Reader): nat {
    match r case RTop => 7 case Reading => 6 case Sending(Chunk(_)) => 12 case Sending(Eof) => 5 case RStopped => 0
  }

  function WriterRank(w: Writer): nat {
    match w case WTop => 2 case Receiving => 1 case Writing(_) => 3 case WStopped => 0
  }

  function SideRank(x: Side): nat {
    8 * |x.input| + ReaderRank(x.reader) + WriterRank(x.writer) + (if x.finished then 0 else 1)
  }

  /** Every action uses some of this up: input to read, frames to take, loops to leave. */
  function Rank(x: Side, y: Side): int {
    SideRank(x) + SideRank(y) + 4 * (|x.sent| - y.taken) + 4 * (|y.sent| - x.taken)
  }

  lemma ReaderActionRank(x: Side, y: Side, a: Action)
    requires Can(x, y, a) && (a.StartRead? || a.ReadData? || a.ReadEnd? || a.SendOk? || a.SendFail?)
    ensures Rank(Done(x, y, a), y) < Rank(x, y)
  {
    var x' := Done(x, y, a);
    assert x'.writer == x.writer && x'.finished == x.finished && x'.taken == x.taken;
    if a.ReadData? {
      assert |x'.input| == |x.input| - a.n;
    }
    assert |x'.sent| == |x.sent| + if a.SendOk? then 1 else 0;
  }

  lemma TakenMove(x: Side, f: Frame)
    ensures var x' := Taken(x, f);
            && ReaderRank(x'.reader) == ReaderRank(x.reader) && |x'.input| == |x.input|
            && |x'.sent| == |x.sent| && x'.taken == x.taken + 1 && x'.finished == x.finished
  {
    hide ReaderRank;
  }

  lemma WriterRankBound(w: Writer)
    ensures WriterRank(w) <= 3 && WriterRank(Receiving) == 1
  {
  }

  lemma WriterMove(x: Side, y: Side, a: Action)
    requires Can(x, y, a) && (a.StartReceive? || a.ReceiveFail? || a.WriteOk? || a.WriteFail?)
    ensures var x' := Done(x, y, a);
            && ReaderRank(x'.reader) == ReaderRank(x.reader) && |x'.input| == |x.input|
            && |x'.sent| == |x.sent| && x'.taken == x.taken
            && x'.finished == x.finished && WriterRank(x'.writer) < WriterRank(x.writer)
  {
    match x.writer
    case WTop =>
    case Receiving =>
    case Writing(_) =>
    case WStopped =>
  }

  lemma FinishMove(x: Side, y: Side)
    requires Can(x, y, Finish)
    ensures !x.finished && Done(x, y, Finish) == x.(finished := true, connOpen := false)
  {
  }

  lemma WriterActionRank(x: Side, y: Side, a: Action)
    requires Can(x, y, a)
    requires (a.StartReceive? || a.Receive? || a.ReceiveFail? || a.WriteOk? || a.WriteFail? || a.Finish?)
    ensures Rank(Done(x, y, a), y) < Rank(x, y)
  {
    hide WriterRank, ReaderRank, Taken;
    if a.Receive? {
      TakenMove(x, y.sent[x.taken]);
      WriterRankBound(Done(x, y, a).writer);
    } else if a.Finish? {
      FinishMove(x, y);
    } else {
      WriterMove(x, y, a);
    }
  }

  lemma ActionRank(x: Side, y: Side, a: Action)
    requires Can(x, y, a)
    ensures Rank(Done(x, y, a), y) < Rank(x, y)
  {
    hide Can, Done, Rank;
    if a.StartRead? || a.ReadData? || a.ReadEnd? || a.SendOk? || a.SendFail? {
      ReaderActionRank(x, y, a);
    } else {
      WriterActionRank(x, y, a);
    }
  }

  /** Runs are finite: no run is longer than the rank it starts with. */
  lemma {:induction false} RunBounded(ss: seq<Pair>, steps: seq<Step>, i: nat)
    requires Run(ss, steps) && i < |ss|
    ensures i + Rank(ss[i].a, ss[i].b) <= Rank(ss[0].a, ss[0].b) && 0 <= Rank(ss[i].a, ss[i].b)
  {
    hide Can, Done, Half, SideRank;
    RunInv(ss, steps, i);
    TakenBounds(ss[i]);
    if i > 0 {
      RunBounded(ss, steps, i - 1);
      var s := ss[i - 1];
      match steps[i - 1]
      case Left(act) => ActionRank(s.a, s.b, act);
      case Right(act) => ActionRank(s.b, s.a, act);
    }
  }

  lemma TakenBounds(s: Pair)
    requires Inv(s)
    ensures s.b.taken <= |s.a.sent| && s.a.taken <= |s.b.sent|
  {
  }
}
