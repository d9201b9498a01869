/** The bytes that flow through a channel, and how the message logs grow. */
module ChannelContents {
  import opened Numbers
  import opened Channel
  import opened ChannelRun

  // ----- How logs grow

  predicate Longer(log: Log, log': Log) {
    log.messages <= log'.messages && (log.Valid() ==> log'.Valid())
  }

  lemma AppendLonger(log: Log, m: Message)
    ensures Longer(log, log.Append(m))
  {
    assert log.Append(m).messages[..|log.messages|] == log.messages;
  }

  lemma LongerTrans(a: Log, b: Log, c: Log)
    requires Longer(a, b) && Longer(b, c)
    ensures Longer(a, c)
  {
  }

  lemma AdvanceAbove(d: Digest, whole: Digest, m: Message)
    requires Below(d, whole)
    ensures Below(d, Advance(whole, m))
  {
  }

  lemma {:induction false} PrefixBelow(part: seq<Message>, log: seq<Message>)
    requires part <= log
    ensures Below(Sum(part), Sum(log))
  {
    if |part| == |log| {
      assert part == log;
    } else {
      var front := log[..|log| - 1];
      PrefixBelow(part, front);
      AdvanceAbove(Sum(part), Sum(front), log[|log| - 1]);
    }
  }

  // ----- Contents

  predicate IsDeliverable(m: Message) {
    IsData(m) && !CarriesUnknownData(m) && m.payload != []
  }

  /** The messages a receiver should get: non-empty data of a known kind, up to
      the first CLOSE. */
  function Deliverable(log: seq<Message>): seq<Message> {
    if log == [] then []
    else
      var front, m := log[..|log| - 1], log[|log| - 1];
      Deliverable(front) + (if IsDeliverable(m) && !Sum(front).close then [m] else [])
  }

  /** The bytes of the ordinary data messages. */
  function Ordinary(log: seq<Message>): seq<Byte> {
    if log == [] then []
    else Ordinary(log[..|log| - 1]) + (if log[|log| - 1].Data? then log[|log| - 1].payload else [])
  }

  lemma Snoc(log: seq<Message>, m: Message)
    ensures Ordinary(log + [m]) == Ordinary(log) + (if m.Data? then m.payload else [])
    ensures Deliverable(log + [m]) == Deliverable(log) + (if IsDeliverable(m) && !Sum(log).close then [m] else [])
  {
    assert (log + [m])[..|log|] == log;
  }

  /** This end never closed early, so it got everything that arrived. */
  predicate Faithful(e: Endpoint) {
    !e.flags.sentClose || (!e.status.aborted && !e.flags.noWait)
  }

  /** Every byte passed on is at the socket or waiting in the buffer, and what
      was passed on is what arrived, until this end closes early. */
  predicate Stream(e: Endpoint) {
    && e.write.sunk + e.write.buffer == Ordinary(e.delivered)
    && e.delivered <= Deliverable(e.read.messages)
    && (Faithful(e) ==> e.delivered == Deliverable(e.read.messages))
  }

  // ----- Updates that write messages but move no data

  predicate Quiet(e: Endpoint, e': Endpoint) {
    && Longer(e.sent, e'.sent) && e'.read == e.read && e'.delivered == e.delivered
    && e'.write.buffer == e.write.buffer && e'.write.sunk == e.write.sunk
    && (Faithful(e') ==> Faithful(e))
  }

  lemma QuietTrans(a: Endpoint, b: Endpoint, c: Endpoint)
    requires Quiet(a, b) && Quiet(b, c)
    ensures Quiet(a, c)
  {
    LongerTrans(a.sent, b.sent, c.sent);
  }

  lemma CloseQuiet(e: Endpoint)
    ensures Quiet(e, CloseChannel(e))
  {
    AppendLonger(e.sent, Close);
  }

  lemma AbortQuiet(e: Endpoint)
    ensures Quiet(e, Abort(e))
  {
    var a := e.(status := e.status.(aborted := e.status.aborted || !e.flags.sentClose));
    AppendLonger(e.sent, Close);
  }

  lemma ShutdownQuiet(e: Endpoint)
    ensures Quiet(e, Shutdown(e))
  {
    if e.sinks > 0 {
      CloseQuiet(e.(sinks := e.sinks - 1));
    }
  }

  lemma SendEofQuiet(e: Endpoint)
    ensures Quiet(e, SendEof(e))
  {
    var w := Write(e.(flags := e.flags.(sentEof := true)), Eof);
    AppendLonger(e.sent, Eof);
    CloseQuiet(w);
    QuietTrans(e, w, CloseChannel(w));
  }

  lemma AdjustQuiet(e: Endpoint, add: nat)
    ensures Quiet(e, SendWindowAdjust(e, add))
  {
    AppendLonger(e.sent, Adjust(add));
  }

  lemma SettleQuiet(e: Endpoint, done: nat)
    ensures Quiet(e, Settle(e, done))
  {
    var q := e.(write := e.write.(active := e.write.buffer != []));
    AdjustQuiet(q, done);
    var w := AdjustRecWindow(q, done);
    ShutdownQuiet(w);
    QuietTrans(e, w, Shutdown(w));
  }

  lemma IoReadQuiet(e: Endpoint, kind: nat, o: ReadOutcome)
    requires ReadLimit(e) > 0 ==> ReadOutcomeOk(ReadLimit(e), o)
    ensures Quiet(e, IoRead(e, kind, o))
  {
    match o
    case ReadFailed => AbortQuiet(e);
    case ReadEof =>
      if e.sources > 0 {
        SendEofQuiet(e.(sources := e.sources - 1, reading := false));
      }
    case Read(bytes) => AppendLonger(e.sent, if kind == 0 then Data(bytes) else Extended(kind, bytes));
  }

  lemma HandleEofQuiet(e: Endpoint)
    ensures Quiet(e, HandleEof(e))
  {
    var r := e.(flags := e.flags.(recvEof := true));
    ShutdownQuiet(r);
    var x := if r.write.buffer == [] then Shutdown(r) else r;
    CloseQuiet(x);
    QuietTrans(e, x, MaybeClose(x));
  }

  lemma HandleCloseQuiet(e: Endpoint)
    ensures Quiet(e, HandleClose(e))
  {
    CloseQuiet(e.(flags := e.flags.(recvClose := true)));
  }

  lemma QuietStream(e: Endpoint, e': Endpoint)
    requires Stream(e) && Quiet(e, e')
    ensures Stream(e')
  {
  }

  // ----- Steps keep the contents

  lemma FlushStream(e: Endpoint, o: WriteOutcome)
    requires Stream(e) && WriteOutcomeOk(|e.write.buffer|, o)
    ensures Stream(IoFlush(e, o)) && Longer(e.sent, IoFlush(e, o).sent) && IoFlush(e, o).read == e.read
  {
    match o
    case WouldBlock =>
    case WriteFailed =>
      AbortQuiet(e);
      QuietStream(e, Abort(e));
    case Wrote(n) =>
      var b := e.(write := Push(e.write, [], n));
      assert b.write.sunk + b.write.buffer == e.write.sunk + e.write.buffer;
      SettleQuiet(b, n);
      QuietStream(b, Settle(b, n));
  }

  /** Reading `m` and taking nothing from it: it holds no data for this end, or
      this end closed early. */
  lemma SkipStream(l: Endpoint, m: Message, r: Endpoint)
    requires Stream(l) && l.read.Valid() && Core(l, r) && Pending(l, m, r)
    requires !IsDeliverable(m) || !IsActive(l) || l.flags.sentClose
    ensures Stream(l.(read := l.read.Append(m)))
  {
    Snoc(l.read.messages, m);
  }

  lemma TakenStream(l: Endpoint, m: Message, w: WriteState)
    requires Stream(l) && l.read.Valid() && IsDeliverable(m) && !l.flags.sentClose && !l.read.sum.close
    requires |m.payload| <= l.rec.size
    requires w.sunk + w.buffer == l.write.sunk + l.write.buffer + (if m.Data? then m.payload else [])
    ensures Stream(Taken(l, m, w))
  {
    Snoc(l.read.messages, m);
    Snoc(l.delivered, m);
  }

  lemma PushKeepsBytes(w: WriteState, data: seq<Byte>, done: nat)
    requires done <= |w.buffer| + |data|
    ensures Push(w, data, done).sunk + Push(w, data, done).buffer == w.sunk + w.buffer + data
  {
  }

  predicate Moved(l: Endpoint, m: Message, e: Endpoint) {
    Stream(e) && Longer(l.sent, e.sent) && e.read == l.read.Append(m)
  }

  lemma TakenMoves(l: Endpoint, m: Message, w: WriteState, e: Endpoint)
    requires IsDeliverable(m) && |m.payload| <= l.rec.size
    requires Stream(Taken(l, m, w)) && Quiet(Taken(l, m, w), e)
    ensures Moved(l, m, e)
  {
    QuietStream(Taken(l, m, w), e);
  }

  lemma OrdinaryDataStream(l: Endpoint, m: Message, o: WriteOutcome)
    requires Stream(l) && l.read.Valid() && m.Data? && IsDeliverable(m) && !l.flags.sentClose && !l.read.sum.close
    requires Accepted(l, m) == |m.payload| <= l.rec.size && |l.write.buffer| + |m.payload| <= l.write.capacity
    requires WriteOutcomeOk(|l.write.buffer| + |m.payload|, o)
    ensures Moved(l, m, ReceiveData(l.(read := l.read.Append(m)), m, o))
  {
    TakenWhole(l, m, o);
    var w := Push(l.write, m.payload, Done(o));
    var t := Taken(l, m, w);
    PushKeepsBytes(l.write, m.payload, Done(o));
    TakenStream(l, m, w);
    if o.WriteFailed? {
      AbortQuiet(t);
      TakenMoves(l, m, w, Abort(t));
    } else {
      SettleQuiet(t, Done(o));
      TakenMoves(l, m, w, Settle(t, Done(o)));
    }
  }

  lemma ReceiveDataStream(l: Endpoint, m: Message, o: WriteOutcome, r: Endpoint)
    requires Stream(l) && l.read.Valid() && Core(l, r) && IsData(m) && Pending(l, m, r)
    requires IsActive(l) && !CarriesUnknownData(m)
    requires Accepted(l, m) > 0 ==> WriteOutcomeOk(|l.write.buffer| + Accepted(l, m), o)
    ensures Moved(l, m, ReceiveData(l.(read := l.read.Append(m)), m, o))
  {
    if l.flags.sentClose || m.payload == [] {
      SkipStream(l, m, r);
    } else {
      NeverTruncated(l, m, r);
      if m.Extended? {
        assert m.payload[..|m.payload|] == m.payload;
        TakenStream(l, m, l.write);
      } else {
        OrdinaryDataStream(l, m, o);
      }
    }
  }

  lemma QuietMoved(l: Endpoint, m: Message, q: Endpoint, e: Endpoint)
    requires q == l.(read := l.read.Append(m)) && Stream(q) && Quiet(q, e)
    ensures Moved(l, m, e)
  {
    QuietStream(q, e);
  }

  /** A message that is not taken for data. */
  lemma ControlStream(l: Endpoint, m: Message, o: WriteOutcome, r: Endpoint)
    requires Stream(l) && l.read.Valid() && Core(l, r) && Pending(l, m, r) && !IsData(m)
    ensures Moved(l, m, Handle(l, m, o))
  {
    var q := l.(read := l.read.Append(m));
    SkipStream(l, m, r);
    match m {
      case Open(w, p) => OpenMoves(l, m, q);
      case Confirm(w, p) => QuietMoved(l, m, q, HandleConfirm(q, w, p));
      case Adjust(n) => QuietMoved(l, m, q, HandleAdjust(q, n));
      case Eof =>
        HandleEofQuiet(q);
        QuietMoved(l, m, q, HandleEof(q));
      case Close =>
        HandleCloseQuiet(q);
        QuietMoved(l, m, q, HandleClose(q));
    }
  }

  lemma OpenMoves(l: Endpoint, m: Message, q: Endpoint)
    requires m.Open? && q == l.(read := l.read.Append(m)) && Stream(q)
    ensures Moved(l, m, HandleOpen(q, m.window, m.maxPacket))
  {
    AppendLonger(l.sent, Confirm(q.rec.size, Min(q.rec.maxPacket, MAX_DATA_SIZE)));
    QuietMoved(l, m, q, HandleOpen(q, m.window, m.maxPacket));
  }

  lemma HandleStream(l: Endpoint, m: Message, o: WriteOutcome, r: Endpoint)
    requires Stream(l) && l.read.Valid() && Core(l, r) && Pending(l, m, r)
    requires IsData(m) && Accepted(l, m) > 0 ==> WriteOutcomeOk(|l.write.buffer| + Accepted(l, m), o)
    ensures Moved(l, m, Handle(l, m, o))
  {
    if !IsData(m) {
      ControlStream(l, m, o, r);
    } else if IsActive(l) && !CarriesUnknownData(m) {
      ReceiveDataStream(l, m, o, r);
    } else {
      SkipStream(l, m, r);
    }
  }
}
