/** Two endpoints joined by their message logs, every step either can take, and
    what each step keeps. An endpoint's unread mail is the part of its peer's log
    beyond what it has read. */
module ChannelRun {
  import opened Channel

  // ----- Steps

  datatype Action =
    | ReadSocket(kind: nat, read: ReadOutcome)
    | FlushSocket(write: WriteOutcome)
    | Receive(write: WriteOutcome)
    | StartReceiving(initial: nat)
    | Stop
    | Start
    | Abandon

  /** When an event can reach an endpoint whose peer has written `mail`: the
      socket callbacks only while registered, channel_start_receive only before
      a CLOSE and while nothing is buffered, CHANNEL_EVENT_START only while there
      is something to read or no window to send it. */
  predicate Enabled(e: Endpoint, mail: Log, a: Action) {
    match a
    case ReadSocket(_, o) => IsActive(e) && e.reading && (ReadLimit(e) > 0 ==> ReadOutcomeOk(ReadLimit(e), o))
    case FlushSocket(o) => IsActive(e) && e.write.active && WriteOutcomeOk(|e.write.buffer|, o)
    case Receive(o) =>
      && |e.read.messages| < |mail.messages|
      && var m := mail.messages[|e.read.messages|];
         (IsData(m) && Accepted(e, m) > 0 ==> WriteOutcomeOk(|e.write.buffer| + Accepted(e, m), o))
    case StartReceiving(initial) =>
      IsActive(e) && !e.flags.sentClose && e.write.buffer == [] && initial <= e.write.capacity
    case Stop => IsActive(e)
    case Start => IsActive(e) && (e.sources > 0 || e.send.size == 0)
    case Abandon => IsActive(e)
  }

  function Apply(e: Endpoint, mail: Log, a: Action): Endpoint
    requires Enabled(e, mail, a)
  {
    match a
    case ReadSocket(kind, o) => IoRead(e, kind, o)
    case FlushSocket(o) => IoFlush(e, o)
    case Receive(o) => Handle(e, mail.messages[|e.read.messages|], o)
    case StartReceiving(initial) => StartReceive(e, initial)
    case Stop => StopRead(e)
    case Start => StartRead(e)
    case Abandon => Abort(e)
  }

  // ----- Flags, counters and windows

  predicate Unconnected(e: Endpoint) {
    e.status.phase == Idle || e.status.phase == SentOpen
  }

  /** Reading and writing stop when they should, and each counter tells the truth. */
  predicate Plumbing(e: Endpoint) {
    && e.rec.size + |e.write.buffer| <= e.write.capacity < UINT32
    && (e.reading ==> e.sources > 0)
    && (IsActive(e) && e.sources == 0 ==> e.flags.sentEof || e.flags.sentClose)
    && (e.flags.sentEof ==> e.sources == 0)
    && (!Unconnected(e) && e.sinks == 0 ==> e.flags.recvEof && |e.write.buffer| == 0)
    && (e.write.active ==> |e.write.buffer| > 0)
    && (Unconnected(e) ==> !e.reading && e.send.size == 0 && |e.write.buffer| == 0 && e.sinks == 0 && e.sources == 0)
  }

  /** The flags and the phase record what the logs say. */
  predicate Bookkeeping(e: Endpoint) {
    var out, got := e.sent.sum, e.read.sum;
    && !e.status.fault
    && out.orderly && e.flags.sentEof == out.eof && e.flags.sentClose == out.close
    && e.flags.recvEof == got.eof && e.flags.recvClose == got.close
    && (e.status.phase == Finished <==> e.flags.recvClose)
    && (e.flags.recvClose ==> e.flags.sentClose)
    && e.status.freed == (if e.status.phase == Finished then 1 else 0)
    && (e.flags.sentClose && !e.status.aborted && !e.flags.noWait ==>
          e.flags.recvClose || (e.flags.recvEof && e.sinks == 0))
    && (Unconnected(e) <==> got.start == Unopened)
    && (Unconnected(e) ==> !e.flags.sentEof && !e.flags.sentClose)
    && (if e.status.opener then e.status.phase != Idle && out.start == Opened(e.rec.maxPacket)
        else e.status.phase != SentOpen &&
             out.start == if e.status.phase == Idle then Unopened else Confirmed(e.rec.maxPacket))
    && (e.status.phase == SentOpen ==> out.data == out.largest == 0 && out.credit == e.rec.size && !out.unknown)
    && (e.status.phase == Idle ==> out == EMPTY)
  }

  predicate Undisturbed(s: Endpoint, r: Endpoint) {
    !s.flags.sentEof && !s.flags.sentClose && !r.flags.sentClose && r.status.phase != Idle && !s.sent.sum.unknown
  }

  /** Credit `s` holds or will get, plus the data it has in flight to `r`. */
  function Outstanding(s: Endpoint, r: Endpoint): int {
    s.send.size + (s.sent.sum.data - r.read.sum.data) + (r.sent.sum.credit - s.read.sum.credit)
  }

  /** The flow of data from `s` to `r`. */
  predicate Flow(s: Endpoint, r: Endpoint) {
    && r.read.sum.data <= s.sent.sum.data && s.read.sum.credit <= r.sent.sum.credit
    && Outstanding(s, r) <= r.rec.size
    && (Undisturbed(s, r) ==> Outstanding(s, r) == r.rec.size)
    && (!Unconnected(s) ==> s.send.maxPacket <= r.rec.maxPacket && r.status.phase != Idle)
    && s.sent.sum.largest <= r.rec.maxPacket
  }

  predicate Core(l: Endpoint, r: Endpoint) {
    && l.status.opener != r.status.opener
    && Plumbing(l) && Plumbing(r)
    && Bookkeeping(l) && Bookkeeping(r)
    && Flow(l, r) && Flow(r, l)
  }

  // ----- Updates of the left endpoint that write messages

  lemma CloseKeeps(l: Endpoint, r: Endpoint)
    requires Core(l, r) && IsActive(l)
    requires l.flags.sentClose || l.status.aborted || l.flags.noWait || (l.flags.recvEof && l.sinks == 0)
    ensures Core(CloseChannel(l), r)
  {
  }

  lemma MaybeCloseKeeps(l: Endpoint, r: Endpoint)
    requires Core(l, r) && IsActive(l)
    ensures Core(MaybeClose(l), r)
  {
    if ReadyToClose(l) {
      CloseKeeps(l, r);
    }
  }

  lemma AbortKeeps(l: Endpoint, r: Endpoint)
    requires Core(l, r) && IsActive(l)
    ensures Core(Abort(l), r)
  {
    CloseKeeps(l.(status := l.status.(aborted := l.status.aborted || !l.flags.sentClose)), r);
  }

  /** oop_read_socket saw end of file: one source fewer, and EOF after the last. */
  lemma ReadEofKeeps(l: Endpoint, r: Endpoint)
    requires Core(l, r) && IsActive(l) && l.sources > 0
    ensures var s := l.(sources := l.sources - 1, reading := false);
            Core(if s.sources == 0 then SendEof(s) else s, r)
  {
    if l.sources == 1 && !l.flags.sentClose {
      var s := l.(sources := 0, reading := false, flags := l.flags.(sentEof := true));
      MaybeCloseKeeps(Write(s, Eof), r);
    }
  }

  lemma NoWrap(a: nat)
    requires a < UINT32
    ensures a % UINT32 == a
  {
  }

  lemma AdjustKeeps(l: Endpoint, add: nat, r: Endpoint)
    requires Core(l, r) && IsActive(l) && !l.flags.sentClose
    requires l.rec.size + add + |l.write.buffer| <= l.write.capacity
    ensures Core(SendWindowAdjust(l, add), r)
  {
    NoWrap(l.rec.size + add);
  }

  lemma TransmitKeeps(l: Endpoint, m: Message, r: Endpoint)
    requires Core(l, r) && IsActive(l) && l.reading && IsData(m)
    requires |m.payload| <= l.send.size && |m.payload| <= l.send.maxPacket
    ensures Core(Transmit(l, m), r)
  {
  }

  // ----- The socket callbacks

  lemma ReadKeeps(l: Endpoint, kind: nat, o: ReadOutcome, r: Endpoint)
    requires Core(l, r) && Enabled(l, r.sent, ReadSocket(kind, o))
    ensures Core(IoRead(l, kind, o), r)
  {
    if ReadLimit(l) > 0 {
      match o
      case ReadFailed => AbortKeeps(l, r);
      case ReadEof => ReadEofKeeps(l, r);
      case Read(bytes) => TransmitKeeps(l, if kind == 0 then Data(bytes) else Extended(kind, bytes), r);
    }
  }

  lemma StopKeeps(l: Endpoint, r: Endpoint)
    requires Core(l, r)
    ensures Core(StopRead(l), r)
  {
  }

  /** CHANNEL_EVENT_START keeps the invariant exactly while there is something to
      read, or no window to send it. */
  lemma StartKeepsIff(l: Endpoint, r: Endpoint)
    requires Core(l, r) && IsActive(l)
    ensures Core(StartRead(l), r) <==> l.sources > 0 || l.send.size == 0
  {
  }

  /** A read after CHANNEL_EVENT_START fails its assert exactly when no source is left. */
  lemma ReadAfterStartFailsIff(l: Endpoint, kind: nat, o: ReadOutcome, r: Endpoint)
    requires Core(l, r) && Enabled(StartRead(l), r.sent, ReadSocket(kind, o))
    ensures IoRead(StartRead(l), kind, o).status.fault <==> l.sources == 0
  {
    if l.sources > 0 {
      StartKeepsIff(l, r);
      ReadKeeps(StartRead(l), kind, o, r);
    }
  }

  lemma ShutdownKeeps(l: Endpoint, r: Endpoint)
    requires Core(l, r) && IsActive(l) && l.flags.recvEof && |l.write.buffer| == 0 && l.sinks > 0
    ensures Core(Shutdown(l), r)
  {
    MaybeCloseKeeps(l.(sinks := l.sinks - 1), r);
  }

  lemma SettleKeeps(l: Endpoint, done: nat, r: Endpoint)
    requires Core(l.(write := l.write.(active := l.write.buffer != [])), r) && IsActive(l) && l.sinks > 0
    requires l.rec.size + |l.write.buffer| + done <= l.write.capacity
    ensures Core(Settle(l, done), r)
  {
    var q := l.(write := l.write.(active := l.write.buffer != []));
    var w := AdjustRecWindow(q, done);
    if w != q {
      AdjustKeeps(q, done, r);
    }
    if w.write.buffer == [] && w.flags.recvEof {
      ShutdownKeeps(w, r);
    }
  }

  lemma FlushKeeps(l: Endpoint, o: WriteOutcome, r: Endpoint)
    requires Core(l, r) && Enabled(l, r.sent, FlushSocket(o))
    ensures Core(IoFlush(l, o), r)
  {
    match o
    case WouldBlock =>
    case WriteFailed => AbortKeeps(l, r);
    case Wrote(n) => SettleKeeps(l.(write := Push(l.write, [], n)), n, r);
  }

  // ----- Reading mail

  /** `d` sums a prefix of the log that `whole` sums. */
  predicate Below(d: Digest, whole: Digest) {
    && (whole.orderly ==> d.orderly && (d.start != Unopened ==> d.start == whole.start))
    && (d.eof ==> whole.eof) && (d.close ==> whole.close) && (d.unknown ==> whole.unknown)
    && d.data <= whole.data && d.credit <= whole.credit && d.largest <= whole.largest
  }

  /** The peer's next message fits what it has written. */
  predicate Pending(l: Endpoint, m: Message, r: Endpoint) {
    Below(Advance(l.read.sum, m), r.sent.sum) && Below(r.read.sum, l.sent.sum)
  }

  lemma FinishKeeps(l: Endpoint, sent: Log, r: Endpoint)
    requires Core(l, r) && Pending(l, Close, r)
    requires sent == if l.flags.sentClose then l.sent else l.sent.Append(Close)
    ensures IsActive(l) && !l.flags.recvClose
    ensures Core(l.(read := l.read.Append(Close), sent := sent,
                    flags := l.flags.(recvClose := true, sentClose := true),
                    status := l.status.(phase := Finished, freed := l.status.freed + 1)), r)
  {
  }

  lemma HandleCloseKeeps(l: Endpoint, r: Endpoint)
    requires Core(l, r) && Pending(l, Close, r)
    ensures Core(HandleClose(l.(read := l.read.Append(Close))), r)
  {
    FinishKeeps(l, if l.flags.sentClose then l.sent else l.sent.Append(Close), r);
    if l.flags.sentClose {
    } else {
    }
  }

  lemma HandleOpenKeeps(l: Endpoint, m: Message, r: Endpoint)
    requires Core(l, r) && m.Open? && Pending(l, m, r)
    ensures Core(HandleOpen(l.(read := l.read.Append(m)), m.window, m.maxPacket), r)
  {
  }

  lemma HandleConfirmKeeps(l: Endpoint, m: Message, r: Endpoint)
    requires Core(l, r) && m.Confirm? && Pending(l, m, r)
    ensures Core(HandleConfirm(l.(read := l.read.Append(m)), m.window, m.maxPacket), r)
  {
  }

  lemma HandleAdjustKeeps(l: Endpoint, n: nat, r: Endpoint)
    requires Core(l, r) && Pending(l, Adjust(n), r)
    ensures Core(HandleAdjust(l.(read := l.read.Append(Adjust(n))), n), r)
  {
    if !l.flags.sentClose && !l.flags.sentEof {
      NoWrap(l.send.size + n);
    }
  }

  lemma HandleEofKeeps(l: Endpoint, r: Endpoint)
    requires Core(l, r) && Pending(l, Eof, r)
    ensures Core(HandleEof(l.(read := l.read.Append(Eof))), r)
  {
    var e := l.(read := l.read.Append(Eof), flags := l.flags.(recvEof := true));
    if e.write.buffer == [] {
      ShutdownKeeps(e, r);
      MaybeCloseKeeps(Shutdown(e), r);
    } else {
      MaybeCloseKeeps(e, r);
    }
  }

  /** Data on an open channel is never truncated, and the buffer has room for it. */
  lemma NeverTruncated(l: Endpoint, m: Message, r: Endpoint)
    requires Core(l, r) && IsData(m) && Pending(l, m, r)
    requires IsActive(l) && !l.flags.sentClose
    ensures !l.flags.recvEof && !l.flags.recvClose && l.sinks > 0
    ensures Accepted(l, m) == |m.payload| <= l.rec.size
    ensures |l.write.buffer| + |m.payload| <= l.write.capacity
  {
  }

  /** Data that is not passed on: the channel is gone or closing, the kind is
      unknown, or there is none. */
  lemma IgnoredKeeps(l: Endpoint, m: Message, r: Endpoint)
    requires Core(l, r) && IsData(m) && Pending(l, m, r)
    requires !IsActive(l) || CarriesUnknownData(m) || l.flags.sentClose || m.payload == []
    ensures Core(l.(read := l.read.Append(m)), r)
  {
  }

  /** A data message was accepted whole, leaving the write side as given. */
  function Taken(l: Endpoint, m: Message, write: WriteState): Endpoint
    requires IsData(m) && |m.payload| <= l.rec.size
  {
    l.(read := l.read.Append(m), rec := l.rec.(size := l.rec.size - |m.payload|),
       delivered := l.delivered + [m], write := write)
  }

  lemma AcceptedKeeps(l: Endpoint, m: Message, write: WriteState, r: Endpoint)
    requires Core(l, r) && IsData(m) && Pending(l, m, r)
    requires IsActive(l) && !CarriesUnknownData(m) && !l.flags.sentClose
    requires |m.payload| <= l.rec.size && write.capacity == l.write.capacity
    requires |write.buffer| <= |l.write.buffer| + |m.payload| && (write.active ==> |write.buffer| > 0)
    ensures Core(Taken(l, m, write), r)
  {
  }

  lemma TakenWhole(l: Endpoint, m: Message, o: WriteOutcome)
    requires m.Data? && Accepted(l, m) == |m.payload| > 0 && |l.write.buffer| + |m.payload| <= l.write.capacity
    requires WriteOutcomeOk(|l.write.buffer| + |m.payload|, o)
    ensures var t := Taken(l, m, Push(l.write, m.payload, Done(o)));
            ReceiveData(l.(read := l.read.Append(m)), m, o) == if o.WriteFailed? then Abort(t) else Settle(t, Done(o))
  {
    assert m.payload[..|m.payload|] == m.payload;
  }

  lemma OrdinaryDataKeeps(l: Endpoint, m: Message, o: WriteOutcome, r: Endpoint)
    requires Core(l, r) && m.Data? && Pending(l, m, r)
    requires IsActive(l) && !l.flags.sentClose && m.payload != []
    requires WriteOutcomeOk(|l.write.buffer| + Accepted(l, m), o)
    ensures Core(ReceiveData(l.(read := l.read.Append(m)), m, o), r)
  {
    NeverTruncated(l, m, r);
    TakenWhole(l, m, o);
    var w := Push(l.write, m.payload, Done(o));
    var t := Taken(l, m, w);
    if o.WriteFailed? {
      AcceptedKeeps(l, m, w, r);
      AbortKeeps(t, r);
    } else {
      AcceptedKeeps(l, m, w.(active := w.buffer != []), r);
      SettleKeeps(t, Done(o), r);
    }
  }

  lemma ExtendedDataKeeps(l: Endpoint, m: Message, o: WriteOutcome, r: Endpoint)
    requires Core(l, r) && m.Extended? && Pending(l, m, r) && !CarriesUnknownData(m)
    requires IsActive(l) && !l.flags.sentClose && m.payload != []
    requires WriteOutcomeOk(|l.write.buffer| + Accepted(l, m), o)
    ensures Core(ReceiveData(l.(read := l.read.Append(m)), m, o), r)
  {
    NeverTruncated(l, m, r);
    assert m.payload[..|m.payload|] == m.payload;
    AcceptedKeeps(l, m, l.write, r);
  }

  lemma ReceiveDataKeeps(l: Endpoint, m: Message, o: WriteOutcome, r: Endpoint)
    requires Core(l, r) && IsData(m) && Pending(l, m, r)
    requires IsActive(l) && !CarriesUnknownData(m)
    requires Accepted(l, m) > 0 ==> WriteOutcomeOk(|l.write.buffer| + Accepted(l, m), o)
    ensures Core(ReceiveData(l.(read := l.read.Append(m)), m, o), r)
  {
    if l.flags.sentClose || m.payload == [] {
      IgnoredKeeps(l, m, r);
    } else {
      NeverTruncated(l, m, r);
      if m.Data? {
        OrdinaryDataKeeps(l, m, o, r);
      } else {
        ExtendedDataKeeps(l, m, o, r);
      }
    }
  }

  lemma DataKeeps(l: Endpoint, m: Message, o: WriteOutcome, r: Endpoint)
    requires Core(l, r) && Pending(l, m, r) && IsData(m)
    requires Accepted(l, m) > 0 ==> WriteOutcomeOk(|l.write.buffer| + Accepted(l, m), o)
    ensures Core(Handle(l, m, o), r)
  {
    if !IsActive(l) || CarriesUnknownData(m) {
      IgnoredKeeps(l, m, r);
    } else {
      ReceiveDataKeeps(l, m, o, r);
    }
  }

  lemma HandleKeeps(l: Endpoint, m: Message, o: WriteOutcome, r: Endpoint)
    requires Core(l, r) && Pending(l, m, r)
    requires IsData(m) && Accepted(l, m) > 0 ==> WriteOutcomeOk(|l.write.buffer| + Accepted(l, m), o)
    ensures Core(Handle(l, m, o), r)
  {
    match m
    case Open(_, _) => HandleOpenKeeps(l, m, r);
    case Confirm(_, _) => HandleConfirmKeeps(l, m, r);
    case Adjust(n) => HandleAdjustKeeps(l, n, r);
    case Eof => HandleEofKeeps(l, r);
    case Close => HandleCloseKeeps(l, r);
    case Data(_) => DataKeeps(l, m, o, r);
    case Extended(_, _) => DataKeeps(l, m, o, r);
  }
}
