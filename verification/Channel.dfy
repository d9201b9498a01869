/** One end of a forwarded SSH channel, as src/channel.c, src/channel_io.c and
    src/channel_forward.c update it. An `Endpoint` is the value of one channel
    object together with the messages it has written to the connection. Every
    C function that changes the channel is one function from the old value to
    the new one; the class in ForwardedChannel.dfy performs the same updates in
    place. Values that only the outside world can supply (what read and write
    return) are parameters. */
module Channel {
  import opened Numbers

  const UINT32: nat := 0x1_0000_0000
  const MAX_PACKET: nat := 0x8000
  const MAX_DATA_SIZE: nat := MAX_PACKET - 100
  const READ_BUFFER_SIZE: nat := 0x4000
  const WRITE_MAX: nat := 0x4000
  const EXTENDED_DATA_STDERR: nat := 1

  datatype Message =
    | Open(window: nat, maxPacket: nat)
    | Confirm(window: nat, maxPacket: nat)
    | Data(payload: seq<Byte>)
    | Extended(kind: nat, payload: seq<Byte>)
    | Adjust(size: nat)
    | Eof
    | Close

  // ----- Message logs

  datatype Start = Unopened | Opened(maxPacket: nat) | Confirmed(maxPacket: nat)

  /** A running summary of a log: its opening message, whether EOF and CLOSE
      occur, whether the order is the protocol's, the data and window credit it
      carries, its largest payload, and whether it holds extended data of an
      unknown kind. */
  datatype Digest = Digest(
    start: Start,
    eof: bool,
    close: bool,
    orderly: bool,
    data: nat,
    credit: nat,
    largest: nat,
    unknown: bool)

  const EMPTY: Digest := Digest(Unopened, false, false, true, 0, 0, 0, false)

  predicate IsData(m: Message) {
    m.Data? || m.Extended?
  }

  predicate CarriesUnknownData(m: Message) {
    m.Extended? && m.kind != EXTENDED_DATA_STDERR
  }

  function Advance(d: Digest, m: Message): Digest {
    var started := d.orderly && d.start != Unopened;
    match m
    case Open(w, p) => d.(start := Opened(p), orderly := d.orderly && d.start == Unopened, credit := d.credit + w)
    case Confirm(w, p) => d.(start := Confirmed(p), orderly := d.orderly && d.start == Unopened, credit := d.credit + w)
    case Adjust(n) => d.(orderly := started && !d.close, credit := d.credit + n)
    case Eof => d.(orderly := started && !d.eof && !d.close, eof := true)
    case Close => d.(orderly := started && !d.close, close := true)
    case _ =>
      d.(orderly := started && !d.eof,
         data := d.data + |m.payload|,
         largest := if |m.payload| > d.largest then |m.payload| else d.largest,
         unknown := d.unknown || CarriesUnknownData(m))
  }

  function Sum(log: seq<Message>): Digest {
    if log == [] then EMPTY else Advance(Sum(log[..|log| - 1]), log[|log| - 1])
  }

  datatype Log = Log(messages: seq<Message>, sum: Digest) {
    function Append(m: Message): Log {
      Log(messages + [m], Advance(sum, m))
    }

    predicate Valid() {
      sum == Sum(messages)
    }
  }

  datatype Phase = Idle | SentOpen | Active | Finished

  /** `freed` counts deallocations of the channel number. `aborted` records that
      channel_close was called for another reason than channel_maybe_close or
      the peer's CLOSE, `fault` a failed assert or a protocol error. */
  datatype Status = Status(opener: bool, phase: Phase, freed: nat, aborted: bool, fault: bool)

  datatype Flags = Flags(sentClose: bool, recvClose: bool, sentEof: bool, recvEof: bool, noWait: bool)

  datatype Window = Window(size: nat, maxPacket: nat)

  /** The write side of the socket: whether the write callback is registered, the
      size and contents of the buffer, and the bytes that reached the socket. */
  datatype WriteState = WriteState(active: bool, capacity: nat, buffer: seq<Byte>, sunk: seq<Byte>)

  /** `reading` says that the read callback is registered, `delivered` lists what
      was passed to the receive callback, `sent` everything ever written to the
      connection on this channel and `read` the handled messages of the peer. */
  datatype Endpoint = Endpoint(
    status: Status,
    flags: Flags,
    rec: Window,
    send: Window,
    sources: nat,
    sinks: nat,
    reading: bool,
    write: WriteState,
    delivered: seq<Message>,
    sent: Log,
    read: Log)

  /** What a system call did: a write moved `n` bytes, would block, or failed. */
  datatype WriteOutcome = Wrote(n: nat) | WouldBlock | WriteFailed

  datatype ReadOutcome = Read(bytes: seq<Byte>) | ReadEof | ReadFailed

  predicate IsActive(e: Endpoint) {
    e.status.phase == Active
  }

  function Fail(e: Endpoint): Endpoint {
    e.(status := e.status.(fault := true))
  }

  function Write(e: Endpoint, m: Message): Endpoint {
    e.(sent := e.sent.Append(m))
  }

  // ----- channel.c: windows

  function SendWindowAdjust(e: Endpoint, add: nat): Endpoint {
    Write(e.(rec := e.rec.(size := (e.rec.size + add) % UINT32)), Adjust(add))
  }

  function AdjustRecWindow(e: Endpoint, written: nat): Endpoint {
    if written > 0 && !(e.flags.recvEof || e.flags.recvClose || e.flags.sentClose)
    then SendWindowAdjust(e, written) else e
  }

  function StartReceive(e: Endpoint, initial: nat): Endpoint {
    if e.rec.size < initial then SendWindowAdjust(e, initial - e.rec.size) else e
  }

  // ----- channel.c: closing

  function Finish(e: Endpoint): Endpoint {
    if e.status.phase == Finished then e
    else e.(status := e.status.(phase := Finished, freed := e.status.freed + 1))
  }

  function CloseChannel(e: Endpoint): Endpoint {
    if e.flags.sentClose then e
    else
      var c := Write(e.(flags := e.flags.(sentClose := true)), Close);
      if c.flags.recvClose then Finish(c) else c
  }

  predicate ReadyToClose(e: Endpoint) {
    !e.flags.sentClose && e.flags.sentEof && (e.flags.noWait || (e.flags.recvEof && e.sinks == 0))
  }

  function MaybeClose(e: Endpoint): Endpoint {
    if ReadyToClose(e) then CloseChannel(e) else e
  }

  /** channel_close as the error paths and the application call it. */
  function Abort(e: Endpoint): Endpoint {
    CloseChannel(e.(status := e.status.(aborted := e.status.aborted || !e.flags.sentClose)))
  }

  function SendEof(e: Endpoint): Endpoint {
    if e.flags.sentEof || e.flags.sentClose || e.flags.recvClose then e
    else MaybeClose(Write(e.(flags := e.flags.(sentEof := true)), Eof))
  }

  // ----- channel.c: sending data

  function Transmit(e: Endpoint, m: Message): Endpoint
    requires IsData(m)
  {
    if |m.payload| <= e.send.size && |m.payload| <= e.send.maxPacket
    then Write(e.(send := e.send.(size := e.send.size - |m.payload|)), m)
    else Fail(e)
  }

  // ----- channel_io.c and channel_forward.c

  function Shutdown(e: Endpoint): Endpoint {
    if e.sinks == 0 then Fail(e) else MaybeClose(e.(sinks := e.sinks - 1))
  }

  /** After `done` bytes reached the socket: the window is adjusted, the write
      callback is registered exactly while the buffer holds data, and a drained
      buffer after the peer's EOF shuts the socket down. */
  function Settle(e: Endpoint, done: nat): Endpoint {
    var w := AdjustRecWindow(e.(write := e.write.(active := e.write.buffer != [])), done);
    if w.write.buffer == [] && w.flags.recvEof then Shutdown(w) else w
  }

  predicate WriteOutcomeOk(available: nat, o: WriteOutcome) {
    o.Wrote? ==> 0 < o.n <= Min(available, WRITE_MAX)
  }

  function Done(o: WriteOutcome): nat {
    if o.Wrote? then o.n else 0
  }

  /** The first `done` bytes of the buffer followed by `data` go to the socket. */
  function Push(w: WriteState, data: seq<Byte>, done: nat): WriteState
    requires done <= |w.buffer| + |data|
  {
    var all := w.buffer + data;
    w.(sunk := w.sunk + all[..done], buffer := all[done..])
  }

  /** The same when the rest of `data` does not fit the buffer, and is dropped. */
  function Spill(w: WriteState, data: seq<Byte>, done: nat): WriteState
    requires done <= |w.buffer| + |data|
  {
    w.(sunk := w.sunk + (w.buffer + data)[..done], buffer := w.buffer[Min(done, |w.buffer|)..])
  }

  /** ssh_write_data followed by the rest of channel_io_write. Bytes that were
      not written are appended to the buffer; when they do not fit, the write
      reports EOVERFLOW. */
  function IoWrite(e: Endpoint, data: seq<Byte>, o: WriteOutcome): Endpoint
    requires WriteOutcomeOk(|e.write.buffer| + |data|, o)
  {
    if |e.write.buffer| + |data| - Done(o) > e.write.capacity then Abort(e.(write := Spill(e.write, data, Done(o))))
    else
      var b := e.(write := Push(e.write, data, Done(o)));
      if o.WriteFailed? then Abort(b) else Settle(b, Done(o))
  }

  /** channel_io_flush as called by oop_write_socket. */
  function IoFlush(e: Endpoint, o: WriteOutcome): Endpoint
    requires WriteOutcomeOk(|e.write.buffer|, o)
  {
    match o
    case WouldBlock => e
    case WriteFailed => Abort(e)
    case Wrote(n) => Settle(e.(write := Push(e.write, [], n)), n)
  }

  function ReadLimit(e: Endpoint): nat {
    Min(READ_BUFFER_SIZE, Min(e.send.size, e.send.maxPacket))
  }

  predicate ReadOutcomeOk(limit: nat, o: ReadOutcome) {
    o.Read? ==> 0 < |o.bytes| <= limit
  }

  /** oop_read_socket: channel_io_read, then the data goes out as one message.
      A `kind` stands for the callers that send what they read as extended data. */
  function IoRead(e: Endpoint, kind: nat, o: ReadOutcome): Endpoint
    requires ReadLimit(e) > 0 ==> ReadOutcomeOk(ReadLimit(e), o)
  {
    if e.sources == 0 then Fail(e)
    else if ReadLimit(e) == 0 then e.(reading := false)
    else
      match o
      case ReadFailed => Abort(e)
      case ReadEof =>
        var s := e.(sources := e.sources - 1, reading := false);
        if s.sources == 0 then SendEof(s) else s
      case Read(bytes) => Transmit(e, if kind == 0 then Data(bytes) else Extended(kind, bytes))
  }

  // ----- channel.c: handlers for the peer's messages

  /** How much of a data message receive_data_common accepts. */
  function Accepted(e: Endpoint, m: Message): nat
    requires IsData(m)
  {
    if e.flags.recvEof || e.flags.recvClose || e.flags.sentClose then 0
    else Min(Min(|m.payload|, e.rec.maxPacket), e.rec.size)
  }

  function ReceiveData(e: Endpoint, m: Message, o: WriteOutcome): Endpoint
    requires IsData(m)
    requires Accepted(e, m) > 0 ==> WriteOutcomeOk(|e.write.buffer| + Accepted(e, m), o)
  {
    var length := Accepted(e, m);
    if length == 0 then e
    else
      var m' := m.(payload := m.payload[..length]);
      var r := e.(rec := e.rec.(size := e.rec.size - length), delivered := e.delivered + [m']);
      if m.Extended? then r else IoWrite(r, m'.payload, o)
  }

  function HandleAdjust(e: Endpoint, size: nat): Endpoint {
    if !IsActive(e) || e.flags.recvClose then Fail(e)
    else if e.flags.sentClose || e.flags.sentEof then e
    else
      var total := (e.send.size + size) % UINT32;
      e.(send := e.send.(size := total), reading := e.reading || total > 0)
  }

  function HandleEof(e: Endpoint): Endpoint {
    if !IsActive(e) || e.flags.recvEof || e.flags.recvClose then Fail(e)
    else
      var r := e.(flags := e.flags.(recvEof := true));
      MaybeClose(if r.write.buffer == [] then Shutdown(r) else r)
  }

  function HandleClose(e: Endpoint): Endpoint {
    if !IsActive(e) || e.flags.recvClose then Fail(e)
    else
      var r := e.(flags := e.flags.(recvClose := true));
      if r.flags.sentClose then Finish(r) else CloseChannel(r)
  }

  /** CHANNEL_EVENT_STOP: no more is read until CHANNEL_EVENT_START. */
  function StopRead(e: Endpoint): Endpoint {
    e.(reading := false)
  }

  /** channel_forward_start_read. */
  function StartRead(e: Endpoint): Endpoint {
    e.(reading := e.reading || e.send.size > 0)
  }

  /** channel_forward_start_io. */
  function StartIo(e: Endpoint): Endpoint {
    StartRead(e.(sources := e.sources + 1, sinks := e.sinks + 1))
  }

  /** channel_open_new_type. */
  function OpenNew(e: Endpoint): Endpoint {
    var max := Min(e.rec.maxPacket, MAX_DATA_SIZE);
    Write(e.(status := e.status.(phase := SentOpen), rec := e.rec.(maxPacket := max)), Open(e.rec.size, max))
  }

  /** handle_channel_open for a channel type whose handler accepts. */
  function HandleOpen(e: Endpoint, window: nat, maxPacket: nat): Endpoint {
    if e.status.phase != Idle then Fail(e)
    else
      var a := e.(status := e.status.(phase := Active),
                  send := Window(window, Min(maxPacket, MAX_PACKET)),
                  rec := e.rec.(maxPacket := Min(e.rec.maxPacket, MAX_DATA_SIZE)));
      StartIo(Write(a, Confirm(a.rec.size, a.rec.maxPacket)))
  }

  function HandleConfirm(e: Endpoint, window: nat, maxPacket: nat): Endpoint {
    if e.status.phase != SentOpen then Fail(e)
    else StartIo(e.(status := e.status.(phase := Active), send := Window(window, Min(maxPacket, MAX_DATA_SIZE))))
  }

  function Handle(e: Endpoint, m: Message, o: WriteOutcome): Endpoint
    requires IsData(m) && Accepted(e, m) > 0 ==> WriteOutcomeOk(|e.write.buffer| + Accepted(e, m), o)
  {
    var r := e.(read := e.read.Append(m));
    match m
    case Open(w, p) => HandleOpen(r, w, p)
    case Confirm(w, p) => HandleConfirm(r, w, p)
    case Adjust(n) => HandleAdjust(r, n)
    case Eof => HandleEof(r)
    case Close => HandleClose(r)
    case _ => if !IsActive(r) || CarriesUnknownData(m) then r else ReceiveData(r, m, o)
  }
}
