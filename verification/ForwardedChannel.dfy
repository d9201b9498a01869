/** The channel object of src/channel.c, src/channel_io.c and
    src/channel_forward.c, updated in place. Each method is tied to the function
    of Channel.dfy that says what it does to the channel's value. */
module ForwardedChannel {
  import opened Numbers
  import opened Channel
  import opened ChannelRun

  class Forward {
    var status: Status
    var flags: Flags
    var recWindowSize: nat
    var recMaxPacket: nat
    var sendWindowSize: nat
    var sendMaxPacket: nat
    var sources: nat
    var sinks: nat
    var readActive: bool
    var writeActive: bool
    var writeCapacity: nat
    var buffer: seq<Byte>
    var sunk: seq<Byte>
    var delivered: seq<Message>
    var sent: Log
    var read: Log

    function State(): Endpoint
      reads this
    {
      Endpoint(status, flags, Window(recWindowSize, recMaxPacket), Window(sendWindowSize, sendMaxPacket),
               sources, sinks, readActive, WriteState(writeActive, writeCapacity, buffer, sunk), delivered, sent, read)
    }

    /** init_channel_forward, for a channel number still to be allocated. */
    constructor (opener: bool, bufferSize: nat, noWait: bool)
      ensures State() == Endpoint(Status(opener, Idle, 0, false, false), Flags(false, false, false, false, noWait),
                                  Window(bufferSize, MAX_PACKET), Window(0, 0), 0, 0, false,
                                  WriteState(false, bufferSize, [], []), [], Log([], EMPTY), Log([], EMPTY))
    {
      status := Status(opener, Idle, 0, false, false);
      flags := Flags(false, false, false, false, noWait);
      recWindowSize, recMaxPacket := bufferSize, MAX_PACKET;
      sendWindowSize, sendMaxPacket := 0, 0;
      sources, sinks := 0, 0;
      readActive, writeActive := false, false;
      writeCapacity, buffer, sunk := bufferSize, [], [];
      delivered, sent, read := [], Log([], EMPTY), Log([], EMPTY);
    }

    method ConnectionWrite(m: Message)
      modifies this`sent
      ensures State() == Write(old(State()), m)
    {
      sent := sent.Append(m);
    }

    method Fault()
      modifies this`status
      ensures State() == Fail(old(State()))
    {
      status := status.(fault := true);
    }

    method ChannelFinished()
      modifies this`status
      ensures State() == Finish(old(State()))
    {
      if status.phase != Finished {
        status := status.(phase := Finished, freed := status.freed + 1);
      }
    }

    method ChannelClose()
      modifies this`flags, this`sent, this`status
      ensures State() == CloseChannel(old(State()))
    {
      if !flags.sentClose {
        flags := flags.(sentClose := true);
        ConnectionWrite(Close);
        if flags.recvClose {
          ChannelFinished();
        }
      }
    }

    method ErrorClose()
      modifies this`flags, this`sent, this`status
      ensures State() == Abort(old(State()))
    {
      if !flags.sentClose {
        status := status.(aborted := true);
      }
      ChannelClose();
    }

    method ChannelMaybeClose()
      modifies this`flags, this`sent, this`status
      ensures State() == MaybeClose(old(State()))
    {
      if !flags.sentClose && flags.sentEof && (flags.noWait || (flags.recvEof && sinks == 0)) {
        ChannelClose();
      }
    }

    method ChannelEof()
      modifies this`flags, this`sent, this`status
      ensures State() == SendEof(old(State()))
    {
      if !(flags.sentEof || flags.sentClose || flags.recvClose) {
        flags := flags.(sentEof := true);
        ConnectionWrite(Eof);
        ChannelMaybeClose();
      }
    }

    method SendAdjust(add: nat)
      modifies this`recWindowSize, this`sent
      ensures State() == SendWindowAdjust(old(State()), add)
    {
      recWindowSize := (recWindowSize + add) % UINT32;
      ConnectionWrite(Adjust(add));
    }

    method ChannelAdjustRecWindow(written: nat)
      modifies this`recWindowSize, this`sent
      ensures State() == AdjustRecWindow(old(State()), written)
    {
      if written > 0 && !(flags.recvEof || flags.recvClose || flags.sentClose) {
        SendAdjust(written);
      }
    }

    method ChannelStartReceive(initial: nat)
      modifies this`recWindowSize, this`sent
      ensures State() == StartReceive(old(State()), initial)
    {
      if recWindowSize < initial {
        SendAdjust(initial - recWindowSize);
      }
    }

    method ChannelTransmit(m: Message)
      requires IsData(m)
      modifies this`sendWindowSize, this`sent, this`status
      ensures State() == Transmit(old(State()), m)
    {
      if |m.payload| <= sendWindowSize && |m.payload| <= sendMaxPacket {
        sendWindowSize := sendWindowSize - |m.payload|;
        ConnectionWrite(m);
      } else {
        Fault();
      }
    }

    method ForwardShutdown()
      modifies this`sinks, this`flags, this`sent, this`status
      ensures State() == Shutdown(old(State()))
    {
      if sinks == 0 {
        Fault();
      } else {
        sinks := sinks - 1;
        ChannelMaybeClose();
      }
    }

    /** The common end of channel_io_write and channel_io_flush. */
    method AfterWrite(done: nat)
      modifies this`recWindowSize, this`writeActive, this`sinks, this`flags, this`sent, this`status
      ensures State() == Settle(old(State()), done)
    {
      ChannelAdjustRecWindow(done);
      if buffer != [] {
        writeActive := true;
      } else {
        writeActive := false;
        if flags.recvEof {
          ForwardShutdown();
        }
      }
    }

    /** Bytes of the buffer, and of `data` behind it, are handed to the socket. */
    method WriteData(data: seq<Byte>, done: nat)
      requires done <= |buffer| + |data|
      modifies this`sunk, this`buffer
      ensures State() == old(State().(write := Push(State().write, data, done)))
    {
      var all := buffer + data;
      sunk, buffer := sunk + all[..done], all[done..];
    }

    method SpillData(data: seq<Byte>, done: nat)
      requires done <= |buffer| + |data|
      modifies this`sunk, this`buffer
      ensures State() == old(State().(write := Spill(State().write, data, done)))
    {
      sunk := sunk + (buffer + data)[..done];
      buffer := buffer[Min(done, |buffer|)..];
    }

    method ChannelIoWrite(data: seq<Byte>, o: WriteOutcome)
      requires WriteOutcomeOk(|buffer| + |data|, o)
      modifies this
      ensures State() == IoWrite(old(State()), data, o)
    {
      var done := if o.Wrote? then o.n else 0;
      if |buffer| + |data| - done > writeCapacity {
        SpillData(data, done);
        ErrorClose();
      } else {
        WriteData(data, done);
        if o.WriteFailed? {
          ErrorClose();
        } else {
          AfterWrite(done);
        }
      }
    }

    method OopWriteSocket(o: WriteOutcome)
      requires WriteOutcomeOk(|buffer|, o)
      modifies this
      ensures State() == IoFlush(old(State()), o)
    {
      match o
      case WouldBlock =>
      case WriteFailed => ErrorClose();
      case Wrote(n) =>
        WriteData([], n);
        AfterWrite(n);
    }

    method OopReadSocket(kind: nat, o: ReadOutcome)
      requires ReadLimit(State()) > 0 ==> ReadOutcomeOk(ReadLimit(State()), o)
      modifies this
      ensures State() == IoRead(old(State()), kind, o)
    {
      if sources == 0 {
        Fault();
        return;
      }
      var toRead := READ_BUFFER_SIZE;
      if toRead > sendWindowSize {
        toRead := sendWindowSize;
      }
      if toRead > sendMaxPacket {
        toRead := sendMaxPacket;
      }
      if toRead == 0 {
        readActive := false;
        return;
      }
      match o
      case ReadFailed => ErrorClose();
      case ReadEof =>
        sources := sources - 1;
        readActive := false;
        if sources == 0 {
          ChannelEof();
        }
      case Read(bytes) =>
        ChannelTransmit(if kind == 0 then Data(bytes) else Extended(kind, bytes));
    }

    /** The checks at the start of receive_data_common. */
    method AcceptedLength(m: Message) returns (length: nat)
      requires IsData(m)
      ensures length == Accepted(State(), m)
    {
      if flags.recvEof || flags.recvClose || flags.sentClose {
        return 0;
      }
      length := |m.payload|;
      if length > recMaxPacket {
        length := recMaxPacket;
      }
      if length > recWindowSize {
        length := recWindowSize;
      }
    }

    method ReceiveDataCommon(m: Message, o: WriteOutcome)
      requires IsData(m)
      requires Accepted(State(), m) > 0 ==> WriteOutcomeOk(|buffer| + Accepted(State(), m), o)
      modifies this
      ensures State() == ReceiveData(old(State()), m, o)
    {
      var length := AcceptedLength(m);
      if length == 0 {
        return;
      }
      recWindowSize := recWindowSize - length;
      delivered := delivered + [m.(payload := m.payload[..length])];
      if m.Data? {
        ChannelIoWrite(m.payload[..length], o);
      }
    }

    method HandleAdjustWindow(size: nat)
      modifies this
      ensures State() == HandleAdjust(old(State()), size)
    {
      if status.phase == Active && !flags.recvClose {
        if !(flags.sentClose || flags.sentEof) {
          sendWindowSize := (sendWindowSize + size) % UINT32;
          if sendWindowSize > 0 {
            readActive := true;
          }
        }
      } else {
        Fault();
      }
    }

    method HandleChannelEof()
      modifies this
      ensures State() == HandleEof(old(State()))
    {
      if status.phase != Active || flags.recvEof || flags.recvClose {
        Fault();
      } else {
        flags := flags.(recvEof := true);
        if buffer == [] {
          ForwardShutdown();
        }
        ChannelMaybeClose();
      }
    }

    method HandleChannelClose()
      modifies this
      ensures State() == HandleClose(old(State()))
    {
      if status.phase != Active || flags.recvClose {
        Fault();
      } else {
        flags := flags.(recvClose := true);
        if flags.sentClose {
          ChannelFinished();
        } else {
          ChannelClose();
        }
      }
    }

    /** CHANNEL_EVENT_STOP. */
    method IoStopRead()
      modifies this`readActive
      ensures State() == StopRead(old(State()))
    {
      readActive := false;
    }

    method ForwardStartRead()
      modifies this`readActive
      ensures State() == StartRead(old(State()))
    {
      if sendWindowSize > 0 { readActive := true; }
    }

    method ForwardStartIo()
      modifies this`sources, this`sinks, this`readActive
      ensures State() == StartIo(old(State()))
    {
      sources := sources + 1;
      sinks := sinks + 1;
      ForwardStartRead();
    }

    /** The peer's limits are known and the number is active. */
    method Activate(window: nat, maxPacket: nat)
      modifies this`sendWindowSize, this`sendMaxPacket, this`status
      ensures State() == old(State().(status := status.(phase := Active), send := Window(window, maxPacket)))
    {
      sendWindowSize, sendMaxPacket := window, maxPacket;
      status := status.(phase := Active);
    }

    /** check_rec_max_packet. */
    method LimitPackets()
      modifies this`recMaxPacket
      ensures State() == old(State().(rec := State().rec.(maxPacket := Min(recMaxPacket, MAX_DATA_SIZE))))
    {
      if recMaxPacket > MAX_DATA_SIZE { recMaxPacket := MAX_DATA_SIZE; }
    }

    method ChannelOpenNew()
      modifies this
      ensures State() == OpenNew(old(State()))
    {
      status := status.(phase := SentOpen);
      LimitPackets();
      ConnectionWrite(Open(recWindowSize, recMaxPacket));
    }

    method HandleChannelOpen(window: nat, maxPacket: nat)
      modifies this
      ensures State() == HandleOpen(old(State()), window, maxPacket)
    {
      if status.phase != Idle {
        Fault();
      } else {
        Activate(window, if maxPacket > MAX_PACKET then MAX_PACKET else maxPacket);
        LimitPackets();
        ConnectionWrite(Confirm(recWindowSize, recMaxPacket));
        ForwardStartIo();
      }
    }

    method HandleOpenConfirm(window: nat, maxPacket: nat)
      modifies this
      ensures State() == HandleConfirm(old(State()), window, maxPacket)
    {
      if status.phase != SentOpen {
        Fault();
      } else {
        Activate(window, if maxPacket > MAX_DATA_SIZE then MAX_DATA_SIZE else maxPacket);
        ForwardStartIo();
      }
    }

    /** channel_packet_handler. */
    method PacketHandler(m: Message, o: WriteOutcome)
      requires IsData(m) && Accepted(State(), m) > 0 ==> WriteOutcomeOk(|buffer| + Accepted(State(), m), o)
      modifies this
      ensures State() == Handle(old(State()), m, o)
    {
      read := read.Append(m);
      match m
      case Open(w, p) => HandleChannelOpen(w, p);
      case Confirm(w, p) => HandleOpenConfirm(w, p);
      case Adjust(n) => HandleAdjustWindow(n);
      case Eof => HandleChannelEof();
      case Close => HandleChannelClose();
      case Data(_) =>
        if status.phase == Active {
          ReceiveDataCommon(m, o);
        }
      case Extended(kind, _) =>
        if status.phase == Active && kind == EXTENDED_DATA_STDERR {
          ReceiveDataCommon(m, o);
        }
    }

    /** Whatever happens to this end, given all that its peer has written. */
    method Event(mail: Log, a: Action)
      requires Enabled(State(), mail, a)
      modifies this
      ensures State() == Apply(old(State()), mail, a)
    {
      match a {
        case ReadSocket(kind, o) => OopReadSocket(kind, o);
        case FlushSocket(o) => OopWriteSocket(o);
        case Receive(o) => PacketHandler(mail.messages[|read.messages|], o);
        case StartReceiving(initial) => ChannelStartReceive(initial);
        case Stop => IoStopRead();
        case Start => ForwardStartRead();
        case Abandon => ErrorClose();
      }
    }
  }
}
