/** A client session channel (src/client_session.c, src/channel_io.c, src/channel.c):
    what holds its channel open, and when it closes. */
module ClientSession {
  import opened Numbers

  /** `noWait` is CHANNEL_NO_WAIT_FOR_EOF. */
  datatype Flags = Flags(sentEof: bool, sentClose: bool, receivedEof: bool, receivedClose: bool, noWait: bool)

  /** Standard input: is the descriptor open, and is it being read. */
  datatype Input = Input(open: bool, active: bool)

  /** Standard output or standard error: is the descriptor open, is it waiting to be
      written, how much is buffered, and how much was ever taken and written. */
  datatype Output = Output(open: bool, active: bool, length: nat, taken: nat, written: nat)

  const NEW_OUTPUT := Output(true, false, 0, 0, 0)

  datatype Outputs = Outputs(out: Output, err: Output)

  /** The receive window, the size of each write buffer, and whether
      channel_start_receive has been called. */
  datatype Window = Window(size: nat, capacity: nat, started: bool)

  /** `forced`: an I/O error or a refused request closed the channel; `error`: the peer
      broke the protocol, which ends the connection; `fault`: an assert failed. */
  datatype Fate = Fate(forced: bool, finished: bool, error: bool, fault: bool)

  datatype Session = Session(
    flags: Flags, sources: nat, sinks: nat, stdin: Input, outputs: Outputs,
    exitPending: bool, window: Window, fate: Fate)

  datatype Which = Stdout | Stderr

  /** The largest data packet accepted: SSH_MAX_PACKET, less what check_rec_max_packet
      takes off when the channel is opened. */
  const MAX_DATA_SIZE := 0x8000 - 100

  function Get(os: Outputs, w: Which): Output {
    if w.Stdout? then os.out else os.err
  }

  function Put(os: Outputs, w: Which, o: Output): Outputs {
    if w.Stdout? then os.(out := o) else os.(err := o)
  }

  // ----- The operations

  /** A session just confirmed, with valid descriptors; input is read at once if the
      peer's window is open. */
  function Confirmed(capacity: nat, noWait: bool, window: bool): Session {
    Session(Flags(false, false, false, false, noWait), 1, 3, Input(true, window), Outputs(NEW_OUTPUT, NEW_OUTPUT),
            true, Window(0, capacity, false), Fate(false, false, false, false))
  }

  /** SSH_CONNECTION_ERROR. */
  function ConnectionError(s: Session): Session {
    s.(fate := s.fate.(error := true))
  }

  /** channel_close. */
  function CloseChannel(s: Session): (r: Session)
    ensures r.window == s.window
  {
    if s.flags.sentClose then s
    else s.(flags := s.flags.(sentClose := true), fate := s.fate.(finished := s.fate.finished || s.flags.receivedClose))
  }

  predicate MayClose(s: Session) {
    s.flags.sentEof && (s.flags.noWait || (s.flags.receivedEof && s.sinks == 0))
  }

  /** channel_maybe_close. */
  function MaybeClose(s: Session): (r: Session)
    ensures r.window == s.window
  {
    if MayClose(s) then CloseChannel(s) else s
  }

  /** channel_close after an error. */
  function ForceClose(s: Session): (r: Session)
    ensures r.window == s.window
  {
    CloseChannel(s.(fate := s.fate.(forced := true)))
  }

  /** channel_eof. */
  function SendEof(s: Session): (r: Session)
    ensures r.window == s.window
  {
    if s.flags.sentEof || s.flags.sentClose || s.flags.receivedClose then s
    else MaybeClose(s.(flags := s.flags.(sentEof := true)))
  }

  /** A sink is gone; an assert demands there was one. */
  function DropSink(s: Session): (r: Session)
    ensures r.window == s.window
  {
    if s.sinks == 0 then s.(fate := s.fate.(fault := true)) else MaybeClose(s.(sinks := s.sinks - 1))
  }

  /** channel_write_state_close. */
  function CloseOutput(s: Session, w: Which): (r: Session)
    ensures r.window == s.window
  {
    var o := Get(s.outputs, w);
    if !o.open then s else DropSink(s.(outputs := Put(s.outputs, w, o.(open := false))))
  }

  /** channel_adjust_rec_window. */
  function AdjustWindow(s: Session, written: nat): Session {
    if s.flags.receivedEof || s.flags.receivedClose || s.flags.sentClose then s
    else s.(window := s.window.(size := s.window.size + written))
  }

  /** The result of a write(2). */
  datatype Wrote = Wrote(n: nat) | WouldBlock | WriteError

  /** `more` bytes were taken, and `n` written. */
  function Moved(o: Output, more: nat, n: nat): Output
    requires n <= o.length + more
  {
    o.(length := o.length + more - n, taken := o.taken + more, written := o.written + n)
  }

  /** An output after a write: wait for it if bytes are left, and otherwise, after the
      peer's EOF, close it. */
  function Settle(s: Session, w: Which, o: Output): (r: Session)
    ensures r.window == s.window
  {
    if o.length > 0 then s.(outputs := Put(s.outputs, w, o.(active := true)))
    else
      var s' := s.(outputs := Put(s.outputs, w, o.(active := false)));
      if s.flags.receivedEof then CloseOutput(s', w) else s'
  }

  /** The same when the rest of what was taken does not fit the buffer, and is dropped. */
  function Spilt(o: Output, more: nat, n: nat): Output {
    o.(length := if n <= o.length then o.length - n else 0, taken := o.taken + more, written := o.written + n)
  }

  /** An output fails. */
  function FailOutput(s: Session, w: Which, o: Output): Session {
    CloseOutput(ForceClose(s.(outputs := Put(s.outputs, w, o))), w)
  }

  /** do_receive with channel_io_write; a full buffer is an error as well. */
  function Receive(s: Session, w: Which, length: nat, wrote: Wrote): Session
    requires wrote.Wrote? ==> wrote.n <= Get(s.outputs, w).length + length
  {
    var o := Get(s.outputs, w);
    match wrote
    case WriteError => FailOutput(s, w, if o.length + length > s.window.capacity then o else Moved(o, length, 0))
    case WouldBlock =>
      if o.length + length > s.window.capacity then FailOutput(s, w, o) else Settle(s, w, Moved(o, length, 0))
    case Wrote(n) =>
      if o.length + length - n > s.window.capacity then FailOutput(s, w, Spilt(o, length, n))
      else Settle(AdjustWindow(s, n), w, Moved(o, length, n))
  }

  function Taken(s: Session, length: nat): nat {
    Min(Min(length, MAX_DATA_SIZE), s.window.size)
  }

  /** receive_data_common, the receive handler being installed. */
  function ReceiveData(s: Session, w: Which, length: nat, wrote: Wrote): Session
    requires wrote.Wrote? ==> wrote.n <= Get(s.outputs, w).length + Taken(s, length)
  {
    var taken := Taken(s, length);
    if s.flags.receivedEof || s.flags.receivedClose || s.flags.sentClose || taken == 0 then s
    else Receive(s.(window := s.window.(size := s.window.size - taken)), w, taken, wrote)
  }

  /** oop_write_stdout and oop_write_stderr. */
  function Flush(s: Session, w: Which, wrote: Wrote): Session
    requires wrote.Wrote? ==> wrote.n <= Get(s.outputs, w).length
  {
    var o := Get(s.outputs, w);
    match wrote
    case WriteError => FailOutput(s, w, o)
    case WouldBlock => s
    case Wrote(n) => Settle(AdjustWindow(s, n), w, Moved(o, 0, n))
  }

  /** handle_channel_eof with CHANNEL_EVENT_EOF. */
  function PeerEof(s: Session): (r: Session)
    ensures r.window == s.window
  {
    if s.flags.receivedEof || s.flags.receivedClose then ConnectionError(s) else CloseDrained(s)
  }

  /** CHANNEL_EVENT_EOF: drained outputs are closed. */
  function CloseDrained(s: Session): (r: Session)
    ensures r.window == s.window
  {
    var s1 := s.(flags := s.flags.(receivedEof := true));
    var s2 := if s1.outputs.out.length == 0 then CloseOutput(s1, Stdout) else s1;
    var s3 := if s2.outputs.err.length == 0 then CloseOutput(s2, Stderr) else s2;
    MaybeClose(s3)
  }

  /** handle_channel_close. */
  function PeerClose(s: Session): Session {
    if s.flags.receivedClose then ConnectionError(s)
    else
      var r := s.(flags := s.flags.(receivedClose := true));
      if r.flags.sentClose then r.(fate := r.fate.(finished := true)) else CloseChannel(r)
  }

  /** handle_exit_status and handle_exit_signal, which remove themselves; a message that
      wants a reply or cannot be parsed is an error. */
  function ExitMessage(s: Session, wellFormed: bool): Session {
    if !s.exitPending then s
    else if !wellFormed then ConnectionError(s)
    else DropSink(s.(exitPending := false))
  }

  /** End of file on standard input. */
  function StdinEof(s: Session): Session {
    if s.sources == 0 then s.(fate := s.fate.(fault := true))
    else
      var s' := s.(sources := s.sources - 1, stdin := Input(false, false));
      if s'.sources == 0 then SendEof(s') else s'
  }

  /** A read error on standard input. */
  function StdinError(s: Session): Session {
    ForceClose(s).(stdin := Input(false, false))
  }

  /** channel_io_stop_read and channel_io_start_read. */
  function StopRead(s: Session): Session {
    s.(stdin := s.stdin.(active := false))
  }

  function StartRead(s: Session): Session {
    s.(stdin := s.stdin.(active := s.stdin.active || s.stdin.open))
  }

  /** channel_start_receive. */
  function StartReceive(s: Session): Session {
    s.(window := Window(if s.window.size < s.window.capacity then s.window.capacity else s.window.size,
                        s.window.capacity, true))
  }

  // ----- Runs

  datatype Event =
    | Data(w: Which, length: nat, wrote: Wrote) | Writable(w: Which, wrote: Wrote)
    | InputEnds | InputFails | InputStalls | EofArrives | CloseArrives | ExitArrives(wellFormed: bool) | RequestRefused
    | ReceiveStarts | Stops | Starts(window: bool) | WindowGrows

  /** What can happen: descriptors are watched while they are active, write(2) takes no
      more than it is given, and channel_start_receive is called once. */
  predicate Enabled(s: Session, e: Event) {
    && !s.fate.finished && !s.fate.error
    && match e
       case Data(w, length, wrote) => wrote.Wrote? ==> 0 < wrote.n <= Get(s.outputs, w).length + Taken(s, length)
       case Writable(w, wrote) =>
         Get(s.outputs, w).open && Get(s.outputs, w).active &&
         (wrote.Wrote? ==> 0 < wrote.n <= Get(s.outputs, w).length)
       case InputEnds => s.stdin.active
       case InputFails => s.stdin.active
       case InputStalls => s.stdin.active
       case ReceiveStarts => !s.window.started
       case _ => true
  }

  function Apply(s: Session, e: Event): Session
    requires Enabled(s, e)
  {
    match e
    case Data(w, length, wrote) => ReceiveData(s, w, length, wrote)
    case Writable(w, wrote) => Flush(s, w, wrote)
    case InputEnds => StdinEof(s)
    case InputFails => StdinError(s)
    case InputStalls => StopRead(s)
    case EofArrives => PeerEof(s)
    case CloseArrives => PeerClose(s)
    case ExitArrives(wellFormed) => ExitMessage(s, wellFormed)
    case RequestRefused => ForceClose(s)
    case ReceiveStarts => StartReceive(s)
    case Stops => StopRead(s)
    case Starts(window) => if window then StartRead(s) else s
    case WindowGrows => StartRead(s)
  }

  predicate IsRun(s: Session, events: seq<Event>)
    decreases |events|
  {
    events == [] || (Enabled(s, events[0]) && IsRun(Apply(s, events[0]), events[1..]))
  }

  function Final(s: Session, events: seq<Event>): Session
    requires IsRun(s, events)
    decreases |events|
  {
    if events == [] then s else Final(Apply(s, events[0]), events[1..])
  }

  // ----- The invariant

  function Count(b: bool): nat {
    if b then 1 else 0
  }

  /** Every byte taken was written or is waiting; open outputs are waited for exactly
      while they hold data; a closed output was drained, unless an error closed it. */
  predicate OutputNear(o: Output, s: Session) {
    && o.taken == o.written + o.length
    && (o.open ==> (o.active <==> o.length > 0))
    && (!o.open ==> s.fate.forced || (s.flags.receivedEof && o.length == 0))
  }

  /** After the peer's EOF outputs are open only while they hold data. */
  predicate Drained(o: Output, s: Session) {
    o.open && s.flags.receivedEof ==> o.length > 0
  }

  predicate OutputOk(o: Output, s: Session) {
    OutputNear(o, s) && Drained(o, s)
  }

  predicate Sinks(s: Session) {
    && !s.fate.fault
    && s.sinks == Count(s.outputs.out.open) + Count(s.outputs.err.open) + Count(s.exitPending)
    && (s.stdin.active ==> s.stdin.open) && (s.stdin.open ==> s.sources == 1)
  }

  predicate Buffers(s: Session) {
    if s.window.started then s.window.size + s.outputs.out.length + s.outputs.err.length <= s.window.capacity
    else s.window.size == s.outputs.out.length == s.outputs.err.length == 0
  }

  /** CLOSE was sent only when it was due or forced. */
  predicate Justified(s: Session) {
    && (s.flags.sentClose ==> s.fate.forced || s.flags.receivedClose || MayClose(s))
    && (s.fate.forced ==> s.flags.sentClose)
    && (s.fate.finished ==> s.flags.sentClose && s.flags.receivedClose)
    && (s.flags.receivedClose ==> s.fate.finished)
  }

  predicate Closing(s: Session) {
    Justified(s) && (MayClose(s) ==> s.flags.sentClose)
  }

  /** All but what closing settles. */
  predicate Near(s: Session) {
    Sinks(s) && OutputNear(s.outputs.out, s) && OutputNear(s.outputs.err, s) && Buffers(s) && Justified(s)
  }

  predicate Ok(s: Session) {
    Sinks(s) && OutputOk(s.outputs.out, s) && OutputOk(s.outputs.err, s) && Buffers(s) && Closing(s)
  }

  lemma MaybeCloseKeeps(s: Session)
    requires Near(s) && !s.flags.receivedClose
    ensures Near(MaybeClose(s)) && Closing(MaybeClose(s))
    ensures MaybeClose(s).outputs == s.outputs && MaybeClose(s).flags.receivedEof == s.flags.receivedEof
  {
  }

  /** Ok but for one output, which has just been emptied after the peer's EOF or
      cut off by an error. */
  predicate OkBut(s: Session, w: Which) {
    && Sinks(s) && Buffers(s) && Closing(s)
    && OutputOk(if w.Stdout? then s.outputs.err else s.outputs.out, s)
    && Get(s.outputs, w).open && Get(s.outputs, w).taken == Get(s.outputs, w).written + Get(s.outputs, w).length
    && (s.fate.forced || (s.flags.receivedEof && Get(s.outputs, w).length == 0))
  }

  lemma CloseOutputKeeps(s: Session, w: Which)
    requires OkBut(s, w) && !s.flags.receivedClose
    ensures Ok(CloseOutput(s, w))
  {
    match w { case Stdout => case Stderr => }
    MaybeCloseKeeps(s.(outputs := Put(s.outputs, w, Get(s.outputs, w).(open := false)), sinks := s.sinks - 1));
  }

  lemma ForceCloseKeeps(s: Session)
    requires Ok(s) && !s.flags.receivedClose
    ensures Ok(ForceClose(s)) && ForceClose(s).outputs == s.outputs
  {
  }

  lemma FailOutputKeeps(s: Session, w: Which, o: Output)
    requires Ok(s) && !s.flags.receivedClose && Get(s.outputs, w).open && o.open
    requires (if s.window.started then Fits(s, w, o.length) else o.length == 0) && o.taken == o.written + o.length
    ensures Ok(FailOutput(s, w, o))
  {
    ForceCloseKeeps(s);
    var f := ForceClose(s.(outputs := Put(s.outputs, w, o)));
    assert f == ForceClose(s).(outputs := Put(s.outputs, w, o));
    match w { case Stdout => case Stderr => }
    CloseOutputKeeps(f, w);
  }

  /** The window left, plus what all buffers will hold, fits. */
  predicate Fits(s: Session, w: Which, length: nat) {
    s.window.started &&
    s.window.size + length + Get(s.outputs, if w.Stdout? then Stderr else Stdout).length <= s.window.capacity
  }

  lemma SettleKeeps(s: Session, w: Which, o: Output)
    requires Sinks(s) && Closing(s) && !s.flags.receivedClose && Get(s.outputs, w).open && o.open
    requires Fits(s, w, o.length)
    requires OutputOk(if w.Stdout? then s.outputs.err else s.outputs.out, s) && o.taken == o.written + o.length
    ensures Ok(Settle(s, w, o))
  {
    if o.length > 0 {
      match w { case Stdout => case Stderr => }
    } else {
      var s' := s.(outputs := Put(s.outputs, w, o.(active := false)));
      match w { case Stdout => case Stderr => }
      if s.flags.receivedEof {
        CloseOutputKeeps(s', w);
      }
    }
  }

  /** An output is open while data may arrive. */
  lemma ReceivedWhileOpen(s: Session, w: Which)
    requires Ok(s) && !s.flags.receivedEof && !s.flags.sentClose
    ensures Get(s.outputs, w).open
  {
  }

  lemma ReceiveKeeps(s: Session, w: Which, length: nat, wrote: Wrote)
    requires Ok(s) && !s.flags.receivedClose && Get(s.outputs, w).open && Fits(s, w, Get(s.outputs, w).length + length)
    requires wrote.Wrote? ==> 0 < wrote.n <= Get(s.outputs, w).length + length
    ensures Ok(Receive(s, w, length, wrote))
  {
    var o := Get(s.outputs, w);
    match wrote {
      case WriteError => FailOutputKeeps(s, w, Moved(o, length, 0));
      case WouldBlock => SettleKeeps(s, w, Moved(o, length, 0));
      case Wrote(n) => SettleKeeps(AdjustWindow(s, n), w, Moved(o, length, n));
    }
  }

  lemma DataKeeps(s: Session, w: Which, length: nat, wrote: Wrote)
    requires Ok(s) && Enabled(s, Data(w, length, wrote))
    ensures Ok(ReceiveData(s, w, length, wrote))
  {
    var taken := Taken(s, length);
    if !(s.flags.receivedEof || s.flags.receivedClose || s.flags.sentClose || taken == 0) {
      ReceivedWhileOpen(s, w);
      var s1 := s.(window := s.window.(size := s.window.size - taken));
      assert Ok(s1);
      match w { case Stdout => case Stderr => }
      ReceiveKeeps(s1, w, taken, wrote);
    }
  }

  lemma FlushKeeps(s: Session, w: Which, wrote: Wrote)
    requires Ok(s) && Enabled(s, Writable(w, wrote))
    ensures Ok(Flush(s, w, wrote))
  {
    match wrote {
      case WriteError =>
        match w { case Stdout => case Stderr => }
        FailOutputKeeps(s, w, Get(s.outputs, w));
      case WouldBlock =>
      case Wrote(n) =>
        match w { case Stdout => case Stderr => }
        SettleKeeps(AdjustWindow(s, n), w, Moved(Get(s.outputs, w), 0, n));
    }
  }

  /** Closing one output after the peer's EOF. */
  lemma CloseNear(s: Session, w: Which)
    requires Near(s) && s.flags.receivedEof && !s.flags.receivedClose && Get(s.outputs, w).length == 0
    ensures var r := CloseOutput(s, w);
            && Near(r) && r.flags.receivedEof && !r.flags.receivedClose
            && r.outputs == Put(s.outputs, w, Get(s.outputs, w).(open := false))
  {
    var o := Get(s.outputs, w);
    match w { case Stdout => case Stderr => }
    if o.open {
      MaybeCloseKeeps(s.(outputs := Put(s.outputs, w, o.(open := false)), sinks := s.sinks - 1));
    } else {
      assert o == o.(open := false);
    }
  }

  lemma CloseDrainedKeeps(s: Session)
    requires Ok(s) && !s.flags.receivedEof && !s.flags.receivedClose
    ensures Ok(CloseDrained(s))
  {
    var s1 := s.(flags := s.flags.(receivedEof := true));
    assert Near(s1);
    var s2 := if s1.outputs.out.length == 0 then CloseOutput(s1, Stdout) else s1;
    if s1.outputs.out.length == 0 { CloseNear(s1, Stdout); }
    assert Drained(s2.outputs.out, s2);
    var s3 := if s2.outputs.err.length == 0 then CloseOutput(s2, Stderr) else s2;
    if s2.outputs.err.length == 0 { CloseNear(s2, Stderr); }
    assert Drained(s3.outputs.out, s3) && Drained(s3.outputs.err, s3);
    MaybeCloseKeeps(s3);
  }

  lemma PeerEofKeeps(s: Session)
    requires Ok(s) && Enabled(s, EofArrives)
    ensures Ok(PeerEof(s))
  {
    if !s.flags.receivedEof && !s.flags.receivedClose {
      CloseDrainedKeeps(s);
    }
  }

  lemma PeerCloseKeeps(s: Session)
    requires Ok(s) && Enabled(s, CloseArrives)
    ensures Ok(PeerClose(s))
  {
  }

  lemma ExitKeeps(s: Session, wellFormed: bool)
    requires Ok(s) && Enabled(s, ExitArrives(wellFormed))
    ensures Ok(ExitMessage(s, wellFormed))
  {
    if s.exitPending && wellFormed {
      MaybeCloseKeeps(s.(exitPending := false, sinks := s.sinks - 1));
    }
  }

  lemma StdinEofKeeps(s: Session)
    requires Ok(s) && Enabled(s, InputEnds)
    ensures Ok(StdinEof(s))
  {
    var t := s.(sources := 0, stdin := Input(false, false));
    if !s.flags.sentEof && !s.flags.sentClose {
      MaybeCloseKeeps(t.(flags := t.flags.(sentEof := true)));
    }
  }

  lemma StdinErrorKeeps(s: Session)
    requires Ok(s) && Enabled(s, InputFails)
    ensures Ok(StdinError(s))
  {
    ForceCloseKeeps(s);
  }

  lemma ReadingKeeps(s: Session, active: bool)
    requires Ok(s) && (active ==> s.stdin.open)
    ensures Ok(s.(stdin := s.stdin.(active := active)))
  {
  }

  lemma StartReceiveKeeps(s: Session)
    requires Ok(s) && Enabled(s, ReceiveStarts)
    ensures Ok(StartReceive(s))
  {
  }

  /** Every event keeps the invariant. */
  lemma StepKeeps(s: Session, e: Event)
    requires Ok(s) && Enabled(s, e)
    ensures Ok(Apply(s, e))
  {
    match e {
      case Data(w, length, wrote) => DataKeeps(s, w, length, wrote);
      case Writable(w, wrote) => FlushKeeps(s, w, wrote);
      case InputEnds => StdinEofKeeps(s);
      case InputFails => StdinErrorKeeps(s);
      case InputStalls => ReadingKeeps(s, false);
      case EofArrives => PeerEofKeeps(s);
      case CloseArrives => PeerCloseKeeps(s);
      case ExitArrives(wellFormed) => ExitKeeps(s, wellFormed);
      case RequestRefused => ForceCloseKeeps(s);
      case ReceiveStarts => StartReceiveKeeps(s);
      case Stops => ReadingKeeps(s, false);
      case Starts(_) => ReadingKeeps(s, s.stdin.open);
      case WindowGrows => ReadingKeeps(s, s.stdin.open);
    }
  }

  lemma {:induction false} RunKeeps(s: Session, events: seq<Event>)
    requires Ok(s) && IsRun(s, events)
    ensures Ok(Final(s, events))
    decreases |events|
  {
    if events != [] {
      StepKeeps(s, events[0]);
      RunKeeps(Apply(s, events[0]), events[1..]);
    }
  }

  // ----- Theorems about every run of a confirmed session

  /** The sinks are the open outputs and the pending exit message, and no assert on
      sinks or sources fails. */
  lemma SinksAreCounted(capacity: nat, noWait: bool, window: bool, events: seq<Event>)
    requires IsRun(Confirmed(capacity, noWait, window), events)
    ensures var s := Final(Confirmed(capacity, noWait, window), events);
            && !s.fate.fault
            && s.sinks == Count(s.outputs.out.open) + Count(s.outputs.err.open) + Count(s.exitPending)
  {
    RunKeeps(Confirmed(capacity, noWait, window), events);
  }

  /** Unless an error or the peer forces it, CLOSE is sent exactly when EOF was and, if
      the peer's EOF is to be waited for, that has come too, all output taken is
      written and the exit message has come. */
  lemma ClosesExactlyWhenDone(capacity: nat, noWait: bool, window: bool, events: seq<Event>)
    requires IsRun(Confirmed(capacity, noWait, window), events)
    ensures var s := Final(Confirmed(capacity, noWait, window), events);
            !s.fate.forced && !s.flags.receivedClose ==>
              (s.flags.sentClose <==>
               && s.flags.sentEof
               && (|| s.flags.noWait
                   || (&& s.flags.receivedEof && !s.exitPending
                       && s.outputs.out.written == s.outputs.out.taken
                       && s.outputs.err.written == s.outputs.err.taken)))
  {
    RunKeeps(Confirmed(capacity, noWait, window), events);
  }

  /** One window serves two buffers, and neither overflows. */
  lemma BuffersHoldTheWindow(capacity: nat, noWait: bool, window: bool, events: seq<Event>)
    requires IsRun(Confirmed(capacity, noWait, window), events)
    ensures var s := Final(Confirmed(capacity, noWait, window), events);
            s.window.size + s.outputs.out.length + s.outputs.err.length <= s.window.capacity == capacity
  {
    RunKeeps(Confirmed(capacity, noWait, window), events);
    CapacityIsFixed(Confirmed(capacity, noWait, window), events);
  }

  lemma StepFixesCapacity(s: Session, e: Event)
    requires Enabled(s, e)
    ensures Apply(s, e).window.capacity == s.window.capacity
  {
    match e {
      case Data(w, length, wrote) =>
        match wrote { case Wrote(n) => case WouldBlock => case WriteError => }
      case Writable(w, wrote) =>
        match wrote { case Wrote(n) => case WouldBlock => case WriteError => }
      case InputEnds =>
      case InputFails =>
      case InputStalls =>
      case EofArrives =>
      case CloseArrives =>
      case ExitArrives(_) =>
      case RequestRefused =>
      case ReceiveStarts =>
      case Stops =>
      case Starts(_) =>
      case WindowGrows =>
    }
  }

  lemma {:induction false} CapacityIsFixed(s: Session, events: seq<Event>)
    requires IsRun(s, events)
    ensures Final(s, events).window.capacity == s.window.capacity
    decreases |events|
  {
    if events != [] {
      StepFixesCapacity(s, events[0]);
      CapacityIsFixed(Apply(s, events[0]), events[1..]);
    }
  }

  // ----- The session, updated in place

  class Client {
    var flags: Flags
    var sources: nat
    var sinks: nat
    var stdin: Input
    var out: Output
    var err: Output
    var exitPending: bool
    var window: Window
    var fate: Fate

    function State(): Session
      reads this
    {
      Session(flags, sources, sinks, stdin, Outputs(out, err), exitPending, window, fate)
    }

    /** CHANNEL_EVENT_CONFIRM. */
    constructor (capacity: nat, noWait: bool, sendWindow: bool)
      ensures State() == Confirmed(capacity, noWait, sendWindow) && Ok(State())
    {
      flags := Flags(false, false, false, false, noWait);
      sources, sinks, stdin, exitPending := 1, 3, Input(true, sendWindow), true;
      out, err := NEW_OUTPUT, NEW_OUTPUT;
      window, fate := Window(0, capacity, false), Fate(false, false, false, false);
    }

    method Error()
      modifies this
      ensures State() == ConnectionError(old(State()))
    {
      fate := fate.(error := true);
    }

    method ChannelClose()
      modifies this
      ensures State() == CloseChannel(old(State()))
    {
      if !flags.sentClose {
        flags := flags.(sentClose := true);
        if flags.receivedClose { fate := fate.(finished := true); }
      }
    }

    method ChannelMaybeClose()
      modifies this
      ensures State() == MaybeClose(old(State()))
    {
      if !flags.sentClose && flags.sentEof && (flags.noWait || (flags.receivedEof && sinks == 0)) { ChannelClose(); }
    }

    method ErrorClose()
      modifies this
      ensures State() == ForceClose(old(State()))
    {
      fate := fate.(forced := true);
      ChannelClose();
    }

    method ChannelEof()
      modifies this
      ensures State() == SendEof(old(State()))
    {
      if !(flags.sentEof || flags.sentClose || flags.receivedClose) {
        flags := flags.(sentEof := true);
        ChannelMaybeClose();
      }
    }

    method ReleaseSink()
      modifies this
      ensures State() == DropSink(old(State()))
    {
      if sinks == 0 {
        fate := fate.(fault := true);
      } else {
        sinks := sinks - 1;
        ChannelMaybeClose();
      }
    }

    method WriteStateClose(w: Which)
      modifies this
      ensures State() == CloseOutput(old(State()), w)
    {
      match w {
        case Stdout =>
          if out.open {
            out := out.(open := false);
            ReleaseSink();
          }
        case Stderr =>
          if err.open {
            err := err.(open := false);
            ReleaseSink();
          }
      }
    }

    method AdjustRecWindow(written: nat)
      modifies this
      ensures State() == AdjustWindow(old(State()), written)
    {
      if written > 0 && !(flags.receivedEof || flags.receivedClose || flags.sentClose) {
        window := window.(size := window.size + written);
      }
    }

    method SetOutput(w: Which, o: Output)
      modifies this
      ensures State() == old(State()).(outputs := Put(old(State()).outputs, w, o))
    {
      match w { case Stdout => out := o; case Stderr => err := o; }
    }

    /** channel_io_start_write or channel_io_stop_write, as bytes are left or not. */
    method AfterWrite(w: Which, o: Output)
      modifies this
      ensures State() == Settle(old(State()), w, o)
    {
      if o.length > 0 {
        SetOutput(w, o.(active := true));
      } else {
        SetOutput(w, o.(active := false));
        if flags.receivedEof { WriteStateClose(w); }
      }
    }

    method FailWrite(w: Which, o: Output)
      modifies this
      ensures State() == FailOutput(old(State()), w, o)
    {
      SetOutput(w, o);
      ErrorClose();
      WriteStateClose(w);
    }

    method DoReceive(w: Which, length: nat, wrote: Wrote)
      requires wrote.Wrote? ==> wrote.n <= Get(State().outputs, w).length + length
      modifies this
      ensures State() == Receive(old(State()), w, length, wrote)
    {
      var o := if w.Stdout? then out else err;
      match wrote {
        case WriteError => FailWrite(w, if o.length + length > window.capacity then o else Moved(o, length, 0));
        case WouldBlock =>
          if o.length + length > window.capacity {
            FailWrite(w, o);
          } else {
            AfterWrite(w, Moved(o, length, 0));
          }
        case Wrote(n) =>
          if o.length + length - n > window.capacity {
            FailWrite(w, Spilt(o, length, n));
          } else {
            AdjustRecWindow(n);
            AfterWrite(w, Moved(o, length, n));
          }
      }
    }

    method AcceptedLength(length: nat) returns (taken: nat)
      ensures taken == Taken(State(), length)
    {
      taken := length;
      if taken > MAX_DATA_SIZE { taken := MAX_DATA_SIZE; }
      if taken > window.size { taken := window.size; }
    }

    method TakeFromWindow(taken: nat)
      requires taken <= window.size
      modifies this
      ensures State() == old(State().(window := window.(size := window.size - taken)))
    {
      window := window.(size := window.size - taken);
    }

    method ReceiveDataCommon(w: Which, length: nat, wrote: Wrote)
      requires wrote.Wrote? ==> wrote.n <= Get(State().outputs, w).length + Taken(State(), length)
      modifies this
      ensures State() == ReceiveData(old(State()), w, length, wrote)
    {
      var taken := AcceptedLength(length);
      if !(flags.receivedEof || flags.receivedClose || flags.sentClose || taken == 0) {
        TakeFromWindow(taken);
        DoReceive(w, taken, wrote);
      }
    }

    method OopWrite(w: Which, wrote: Wrote)
      requires wrote.Wrote? ==> wrote.n <= Get(State().outputs, w).length
      modifies this
      ensures State() == Flush(old(State()), w, wrote)
    {
      var o := if w.Stdout? then out else err;
      match wrote {
        case WriteError => FailWrite(w, o);
        case WouldBlock =>
        case Wrote(n) =>
          AdjustRecWindow(n);
          AfterWrite(w, Moved(o, 0, n));
      }
    }

    /** CHANNEL_EVENT_EOF, and the close test behind it. */
    method EventEof()
      modifies this
      ensures State() == CloseDrained(old(State()))
    {
      flags := flags.(receivedEof := true);
      if out.length == 0 { WriteStateClose(Stdout); }
      if err.length == 0 { WriteStateClose(Stderr); }
      ChannelMaybeClose();
    }

    method HandleChannelEof()
      modifies this
      ensures State() == PeerEof(old(State()))
    {
      if flags.receivedEof || flags.receivedClose {
        Error();
      } else {
        EventEof();
      }
    }

    method HandleChannelClose()
      modifies this
      ensures State() == PeerClose(old(State()))
    {
      if flags.receivedClose {
        Error();
      } else {
        flags := flags.(receivedClose := true);
        if flags.sentClose {
          fate := fate.(finished := true);
        } else {
          ChannelClose();
        }
      }
    }

    method HandleExit(wellFormed: bool)
      modifies this
      ensures State() == ExitMessage(old(State()), wellFormed)
    {
      if exitPending {
        if !wellFormed {
          Error();
        } else {
          exitPending := false;
          ReleaseSink();
        }
      }
    }

    method ReadEof()
      modifies this
      ensures State() == StdinEof(old(State()))
    {
      if sources == 0 {
        fate := fate.(fault := true);
      } else {
        sources, stdin := sources - 1, Input(false, false);
        if sources == 0 { ChannelEof(); }
      }
    }

    method ReadError()
      modifies this
      ensures State() == StdinError(old(State()))
    {
      ErrorClose();
      stdin := Input(false, false);
    }

    method IoStopRead()
      modifies this`stdin
      ensures State() == StopRead(old(State()))
    {
      stdin := stdin.(active := false);
    }

    method IoStartRead()
      modifies this`stdin
      ensures State() == StartRead(old(State()))
    {
      if stdin.open && !stdin.active { stdin := stdin.(active := true); }
    }

    method ChannelStartReceive()
      modifies this
      ensures State() == StartReceive(old(State()))
    {
      if window.size < window.capacity { window := window.(size := window.capacity); }
      window := window.(started := true);
    }

    /** Whatever happens to the session. */
    method Perform(e: Event)
      requires Enabled(State(), e)
      modifies this
      ensures State() == Apply(old(State()), e)
    {
      match e {
        case Data(w, length, wrote) => ReceiveDataCommon(w, length, wrote);
        case Writable(w, wrote) => OopWrite(w, wrote);
        case InputEnds => ReadEof();
        case InputFails => ReadError();
        case InputStalls => IoStopRead();
        case EofArrives => HandleChannelEof();
        case CloseArrives => HandleChannelClose();
        case ExitArrives(wellFormed) => HandleExit(wellFormed);
        case RequestRefused => ErrorClose();
        case ReceiveStarts => ChannelStartReceive();
        case Stops => IoStopRead();
        case Starts(sendWindow) => if sendWindow { IoStartRead(); }
        case WindowGrows => IoStartRead();
      }
    }

    /** Every event leaves the session sound: no assert has failed, the sinks are the
        open outputs and the pending exit message, the buffers hold what is in them,
        and CLOSE has been sent if and only if it was due or forced. */
    method HandleEvent(e: Event)
      requires Ok(State()) && Enabled(State(), e)
      modifies this
      ensures State() == Apply(old(State()), e) && Ok(State())
      ensures !fate.fault && sinks == Count(out.open) + Count(err.open) + Count(exitPending)
      ensures window.size + out.length + err.length <= window.capacity
      ensures flags.sentClose <==> fate.forced || flags.receivedClose || MayClose(State())
    {
      StepKeeps(State(), e);
      Perform(e);
    }

    /** A run of the object is a run of its states. */
    method Run(events: seq<Event>)
      requires Ok(State()) && IsRun(State(), events)
      modifies this
      ensures Ok(State()) && State() == Final(old(State()), events)
    {
      ghost var goal := Final(State(), events);
      assert events[0..] == events;
      for i := 0 to |events|
        invariant Ok(State()) && IsRun(State(), events[i..]) && Final(State(), events[i..]) == goal
      {
        assert events[i..][0] == events[i] && events[i..][1..] == events[i + 1..];
        HandleEvent(events[i]);
      }
    }
  }
}
