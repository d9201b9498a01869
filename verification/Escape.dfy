/** Escape sequences on a client's standard input (src/client_escape.c,
    src/client_session.c): a newline, the escape character, and one character more. */
module Escape {
  import opened Wrappers
  import opened Numbers

  // ----- The automaton, byte by byte

  datatype State = GotNone | GotNewline | GotEscape

  /** What some input leads to: a state, bytes sent, characters dispatched. */
  datatype Effect = Effect(state: State, sent: seq<Byte>, dispatched: seq<Byte>)

  predicate Newline(c: Byte) {
    c == 10 || c == 13
  }

  function Feed(escape: Byte, state: State, c: Byte): Effect {
    if state.GotEscape? then
      if c == escape then Effect(GotNone, [c], []) else Effect(GotNone, [], [c])
    else if state.GotNewline? && c == escape then Effect(GotEscape, [], [])
    else Effect(if Newline(c) then GotNewline else GotNone, [c], [])
  }

  function Then(first: Effect, second: Effect): Effect {
    Effect(second.state, first.sent + second.sent, first.dispatched + second.dispatched)
  }

  function Run(escape: Byte, state: State, input: seq<Byte>): Effect
    decreases |input|
  {
    if input == [] then Effect(state, [], [])
    else
      var first := Feed(escape, state, input[0]);
      Then(first, Run(escape, first.state, input[1..]))
  }

  lemma ThenAssociates(a: Effect, b: Effect, c: Effect)
    ensures Then(a, Then(b, c)) == Then(Then(a, b), c)
  {
    assert a.sent + (b.sent + c.sent) == a.sent + b.sent + c.sent;
    assert a.dispatched + (b.dispatched + c.dispatched) == a.dispatched + b.dispatched + c.dispatched;
  }

  /** How the input is cut does not matter. */
  lemma {:induction false} RunSplit(escape: Byte, state: State, a: seq<Byte>, b: seq<Byte>)
    ensures Run(escape, state, a + b) == Then(Run(escape, state, a), Run(escape, Run(escape, state, a).state, b))
    decreases |a|
  {
    if a == [] {
      assert a + b == b;
    } else {
      var first := Feed(escape, state, a[0]);
      assert (a + b)[1..] == a[1..] + b;
      RunSplit(escape, first.state, a[1..], b);
      var r := Run(escape, first.state, a[1..]);
      ThenAssociates(first, r, Run(escape, r.state, b));
    }
  }

  lemma RunSnoc(escape: Byte, state: State, a: seq<Byte>, c: Byte)
    ensures Run(escape, state, a + [c]) == Then(Run(escape, state, a), Feed(escape, Run(escape, state, a).state, c))
  {
    RunSplit(escape, state, a, [c]);
    var s := Run(escape, state, a).state;
    assert Run(escape, s, [c]) == Feed(escape, s, c);
  }

  // ----- What it does to the bytes

  /** Of the input, some is sent, some is dispatched, and nothing else is. */
  lemma {:induction false} NothingIsAdded(escape: Byte, state: State, input: seq<Byte>)
    ensures |Run(escape, state, input).sent| + |Run(escape, state, input).dispatched| <= |input|
    decreases |input|
  {
    if input != [] {
      NothingIsAdded(escape, Feed(escape, state, input[0]).state, input[1..]);
    }
  }

  /** The input to type so that `data` is sent: an escape character at the start
      of a line is doubled. */
  function Quoted(escape: Byte, lineStart: bool, data: seq<Byte>): seq<Byte>
    decreases |data|
  {
    if data == [] then []
    else if lineStart && data[0] == escape then [escape, escape] + Quoted(escape, false, data[1..])
    else [data[0]] + Quoted(escape, Newline(data[0]), data[1..])
  }

  /** All data can be sent: quoted input arrives unquoted, and nothing is dispatched. */
  lemma {:induction false} QuotedInputIsSent(escape: Byte, lineStart: bool, data: seq<Byte>)
    ensures var r := Run(escape, if lineStart then GotNewline else GotNone, Quoted(escape, lineStart, data));
            r.sent == data && r.dispatched == [] && !r.state.GotEscape?
    decreases |data|
  {
    if data != [] {
      var state := if lineStart then GotNewline else GotNone;
      if lineStart && data[0] == escape {
        QuotedInputIsSent(escape, false, data[1..]);
        RunSplit(escape, state, [escape, escape], Quoted(escape, false, data[1..]));
        assert [escape, escape] == [escape] + [escape];
        RunSnoc(escape, state, [escape], escape);
      } else {
        QuotedInputIsSent(escape, Newline(data[0]), data[1..]);
        RunSplit(escape, state, [data[0]], Quoted(escape, Newline(data[0]), data[1..]));
      }
    }
  }

  // ----- client_escape_process

  /** escape_dispatch: how many bytes the quote action lets through, and the
      characters dispatched. */
  method EscapeDispatch(escape: Byte, c: Byte) returns (quote: nat, dispatched: seq<Byte>)
    ensures quote == |Feed(escape, GotEscape, c).sent| && dispatched == Feed(escape, GotEscape, c).dispatched
  {
    if c == escape { return 1, []; }
    return 0, [c];
  }

  lemma OneMore(data: seq<Byte>, i: nat)
    requires i < |data|
    ensures data[..i] + [data[i]] == data[..i + 1]
  {
  }

  lemma RunNext(escape: Byte, state: State, data: seq<Byte>, i: nat)
    requires i < |data|
    ensures var r := Run(escape, state, data[..i]);
            Run(escape, state, data[..i + 1]) == Then(r, Feed(escape, r.state, data[i]))
  {
    OneMore(data, i);
    RunSnoc(escape, state, data[..i], data[i]);
  }

  /** Input up to an escape sequence, its lead-in and one character more. */
  lemma DispatchStep(escape: Byte, state: State, data: seq<Byte>, i: nat)
    requires i + 1 < |data| && data[i] == escape
    requires Run(escape, state, data[..i]) == Effect(GotNewline, data[..i], [])
    ensures var last := Feed(escape, GotEscape, data[i + 1]);
            Run(escape, state, data[..i + 2]) == Effect(GotNone, data[..i + |last.sent|], last.dispatched)
  {
    var before, c := data[..i + 1], data[i + 1];
    EscapeStep(escape, state, data, i);
    assert data[..i + 2] == before + [c];
    RunSnoc(escape, state, before, c);
    DispatchEffect(escape, data, i);
  }

  lemma DispatchEffect(escape: Byte, data: seq<Byte>, i: nat)
    requires i + 1 < |data| && data[i] == escape
    ensures var last := Feed(escape, GotEscape, data[i + 1]);
            Then(Effect(GotEscape, data[..i], []), last) == Effect(GotNone, data[..i + |last.sent|], last.dispatched)
  {
    if data[i + 1] == escape {
      assert data[..i] + [escape] == data[..i + 1];
    } else {
      assert data[..i] + [] == data[..i];
    }
  }

  lemma EscapeStep(escape: Byte, state: State, data: seq<Byte>, i: nat)
    requires i < |data| && data[i] == escape
    requires Run(escape, state, data[..i]) == Effect(GotNewline, data[..i], [])
    ensures Run(escape, state, data[..i + 1]) == Effect(GotEscape, data[..i], [])
  {
    RunNext(escape, state, data, i);
    assert data[..i] + [] == data[..i];
  }

  lemma CopyStep(escape: Byte, state: State, data: seq<Byte>, i: nat, s: State)
    requires i < |data| && Run(escape, state, data[..i]) == Effect(s, data[..i], [])
    requires s.GotNone? || (s.GotNewline? && data[i] != escape)
    ensures Run(escape, state, data[..i + 1]) ==
            Effect(if Newline(data[i]) then GotNewline else GotNone, data[..i + 1], [])
  {
    RunNext(escape, state, data, i);
    OneMore(data, i);
    assert Feed(escape, s, data[i]) == Effect(if Newline(data[i]) then GotNewline else GotNone, [data[i]], []);
  }

  /** What processing promises: the first `done` bytes did what the automaton would
      have done with them, and progress was made. */
  ghost predicate Processed(escape: Byte, state: State, data: seq<Byte>, state': State, copy: nat, done: nat,
                            dispatched: seq<Byte>) {
    && 0 < done <= |data| && copy <= done
    && Run(escape, state, data[..done]) == Effect(state', data[..copy], dispatched)
  }

  /** The loop of client_escape_process. */
  method ScanPlain(escape: Byte, state: State, data: seq<Byte>)
    returns (state': State, copy: nat, done: nat, dispatched: seq<Byte>)
    requires |data| > 0 && (state.GotNone? || (state.GotNewline? && data[0] != escape))
    ensures Processed(escape, state, data, state', copy, done, dispatched)
  {
    var i: nat := 0;
    ghost var s := state;
    assert data[..0] == [];
    while i < |data|
      invariant i <= |data|
      invariant Run(escape, state, data[..i]) == Effect(s, data[..i], [])
      invariant s.GotNone? || (s.GotNewline? && i < |data| && data[i] != escape)
    {
      CopyStep(escape, state, data, i, s);
      s := if Newline(data[i]) then GotNewline else GotNone;
      i := i + 1;
      if Newline(data[i - 1]) {
        if i == |data| { return GotNewline, i, i, []; }
        if data[i] == escape {
          i := i + 1;
          if i == |data| {
            EscapeStep(escape, state, data, i - 1);
            return GotEscape, i - 1, i, [];
          }
          var quote;
          DispatchStep(escape, state, data, i - 1);
          quote, dispatched := EscapeDispatch(escape, data[i]);
          return GotNone, i - 1 + quote, i + 1, dispatched;
        }
      }
    }
    return GotNone, |data|, |data|, [];
  }

  /** client_escape_process. */
  method ClientEscapeProcess(escape: Byte, state: State, data: seq<Byte>)
    returns (state': State, copy: nat, done: nat, dispatched: seq<Byte>)
    requires |data| > 0
    ensures Processed(escape, state, data, state', copy, done, dispatched)
  {
    var quote;
    assert data[..0] == [] && data[..1] == [data[0]];
    match state {
      case GotEscape =>
        quote, dispatched := EscapeDispatch(escape, data[0]);
        return GotNone, quote, 1, dispatched;
      case GotNewline =>
        if data[0] == escape {
          if |data| == 1 { return GotEscape, 0, 1, []; }
          DispatchStep(escape, state, data, 0);
          quote, dispatched := EscapeDispatch(escape, data[1]);
          return GotNone, quote, 2, dispatched;
        }
      case GotNone =>
    }
    state', copy, done, dispatched := ScanPlain(escape, state, data);
  }

  // ----- oop_read_stdin

  function Joined(packets: seq<seq<Byte>>): seq<Byte> {
    if packets == [] then [] else Joined(packets[..|packets| - 1]) + packets[|packets| - 1]
  }

  lemma JoinedSnoc(packets: seq<seq<Byte>>, p: seq<Byte>)
    ensures Joined(packets + [p]) == Joined(packets) + p
  {
    assert (packets + [p])[..|packets|] == packets;
  }

  lemma Consumed(start: seq<Byte>, data: seq<Byte>, at: nat, done: nat)
    requires at + done <= |data|
    ensures start + data[..at] + data[at..][..done] == start + data[..at + done]
  {
    assert data[..at] + data[at..][..done] == data[..at + done];
  }

  /** What reading standard input gives: some of what is there, or its end, or an error. */
  datatype Reading = Bytes(available: seq<Byte>) | EndOfFile | ReadError

  /** The reading side of a client session. */
  class Stdin {
    /** The escape character, if escapes are on. */
    const escape: Option<Byte>
    const bufferSize: nat
    const sendMaxPacket: nat
    var open: bool
    var active: bool
    var sources: nat
    var escapeState: State
    var sendWindow: nat

    /** The data packets sent and the characters dispatched, in order. */
    var packets: seq<seq<Byte>>
    var dispatched: seq<Byte>

    /** What channel_eof and channel_close have been called for. */
    var ended: bool
    var failed: bool

    /** All bytes ever read, and all window ever granted. */
    ghost var input: seq<Byte>
    ghost var granted: nat

    /** What the automaton does with all of the input at once. */
    ghost function Whole(input: seq<Byte>): Effect {
      match escape
      case Some(e) => Run(e, GotNone, input)
      case None => Effect(GotNone, input, [])
    }

    /** Packets are within the peer's limit and the window granted. */
    ghost predicate Within()
      reads this
    {
      (forall p <- packets :: 0 < |p| <= sendMaxPacket) && sendWindow + |Joined(packets)| == granted
    }

    /** However the input was cut into reads, it was treated as one piece. */
    ghost predicate Treated()
      reads this
    {
      Within() && Whole(input) == Effect(escapeState, Joined(packets), dispatched)
    }

    ghost predicate Valid()
      reads this
    {
      Treated() && (active ==> open) && (open ==> sources == 1 && !ended && !failed)
    }

    constructor (escape: Option<Byte>, bufferSize: nat, sendMaxPacket: nat, window: nat)
      ensures Valid() && input == [] && granted == window
    {
      this.escape, this.bufferSize, this.sendMaxPacket := escape, bufferSize, sendMaxPacket;
      open, active, sources, ended, failed := true, window > 0, 1, false, false;
      escapeState, sendWindow := GotNone, window;
      packets, dispatched, input, granted := [], [], [], window;
    }

    /** CHANNEL_WINDOW_ADJUST, and do_send_adjust. */
    method SendAdjust(n: nat)
      requires Valid()
      modifies this
      ensures Valid() && input == old(input) && granted == old(granted) + n && packets == old(packets)
    {
      sendWindow, granted := sendWindow + n, granted + n;
      if sendWindow > 0 { active := open; }
    }

    /** channel_transmit_data; its asserts are the preconditions. */
    method ChannelTransmitData(data: seq<Byte>)
      requires |data| <= sendWindow && |data| <= sendMaxPacket
      modifies this`sendWindow, this`packets
      ensures sendWindow == old(sendWindow) - |data| && packets == old(packets) + [data]
    {
      sendWindow := sendWindow - |data|;
      packets := packets + [data];
    }

    /** How much channel_io_read asks for. */
    function ReadLimit(): nat
      reads this
    {
      Min(Min(bufferSize, sendWindow), sendMaxPacket)
    }

    /** Bytes are sent as a packet, if there are any. */
    method TransmitSome(data: seq<Byte>)
      requires Within() && |data| <= sendWindow && |data| <= sendMaxPacket
      modifies this`sendWindow, this`packets
      ensures Within() && Joined(packets) == Joined(old(packets)) + data && sendWindow == old(sendWindow) - |data|
    {
      if |data| > 0 {
        JoinedSnoc(packets, data);
        ChannelTransmitData(data);
      }
    }

    /** One turn of the loop over the bytes read. */
    method ProcessSome(data: seq<Byte>) returns (done: nat)
      requires Treated() && escape.Some? && 0 < |data| <= sendWindow && |data| <= sendMaxPacket
      modifies this`escapeState, this`sendWindow, this`packets, this`dispatched, this`input
      ensures Treated() && 0 < done <= |data| && input == old(input) + data[..done]
      ensures sendWindow >= old(sendWindow) - done
    {
      var state, copy, count, chars := ClientEscapeProcess(escape.value, escapeState, data);
      RunSplit(escape.value, GotNone, input, data[..count]);
      TransmitSome(data[..copy]);
      escapeState, dispatched := state, dispatched + chars;
      input := input + data[..count];
      return count;
    }

    /** The bytes of one read. */
    method ProcessAll(data: seq<Byte>)
      requires Treated() && escape.Some? && |data| <= sendWindow && |data| <= sendMaxPacket
      modifies this`escapeState, this`sendWindow, this`packets, this`dispatched, this`input
      ensures Treated() && input == old(input) + data
    {
      ghost var start := input;
      var at: nat := 0;
      assert start + data[..0] == start;
      while at < |data|
        invariant Treated() && at <= |data| && input == start + data[..at]
        invariant |data| - at <= sendWindow
      {
        var done := ProcessSome(data[at..]);
        Consumed(start, data, at, done);
        at := at + done;
      }
      assert data[..|data|] == data;
    }

    /** The bytes of one read, if it gave any: as much is taken as the buffer, the
        window and the packet limit allow. */
    method TakeBytes(available: seq<Byte>) returns (taken: nat)
      requires Treated() && available != []
      modifies this`escapeState, this`sendWindow, this`packets, this`dispatched, this`input
      ensures Treated()
      ensures taken == Min(|available|, old(ReadLimit())) && input == old(input) + available[..taken]
    {
      taken := Min(|available|, ReadLimit());
      var data := available[..taken];
      if escape.Some? {
        ProcessAll(data);
      } else {
        TransmitSome(data);
        input := input + data;
      }
    }

    /** The end of the input: the last source ends the channel's data. */
    method ReadEof()
      requires Valid() && open
      modifies this`sources, this`active, this`open, this`ended
      ensures Valid() && !open && !active && ended && !failed
    {
      sources, active, open := sources - 1, false, false;
      if sources == 0 { ended := true; }
    }

    /** A read error closes the channel. */
    method Fail()
      requires Valid() && open
      modifies this`failed, this`active, this`open
      ensures Valid() && !open && !active && failed && !ended
    {
      failed, active, open := true, false, false;
    }

    /** oop_read_stdin. With no window left reading stops; the end of the input sends
        EOF, an error closes the channel, and after either nothing more is read. */
    method OopReadStdin(r: Reading) returns (taken: nat)
      requires Valid() && active && (r.Bytes? ==> r.available != [])
      modifies this
      ensures Valid() && granted == old(granted)
      ensures taken == (if r.Bytes? then Min(|r.available|, old(ReadLimit())) else 0)
      ensures if r.Bytes? then input == old(input) + r.available[..taken] else input == old(input)
      ensures old(ReadLimit()) == 0 ==> open && !active
      ensures old(ReadLimit()) > 0 ==> open == active == r.Bytes? && ended == r.EndOfFile? && failed == r.ReadError?
    {
      if ReadLimit() == 0 {
        active := false;
        assert r.Bytes? ==> input + r.available[..0] == input;
        return 0;
      }
      match r {
        case Bytes(available) => taken := TakeBytes(available);
        case EndOfFile => ReadEof(); taken := 0;
        case ReadError => Fail(); taken := 0;
      }
    }
  }
}
