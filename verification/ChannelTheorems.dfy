/** What holds in every state that two endpoints can reach, from the moment one
    of them has sent CHANNEL_OPEN. */
module ChannelTheorems {
  import opened Channel
  import opened ChannelRun
  import opened ChannelContents

  // ----- Runs

  datatype Pair = Pair(left: Endpoint, right: Endpoint)

  datatype Step = Left(a: Action) | Right(a: Action)

  predicate StepEnabled(p: Pair, s: Step) {
    match s
    case Left(a) => Enabled(p.left, p.right.sent, a)
    case Right(a) => Enabled(p.right, p.left.sent, a)
  }

  function Next(p: Pair, s: Step): Pair
    requires StepEnabled(p, s)
  {
    match s
    case Left(a) => p.(left := Apply(p.left, p.right.sent, a))
    case Right(a) => p.(right := Apply(p.right, p.left.sent, a))
  }

  predicate IsRun(p: Pair, steps: seq<Step>)
    decreases |steps|
  {
    steps == [] || (StepEnabled(p, steps[0]) && IsRun(Next(p, steps[0]), steps[1..]))
  }

  function Final(p: Pair, steps: seq<Step>): Pair
    requires IsRun(p, steps)
    decreases |steps|
  {
    if steps == [] then p else Final(Next(p, steps[0]), steps[1..])
  }

  /** How an application configures its channel object. */
  datatype Setup = Setup(window: nat, maxPacket: nat, capacity: nat, noWait: bool)

  predicate SetupOk(s: Setup) {
    s.window <= s.capacity < UINT32
  }

  function Fresh(s: Setup, opener: bool): Endpoint {
    Endpoint(Status(opener, Idle, 0, false, false), Flags(false, false, false, false, s.noWait),
             Window(s.window, s.maxPacket), Window(0, 0), 0, 0, false, WriteState(false, s.capacity, [], []), [],
             Log([], EMPTY), Log([], EMPTY))
  }

  /** The opener has sent CHANNEL_OPEN; the acceptor has a channel object ready. */
  function Opening(opener: Setup, acceptor: Setup): Pair {
    Pair(OpenNew(Fresh(opener, true)), Fresh(acceptor, false))
  }

  // ----- Every step keeps the invariant

  predicate Linked(l: Endpoint, r: Endpoint) {
    && l.sent.Valid() && l.read.Valid() && r.sent.Valid() && r.read.Valid()
    && l.read.messages <= r.sent.messages && r.read.messages <= l.sent.messages
  }

  predicate Good(l: Endpoint, r: Endpoint) {
    Core(l, r) && Linked(l, r) && Stream(l) && Stream(r)
  }

  /** A step that reads no mail and only adds to what was sent. */
  lemma GoodAfter(l: Endpoint, l': Endpoint, r: Endpoint)
    requires Good(l, r) && Core(l', r) && Stream(l') && Longer(l.sent, l'.sent) && l'.read == l.read
    ensures Good(l', r)
  {
  }

  lemma NextPrefix(part: seq<Message>, log: seq<Message>)
    requires part <= log && |part| < |log|
    ensures part + [log[|part|]] <= log
  {
  }

  lemma LogsAfterMail(l: Endpoint, m: Message, l': Endpoint, r: Endpoint)
    requires Linked(l, r) && |l.read.messages| < |r.sent.messages| && m == r.sent.messages[|l.read.messages|]
    requires Longer(l.sent, l'.sent) && l'.read == l.read.Append(m)
    ensures Linked(l', r)
  {
    AppendLonger(l.read, m);
    NextPrefix(l.read.messages, r.sent.messages);
  }

  /** The next message fits what the peer has written. */
  lemma MailIsPending(l: Endpoint, m: Message, r: Endpoint)
    requires Linked(l, r) && |l.read.messages| < |r.sent.messages| && m == r.sent.messages[|l.read.messages|]
    ensures Pending(l, m, r)
  {
    AppendLonger(l.read, m);
    NextPrefix(l.read.messages, r.sent.messages);
    PrefixBelow(l.read.Append(m).messages, r.sent.messages);
    PrefixBelow(r.read.messages, l.sent.messages);
  }

  lemma ReceiveKeeps(l: Endpoint, o: WriteOutcome, r: Endpoint)
    requires Good(l, r) && Enabled(l, r.sent, Receive(o))
    ensures Good(Apply(l, r.sent, Receive(o)), r)
  {
    var m := r.sent.messages[|l.read.messages|];
    MailIsPending(l, m, r);
    HandleKeeps(l, m, o, r);
    HandleStream(l, m, o, r);
    LogsAfterMail(l, m, Handle(l, m, o), r);
  }

  lemma ReadSocketKeeps(l: Endpoint, kind: nat, o: ReadOutcome, r: Endpoint)
    requires Good(l, r) && Enabled(l, r.sent, ReadSocket(kind, o))
    ensures Good(IoRead(l, kind, o), r)
  {
    ReadKeeps(l, kind, o, r);
    IoReadQuiet(l, kind, o);
    QuietStream(l, IoRead(l, kind, o));
    GoodAfter(l, IoRead(l, kind, o), r);
  }

  lemma FlushSocketKeeps(l: Endpoint, o: WriteOutcome, r: Endpoint)
    requires Good(l, r) && Enabled(l, r.sent, FlushSocket(o))
    ensures Good(IoFlush(l, o), r)
  {
    FlushKeeps(l, o, r);
    FlushStream(l, o);
    GoodAfter(l, IoFlush(l, o), r);
  }

  lemma StartReceiveGrants(e: Endpoint, initial: nat)
    ensures StartReceive(e, initial) == if e.rec.size < initial then SendWindowAdjust(e, initial - e.rec.size) else e
  {
  }

  lemma GrantKeeps(l: Endpoint, add: nat, l': Endpoint, r: Endpoint)
    requires Good(l, r) && IsActive(l) && !l.flags.sentClose && l' == SendWindowAdjust(l, add)
    requires l.rec.size + add + |l.write.buffer| <= l.write.capacity
    ensures Good(l', r)
  {
    AdjustKeeps(l, add, r);
    AdjustQuiet(l, add);
    QuietStream(l, l');
    GoodAfter(l, l', r);
  }

  lemma StartReceivingKeeps(l: Endpoint, initial: nat, r: Endpoint)
    requires Good(l, r) && Enabled(l, r.sent, StartReceiving(initial))
    ensures Good(StartReceive(l, initial), r)
  {
    StartReceiveGrants(l, initial);
    if l.rec.size < initial {
      GrantKeeps(l, initial - l.rec.size, StartReceive(l, initial), r);
    }
  }

  lemma AbandonKeeps(l: Endpoint, r: Endpoint)
    requires Good(l, r) && IsActive(l)
    ensures Good(Abort(l), r)
  {
    AbortKeeps(l, r);
    AbortQuiet(l);
    QuietStream(l, Abort(l));
    GoodAfter(l, Abort(l), r);
  }

  lemma StopStartKeeps(l: Endpoint, r: Endpoint)
    requires Good(l, r) && IsActive(l)
    ensures Good(StopRead(l), r)
    ensures l.sources > 0 || l.send.size == 0 ==> Good(StartRead(l), r)
  {
    StopKeeps(l, r);
    GoodAfter(l, StopRead(l), r);
    StartKeepsIff(l, r);
    if l.sources > 0 || l.send.size == 0 {
      GoodAfter(l, StartRead(l), r);
    }
  }

  lemma StepKeeps(l: Endpoint, a: Action, r: Endpoint)
    requires Good(l, r) && Enabled(l, r.sent, a)
    ensures Good(Apply(l, r.sent, a), r)
  {
    match a
    case ReadSocket(kind, o) => ReadSocketKeeps(l, kind, o, r);
    case FlushSocket(o) => FlushSocketKeeps(l, o, r);
    case Receive(o) => ReceiveKeeps(l, o, r);
    case StartReceiving(initial) => StartReceivingKeeps(l, initial, r);
    case Stop => StopStartKeeps(l, r);
    case Start => StopStartKeeps(l, r);
    case Abandon => AbandonKeeps(l, r);
  }

  lemma PairStepKeeps(p: Pair, s: Step)
    requires Good(p.left, p.right) && StepEnabled(p, s)
    ensures Good(Next(p, s).left, Next(p, s).right)
  {
    match s
    case Left(a) => StepKeeps(p.left, a, p.right);
    case Right(a) => StepKeeps(p.right, a, p.left);
  }

  lemma {:induction false} RunKeeps(p: Pair, steps: seq<Step>)
    requires Good(p.left, p.right) && IsRun(p, steps)
    ensures Good(Final(p, steps).left, Final(p, steps).right)
    decreases |steps|
  {
    if steps != [] {
      PairStepKeeps(p, steps[0]);
      RunKeeps(Next(p, steps[0]), steps[1..]);
    }
  }

  lemma OpeningGood(opener: Setup, acceptor: Setup)
    requires SetupOk(opener) && SetupOk(acceptor)
    ensures Good(Opening(opener, acceptor).left, Opening(opener, acceptor).right)
  {
    var p := Opening(opener, acceptor);
    AppendLonger(Log([], EMPTY), p.left.sent.messages[0]);
  }

  ghost predicate Reachable(l: Endpoint, r: Endpoint) {
    exists opener, acceptor, steps ::
      && SetupOk(opener) && SetupOk(acceptor)
      && IsRun(Opening(opener, acceptor), steps)
      && (Final(Opening(opener, acceptor), steps) == Pair(l, r) ||
          Final(Opening(opener, acceptor), steps) == Pair(r, l))
  }

  lemma ReachableGood(l: Endpoint, r: Endpoint)
    requires Reachable(l, r)
    ensures Good(l, r)
  {
    var opener, acceptor, steps :|
      && SetupOk(opener) && SetupOk(acceptor)
      && IsRun(Opening(opener, acceptor), steps)
      && (Final(Opening(opener, acceptor), steps) == Pair(l, r) ||
          Final(Opening(opener, acceptor), steps) == Pair(r, l));
    OpeningGood(opener, acceptor);
    RunKeeps(Opening(opener, acceptor), steps);
  }

  // ----- CHANNEL_EVENT_START

  /** No run from here on fails an assert or reports a protocol error. */
  ghost predicate Harmless(p: Pair) {
    forall steps | IsRun(p, steps) :: !Final(p, steps).left.status.fault && !Final(p, steps).right.status.fault
  }

  lemma GoodIsHarmless(p: Pair)
    requires Good(p.left, p.right)
    ensures Harmless(p)
  {
    forall steps | IsRun(p, steps)
      ensures !Final(p, steps).left.status.fault && !Final(p, steps).right.status.fault
    {
      RunKeeps(p, steps);
    }
  }

  /** ssh_connection_start_channels asks no channel whether it has anything to read.
      The event does no harm exactly while it has, or has no window to send it. */
  lemma StartIsHarmlessIff(l: Endpoint, r: Endpoint)
    requires Reachable(l, r) && IsActive(l)
    ensures Harmless(Pair(StartRead(l), r)) <==> l.sources > 0 || l.send.size == 0
  {
    ReachableGood(l, r);
    if l.sources > 0 || l.send.size == 0 {
      StopStartKeeps(l, r);
      GoodIsHarmless(Pair(StartRead(l), r));
    } else {
      ReadAfterStartFailsIff(l, 0, ReadEof, r);
      OneStep(Pair(StartRead(l), r), Left(ReadSocket(0, ReadEof)));
    }
  }

  lemma OneStep(p: Pair, s: Step)
    requires StepEnabled(p, s)
    ensures IsRun(p, [s]) && Final(p, [s]) == Next(p, s)
  {
    assert [s][1..] == [];
  }

  lemma OneMoreStep(p: Pair, s: Step, steps: seq<Step>)
    requires StepEnabled(p, s) && IsRun(Next(p, s), steps)
    ensures IsRun(p, [s] + steps) && Final(p, [s] + steps) == Final(Next(p, s), steps)
  {
    assert ([s] + steps)[1..] == steps;
  }

  /** A connection whose opener has read to its end of file: CHANNEL_EVENT_START makes
      it read again, and that fails the assert. */
  lemma StartAfterEofFails() returns (l: Endpoint, r: Endpoint)
    ensures Reachable(l, r) && IsActive(l) && l.flags.sentEof && l.sources == 0 && l.send.size > 0
    ensures StepEnabled(Pair(StartRead(l), r), Left(ReadSocket(0, ReadEof)))
    ensures Next(Pair(StartRead(l), r), Left(ReadSocket(0, ReadEof))).left.status.fault
  {
    var setup := Setup(1000, 1000, 1000, false);
    var accept, confirm, end := Right(Receive(WouldBlock)), Left(Receive(WouldBlock)), Left(ReadSocket(0, ReadEof));
    var opening := Opening(setup, setup);
    var accepted := Next(opening, accept);
    var open := Next(accepted, confirm);
    var ended := Next(open, end);
    OneStep(open, end);
    OneMoreStep(accepted, confirm, [end]);
    OneMoreStep(opening, accept, [confirm] + [end]);
    l, r := ended.left, ended.right;
    assert Final(opening, [accept] + ([confirm] + [end])) == Pair(l, r);
  }

  // ----- What the invariant says in terms of the logs

  /** The messages of `s` that `r` has not read. */
  function Unread(s: Endpoint, r: Endpoint): seq<Message> {
    if |r.read.messages| <= |s.sent.messages| then s.sent.messages[|r.read.messages|..] else []
  }

  /** The data and the credit of a single message. */
  lemma AdvanceAddsTo(d: Digest, m: Message)
    ensures Advance(d, m).data == d.data + Advance(EMPTY, m).data
    ensures Advance(d, m).credit == d.credit + Advance(EMPTY, m).credit
  {
    match m
    case Open(_, _) =>
    case Confirm(_, _) =>
    case Adjust(_) =>
    case Eof =>
    case Close =>
    case Data(_) =>
    case Extended(_, _) =>
  }

  lemma AdvanceAdds(d: Digest, d': Digest, m: Message)
    ensures Advance(d, m).data - d.data == Advance(d', m).data - d'.data
    ensures Advance(d, m).credit - d.credit == Advance(d', m).credit - d'.credit
  {
    AdvanceAddsTo(d, m);
    AdvanceAddsTo(d', m);
  }

  lemma {:induction false} SumSplit(a: seq<Message>, b: seq<Message>)
    ensures Sum(a + b).data == Sum(a).data + Sum(b).data
    ensures Sum(a + b).credit == Sum(a).credit + Sum(b).credit
  {
    if b == [] {
      assert a + b == a;
    } else {
      var front := b[..|b| - 1];
      assert (a + b)[..|a + b| - 1] == a + front;
      SumSplit(a, front);
      AdvanceAdds(Sum(a + front), Sum(front), b[|b| - 1]);
    }
  }

  lemma UnreadSums(s: Endpoint, r: Endpoint)
    requires r.read.messages <= s.sent.messages
    ensures Sum(s.sent.messages).data == Sum(r.read.messages).data + Sum(Unread(s, r)).data
    ensures Sum(s.sent.messages).credit == Sum(r.read.messages).credit + Sum(Unread(s, r)).credit
  {
    assert s.sent.messages == r.read.messages + Unread(s, r);
    SumSplit(r.read.messages, Unread(s, r));
  }

  /** RFC 4254 section 5.2: the window `s` holds, the data it has in flight and
      the adjustments in flight to it never exceed the window `r` expects, and
      account for all of it until an EOF or a CLOSE. */
  lemma WindowCreditIsConserved(s: Endpoint, r: Endpoint)
    requires Reachable(s, r)
    ensures s.send.size + Sum(Unread(s, r)).data + Sum(Unread(r, s)).credit <= r.rec.size
    ensures Undisturbed(s, r) ==> s.send.size + Sum(Unread(s, r)).data + Sum(Unread(r, s)).credit == r.rec.size
  {
    ReachableGood(s, r);
    UnreadSums(s, r);
    UnreadSums(r, s);
  }

  /** No assert fails and no handler reports a protocol error. */
  lemma NoFault(l: Endpoint, r: Endpoint)
    requires Reachable(l, r)
    ensures !l.status.fault
  {
    ReachableGood(l, r);
  }

  /** The window still open plus what waits in the write buffer fits the buffer,
      so the buffer cannot overflow and the 32-bit window cannot wrap. */
  lemma ReceiveBufferIsBounded(l: Endpoint, r: Endpoint)
    requires Reachable(l, r)
    ensures l.rec.size + |l.write.buffer| <= l.write.capacity < UINT32
    ensures l.send.size <= r.rec.size
  {
    ReachableGood(l, r);
  }

  lemma {:induction false} DeliverablePrefix(part: seq<Message>, log: seq<Message>)
    requires part <= log
    ensures Deliverable(part) <= Deliverable(log)
    ensures Sum(part).eof && Sum(log).orderly ==> Deliverable(part) == Deliverable(log)
  {
    if |part| == |log| {
      assert part == log;
    } else {
      var front := log[..|log| - 1];
      DeliverablePrefix(part, front);
      PrefixBelow(part, front);
    }
  }

  lemma {:induction false} OrdinaryPrefix(part: seq<Message>, log: seq<Message>)
    requires part <= log
    ensures Ordinary(part) <= Ordinary(log)
  {
    if |part| == |log| {
      assert part == log;
    } else {
      OrdinaryPrefix(part, log[..|log| - 1]);
    }
  }

  /** The messages passed to the receive callback are the peer's, whole and in
      order, and the bytes at the socket a prefix of the bytes it sent. */
  lemma DataArrivesInOrder(r: Endpoint, s: Endpoint)
    requires Reachable(r, s)
    ensures r.delivered <= Deliverable(s.sent.messages)
    ensures r.write.sunk + r.write.buffer <= Ordinary(Deliverable(s.sent.messages))
  {
    ReachableGood(r, s);
    DeliverablePrefix(r.read.messages, s.sent.messages);
    OrdinaryPrefix(r.delivered, Deliverable(s.sent.messages));
  }

  /** A receiver that saw EOF, drained its sink and did not close early has
      written every byte the peer will ever send. */
  lemma NothingIsLost(r: Endpoint, s: Endpoint)
    requires Reachable(r, s) && Faithful(r) && r.flags.recvEof && r.sinks == 0
    ensures r.write.sunk == Ordinary(Deliverable(s.sent.messages))
  {
    ReachableGood(r, s);
    DeliverablePrefix(r.read.messages, s.sent.messages);
  }

  /** RFC 4254 section 5.3 on a log. */
  predicate CloseRules(log: seq<Message>) {
    && (forall i, j :: 0 <= i < j < |log| && log[i] == Eof ==> log[j].Adjust? || log[j].Close?)
    && (forall i, j :: 0 <= i < j < |log| && log[i] == Close ==> IsData(log[j]))
  }

  /** A digest tells which of EOF and CLOSE occur, and orderly logs follow the rules. */
  predicate Tells(d: Digest, log: seq<Message>) {
    && (d.eof <==> Eof in log)
    && (d.close <==> Close in log)
    && (d.orderly ==> CloseRules(log) && (d.eof || d.close ==> d.start != Unopened))
  }

  lemma TellsSnoc(d: Digest, log: seq<Message>, m: Message)
    requires Tells(d, log)
    ensures Tells(Advance(d, m), log + [m])
  {
    var d' := Advance(d, m);
    assert d'.eof <==> d.eof || m == Eof;
    assert d'.close <==> d.close || m == Close;
    if d'.orderly {
      assert d.orderly;
      assert d.eof ==> m.Adjust? || m.Close?;
      assert d.close ==> IsData(m);
    }
  }

  lemma {:induction false} OrderlyMeans(log: seq<Message>)
    ensures Tells(Sum(log), log)
  {
    if log != [] {
      var front := log[..|log| - 1];
      OrderlyMeans(front);
      TellsSnoc(Sum(front), front, log[|log| - 1]);
      assert log == front + [log[|log| - 1]];
    }
  }

  /** Each side sends at most one EOF and one CLOSE, nothing but adjustments and
      CLOSE after EOF, and nothing but data after CLOSE. */
  lemma CloseHandshake(l: Endpoint, r: Endpoint)
    requires Reachable(l, r)
    ensures CloseRules(l.sent.messages)
    ensures l.status.freed <= 1
    ensures l.status.freed == 1 <==> l.status.phase == Finished
    ensures l.status.freed == 1 <==> Close in l.sent.messages && Close in l.read.messages
  {
    ReachableGood(l, r);
    OrderlyMeans(l.sent.messages);
    OrderlyMeans(l.read.messages);
  }

  /** Once either side has sent CLOSE and all mail is read, both are finished. */
  lemma CloseCompletes(l: Endpoint, r: Endpoint)
    requires Reachable(l, r) && l.flags.sentClose
    requires Unread(l, r) == [] && Unread(r, l) == []
    ensures l.status.phase == Finished && r.status.phase == Finished
  {
    ReachableGood(l, r);
    assert r.read.messages == l.sent.messages;
    assert l.read.messages == r.sent.messages;
  }
}
