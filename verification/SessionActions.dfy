/** The actions of a client session (src/client_session.c), started in order, their
    requests answered in order (src/channel.c). */
module SessionActions {

  /** Does the action wait for all earlier answers, does starting it send a request
      that wants a reply, and does the session go on if that request fails? */
  datatype Action = Action(serial: bool, asks: bool, optional: bool)

  /** An action started, and how many actions had been answered by then. */
  datatype Start = Start(index: nat, answered: nat)

  /** `closed`: CLOSE was sent; `fault`: an assert failed. */
  datatype Pipeline = Pipeline(
    actions: seq<Action>, next: nat, done: nat, pending: nat, closed: bool, fault: bool, started: seq<Start>)

  function Fresh(actions: seq<Action>): Pipeline {
    Pipeline(actions, 0, 0, 0, false, false, [])
  }

  // ----- The operations

  /** Start the next action; channel_send_request is silent once CLOSE is sent. */
  function StartOne(p: Pipeline): Pipeline
    requires p.next < |p.actions|
  {
    p.(next := p.next + 1,
       pending := if p.actions[p.next].asks && !p.closed then p.pending + 1 else p.pending,
       started := p.started + [Start(p.next, p.done)])
  }

  /** session_next_action. */
  function NextAction(p: Pipeline): Pipeline
    decreases |p.actions| - p.next
  {
    if p.next >= |p.actions| || (p.actions[p.next].serial && p.next > p.done) then p
    else NextAction(StartOne(p))
  }

  /** A reply is counted off, and its action is the oldest unanswered one. */
  function Answer(p: Pipeline): Pipeline
    requires p.pending > 0
  {
    var p := p.(pending := p.pending - 1);
    if p.done >= |p.actions| then p.(fault := true) else p.(done := p.done + 1)
  }

  /** handle_channel_success with CHANNEL_EVENT_SUCCESS. */
  function Success(p: Pipeline): Pipeline {
    if p.pending == 0 then p else NextAction(Answer(p))
  }

  /** handle_channel_failure with CHANNEL_EVENT_FAILURE. */
  function Failure(p: Pipeline): Pipeline {
    if p.pending == 0 then p
    else if p.done < |p.actions| && p.actions[p.done].optional then NextAction(Answer(p))
    else Answer(p).(closed := true)
  }

  // ----- Runs

  datatype Event = Succeeds | Fails | Closes

  function Apply(p: Pipeline, e: Event): Pipeline {
    match e
    case Succeeds => Success(p)
    case Fails => Failure(p)
    case Closes => p.(closed := true)
  }

  /** The session is confirmed, and then replies arrive. */
  function Final(p: Pipeline, events: seq<Event>): Pipeline
    decreases |events|
  {
    if events == [] then p else Final(Apply(p, events[0]), events[1..])
  }

  function Session(actions: seq<Action>, events: seq<Event>): Pipeline {
    Final(NextAction(Fresh(actions)), events)
  }

  // ----- The invariant

  /** Actions started once and in order, the serial ones when all earlier ones had
      been answered. */
  predicate InOrder(p: Pipeline) {
    && |p.started| == p.next <= |p.actions|
    && forall i :: 0 <= i < p.next ==> p.started[i].index == i && (p.actions[i].serial ==> p.started[i].answered == i)
  }

  predicate Counted(p: Pipeline) {
    && !p.fault
    && p.done + p.pending <= p.next
    && (!p.closed && (forall a <- p.actions :: a.asks) ==> p.done + p.pending == p.next)
  }

  predicate Waiting(p: Pipeline) {
    p.closed || p.next == |p.actions| || p.done < p.next < |p.actions|
  }

  predicate Ok(p: Pipeline) {
    InOrder(p) && Counted(p) && Waiting(p)
  }

  lemma StartOneKeeps(p: Pipeline)
    requires InOrder(p) && Counted(p) && p.next < |p.actions| && (p.actions[p.next].serial ==> p.next <= p.done)
    ensures InOrder(StartOne(p)) && Counted(StartOne(p))
  {
    var q := StartOne(p);
    forall i | 0 <= i < q.next
      ensures q.started[i].index == i && (q.actions[i].serial ==> q.started[i].answered == i)
    {
      if i < p.next {
        assert q.started[i] == p.started[i];
      }
    }
    assert p.actions[p.next] in p.actions;
  }

  lemma {:induction false} NextActionKeeps(p: Pipeline)
    requires InOrder(p) && Counted(p)
    ensures Ok(NextAction(p))
    ensures NextAction(p).actions == p.actions && NextAction(p).closed == p.closed && NextAction(p).done == p.done
    decreases |p.actions| - p.next
  {
    if p.next < |p.actions| && !(p.actions[p.next].serial && p.next > p.done) {
      StartOneKeeps(p);
      NextActionKeeps(StartOne(p));
    }
  }

  lemma AnswerKeeps(p: Pipeline)
    requires InOrder(p) && Counted(p) && p.pending > 0
    ensures InOrder(Answer(p)) && Counted(Answer(p)) && Answer(p).done == p.done + 1
  {
  }

  lemma StepKeeps(p: Pipeline, e: Event)
    requires Ok(p)
    ensures Ok(Apply(p, e)) && Apply(p, e).actions == p.actions
  {
    if !e.Closes? && p.pending > 0 {
      AnswerKeeps(p);
      NextActionKeeps(Answer(p));
    }
  }

  lemma {:induction false} RunKeeps(p: Pipeline, events: seq<Event>)
    requires Ok(p)
    ensures Ok(Final(p, events)) && Final(p, events).actions == p.actions
    decreases |events|
  {
    if events != [] {
      StepKeeps(p, events[0]);
      RunKeeps(Apply(p, events[0]), events[1..]);
    }
  }

  lemma SessionIsOk(actions: seq<Action>, events: seq<Event>)
    ensures Ok(Session(actions, events)) && Session(actions, events).actions == actions
  {
    NextActionKeeps(Fresh(actions));
    RunKeeps(NextAction(Fresh(actions)), events);
  }

  // ----- Theorems

  /** Never more requests pending than actions unanswered, and no assert fails. */
  lemma RepliesMatchActions(actions: seq<Action>, events: seq<Event>)
    ensures var p := Session(actions, events);
            !p.fault && p.pending <= p.next - p.done && p.next <= |actions|
  {
    SessionIsOk(actions, events);
  }

  /** Actions start once and in order; a serial one starts when all before it have
      been answered. */
  lemma ActionsStartInOrder(actions: seq<Action>, events: seq<Event>, i: nat)
    requires i < |Session(actions, events).started|
    ensures var p := Session(actions, events);
            && i < |actions| && p.started[i].index == i
            && (actions[i].serial ==> p.started[i].answered == i)
  {
    SessionIsOk(actions, events);
  }

  /** If every action asks for a reply, the session never stalls: with nothing left
      to be answered, everything has been started. */
  lemma NothingStalls(actions: seq<Action>, events: seq<Event>)
    requires forall a <- actions :: a.asks
    ensures var p := Session(actions, events);
            !p.closed && p.pending == 0 ==> p.next == p.done == |actions|
  {
    SessionIsOk(actions, events);
  }

  // ----- In place

  class Queue {
    const actions: seq<Action>
    var next: nat
    var done: nat
    var pending: nat
    var closed: bool
    var fault: bool
    var started: seq<Start>

    function State(): Pipeline
      reads this
    {
      Pipeline(actions, next, done, pending, closed, fault, started)
    }

    /** make_client_session_channel. */
    constructor (actions: seq<Action>)
      ensures State() == Fresh(actions)
    {
      this.actions := actions;
      next, done, pending, closed, fault, started := 0, 0, 0, false, false, [];
    }

    /** channel_send_request. */
    method SendRequest(wantReply: bool)
      modifies this`pending
      ensures pending == old(pending) + (if wantReply && !closed then 1 else 0)
    {
      if closed { return; }
      if wantReply { pending := pending + 1; }
    }

    method SessionNextAction()
      modifies this
      ensures State() == NextAction(old(State()))
    {
      ghost var goal := NextAction(State());
      while next < |actions|
        invariant NextAction(State()) == goal
        decreases |actions| - next
      {
        var action := actions[next];
        if action.serial && next > done { return; }
        started := started + [Start(next, done)];
        next := next + 1;
        SendRequest(action.asks);
      }
    }

    method TakeReply() returns (action: nat)
      requires pending > 0
      modifies this
      ensures State() == Answer(old(State())) && action == old(done)
    {
      pending, action := pending - 1, done;
      if done >= |actions| {
        fault := true;
      } else {
        done := done + 1;
      }
    }

    method HandleSuccess()
      modifies this
      ensures State() == Success(old(State()))
    {
      if pending == 0 { return; }
      var action := TakeReply();
      SessionNextAction();
    }

    method HandleFailure()
      modifies this
      ensures State() == Failure(old(State()))
    {
      if pending == 0 { return; }
      var action := TakeReply();
      if action < |actions| && actions[action].optional {
        SessionNextAction();
      } else {
        closed := true;
      }
    }
  }
}
