/** Two forwarded channels as objects, each reading what the other wrote: every event
    either gets keeps what ChannelTheorems.dfy proves of runs. */
module ChannelPair {
  import opened Channel
  import opened ChannelRun
  import opened ChannelContents
  import opened ChannelTheorems
  import opened ForwardedChannel

  class Connection {
    const left: Forward
    const right: Forward

    ghost function State(): Pair
      reads left, right
    {
      Pair(left.State(), right.State())
    }

    ghost predicate Valid()
      reads left, right
    {
      left != right && Good(left.State(), right.State())
    }

    predicate Ends(me: Forward, peer: Forward) {
      (me == left && peer == right) || (me == right && peer == left)
    }

    /** What the invariant says of one end and its peer. */
    ghost predicate Safe(me: Forward, peer: Forward)
      reads me, peer
    {
      && !me.status.fault
      && me.recWindowSize + |me.buffer| <= me.writeCapacity < UINT32
      && me.sendWindowSize <= peer.recWindowSize
      && me.sunk + me.buffer <= Ordinary(Deliverable(peer.sent.messages))
    }

    /** One end has sent CHANNEL_OPEN to the other. */
    constructor (size: nat, noWait: bool, peerSize: nat, peerNoWait: bool)
      requires size < UINT32 && peerSize < UINT32
      ensures Valid() && fresh(left) && fresh(right)
      ensures State() == Opening(Setup(size, MAX_PACKET, size, noWait),
                                 Setup(peerSize, MAX_PACKET, peerSize, peerNoWait))
    {
      var l := new Forward(true, size, noWait);
      var r := new Forward(false, peerSize, peerNoWait);
      l.ChannelOpenNew();
      left, right := l, r;
      OpeningGood(Setup(size, MAX_PACKET, size, noWait), Setup(peerSize, MAX_PACKET, peerSize, peerNoWait));
    }

    lemma GoodIsSafe(me: Forward, peer: Forward)
      requires Valid() && Ends(me, peer)
      ensures Safe(me, peer)
    {
      var m, p := me.State(), peer.State();
      DeliverablePrefix(m.read.messages, p.sent.messages);
      OrdinaryPrefix(m.delivered, Deliverable(p.sent.messages));
    }

    /** An event reaches one end. */
    method Dispatch(me: Forward, peer: Forward, a: Action)
      requires Valid() && Ends(me, peer) && Enabled(me.State(), peer.sent, a)
      modifies me
      ensures Valid() && me.State() == Apply(old(me.State()), peer.sent, a)
      ensures Safe(me, peer) && Safe(peer, me)
    {
      StepKeeps(me.State(), a, peer.State());
      me.Event(peer.sent, a);
      GoodIsSafe(me, peer);
      GoodIsSafe(peer, me);
    }

    /** A run of the objects is a run of their states, so whatever holds of reachable
        states holds of them. */
    method Run(steps: seq<Step>)
      requires Valid() && IsRun(State(), steps)
      modifies left, right
      ensures Valid() && State() == Final(old(State()), steps)
      ensures Safe(left, right) && Safe(right, left)
    {
      ghost var goal := Final(State(), steps);
      assert steps[0..] == steps;
      for i := 0 to |steps|
        invariant Valid() && IsRun(State(), steps[i..]) && Final(State(), steps[i..]) == goal
      {
        assert steps[i..][0] == steps[i] && steps[i..][1..] == steps[i + 1..];
        match steps[i] {
          case Left(a) => Dispatch(left, right, a);
          case Right(a) => Dispatch(right, left, a);
        }
      }
      GoodIsSafe(left, right);
      GoodIsSafe(right, left);
    }
  }
}
