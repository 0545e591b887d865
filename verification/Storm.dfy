/**
 Retransmission always dies down, even after underruns, as long as no payload of 256 octets is
 retransmitted; one such payload keeps the link busy for ever.
 */
module Storm {
  import opened Framing
  import opened Protocol
  import opened Network
  import opened Recovery

  // ----- A weight that every delivery lowers -----

  function FrameWeight(frame: Frame, cap: Capacity): nat {
    match frame.kind
    case Rtx => 1
    case Nak => cap + 1
    case Usr => cap + 2
    case Syn => if frame.num == 1 then 2 * cap + 2 else if frame.num == 2 then cap + 1 else 1
  }

  function InboxWeight(inbox: seq<Frame>, cap: Capacity): nat {
    if inbox == [] then 0 else FrameWeight(inbox[0], cap) + InboxWeight(inbox[1..], cap)
  }

  function Weight(net: Net, cap: Capacity): nat {
    InboxWeight(net.left.inbox, cap) + InboxWeight(net.right.inbox, cap)
  }

  /** A frame that neither restarts the handshake nor ends the session; only a first transmission
      may fill the packet buffer. */
  predicate Calm(frame: Frame) {
    && (frame.kind == Syn ==> frame.num != 0 && frame.num != 3)
    && (frame.kind != Usr ==> |frame.payload| < MAX_PACKET)
  }

  ghost predicate CalmEnd(me: End, cap: Capacity) {
    && me.ep.conn == Connected && |me.ep.history| <= cap
    && (forall i :: 0 <= i < |me.ep.history| ==> |me.ep.history[i]| < MAX_PACKET)
    && (forall i :: 0 <= i < |me.inbox| ==> Calm(me.inbox[i]))
  }

  ghost predicate CalmNet(net: Net, cap: Capacity) {
    CalmEnd(net.left, cap) && CalmEnd(net.right, cap)
  }

  lemma {:induction false} WeightConcat(left: seq<Frame>, right: seq<Frame>, cap: Capacity)
    ensures InboxWeight(left + right, cap) == InboxWeight(left, cap) + InboxWeight(right, cap)
  {
    hide FrameWeight;
    if left == [] {
      assert left + right == right;
    } else {
      assert (left + right)[1..] == left[1..] + right;
      WeightConcat(left[1..], right, cap);
    }
  }

  lemma {:induction false} WeightOfRetransmissions(frames: seq<Frame>, cap: Capacity)
    requires forall i :: 0 <= i < |frames| ==> frames[i].kind == Rtx
    ensures InboxWeight(frames, cap) == |frames|
  {
    if frames != [] {
      WeightOfRetransmissions(frames[1..], cap);
    }
  }

  /** Retransmitting, with or without underrun, sends at most a history of calm frames. */
  lemma RetransmissionIsCalm(me: End, s: SeqNum, cap: Capacity)
    requires CalmEnd(me, cap)
    ensures var o := TransmitHistoryFrom(me.ep, s);
            && CalmEnd(me.(ep := o.ep), cap) && o.accepted == []
            && InboxWeight(o.sent, cap) <= cap
            && forall i :: 0 <= i < |o.sent| ==> Calm(o.sent[i])
  {
    hide Wrap, FastForward;
    var o := TransmitHistoryFrom(me.ep, s);
    WeightOfRetransmissions(o.sent, cap);
  }

  lemma TailIsCalm(me: End, cap: Capacity)
    requires CalmEnd(me, cap) && me.inbox != []
    ensures CalmEnd(me.(inbox := me.inbox[1..]), cap) && Calm(me.inbox[0])
  {}

  lemma WeightOne(frame: Frame, cap: Capacity)
    ensures InboxWeight([frame], cap) == FrameWeight(frame, cap) && InboxWeight([], cap) == 0
  {
    assert [frame][1..] == [];
  }

  lemma ReactionIsCalm(me: End, frame: Frame, cap: Capacity)
    requires CalmEnd(me, cap) && Calm(frame)
    ensures var o := OnArrival(me.ep, frame);
            && CalmEnd(me.(ep := o.ep), cap)
            && InboxWeight(o.sent, cap) < FrameWeight(frame, cap)
            && forall i :: 0 <= i < |o.sent| ==> Calm(o.sent[i])
  {
    hide Wrap, TransmitHistoryFrom;
    RetransmissionIsCalm(me, frame.num, cap);
    RetransmissionIsCalm(me, 0, cap);
    WeightOne(Frame(Nak, me.ep.rxSeq, []), cap);
    WeightOne(SYN2, cap);
    WeightConcat([SYN2], TransmitHistoryFrom(me.ep, 0).sent, cap);
    WeightConcat([SYN2], [], cap);
  }

  lemma StepLightens(net: Net, action: Action, cap: Capacity)
    requires CalmNet(net, cap) && action.Deliver? && Possible(net, action)
    ensures CalmNet(Do(net, action, cap), cap)
    ensures Weight(Do(net, action, cap), cap) < Weight(net, cap)
  {
    hide OnArrival, Calm, FrameWeight;
    var me, peer := Me(net, action.side), Peer(net, action.side);
    TailIsCalm(me, cap);
    ReactionIsCalm(me, me.inbox[0], cap);
    WeightConcat(peer.inbox, OnArrival(me.ep, me.inbox[0]).sent, cap);
  }

  /** No retransmission storm: with both ends connected and the frames in flight calm, lossless
      delivery stops after at most as many deliveries as the frames in flight weigh. */
  lemma {:induction false} NoStorm(states: seq<Net>, actions: seq<Action>, cap: Capacity)
    requires Drain(states, actions, cap) && CalmNet(states[0], cap)
    ensures CalmNet(states[|actions|], cap)
    ensures Weight(states[|actions|], cap) + |actions| <= Weight(states[0], cap)
    decreases |actions|
  {
    hide CalmNet, Do, Weight, Possible;
    if actions != [] {
      var n := |actions| - 1;
      NoStorm(states[..n + 1], actions[..n], cap);
      assert Possible(states[n], actions[n]) && actions[n].Deliver?;
      StepLightens(states[n], actions[n], cap);
    }
  }

  // ----- The size that does cause a storm -----

  /** Quiet, connected and in step: the reader expects the number the writer will use next. */
  ghost predicate InStep(net: Net, side: Side, cap: Capacity) {
    var me, peer := Me(net, side), Peer(net, side);
    && Quiet(net) && me.ep.conn == Connected && peer.ep.conn == Connected
    && peer.ep.rxSeq == me.ep.txSeq && |me.ep.history| <= cap
  }

  /** The newest payload of `me` is too long for `peer`, which keeps asking for it. */
  ghost predicate Stuck(net: Net, side: Side, cap: Capacity) {
    var me, peer := Me(net, side), Peer(net, side);
    && me.ep.conn == Connected && peer.ep.conn == Connected
    && 0 < |me.ep.history| <= cap && |me.ep.history[|me.ep.history| - 1]| == MAX_PACKET
    && me.ep.txSeq == Next(peer.ep.rxSeq)
    && ((me.inbox == [] && |peer.inbox| == 1 && |peer.inbox[0].payload| == MAX_PACKET)
        || (peer.inbox == [] && me.inbox == [Frame(Nak, peer.ep.rxSeq, [])]))
  }

  lemma NewestOnly(ep: Endpoint, s: SeqNum, cap: Capacity)
    requires 0 < |ep.history| <= cap && ep.txSeq == Next(s)
    ensures s != ep.txSeq
    ensures var o := TransmitHistoryFrom(ep, s);
            && o.ep == ep.(history := ep.history[|ep.history| - 1..])
            && o.sent == [Frame(Rtx, s, ep.history[|ep.history| - 1])] && o.accepted == []
  {
    var n := |ep.history|;
    WrapSmall(s);
    WrapInjective(s, s + 1);
    FastForwardExact(s, ep.txSeq, n);
    hide Wrap, FastForward;
    WrapWrap(s + 1, s + n);
    WrapSmall(n - 1);
    assert Wrap(s + 0) == s;
  }

  lemma StuckStep(net: Net, side: Side, action: Action, cap: Capacity)
    requires Stuck(net, side, cap) && action.Deliver? && Possible(net, action)
    ensures Stuck(Do(net, action, cap), side, cap)
  {
    hide Wrap, TransmitHistoryFrom;
    var me, peer := Me(net, side), Peer(net, side);
    NewestOnly(me.ep, peer.ep.rxSeq, cap);
  }

  lemma {:induction false} StuckForEver(states: seq<Net>, actions: seq<Action>, side: Side, cap: Capacity)
    requires Drain(states, actions, cap) && Stuck(states[0], side, cap)
    ensures Stuck(states[|actions|], side, cap) && !Quiet(states[|actions|])
    decreases |actions|
  {
    hide Do, Possible;
    if actions != [] {
      var n := |actions| - 1;
      StuckForEver(states[..n + 1], actions[..n], side, cap);
      assert Possible(states[n], actions[n]) && actions[n].Deliver?;
      StuckStep(states[n], side, actions[n], cap);
    }
  }

  lemma WriteInStep(net: Net, side: Side, payload: Payload, cap: Capacity)
    requires InStep(net, side, cap) && |payload| <= MAX_PACKET
    ensures var net' := Do(net, Send(side, payload), cap);
            var peer := Peer(net', side);
            && Me(net', side).inbox == []
            && peer == Peer(net, side).(inbox := [Frame(Usr, peer.ep.rxSeq, payload)])
            && (|payload| == MAX_PACKET ==> Stuck(net', side, cap))
  {
    hide Wrap;
  }

  lemma QuietIsFinal(net: Net, action: Action)
    requires Quiet(net) && action.Deliver?
    ensures !Possible(net, action)
  {}

  /** The exact effect of size on a link in step: whatever is delivered after the write, in any
      order, the link can fall quiet iff the payload is not of 256 octets, and then the payload
      was accepted iff it has at most 254. */
  lemma SizeDecides(net: Net, side: Side, payload: Payload, states: seq<Net>, actions: seq<Action>,
                    cap: Capacity)
    requires InStep(net, side, cap) && |payload| <= MAX_PACKET
    requires Drain(states, actions, cap) && states[0] == Do(net, Send(side, payload), cap)
    ensures |payload| == MAX_PACKET ==> !Quiet(states[|actions|])
    ensures |payload| < MAX_PACKET ==>
              |actions| <= 1 && (Quiet(states[|actions|]) <==> |actions| == 1)
    ensures |payload| < MAX_PACKET && Quiet(states[|actions|]) ==>
              Peer(states[|actions|], side).accepted
              == Peer(net, side).accepted + if |payload| <= MAX_PACKET - 2 then [payload] else []
  {
    WriteInStep(net, side, payload, cap);
    if |payload| == MAX_PACKET {
      StuckForEver(states, actions, side, cap);
    } else if actions != [] {
      OneDelivery(states[0], side, actions[0], cap);
      QuietIsFinal(states[1], if |actions| > 1 then actions[1] else actions[0]);
    }
  }

  lemma OneDelivery(net: Net, side: Side, action: Action, cap: Capacity)
    requires action.Deliver? && Possible(net, action)
    requires Me(net, side).inbox == [] && Peer(net, side).ep.conn == Connected
    requires exists p :: |p| < MAX_PACKET
               && Peer(net, side).inbox == [Frame(Usr, Peer(net, side).ep.rxSeq, p)]
    ensures var p := Peer(net, side).inbox[0].payload;
            Quiet(Do(net, action, cap))
            && Peer(Do(net, action, cap), side).accepted
               == Peer(net, side).accepted + if |p| <= MAX_PACKET - 2 then [p] else []
  {
    hide Wrap;
  }
}
