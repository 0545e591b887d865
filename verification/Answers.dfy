/**
 What an end answers while it is not connected, what it sends when it becomes connected, and what
 that means for its peer: a restarted peer is noticed, and packets written during the handshake
 are sent again at its end.
 */
module Answers {
  import opened Framing
  import opened Protocol
  import opened Network
  import opened Safety
  import opened Recovery
  import opened Window

  // ----- An end that is not connected -----

  /** How an end that is not connected answers. */
  function Hail(conn: Conn): Frame
    requires conn != Connected
  {
    match conn case Disconnected => DIS case SentSyn0 => SYN0 case SentSyn1 => SYN1
  }

  /** Data and requests, whatever they hold, are answered by one frame. Nothing is accepted, and
      nothing changes. */
  lemma HailsUntilConnected(ep: Endpoint, frame: Frame)
    requires ep.conn != Connected && frame.kind != Syn
    ensures OnFrame(ep, frame) == Outcome(ep, [Hail(ep.conn)], [], false)
  {}

  /** Handshake frames that find no handshake in progress, or one in its first step. */
  lemma HailsStrayHandshakes(ep: Endpoint, frame: Frame)
    requires frame.kind == Syn
    requires (ep.conn == Disconnected && 1 <= frame.num <= 2)
             || (ep.conn == SentSyn0 && frame.num == 2)
    ensures OnFrame(ep, frame) == Outcome(ep, [Hail(ep.conn)], [], false)
  {}

  /** DIS disconnects from every state and is not answered; SYN0 starts over from every state;
      numbers without a meaning are ignored. */
  lemma FromEveryState(ep: Endpoint, frame: Frame)
    requires frame.kind == Syn
    ensures frame.num == 3 ==> OnFrame(ep, frame) == Outcome(ep.(conn := Disconnected), [], [], false)
    ensures frame.num == 0 ==>
      OnFrame(ep, frame) == Outcome(Endpoint(SentSyn1, 0, 0, []), [Frame(Syn, 1, [])], [], false)
    ensures frame.num > 3 ==> OnFrame(ep, frame) == Outcome(ep, [], [], false)
  {}

  /** A bad frame is answered by a request for the next payload, in every state. */
  lemma BadIsAsked(ep: Endpoint)
    ensures OnEvent(ep, Bad) == Outcome(ep, [Frame(Nak, ep.rxSeq, [])], [], false)
  {}

  // ----- Becoming connected -----

  /** All that was written, from the first payload on, under its numbers. */
  function FromTheFirst(written: seq<Payload>): seq<Frame> {
    seq(|written|, i requires 0 <= i < |written| => Frame(Rtx, Wrap(i), written[i]))
  }

  lemma WholeHistory(ep: Endpoint, written: seq<Payload>, cap: Capacity)
    requires LogAgrees(ep, written, cap) && ep.history == written && written != []
    ensures ep.txSeq != 0
    ensures TransmitHistoryFrom(ep, 0) == Outcome(ep, FromTheFirst(written), [], false)
  {
    WrapSmall(0);
    WrapSmall(|written|);
    RetransmitFromLog(ep, written, cap, 0, 0);
    hide Wrap, FastForward, Retransmissions;
    var sent := TransmitHistoryFrom(ep, 0).sent;
    assert sent == FromTheFirst(written) by {
      forall i | 0 <= i < |sent| ensures sent[i] == FromTheFirst(written)[i] {
        assert Carries(sent[i], written, 0 + i) && sent[i].payload == written[i];
      }
    }
    assert TransmitHistoryFrom(ep, 0).accepted == [];
    assert written[0..] == written;
  }

  /** The end of the handshake sends again everything written since its beginning, behind SYN2 if
      the other end waits for it, and the sender is connected, whatever state it was in. */
  lemma HandshakeResends(ep: Endpoint, written: seq<Payload>, cap: Capacity)
    requires LogAgrees(ep, written, cap) && ep.history == written
    ensures ep.conn != Disconnected ==>
      OnFrame(ep, SYN1)
      == Outcome(ep.(conn := Connected), [SYN2] + FromTheFirst(written), [], false)
    ensures ep.conn == SentSyn1 || ep.conn == Connected ==>
      OnFrame(ep, SYN2) == Outcome(ep.(conn := Connected), FromTheFirst(written), [], false)
  {
    if written == [] {
      assert ep.txSeq == 0 && FromTheFirst(written) == [];
    } else {
      WholeHistory(ep, written, cap);
    }
    hide Wrap, TransmitHistoryFrom;
    assert [SYN2] + [] == [SYN2];
  }

  /** In general the end of the handshake is a request for everything, whatever the history holds:
      it does what a request for number 0 does to a connected end. */
  lemma HandshakeIsRequest(ep: Endpoint)
    ensures var asked := OnFrame(ep.(conn := Connected), Frame(Nak, 0, []));
            && (ep.conn != Disconnected ==>
                  && OnFrame(ep, SYN1).sent == [SYN2] + asked.sent && OnFrame(ep, SYN1).ep == asked.ep
                  && OnFrame(ep, SYN1).underrun == asked.underrun)
            && (ep.conn == SentSyn1 || ep.conn == Connected ==>
                  && OnFrame(ep, SYN2).sent == asked.sent && OnFrame(ep, SYN2).ep == asked.ep
                  && OnFrame(ep, SYN2).underrun == asked.underrun)
  {
    hide Wrap, FastForward, Retransmissions;
    assert [SYN2] + [] == [SYN2];
  }

  // ----- A restarted peer is noticed -----

  /** Deliveries to `side` only, after a first one to its peer. */
  ghost predicate AnswerReached(states: seq<Net>, actions: seq<Action>, side: Side, cap: Capacity) {
    && Drain(states, actions, cap) && actions != [] && actions[0] == Deliver(Other(side))
    && |actions| == |Me(states[0], side).inbox| + 2
    && forall i :: 1 <= i < |actions| ==> actions[i] == Deliver(side)
  }

  lemma {:induction false} InboxShrinks(states: seq<Net>, actions: seq<Action>, side: Side, n: nat,
                                        inbox: seq<Frame>, cap: Capacity)
    requires AnswerReached(states, actions, side, cap) && 1 <= n <= |actions|
    requires inbox == Me(states[1], side).inbox && |inbox| + 1 == |actions|
    ensures Me(states[n], side).inbox == inbox[n - 1..]
  {
    if n > 1 {
      InboxShrinks(states, actions, side, n - 1, inbox, cap);
      assert states[n] == Do(states[n - 1], actions[n - 1], cap);
      DeliverySplits(states[n - 1], side, actions[n - 1], cap);
      hide Do, OnArrival, Drain;
    }
  }

  /** Whatever the writer's state and whatever is in flight: when a data frame or a request has
      reached a disconnected peer and the answer has come back, the writer is disconnected. */
  lemma RestartIsNoticed(states: seq<Net>, actions: seq<Action>, side: Side, cap: Capacity)
    requires AnswerReached(states, actions, side, cap)
    requires Peer(states[0], side).ep.conn == Disconnected
    requires var inbox := Peer(states[0], side).inbox;
             inbox != [] && inbox[0].kind != Syn && |inbox[0].payload| <= MAX_PACKET - 2
    ensures Me(states[|actions|], side).ep.conn == Disconnected
    ensures Peer(states[1], side).ep == Peer(states[0], side).ep
    ensures Peer(states[1], side).accepted == Peer(states[0], side).accepted
  {
    var me, peer := Me(states[0], side), Peer(states[0], side);
    var last := |actions| - 1;
    assert Possible(states[0], actions[0]) && states[1] == Do(states[0], actions[0], cap);
    assert Possible(states[last], actions[last]) && states[last + 1] == Do(states[last], actions[last], cap);
    DeliverySplits(states[0], side, actions[0], cap);
    HailsUntilConnected(peer.ep, peer.inbox[0]);
    assert peer.accepted + [] == peer.accepted;
    InboxShrinks(states, actions, side, last, me.inbox + [DIS], cap);
    assert (me.inbox + [DIS])[last - 1..] == [DIS];
    DeliverySplits(states[last], side, actions[last], cap);
    FromEveryState(Me(states[last], side).ep, DIS);
    hide Do, OnFrame, Drain;
  }
}
