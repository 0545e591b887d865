/**
 Recovery: once the link is quiet, one more write followed by lossless delivery brings the peer
 up to date, whether the peer was connected (it asks for what it missed) or still waited for the
 last handshake frame (it asks for everything).
 */
module Recovery {
  import opened Framing
  import opened Protocol
  import opened Network
  import opened Safety

  ghost predicate Quiet(net: Net) { net.left.inbox == [] && net.right.inbox == [] }

  ghost predicate Drain(states: seq<Net>, actions: seq<Action>, cap: Capacity) {
    IsRun(states, actions, cap, (net: Net, action: Action) => action.Deliver?)
  }

  /** The payloads not yet accepted pass through the receiver's buffer. */
  ghost predicate MissingFit(written: seq<Payload>, accepted: nat) {
    forall i :: accepted <= i < |written| ==> |written[i]| <= MAX_PACKET - 2
  }

  /** The writer can still resend whatever the reader lacks. */
  ghost predicate CanResend(me: End, peer: End, cap: Capacity) {
    && me.ep.conn == Connected && LogAgrees(me.ep, me.written, cap)
    && peer.accepted <= me.written && MissingFit(me.written, |peer.accepted|)
    && Base(me.ep, me.written) <= |peer.accepted|
    && peer.ep.rxSeq == Wrap(|peer.accepted|)
  }

  /** A reader that has not seen the end of the handshake and has nothing of its own to send. */
  ghost predicate Waiting(peer: End) {
    peer.ep.conn == SentSyn1 && peer.accepted == [] && peer.ep.txSeq == 0
  }

  /** Frames that carry the log from position `start` to its end. */
  ghost predicate Tail(frames: seq<Frame>, written: seq<Payload>, start: nat) {
    && start <= |written| && |frames| == |written| - start
    && forall i :: 0 <= i < |frames| ==> IsData(frames[i]) && Carries(frames[i], written, start + i)
  }

  datatype Stage = Written | Asked | Answered | Resent

  /** Where recovery stands; the number of deliveries left is bounded by Left(...). */
  ghost predicate At(stage: Stage, me: End, peer: End, cap: Capacity) {
    var k := |peer.accepted|;
    CanResend(me, peer, cap) &&
    match stage
    case Written =>
      && me.inbox == [] && |peer.inbox| == 1 && peer.inbox[0].kind == Usr && k < |me.written|
      && Carries(peer.inbox[0], me.written, |me.written| - 1)
      && (peer.ep.conn == Connected || Waiting(peer))
    case Asked =>
      && peer.inbox == [] && k < |me.written|
      && ((peer.ep.conn == Connected && me.inbox == [Frame(Nak, Wrap(k), [])])
          || (Waiting(peer) && me.inbox == [SYN1]))
    case Answered =>
      && me.inbox == [] && Waiting(peer)
      && peer.inbox != [] && peer.inbox[0] == SYN2 && Tail(peer.inbox[1..], me.written, 0)
    case Resent =>
      me.inbox == [] && peer.ep.conn == Connected && Tail(peer.inbox, me.written, k)
  }

  function Remaining(stage: Stage, me: End, peer: End): int {
    var missing := |me.written| - |peer.accepted|;
    match stage
    case Written => missing + 3
    case Asked => missing + 2
    case Answered => missing + 1
    case Resent => missing
  }

  // ----- One delivery at a time -----

  /** The first frame of the tail is accepted. */
  lemma AcceptHead(me: End, peer: End, cap: Capacity)
    requires At(Resent, me, peer, cap) && peer.inbox != []
    ensures var o := OnArrival(peer.ep, peer.inbox[0]);
            && o.sent == [] && o.ep.conn == Connected
            && |o.accepted| == 1
            && At(Resent, me, Acted(peer.(inbox := peer.inbox[1..]), o), cap)
  {
    var k := |peer.accepted|;
    assert Carries(peer.inbox[0], me.written, k + 0);
    WrapWrap(k, 1);
    hide Wrap, LogAgrees;
  }

  /** A new frame reaches the reader: it is the one expected, or the reader asks. */
  lemma FirstDelivery(me: End, peer: End, cap: Capacity)
    returns (stage: Stage)
    requires At(Written, me, peer, cap)
    ensures var o := OnArrival(peer.ep, peer.inbox[0]);
            var peer' := Acted(peer.(inbox := peer.inbox[1..]), o);
            var me' := me.(inbox := me.inbox + o.sent);
            At(stage, me', peer', cap)
            && Remaining(stage, me', peer') < Remaining(Written, me, peer)
  {
    hide LogAgrees;
    var k := |peer.accepted|;
    assert |me.written| - k <= cap by { assert LogAgrees(me.ep, me.written, cap); LogBound(me, cap); }
    WrapInjective(|me.written| - 1, k);
    if peer.ep.conn == Connected && k == |me.written| - 1 {
      WrapWrap(k, 1);
      stage := Resent;
    } else {
      stage := Asked;
    }
    hide Wrap;
  }

  lemma LogBound(me: End, cap: Capacity)
    requires LogAgrees(me.ep, me.written, cap)
    ensures |me.written| - Base(me.ep, me.written) <= cap
  {}

  /** What is missing can be resent, under the numbers it had. */
  lemma Resend(me: End, peer: End, cap: Capacity)
    requires CanResend(me, peer, cap) && |peer.accepted| < |me.written|
    ensures var k := |peer.accepted|;
            var o := TransmitHistoryFrom(me.ep, Wrap(k));
            && Wrap(k) != me.ep.txSeq && Tail(o.sent, me.written, k) && o.accepted == []
            && CanResend(me.(ep := o.ep), peer, cap)
  {
    var k := |peer.accepted|;
    LogBound(me, cap);
    WrapInjective(|me.written|, k);
    RetransmitFromLog(me.ep, me.written, cap, Wrap(k), k);
    hide Wrap, FastForward, Retransmissions, Carries;
  }

  /** The writer answers the request with everything from the position asked for. */
  lemma AnswerRequest(me: End, peer: End, cap: Capacity)
    returns (stage: Stage)
    requires At(Asked, me, peer, cap)
    ensures var o := OnArrival(me.ep, me.inbox[0]);
            var me' := Acted(me.(inbox := me.inbox[1..]), o);
            var peer' := peer.(inbox := peer.inbox + o.sent);
            At(stage, me', peer', cap) && o.accepted == []
            && Remaining(stage, me', peer') < Remaining(Asked, me, peer)
  {
    hide OnArrival, CanResend, Tail, Carries, Waiting, Wrap;
    if peer.ep.conn == Connected {
      stage := AnswerNak(me, peer, cap);
    } else {
      stage := AnswerSyn1(me, peer, cap);
    }
  }

  lemma AnswerNak(me: End, peer: End, cap: Capacity)
    returns (stage: Stage)
    requires At(Asked, me, peer, cap) && peer.ep.conn == Connected
    ensures var o := OnArrival(me.ep, me.inbox[0]);
            var me' := Acted(me.(inbox := me.inbox[1..]), o);
            var peer' := peer.(inbox := peer.inbox + o.sent);
            stage == Resent && At(stage, me', peer', cap) && o.accepted == []
  {
    hide Wrap, TransmitHistoryFrom, Tail, LogAgrees, MissingFit;
    Resend(me, peer, cap);
    stage := Resent;
    var o := OnArrival(me.ep, me.inbox[0]);
    assert o == TransmitHistoryFrom(me.ep, Wrap(|peer.accepted|));
    assert peer.inbox + o.sent == o.sent;
  }

  lemma Syn1Resends(ep: Endpoint)
    requires ep.conn == Connected && ep.txSeq != 0
    ensures var o := TransmitHistoryFrom(ep, 0);
            OnArrival(ep, SYN1)
            == Outcome(o.ep.(conn := Connected), [SYN2] + o.sent, [], o.underrun)
            && o.ep.(conn := Connected) == o.ep
  {
    hide FastForward, Retransmissions, Wrap;
  }

  lemma WaitingAtZero(peer: End)
    requires Waiting(peer)
    ensures Wrap(|peer.accepted|) == 0 && |peer.accepted| == 0
  {}

  lemma AnswerSyn1(me: End, peer: End, cap: Capacity)
    returns (stage: Stage)
    requires At(Asked, me, peer, cap) && peer.ep.conn != Connected
    ensures var o := OnArrival(me.ep, me.inbox[0]);
            var me' := Acted(me.(inbox := me.inbox[1..]), o);
            var peer' := peer.(inbox := peer.inbox + o.sent);
            stage == Answered && At(stage, me', peer', cap) && o.accepted == []
  {
    hide Wrap, TransmitHistoryFrom, Tail, LogAgrees, MissingFit, OnArrival;
    Resend(me, peer, cap);
    WaitingAtZero(peer);
    Syn1Resends(me.ep);
    stage := Answered;
    var sent := TransmitHistoryFrom(me.ep, 0).sent;
    assert ([] + ([SYN2] + sent))[1..] == sent;
  }

  /** The last handshake frame connects the reader. */
  lemma FinishHandshake(me: End, peer: End, cap: Capacity)
    requires At(Answered, me, peer, cap)
    ensures var o := OnArrival(peer.ep, peer.inbox[0]);
            o.sent == [] && At(Resent, me, Acted(peer.(inbox := peer.inbox[1..]), o), cap)
            && o.accepted == []
  {
    hide Wrap, LogAgrees, Carries;
  }

  ghost predicate Recovering(net: Net, side: Side, stage: Stage, written: seq<Payload>, cap: Capacity) {
    At(stage, Me(net, side), Peer(net, side), cap) && Me(net, side).written == written
  }

  function Steps(net: Net, side: Side, stage: Stage): int {
    Remaining(stage, Me(net, side), Peer(net, side))
  }

  /** A delivery seen from the writer's side. */
  lemma DeliverySplits(net: Net, side: Side, action: Action, cap: Capacity)
    requires action.Deliver? && Possible(net, action)
    ensures var me, peer, net' := Me(net, side), Peer(net, side), Do(net, action, cap);
            if action.side == side then
              var o := OnArrival(me.ep, me.inbox[0]);
              && Me(net', side) == Acted(me.(inbox := me.inbox[1..]), o)
              && Peer(net', side) == peer.(inbox := peer.inbox + o.sent)
            else
              var o := OnArrival(peer.ep, peer.inbox[0]);
              && Me(net', side) == me.(inbox := me.inbox + o.sent)
              && Peer(net', side) == Acted(peer.(inbox := peer.inbox[1..]), o)
  {
    hide OnArrival;
  }

  lemma Advance(net: Net, side: Side, stage: Stage, written: seq<Payload>, action: Action, cap: Capacity)
    returns (stage': Stage)
    requires Recovering(net, side, stage, written, cap)
    requires action.Deliver? && Possible(net, action)
    ensures Recovering(Do(net, action, cap), side, stage', written, cap)
    ensures 0 <= Steps(Do(net, action, cap), side, stage') < Steps(net, side, stage)
  {
    hide OnArrival, At, Do;
    var me, peer := Me(net, side), Peer(net, side);
    DeliverySplits(net, side, action, cap);
    WhoMoves(stage, me, peer, cap);
    match stage {
      case Written => stage' := FirstDelivery(me, peer, cap);
      case Asked => stage' := AnswerRequest(me, peer, cap);
      case Answered =>
        FinishHandshake(me, peer, cap);
        stage' := Resent;
      case Resent =>
        AcceptHead(me, peer, cap);
        stage' := Resent;
    }
    NeverNegative(stage', Me(Do(net, action, cap), side), Peer(Do(net, action, cap), side), cap);
  }

  lemma WhoMoves(stage: Stage, me: End, peer: End, cap: Capacity)
    requires At(stage, me, peer, cap)
    ensures if stage == Asked then peer.inbox == [] else me.inbox == []
    ensures me.inbox + [] == me.inbox && peer.inbox + [] == peer.inbox
  {}

  lemma NeverNegative(stage: Stage, me: End, peer: End, cap: Capacity)
    requires At(stage, me, peer, cap)
    ensures 0 <= Remaining(stage, me, peer)
  {}

  lemma QuietMeansDone(net: Net, side: Side, stage: Stage, written: seq<Payload>, cap: Capacity)
    requires Recovering(net, side, stage, written, cap) && Quiet(net)
    ensures Peer(net, side).accepted == written
  {}

  lemma {:induction false} DrainAdvances(states: seq<Net>, actions: seq<Action>, n: nat, side: Side,
                                         stage: Stage, written: seq<Payload>, cap: Capacity)
    returns (last: Stage)
    requires Drain(states, actions, cap) && n <= |actions|
    requires Recovering(states[0], side, stage, written, cap)
    ensures Recovering(states[n], side, last, written, cap)
    ensures 0 <= Steps(states[n], side, last) <= Steps(states[0], side, stage) - n
  {
    hide Recovering, Do, Possible, Steps;
    if n == 0 {
      last := stage;
      NotNegative(states[0], side, stage, written, cap);
    } else {
      last := DrainAdvances(states, actions, n - 1, side, stage, written, cap);
      assert Possible(states[n - 1], actions[n - 1]) && actions[n - 1].Deliver?;
      last := Advance(states[n - 1], side, last, written, actions[n - 1], cap);
    }
  }

  lemma NotNegative(net: Net, side: Side, stage: Stage, written: seq<Payload>, cap: Capacity)
    requires Recovering(net, side, stage, written, cap)
    ensures 0 <= Steps(net, side, stage)
  {}

  // ----- From any reachable quiet state -----

  lemma WaitingIfNotConnected(net: Net, side: Side)
    requires Phase(net) && Me(net, side).ep.conn == Connected
    ensures Peer(net, side).ep.conn == Connected || Waiting(Peer(net, side))
  {
    hide RightInboxOk, LeftInboxOk;
  }

  lemma WriteStarts(net: Net, side: Side, payload: Payload, cap: Capacity)
    requires Invariant(net, [], [], cap) && Quiet(net)
    requires Me(net, side).ep.conn == Connected
    requires |Me(net, side).written| - |Peer(net, side).accepted| < cap
    requires MissingFit(Me(net, side).written, |Peer(net, side).accepted|)
    requires |payload| <= MAX_PACKET - 2
    ensures var net' := Do(net, Send(side, payload), cap);
            Recovering(net', side, Written, Me(net, side).written + [payload], cap)
            && Steps(net', side, Written) <= cap + 3
  {
    hide Phase, DataOk, RequestsOk, Wrap, PushBack, LogAgrees, Waiting;
    var me, peer := Me(net, side), Peer(net, side);
    WaitingIfNotConnected(net, side);
    WriteReady(me, peer, payload, cap);
    var me' := Acted(me.(written := me.written + [payload]), OnWrite(me.ep, payload, cap));
    var peer' := peer.(inbox := [] + OnWrite(me.ep, payload, cap).sent);
    assert Me(Do(net, Send(side, payload), cap), side) == me';
    assert Peer(Do(net, Send(side, payload), cap), side) == peer';
    hide OnWrite, Carries, CanResend;
  }

  lemma WriteReady(me: End, peer: End, payload: Payload, cap: Capacity)
    requires Direction(me, peer, [], [], cap) && me.ep.conn == Connected
    requires |me.written| - |peer.accepted| < cap && MissingFit(me.written, |peer.accepted|)
    requires |payload| <= MAX_PACKET - 2 && me.inbox == [] == peer.inbox
    requires peer.ep.conn == Connected || Waiting(peer)
    ensures var o := OnWrite(me.ep, payload, cap);
            At(Written, Acted(me.(written := me.written + [payload]), o),
               peer.(inbox := [] + o.sent), cap)
  {
    hide Wrap, PushBack, DataOk, RequestsOk;
    WriteKeepsLog(me.ep, payload, me.written, cap);
    BaseAfterWrite(me, payload, cap);
    var o := OnWrite(me.ep, payload, cap);
    assert [] + o.sent == o.sent;
    hide LogAgrees, Carries;
  }

  lemma BaseAfterWrite(me: End, payload: Payload, cap: Capacity)
    requires LogAgrees(me.ep, me.written, cap)
    ensures var base := Base(OnWrite(me.ep, payload, cap).ep, me.written + [payload]);
            base <= Base(me.ep, me.written) || base == |me.written| + 1 - cap
  {
    hide Wrap;
  }

  /** The half of recovery in which everything fits. */
  lemma MissingArrives(net: Net, side: Side, payload: Payload, states: seq<Net>, actions: seq<Action>,
                       cap: Capacity)
    requires Invariant(net, [], [], cap) && Quiet(net)
    requires Me(net, side).ep.conn == Connected && |payload| <= MAX_PACKET
    requires |Me(net, side).written| - |Peer(net, side).accepted| < cap
    requires MissingFit(Me(net, side).written + [payload], |Peer(net, side).accepted|)
    requires |Peer(net, side).accepted| <= |Me(net, side).written|
    requires Drain(states, actions, cap) && states[0] == Do(net, Send(side, payload), cap)
    ensures |actions| <= cap + 3
    ensures Quiet(states[|actions|]) ==>
              Peer(states[|actions|], side).accepted == Me(net, side).written + [payload]
  {
    MissingSplits(Me(net, side).written, payload, |Peer(net, side).accepted|);
    hide Do, MissingFit, Invariant, Recovering, Drain, Steps;
    WriteStarts(net, side, payload, cap);
    var written := Me(net, side).written + [payload];
    var last := DrainAdvances(states, actions, |actions|, side, Written, written, cap);
    if Quiet(states[|actions|]) {
      QuietMeansDone(states[|actions|], side, last, written, cap);
    }
  }

  lemma MissingSplits(written: seq<Payload>, payload: Payload, accepted: nat)
    requires accepted <= |written|
    ensures MissingFit(written + [payload], accepted)
            <==> MissingFit(written, accepted) && |payload| <= MAX_PACKET - 2
  {
    if MissingFit(written + [payload], accepted) {
      assert (written + [payload])[|written|] == payload;
      assert forall i :: accepted <= i < |written| ==> (written + [payload])[i] == written[i];
    }
  }

  /** Deliveries write nothing. */
  lemma {:induction false} DrainWrites(states: seq<Net>, actions: seq<Action>, n: nat, side: Side,
                                       cap: Capacity)
    requires Drain(states, actions, cap) && n <= |actions|
    ensures Me(states[n], side).written == Me(states[0], side).written
  {
    if n > 0 {
      DrainWrites(states, actions, n - 1, side, cap);
      assert states[n] == Do(states[n - 1], actions[n - 1], cap) && actions[n - 1].Deliver?;
      hide OnArrival, Drain;
    }
  }

  /** Exactly when recovery works. In every reachable quiet state with the writer connected and
      less than a history's worth missing at the peer, write once more and deliver: once the link
      is quiet again, the peer has accepted all that was written iff every payload it lacked and
      the new one have at most 254 octets; and then the link is quiet within `cap + 3`
      deliveries. */
  lemma RecoveryTheorem(before: seq<Net>, path: seq<Action>, side: Side, payload: Payload,
                        states: seq<Net>, actions: seq<Action>, cap: Capacity)
    requires SafeRun(before, path, cap) && Quiet(before[|path|])
    requires var net := before[|path|];
             && Me(net, side).ep.conn == Connected && |payload| <= MAX_PACKET
             && |Me(net, side).written| - |Peer(net, side).accepted| < cap
             && Drain(states, actions, cap) && states[0] == Do(net, Send(side, payload), cap)
    ensures var written := Me(before[|path|], side).written + [payload];
            var fits := MissingFit(written, |Peer(before[|path|], side).accepted|);
            && Me(states[|actions|], side).written == written
            && (fits ==> |actions| <= cap + 3)
            && (Quiet(states[|actions|]) ==>
                  (Peer(states[|actions|], side).accepted == written <==> fits))
  {
    var net := before[|path|];
    assert |states| == |actions| + 1;
    var toLeft, toRight := RunKeeps(before, path, |path|, cap);
    TagLengths(net, toLeft, toRight, cap);
    QuietTags(net, toLeft, toRight);
    AcceptedIsPrefix(net, side, toLeft, toRight, cap);
    WrittenAfterSend(net, side, payload, cap);
    hide Do, MissingFit, Invariant, Drain, SafeRun, Fitting;
    DrainWrites(states, actions, |actions|, side, cap);
    var written := Me(net, side).written + [payload];
    if MissingFit(written, |Peer(net, side).accepted|) {
      MissingArrives(net, side, payload, states, actions, cap);
    } else {
      DrainedFit(before, path, Send(side, payload), states, actions, cap);
      LongIsMissing(written, |Peer(net, side).accepted|);
    }
  }

  lemma QuietTags(net: Net, toLeft: seq<nat>, toRight: seq<nat>)
    requires Quiet(net) && |toLeft| == |net.left.inbox| && |toRight| == |net.right.inbox|
    ensures toLeft == [] && toRight == []
  {}

  lemma AcceptedIsPrefix(net: Net, side: Side, toLeft: seq<nat>, toRight: seq<nat>, cap: Capacity)
    requires Invariant(net, toLeft, toRight, cap)
    ensures Peer(net, side).accepted <= Me(net, side).written
  {}

  lemma WrittenAfterSend(net: Net, side: Side, payload: Payload, cap: Capacity)
    requires |payload| <= MAX_PACKET
    ensures Me(Do(net, Send(side, payload), cap), side).written == Me(net, side).written + [payload]
  {
    hide OnWrite;
  }

  lemma LongIsMissing(written: seq<Payload>, accepted: nat)
    requires !MissingFit(written, accepted)
    ensures !Fitting(written)
  {}

  lemma DrainedFit(before: seq<Net>, path: seq<Action>, action: Action, states: seq<Net>,
                   actions: seq<Action>, cap: Capacity)
    requires SafeRun(before, path, cap) && Possible(before[|path|], action)
    requires Drain(states, actions, cap) && states[0] == Do(before[|path|], action, cap)
    ensures Fitting(states[|actions|].left.accepted) && Fitting(states[|actions|].right.accepted)
  {
    hide Do, Possible;
    assert Fitting([]);
    AcceptedFit(before, path, |path|, cap, (net, action) => Allowed(net, action, cap));
    ActionFits(before[|path|], action, cap);
    AcceptedFit(states, actions, |actions|, cap, (net: Net, action: Action) => action.Deliver?);
  }
}
