/**
 From any state of a safe run the link settles: as long as only payloads that fit are written,
 lossless delivery ends, whoever is connected and whatever is in flight. What it leaves behind
 one more write repairs.
 */
module Settling {
  import opened Framing
  import opened Protocol
  import opened Network
  import opened Safety
  import opened Recovery
  import opened Storm

  // ----- A potential for every phase -----

  /** The frames a reader that waits for SYN2 takes before it: it answers each of them. */
  function Live(inbox: seq<Frame>): nat {
    if inbox == [] || inbox[0] == SYN2 then 0 else 1 + Live(inbox[1..])
  }

  function Naks(inbox: seq<Frame>): nat {
    if inbox == [] then 0 else (if inbox[0].kind == Nak then 1 else 0) + Naks(inbox[1..])
  }

  /** What one live frame can lead to. */
  function Unit(cap: Capacity): nat { 2 * cap + 2 }

  /** Until the right end is connected, a live frame costs a unit more, and a request, which is
      answered with up to a history of live frames, a history of units. */
  function Extra(live: nat, naks: nat, cap: Capacity): nat {
    Unit(cap) * live + cap * Unit(cap) * naks
  }

  function Potential(net: Net, cap: Capacity): nat {
    if net.right.ep.conn == Connected then Weight(net, cap)
    else Weight(net, cap) + Extra(Live(net.right.inbox), Naks(net.left.inbox), cap)
  }

  lemma OneLess(live: nat, naks: nat, cap: Capacity)
    ensures Extra(live + 1, naks, cap) == Extra(live, naks, cap) + Unit(cap)
  {}

  lemma NakPays(live: nat, more: nat, naks: nat, cap: Capacity)
    requires more <= live + cap
    ensures Extra(more, naks, cap) <= Extra(live, naks + 1, cap)
  {
    assert Unit(cap) * more <= Unit(cap) * (live + cap);
    assert Unit(cap) * (live + cap) == Unit(cap) * live + cap * Unit(cap);
    assert cap * Unit(cap) * (naks + 1) == cap * Unit(cap) * naks + cap * Unit(cap);
  }

  lemma {:induction false} LiveAppend(inbox: seq<Frame>, more: seq<Frame>)
    ensures Live(inbox) <= Live(inbox + more) <= Live(inbox) + |more|
    ensures more != [] && more[0] == SYN2 ==> Live(inbox + more) == Live(inbox)
  {
    if inbox == [] {
      assert inbox + more == more;
      LiveBound(more);
    } else {
      assert (inbox + more)[1..] == inbox[1..] + more;
      LiveAppend(inbox[1..], more);
    }
  }

  lemma {:induction false} LiveBound(inbox: seq<Frame>)
    ensures Live(inbox) <= |inbox|
  {
    if inbox != [] {
      LiveBound(inbox[1..]);
    }
  }

  lemma {:induction false} NaksAppend(inbox: seq<Frame>, more: seq<Frame>)
    ensures Naks(inbox + more) == Naks(inbox) + Naks(more)
  {
    if inbox == [] {
      assert inbox + more == more;
    } else {
      assert (inbox + more)[1..] == inbox[1..] + more;
      NaksAppend(inbox[1..], more);
    }
  }

  // ----- Everything written fits -----

  ghost predicate WritesFit(net: Net) { Fitting(net.left.written) && Fitting(net.right.written) }

  /** What has been written bounds what is in flight and in the history. */
  lemma SmallEnd(me: End, peer: End, tm: seq<nat>, tp: seq<nat>, cap: Capacity)
    requires Direction(me, peer, tp, tm, cap) && Direction(peer, me, tm, tp, cap)
    requires Fitting(me.written) && Fitting(peer.written)
    ensures |me.ep.history| <= cap
    ensures forall i :: 0 <= i < |me.ep.history| ==> |me.ep.history[i]| < MAX_PACKET
    ensures forall i :: 0 <= i < |me.inbox| && IsData(me.inbox[i]) ==>
              |me.inbox[i].payload| < MAX_PACKET - 1
  {
    hide Wrap, RequestsOk;
    forall i | 0 <= i < |me.inbox| && IsData(me.inbox[i])
      ensures |me.inbox[i].payload| < MAX_PACKET - 1
    {
      assert Carries(me.inbox[i], peer.written, tm[i]);
    }
  }

  lemma Small(net: Net, toLeft: seq<nat>, toRight: seq<nat>, cap: Capacity)
    requires Invariant(net, toLeft, toRight, cap) && WritesFit(net)
    ensures |net.left.ep.history| <= cap && |net.right.ep.history| <= cap
    ensures forall i :: 0 <= i < |net.left.ep.history| ==> |net.left.ep.history[i]| < MAX_PACKET
    ensures forall i :: 0 <= i < |net.right.ep.history| ==> |net.right.ep.history[i]| < MAX_PACKET
    ensures forall i :: 0 <= i < |net.left.inbox| && IsData(net.left.inbox[i]) ==>
              |net.left.inbox[i].payload| < MAX_PACKET - 1
    ensures forall i :: 0 <= i < |net.right.inbox| && IsData(net.right.inbox[i]) ==>
              |net.right.inbox[i].payload| < MAX_PACKET - 1
  {
    hide Direction, Phase;
    SmallEnd(net.left, net.right, toLeft, toRight, cap);
    SmallEnd(net.right, net.left, toRight, toLeft, cap);
  }

  // ----- Both ends connected -----

  lemma ConnectedIsCalm(net: Net, toLeft: seq<nat>, toRight: seq<nat>, cap: Capacity)
    requires Invariant(net, toLeft, toRight, cap) && WritesFit(net)
    requires net.right.ep.conn == Connected
    ensures CalmNet(net, cap)
  {
    Small(net, toLeft, toRight, cap);
    hide Direction;
  }

  lemma StaysConnected(net: Net, action: Action, cap: Capacity)
    requires Phase(net) && action.Deliver? && Possible(net, action)
    ensures net.left.ep.conn == Connected ==> Do(net, action, cap).left.ep.conn == Connected
    ensures net.right.ep.conn == Connected ==> Do(net, action, cap).right.ep.conn == Connected
  {
    if action.side == Left {
      LeftReaction(net);
    } else {
      RightReaction(net);
    }
    hide OnArrival, LeftInboxOk;
  }

  // ----- The right end not yet connected -----

  /** What the left end answers meanwhile: SYN0, or at most a history of retransmissions, with
      SYN2 in front if the handshake asked for them. */
  lemma LeftAnswers(net: Net, cap: Capacity)
    requires Phase(net) && net.left.inbox != [] && net.right.ep.conn != Connected
    requires |net.left.ep.history| <= cap
    ensures var frame, sent := net.left.inbox[0], OnArrival(net.left.ep, net.left.inbox[0]).sent;
            if frame == SYN1 then
              sent != [] && sent[0] == SYN2 && InboxWeight(sent, cap) < FrameWeight(SYN1, cap)
            else
              IsNak(frame) && |sent| <= cap && InboxWeight(sent, cap) <= cap
  {
    var me, frame := net.left, net.left.inbox[0];
    hide RightInboxOk, Wrap, TransmitHistoryFrom;
    HistoryWeight(me.ep, frame.num, cap);
    HistoryWeight(me.ep, 0, cap);
    WeightOne(SYN0, cap);
    WeightOne(SYN2, cap);
    WeightConcat([SYN2], TransmitHistoryFrom(me.ep, 0).sent, cap);
    WeightConcat([SYN2], [], cap);
  }

  lemma HistoryWeight(ep: Endpoint, s: SeqNum, cap: Capacity)
    requires |ep.history| <= cap
    ensures var sent := TransmitHistoryFrom(ep, s).sent;
            InboxWeight(sent, cap) == |sent| <= cap
  {
    hide Wrap, FastForward;
    WeightOfRetransmissions(TransmitHistoryFrom(ep, s).sent, cap);
  }

  /** What the right end answers: nothing to SYN2, which connects it, and SYN1 to all else. */
  lemma RightAnswers(net: Net)
    requires Phase(net) && net.right.inbox != [] && net.right.ep.conn != Connected
    requires IsData(net.right.inbox[0]) ==> |net.right.inbox[0].payload| < MAX_PACKET - 1
    ensures var frame := net.right.inbox[0];
            var o := OnArrival(net.right.ep, frame);
            if frame == SYN2 then o.sent == [] && o.ep.conn == Connected
            else o.sent == [SYN1] && o.ep.conn != Connected
  {
    hide LeftInboxOk, Wrap, TransmitHistoryFrom;
  }

  lemma LeftDelivers(net: Net, cap: Capacity)
    requires Phase(net) && net.left.inbox != [] && net.right.ep.conn != Connected
    ensures var net' := Do(net, Deliver(Left), cap);
            && net'.left.inbox == net.left.inbox[1..] && net'.right.ep == net.right.ep
            && net'.right.inbox
               == net.right.inbox + OnArrival(net.left.ep, net.left.inbox[0]).sent
  {
    hide OnArrival;
  }

  lemma LeftLowers(net: Net, cap: Capacity)
    requires Phase(net) && net.left.inbox != [] && net.right.ep.conn != Connected
    requires |net.left.ep.history| <= cap
    ensures Potential(Do(net, Deliver(Left), cap), cap) < Potential(net, cap)
  {
    hide OnArrival, Phase, Live, Naks, Do, Extra, InboxWeight, IsNak;
    var me, frame := net.left, net.left.inbox[0];
    var sent := OnArrival(me.ep, frame).sent;
    LeftDelivers(net, cap);
    LeftAnswers(net, cap);
    Heads(me.inbox, cap);
    WeightConcat(net.right.inbox, sent, cap);
    LiveAppend(net.right.inbox, sent);
    if frame != SYN1 {
      NakIs(frame, cap);
      NakPays(Live(net.right.inbox), Live(net.right.inbox + sent), Naks(me.inbox[1..]), cap);
    }
  }

  lemma NakIs(frame: Frame, cap: Capacity)
    requires IsNak(frame)
    ensures frame.kind == Nak && FrameWeight(frame, cap) == cap + 1
  {}

  lemma Heads(inbox: seq<Frame>, cap: Capacity)
    requires inbox != []
    ensures InboxWeight(inbox, cap) == FrameWeight(inbox[0], cap) + InboxWeight(inbox[1..], cap)
    ensures Naks(inbox) == (if inbox[0].kind == Nak then 1 else 0) + Naks(inbox[1..])
    ensures inbox[0] != SYN2 ==> Live(inbox) == Live(inbox[1..]) + 1
    ensures 1 <= FrameWeight(inbox[0], cap)
  {}

  lemma RightDelivers(net: Net, cap: Capacity)
    requires net.right.inbox != []
    ensures var net', o := Do(net, Deliver(Right), cap), OnArrival(net.right.ep, net.right.inbox[0]);
            && net'.right.inbox == net.right.inbox[1..] && net'.right.ep == o.ep
            && net'.left.inbox == net.left.inbox + o.sent
  {
    hide OnArrival;
  }

  lemma RightLowers(net: Net, cap: Capacity)
    requires Phase(net) && net.right.inbox != [] && net.right.ep.conn != Connected
    requires IsData(net.right.inbox[0]) ==> |net.right.inbox[0].payload| < MAX_PACKET - 1
    ensures Potential(Do(net, Deliver(Right), cap), cap) < Potential(net, cap)
  {
    hide OnArrival, Phase, Live, Naks, Do, Extra, InboxWeight, IsData;
    var me, frame := net.right, net.right.inbox[0];
    var o := OnArrival(me.ep, frame);
    RightDelivers(net, cap);
    RightAnswers(net);
    Heads(me.inbox, cap);
    WeightConcat(net.left.inbox, o.sent, cap);
    NaksAppend(net.left.inbox, o.sent);
    OneSyn1(cap);
    if frame != SYN2 {
      OneLess(Live(me.inbox[1..]), Naks(net.left.inbox), cap);
    } else {
      assert net.left.inbox + [] == net.left.inbox;
    }
  }

  lemma OneSyn1(cap: Capacity)
    ensures InboxWeight([SYN1], cap) == 2 * cap + 2 && Naks([SYN1]) == 0
  {
    WeightOne(SYN1, cap);
    assert [SYN1][1..] == [];
  }

  // ----- Draining -----

  lemma DeliveryLowers(net: Net, action: Action, toLeft: seq<nat>, toRight: seq<nat>, cap: Capacity)
    requires Invariant(net, toLeft, toRight, cap) && WritesFit(net)
    requires action.Deliver? && Possible(net, action)
    ensures Potential(Do(net, action, cap), cap) < Potential(net, cap)
  {
    hide Direction, Phase, Weight, Extra, Live, Naks, IsData, Do;
    Small(net, toLeft, toRight, cap);
    if net.right.ep.conn == Connected {
      ConnectedIsCalm(net, toLeft, toRight, cap);
      StepLightens(net, action, cap);
      StaysConnected(net, action, cap);
    } else if action.side == Left {
      LeftLowers(net, cap);
    } else {
      RightLowers(net, cap);
    }
  }

  lemma DeliveryWritesNothing(net: Net, action: Action, cap: Capacity)
    requires action.Deliver? && Possible(net, action)
    ensures var net' := Do(net, action, cap);
            net'.left.written == net.left.written && net'.right.written == net.right.written
  {
    hide OnArrival;
  }

  lemma DrainIsAllowed(states: seq<Net>, actions: seq<Action>, cap: Capacity)
    requires Drain(states, actions, cap)
    ensures AllowedRun(states, actions, cap)
  {
    hide Do, Possible;
  }

  /** Every lossless drain ends: no more deliveries are possible than the potential. */
  lemma {:induction false} DrainLowers(states: seq<Net>, actions: seq<Action>, n: nat,
                                       toLeft: seq<nat>, toRight: seq<nat>, cap: Capacity)
    requires Drain(states, actions, cap) && n <= |actions|
    requires Invariant(states[0], toLeft, toRight, cap) && WritesFit(states[0])
    ensures Potential(states[n], cap) + n <= Potential(states[0], cap)
    ensures WritesFit(states[n])
  {
    hide Invariant, Do, Potential, Possible, AllowedRun, Fitting;
    if n > 0 {
      DrainLowers(states, actions, n - 1, toLeft, toRight, cap);
      assert Possible(states[n - 1], actions[n - 1]) && actions[n - 1].Deliver?;
      assert states[n] == Do(states[n - 1], actions[n - 1], cap);
      DrainIsAllowed(states, actions, cap);
      var l, r := AllowedKeeps(states, actions, n - 1, toLeft, toRight, cap);
      DeliveryLowers(states[n - 1], actions[n - 1], l, r, cap);
      DeliveryWritesNothing(states[n - 1], actions[n - 1], cap);
    }
  }

  lemma {:induction false} SomeDrain(net: Net, toLeft: seq<nat>, toRight: seq<nat>, cap: Capacity)
    returns (states: seq<Net>, actions: seq<Action>)
    requires Invariant(net, toLeft, toRight, cap) && WritesFit(net)
    ensures Drain(states, actions, cap) && states[0] == net && Quiet(states[|actions|])
    decreases Potential(net, cap)
  {
    if Quiet(net) {
      states, actions := [net], [];
    } else {
      hide Invariant, Do, Potential, Fitting, Drain;
      var action := Deliver(if net.left.inbox != [] then Left else Right);
      assert Possible(net, action) && Allowed(net, action, cap);
      DeliveryLowers(net, action, toLeft, toRight, cap);
      DeliveryWritesNothing(net, action, cap);
      var l, r := StepKeeps(net, action, toLeft, toRight, cap);
      var after, more := SomeDrain(Do(net, action, cap), l, r, cap);
      states, actions := DrainCons(net, action, after, more, cap);
    }
  }

  lemma DrainCons(net: Net, action: Action, after: seq<Net>, more: seq<Action>, cap: Capacity)
    returns (states: seq<Net>, actions: seq<Action>)
    requires action.Deliver? && Possible(net, action)
    requires Drain(after, more, cap) && after[0] == Do(net, action, cap)
    ensures Drain(states, actions, cap) && states[0] == net
    ensures states[|actions|] == after[|more|]
  {
    hide Possible, Do;
    states, actions := [net] + after, [action] + more;
  }

  /** From any state of a safe run in which everything written fits, whatever is in flight and
      whatever the handshake has come to: some lossless drain leaves the link quiet, and none
      is longer than the potential. */
  lemma Settles(before: seq<Net>, path: seq<Action>, cap: Capacity)
    returns (states: seq<Net>, actions: seq<Action>)
    requires SafeRun(before, path, cap) && WritesFit(before[|path|])
    ensures Drain(states, actions, cap) && states[0] == before[|path|] && Quiet(states[|actions|])
    ensures forall states, actions ::
              Drain(states, actions, cap) && states[0] == before[|path|] ==>
                |actions| <= Potential(before[|path|], cap)
  {
    var net := before[|path|];
    hide SafeRun, Invariant, Potential, Fitting;
    var toLeft, toRight := RunKeeps(before, path, |path|, cap);
    states, actions := SomeDrain(net, toLeft, toRight, cap);
    forall states, actions | Drain(states, actions, cap) && states[0] == net
      ensures |actions| <= Potential(net, cap)
    {
      DrainLowers(states, actions, |actions|, toLeft, toRight, cap);
    }
  }

  // ----- Settling, then recovering -----

  lemma Continued(before: seq<Net>, path: seq<Action>, states: seq<Net>, actions: seq<Action>,
                  cap: Capacity)
    requires SafeRun(before, path, cap) && Drain(states, actions, cap)
    requires states[0] == before[|path|]
    ensures SafeRun(before + states[1..], path + actions, cap)
    ensures (before + states[1..])[|path + actions|] == states[|actions|]
  {
    hide Do, Possible;
    DrainIsAllowed(states, actions, cap);
    var all, acts := before + states[1..], path + actions;
    forall i | 0 <= i < |acts|
      ensures Possible(all[i], acts[i]) && Allowed(all[i], acts[i], cap)
              && all[i + 1] == Do(all[i], acts[i], cap)
    {
      if i >= |path| {
        assert all[i] == states[i - |path|] && all[i + 1] == states[i - |path| + 1];
        AllowedStep(states, actions, i - |path|, cap);
      } else {
        assert all[i] == before[i] && all[i + 1] == before[i + 1];
        AllowedStep(before, path, i, cap);
      }
    }
  }

  lemma {:induction false} DrainKeeps(states: seq<Net>, actions: seq<Action>, n: nat, side: Side,
                                      toLeft: seq<nat>, toRight: seq<nat>, cap: Capacity)
    requires Drain(states, actions, cap) && n <= |actions|
    requires Invariant(states[0], toLeft, toRight, cap) && Me(states[0], side).ep.conn == Connected
    ensures Me(states[n], side).ep.conn == Connected
    ensures |Peer(states[0], side).accepted| <= |Peer(states[n], side).accepted|
    ensures Me(states[n], side).written == Me(states[0], side).written
  {
    hide Invariant, Do, Possible, AllowedRun;
    if n > 0 {
      DrainKeeps(states, actions, n - 1, side, toLeft, toRight, cap);
      assert Possible(states[n - 1], actions[n - 1]) && actions[n - 1].Deliver?;
      assert states[n] == Do(states[n - 1], actions[n - 1], cap);
      DrainIsAllowed(states, actions, cap);
      var l, r := AllowedKeeps(states, actions, n - 1, toLeft, toRight, cap);
      InPhase(states[n - 1], l, r, cap);
      StaysConnected(states[n - 1], actions[n - 1], cap);
      DeliveryWritesNothing(states[n - 1], actions[n - 1], cap);
      AcceptedGrow(states[n - 1], actions[n - 1], cap);
    }
  }

  lemma InPhase(net: Net, toLeft: seq<nat>, toRight: seq<nat>, cap: Capacity)
    requires Invariant(net, toLeft, toRight, cap)
    ensures Phase(net)
  {}

  lemma AcceptedGrow(net: Net, action: Action, cap: Capacity)
    requires action.Deliver? && Possible(net, action)
    ensures var net' := Do(net, action, cap);
            && |net.left.accepted| <= |net'.left.accepted|
            && |net.right.accepted| <= |net'.right.accepted|
  {
    hide OnArrival;
  }

  /** The whole way back, from any state of a safe run with the writer connected, less than a
      history missing and everything fitting: drain, write once more, drain again. Both drains
      end, and when the link is quiet the peer has accepted all that was written. */
  lemma SettleAndRecover(before: seq<Net>, path: seq<Action>, side: Side, payload: Payload,
                         first: seq<Net>, drain: seq<Action>, second: seq<Net>, more: seq<Action>,
                         cap: Capacity)
    requires SafeRun(before, path, cap) && WritesFit(before[|path|]) && Fits(payload)
    requires var net := before[|path|];
             && Me(net, side).ep.conn == Connected
             && |Me(net, side).written| - |Peer(net, side).accepted| < cap
             && Drain(first, drain, cap) && first[0] == net && Quiet(first[|drain|])
             && Drain(second, more, cap)
             && second[0] == Do(first[|drain|], Send(side, payload), cap)
    ensures |drain| <= Potential(before[|path|], cap) && |more| <= cap + 3
    ensures Quiet(second[|more|]) ==>
              Peer(second[|more|], side).accepted == Me(before[|path|], side).written + [payload]
  {
    var net := before[|path|];
    hide SafeRun, Invariant, Drain, Potential, Do;
    var toLeft, toRight := RunKeeps(before, path, |path|, cap);
    DrainLowers(first, drain, |drain|, toLeft, toRight, cap);
    DrainKeeps(first, drain, |drain|, side, toLeft, toRight, cap);
    Continued(before, path, first, drain, cap);
    FitsMissing(Me(net, side).written, payload, |Peer(first[|drain|], side).accepted|);
    RecoveryTheorem(before + first[1..], path + drain, side, payload, second, more, cap);
  }

  lemma FitsMissing(written: seq<Payload>, payload: Payload, accepted: nat)
    requires Fitting(written) && Fits(payload)
    ensures MissingFit(written + [payload], accepted)
  {}
}
