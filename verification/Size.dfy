/**
 What the size of payloads does to a link that is quiet and connected: after one more write the
 link can fall quiet again, exactly unless a payload of 256 octets has to be sent again.
 */
module Size {
  import opened Framing
  import opened Protocol
  import opened Network
  import opened Safety
  import opened Recovery
  import opened Storm
  import opened Window
  import opened Settling

  predicate Huge(payload: Payload) { |payload| == MAX_PACKET }

  /** Position `x` of the log is not accepted, and its payload does not pass as a frame. */
  ghost predicate HugeMissing(written: seq<Payload>, accepted: nat, x: int) {
    accepted <= x < |written| && Huge(written[x])
  }

  ghost predicate NoneHuge(written: seq<Payload>, accepted: nat) {
    forall x :: !HugeMissing(written, accepted, x)
  }

  ghost predicate FallsQuiet(net: Net, cap: Capacity) {
    exists states, actions ::
      Drain(states, actions, cap) && states[0] == net && Quiet(states[|actions|])
  }

  ghost predicate BothConnected(net: Net) {
    net.left.ep.conn == Connected && net.right.ep.conn == Connected
  }

  // ----- A huge payload keeps the link busy -----

  ghost predicate HasHuge(inbox: seq<Frame>) {
    exists i :: 0 <= i < |inbox| && IsData(inbox[i]) && Huge(inbox[i].payload)
  }

  ghost predicate HasNak(inbox: seq<Frame>) {
    exists i :: 0 <= i < |inbox| && inbox[i].kind == Nak
  }

  /** Position `x` is missing and huge, and either it or a request is on its way. */
  ghost predicate Busy(net: Net, side: Side, x: int) {
    var me, peer := Me(net, side), Peer(net, side);
    && BothConnected(net) && Fitting(peer.accepted)
    && HugeMissing(me.written, |peer.accepted|, x)
    && (HasHuge(peer.inbox) || HasNak(me.inbox))
  }

  lemma HugeTail(inbox: seq<Frame>)
    requires inbox != [] && HasHuge(inbox) && !(IsData(inbox[0]) && Huge(inbox[0].payload))
    ensures HasHuge(inbox[1..])
  {
    var i :| 0 <= i < |inbox| && IsData(inbox[i]) && Huge(inbox[i].payload);
    assert inbox[1..][i - 1] == inbox[i];
  }

  lemma NakTail(inbox: seq<Frame>)
    requires inbox != [] && HasNak(inbox) && inbox[0].kind != Nak
    ensures HasNak(inbox[1..])
  {
    var i :| 0 <= i < |inbox| && inbox[i].kind == Nak;
    assert inbox[1..][i - 1] == inbox[i];
  }

  lemma HugeAppend(inbox: seq<Frame>, more: seq<Frame>)
    ensures HasHuge(inbox) || HasHuge(more) ==> HasHuge(inbox + more)
    ensures HasNak(inbox) || HasNak(more) ==> HasNak(inbox + more)
  {
    if i :| 0 <= i < |inbox| && IsData(inbox[i]) && Huge(inbox[i].payload) {
      assert (inbox + more)[i] == inbox[i];
    }
    if i :| 0 <= i < |more| && IsData(more[i]) && Huge(more[i].payload) {
      assert (inbox + more)[|inbox| + i] == more[i];
    }
    if i :| 0 <= i < |inbox| && inbox[i].kind == Nak {
      assert (inbox + more)[i] == inbox[i];
    }
    if i :| 0 <= i < |more| && more[i].kind == Nak {
      assert (inbox + more)[|inbox| + i] == more[i];
    }
  }

  /** The reader asks again whenever a huge payload arrives. */
  lemma HugeIsAsked(ep: Endpoint, frame: Frame)
    requires IsData(frame) && Huge(frame.payload)
    ensures HasNak(OnArrival(ep, frame).sent)
  {
    assert OnArrival(ep, frame).sent[0].kind == Nak;
  }

  /** A request for something before `x` has it sent again. */
  lemma AskedIsSent(me: End, peer: End, tm: seq<nat>, tp: seq<nat>, x: int, cap: Capacity)
    requires Direction(me, peer, tp, tm, cap) && me.ep.conn == Connected
    requires me.inbox != [] && IsNak(me.inbox[0])
    requires HugeMissing(me.written, |peer.accepted|, x)
    ensures HasHuge(OnArrival(me.ep, me.inbox[0]).sent)
  {
    var t := tm[0];
    var s := me.inbox[0].num;
    assert s == Wrap(t) && Base(me.ep, me.written) <= t <= x;
    WrapInjective(|me.written|, t);
    RetransmitFromLog(me.ep, me.written, cap, s, t);
    hide Wrap, TransmitHistoryFrom, DataOk, RequestsOk, LogAgrees;
    var sent := TransmitHistoryFrom(me.ep, s).sent;
    assert OnArrival(me.ep, me.inbox[0]).sent == sent;
    assert Carries(sent[x - t], me.written, t + (x - t));
  }

  lemma StillMissing(written: seq<Payload>, accepted: seq<Payload>, x: int)
    requires accepted <= written && Fitting(accepted) && HugeMissing(written, 0, x)
    ensures HugeMissing(written, |accepted|, x)
  {
    assert forall i :: 0 <= i < |accepted| ==> accepted[i] == written[i];
  }

  lemma OnTheWay(net: Net, action: Action, side: Side, toLeft: seq<nat>, toRight: seq<nat>, x: int,
                 cap: Capacity)
    requires Invariant(net, toLeft, toRight, cap) && Busy(net, side, x)
    requires action.Deliver? && Possible(net, action)
    ensures var net' := Do(net, action, cap);
            HasHuge(Peer(net', side).inbox) || HasNak(Me(net', side).inbox)
  {
    hide Direction, Phase, OnArrival, HasHuge, HasNak, IsNak, IsData, HugeMissing, Fitting;
    var me, peer := Me(net, side), Peer(net, side);
    var tm, tp := if side == Left then toLeft else toRight, if side == Left then toRight else toLeft;
    DeliverySplits(net, side, action, cap);
    if action.side == side {
      var o := OnArrival(me.ep, me.inbox[0]);
      HugeAppend(peer.inbox, o.sent);
      if !HasHuge(peer.inbox) {
        if me.inbox[0].kind == Nak {
          NakInPhase(net, side);
          AskedIsSent(me, peer, tm, tp, x, cap);
        } else {
          NakTail(me.inbox);
        }
      }
    } else {
      var frame := peer.inbox[0];
      HugeAppend(me.inbox, OnArrival(peer.ep, frame).sent);
      if !HasNak(me.inbox) {
        if IsData(frame) && Huge(frame.payload) {
          HugeIsAsked(peer.ep, frame);
        } else {
          HugeTail(peer.inbox);
        }
      }
    }
  }

  lemma NakInPhase(net: Net, side: Side)
    requires Phase(net) && Me(net, side).inbox != [] && Me(net, side).inbox[0].kind == Nak
    ensures IsNak(Me(net, side).inbox[0])
  {}

  lemma BusyStays(net: Net, action: Action, side: Side, toLeft: seq<nat>, toRight: seq<nat>, x: int,
                  cap: Capacity)
    requires Invariant(net, toLeft, toRight, cap) && Busy(net, side, x)
    requires action.Deliver? && Possible(net, action)
    ensures Busy(Do(net, action, cap), side, x)
  {
    OnTheWay(net, action, side, toLeft, toRight, x, cap);
    DrainAllowed(net, action, cap);
    var l, r := StepKeeps(net, action, toLeft, toRight, cap);
    InPhase(net, toLeft, toRight, cap);
    StaysConnected(net, action, cap);
    DeliveryWritesNothing(net, action, cap);
    var net' := Do(net, action, cap);
    PeerFits(net, action, side, cap);
    AcceptedIsPrefix(net', side, l, r, cap);
    hide Invariant, Do, HasHuge, HasNak, Fitting;
    StillMissing(Me(net', side).written, Peer(net', side).accepted, x);
  }

  lemma PeerFits(net: Net, action: Action, side: Side, cap: Capacity)
    requires action.Deliver? && Possible(net, action) && Fitting(Peer(net, side).accepted)
    ensures Fitting(Peer(Do(net, action, cap), side).accepted)
  {
    ReactionFits(Me(net, action.side).ep, Me(net, action.side).inbox[0]);
    hide OnArrival;
  }

  lemma DrainAllowed(net: Net, action: Action, cap: Capacity)
    requires action.Deliver?
    ensures Allowed(net, action, cap)
  {}

  lemma BusyIsNotQuiet(net: Net, side: Side, x: int)
    requires Busy(net, side, x)
    ensures !Quiet(net)
  {}

  lemma {:induction false} BusyForEver(states: seq<Net>, actions: seq<Action>, n: nat, side: Side,
                                       toLeft: seq<nat>, toRight: seq<nat>, x: int, cap: Capacity)
    requires Drain(states, actions, cap) && n <= |actions|
    requires Invariant(states[0], toLeft, toRight, cap) && Busy(states[0], side, x)
    ensures Busy(states[n], side, x)
  {
    hide Invariant, Do, Possible, Busy, AllowedRun;
    if n > 0 {
      BusyForEver(states, actions, n - 1, side, toLeft, toRight, x, cap);
      assert Possible(states[n - 1], actions[n - 1]) && actions[n - 1].Deliver?;
      assert states[n] == Do(states[n - 1], actions[n - 1], cap);
      DrainIsAllowed(states, actions, cap);
      var l, r := AllowedKeeps(states, actions, n - 1, toLeft, toRight, cap);
      BusyStays(states[n - 1], actions[n - 1], side, l, r, x, cap);
    }
  }

  // ----- Without one, the direction written to dies down -----

  /** Only requests go one way, and only data that arrives whole or vanishes the other way. */
  ghost predicate Flow(me: End, peer: End, cap: Capacity) {
    && CalmEnd(me, cap) && (forall i :: 0 <= i < |me.inbox| ==> IsNak(me.inbox[i]))
    && peer.ep.conn == Connected
    && (forall i :: 0 <= i < |peer.inbox| ==>
          IsData(peer.inbox[i]) && |peer.inbox[i].payload| < MAX_PACKET)
  }

  ghost predicate OneWay(net: Net, side: Side, cap: Capacity) {
    Flow(Me(net, side), Peer(net, side), cap)
  }

  function Load(me: End, peer: End, cap: Capacity): nat {
    InboxWeight(me.inbox, cap) + InboxWeight(peer.inbox, cap)
  }

  lemma DataAnswers(ep: Endpoint, frame: Frame, cap: Capacity)
    requires ep.conn == Connected && IsData(frame) && |frame.payload| < MAX_PACKET
    ensures var o := OnArrival(ep, frame);
            && o.ep.conn == Connected
            && (forall i :: 0 <= i < |o.sent| ==> IsNak(o.sent[i]))
            && InboxWeight(o.sent, cap) < FrameWeight(frame, cap)
  {
    hide Wrap;
    WeightOne(Frame(Nak, ep.rxSeq, []), cap);
  }

  lemma NakAnswers(me: End, cap: Capacity)
    requires CalmEnd(me, cap) && me.inbox != [] && IsNak(me.inbox[0])
    ensures var o := OnArrival(me.ep, me.inbox[0]);
            && CalmEnd(me.(ep := o.ep, inbox := me.inbox[1..]), cap)
            && (forall i :: 0 <= i < |o.sent| ==>
                  IsData(o.sent[i]) && |o.sent[i].payload| < MAX_PACKET)
            && InboxWeight(o.sent, cap) < FrameWeight(me.inbox[0], cap)
  {
    ReactionIsCalm(me, me.inbox[0], cap);
    RetransmissionsAreData(me.ep, me.inbox[0].num);
    hide Wrap, TransmitHistoryFrom, InboxWeight;
  }

  lemma NakDelivered(me: End, peer: End, cap: Capacity)
    requires Flow(me, peer, cap) && me.inbox != []
    ensures var o := OnArrival(me.ep, me.inbox[0]);
            var me', peer' := Acted(me.(inbox := me.inbox[1..]), o), peer.(inbox := peer.inbox + o.sent);
            Flow(me', peer', cap) && Load(me', peer', cap) < Load(me, peer, cap)
  {
    hide OnArrival, IsData, IsNak, Calm, InboxWeight, FrameWeight;
    NakAnswers(me, cap);
    Heads(me.inbox, cap);
    WeightConcat(peer.inbox, OnArrival(me.ep, me.inbox[0]).sent, cap);
  }

  lemma DataDelivered(me: End, peer: End, cap: Capacity)
    requires Flow(me, peer, cap) && peer.inbox != []
    ensures var o := OnArrival(peer.ep, peer.inbox[0]);
            var me', peer' := me.(inbox := me.inbox + o.sent), Acted(peer.(inbox := peer.inbox[1..]), o);
            Flow(me', peer', cap) && Load(me', peer', cap) < Load(me, peer, cap)
  {
    var sent := OnArrival(peer.ep, peer.inbox[0]).sent;
    DataAnswers(peer.ep, peer.inbox[0], cap);
    NaksAreCalm(me, sent, cap);
    hide OnArrival, IsData, IsNak, Calm, InboxWeight, FrameWeight;
    Heads(peer.inbox, cap);
    WeightConcat(me.inbox, sent, cap);
  }

  lemma OneWayStays(net: Net, action: Action, side: Side, cap: Capacity)
    requires OneWay(net, side, cap) && action.Deliver? && Possible(net, action)
    ensures OneWay(Do(net, action, cap), side, cap)
    ensures Weight(Do(net, action, cap), cap) < Weight(net, cap)
  {
    var me, peer := Me(net, side), Peer(net, side);
    DeliverySplits(net, side, action, cap);
    WeightBySide(net, side, cap);
    WeightBySide(Do(net, action, cap), side, cap);
    hide OnArrival, Do, Flow, Weight, Load;
    if action.side == side {
      NakDelivered(me, peer, cap);
    } else {
      DataDelivered(me, peer, cap);
    }
  }

  lemma NaksAreCalm(me: End, more: seq<Frame>, cap: Capacity)
    requires CalmEnd(me, cap) && forall i :: 0 <= i < |more| ==> IsNak(more[i])
    ensures CalmEnd(me.(inbox := me.inbox + more), cap)
  {}

  lemma WeightBySide(net: Net, side: Side, cap: Capacity)
    ensures Weight(net, cap) == Load(Me(net, side), Peer(net, side), cap)
  {}

  lemma {:induction false} OneWayEnds(net: Net, side: Side, cap: Capacity)
    returns (states: seq<Net>, actions: seq<Action>)
    requires OneWay(net, side, cap)
    ensures Drain(states, actions, cap) && states[0] == net && Quiet(states[|actions|])
    decreases Weight(net, cap)
  {
    if Quiet(net) {
      states, actions := [net], [];
    } else {
      hide OneWay, Do, Weight, Drain;
      var action := Deliver(if net.left.inbox != [] then Left else Right);
      assert Possible(net, action);
      OneWayStays(net, action, side, cap);
      var after, more := OneWayEnds(Do(net, action, cap), side, cap);
      states, actions := DrainCons(net, action, after, more, cap);
    }
  }

  lemma CalmAfterWrite(net: Net, side: Side, payload: Payload, cap: Capacity)
    requires Invariant(net, [], [], cap) && Quiet(net) && BothConnected(net)
    requires |payload| < MAX_PACKET && Fitting(Peer(net, side).accepted)
    requires NoneHuge(Me(net, side).written + [payload], |Peer(net, side).accepted|)
    requires |Me(net, side).written| - |Peer(net, side).accepted| < cap
    requires Writable(Me(net, side).written)
    ensures OneWay(Do(net, Send(side, payload), cap), side, cap)
  {
    hide Phase, DataOk, RequestsOk, Wrap;
    var me, peer := Me(net, side), Peer(net, side);
    var written := me.written + [payload];
    SendSplits(net, side, payload, cap);
    WriteKeepsLog(me.ep, payload, me.written, cap);
    var ep := OnWrite(me.ep, payload, cap).ep;
    forall i | 0 <= i < |ep.history| ensures |ep.history[i]| < MAX_PACKET {
      var x := |written| - |ep.history| + i;
      assert ep.history[i] == written[x];
      assert !HugeMissing(written, |peer.accepted|, x);
      assert x < |peer.accepted| ==> peer.accepted[x] == me.written[x];
    }
  }

  // ----- The theorem -----

  /** A payload of 255 octets vanishes at once. */
  lemma Vanishes(net: Net, side: Side, payload: Payload, cap: Capacity)
    requires Quiet(net) && |payload| == MAX_PACKET - 1
    ensures FallsQuiet(Do(net, Send(side, payload), cap), cap)
  {
    var start := Do(net, Send(side, payload), cap);
    var action := Deliver(Other(side));
    SendSplits(net, side, payload, cap);
    DeliverySplits(start, side, action, cap);
    hide Do, OnWrite;
    var last := Do(start, action, cap);
    assert Me(net, side).inbox + [] == [];
    assert Quiet(last);
    assert Drain([start], [], cap);
    var states, actions := DrainCons(start, action, [last], [], cap);
  }

  lemma NeverQuiet(states: seq<Net>, actions: seq<Action>, side: Side, toLeft: seq<nat>,
                   toRight: seq<nat>, x: int, cap: Capacity)
    requires Drain(states, actions, cap)
    requires Invariant(states[0], toLeft, toRight, cap) && Busy(states[0], side, x)
    ensures !Quiet(states[|actions|])
  {
    BusyForEver(states, actions, |actions|, side, toLeft, toRight, x, cap);
    BusyIsNotQuiet(states[|actions|], side, x);
  }

  /** The new payload arrives out of order, and the reader asks. */
  lemma FirstIsAsked(net: Net, side: Side, payload: Payload, action: Action, x: int, cap: Capacity)
    requires Invariant(net, [], [], cap) && Quiet(net) && BothConnected(net)
    requires |payload| < MAX_PACKET - 1 && Fitting(Peer(net, side).accepted)
    requires HugeMissing(Me(net, side).written, |Peer(net, side).accepted|, x)
    requires |Me(net, side).written| - |Peer(net, side).accepted| < cap
    requires var start := Do(net, Send(side, payload), cap);
             action.Deliver? && Possible(start, action)
    ensures Busy(Do(Do(net, Send(side, payload), cap), action, cap), side, x)
  {
    var me, peer := Me(net, side), Peer(net, side);
    var start := Do(net, Send(side, payload), cap);
    SendSplits(net, side, payload, cap);
    DeliverySplits(start, side, action, cap);
    WrapInjective(|me.written|, |peer.accepted|);
    assert me.ep.txSeq == Wrap(|me.written|) && peer.ep.rxSeq == Wrap(|peer.accepted|);
    hide Invariant, Do, Wrap, PushBack;
    var frame := Frame(Usr, me.ep.txSeq, payload);
    assert Peer(start, side).inbox == [frame];
    var o := OnArrival(peer.ep, frame);
    assert o == Answer(peer.ep, Frame(Nak, peer.ep.rxSeq, []));
    assert HasNak([] + o.sent) by { assert ([] + o.sent)[0].kind == Nak; }
    assert (me.written + [payload])[x] == me.written[x];
    assert peer.accepted + [] == peer.accepted;
  }

  lemma NewIsBusy(net: Net, side: Side, payload: Payload, cap: Capacity)
    requires Quiet(net) && BothConnected(net) && Huge(payload)
    requires Fitting(Peer(net, side).accepted)
    requires |Peer(net, side).accepted| <= |Me(net, side).written|
    ensures Busy(Do(net, Send(side, payload), cap), side, |Me(net, side).written|)
  {
    SendSplits(net, side, payload, cap);
    hide Wrap, PushBack;
    var me := Me(net, side);
    assert (me.written + [payload])[|me.written|] == payload;
    var sent := OnWrite(me.ep, payload, cap).sent;
    assert Peer(net, side).inbox + sent == sent && IsData(sent[0]);
    assert HasHuge(sent);
  }

  lemma SendFromQuiet(net: Net, side: Side, payload: Payload, cap: Capacity)
    requires Quiet(net) && Me(net, side).ep.conn == Connected && |payload| <= MAX_PACKET
    requires |Me(net, side).written| - |Peer(net, side).accepted| < cap
    ensures Possible(net, Send(side, payload)) && Allowed(net, Send(side, payload), cap)
    ensures !Quiet(Do(net, Send(side, payload), cap))
  {
    hide Wrap, PushBack;
  }

  lemma AfterWriteNeverQuiet(net: Net, side: Side, payload: Payload, states: seq<Net>,
                             actions: seq<Action>, x: int, cap: Capacity)
    requires Invariant(net, [], [], cap) && Quiet(net) && BothConnected(net)
    requires |payload| <= MAX_PACKET && |payload| != MAX_PACKET - 1
    requires Fitting(Peer(net, side).accepted)
    requires HugeMissing(Me(net, side).written + [payload], |Peer(net, side).accepted|, x)
    requires |Me(net, side).written| - |Peer(net, side).accepted| < cap
    requires Drain(states, actions, cap) && states[0] == Do(net, Send(side, payload), cap)
    ensures !Quiet(states[|actions|])
  {
    assert |states| == |actions| + 1;
    hide Invariant, Do, Busy, Fitting, Allowed, Quiet;
    var me, peer := Me(net, side), Peer(net, side);
    AcceptedIsPrefix(net, side, [], [], cap);
    SendFromQuiet(net, side, payload, cap);
    var l, r := StepKeeps(net, Send(side, payload), [], [], cap);
    if Huge(payload) {
      NewIsBusy(net, side, payload, cap);
      NeverQuiet(states, actions, side, l, r, |me.written|, cap);
    } else if actions != [] {
      OldIsBusy(net, side, payload, states, actions, l, r, x, cap);
    }
  }

  lemma OldIsBusy(net: Net, side: Side, payload: Payload, states: seq<Net>, actions: seq<Action>,
                  toLeft: seq<nat>, toRight: seq<nat>, x: int, cap: Capacity)
    requires Invariant(net, [], [], cap) && Quiet(net) && BothConnected(net)
    requires |payload| < MAX_PACKET - 1 && Fitting(Peer(net, side).accepted)
    requires HugeMissing(Me(net, side).written + [payload], |Peer(net, side).accepted|, x)
    requires |Me(net, side).written| - |Peer(net, side).accepted| < cap
    requires Drain(states, actions, cap) && states[0] == Do(net, Send(side, payload), cap)
    requires Invariant(states[0], toLeft, toRight, cap) && actions != []
    ensures !Quiet(states[|actions|])
  {
    hide Invariant, Do, Busy, Fitting, Allowed, Possible;
    var me := Me(net, side);
    assert x < |me.written| && (me.written + [payload])[x] == me.written[x];
    assert Possible(states[0], actions[0]) && actions[0].Deliver?;
    FirstIsAsked(net, side, payload, actions[0], x, cap);
    DrainAllowed(states[0], actions[0], cap);
    var l, r := StepKeeps(states[0], actions[0], toLeft, toRight, cap);
    DrainTail(states, actions, cap);
    NeverQuiet(states[1..], actions[1..], side, l, r, x, cap);
  }

  lemma DrainTail(states: seq<Net>, actions: seq<Action>, cap: Capacity)
    requires Drain(states, actions, cap) && actions != []
    ensures Drain(states[1..], actions[1..], cap) && states[1] == Do(states[0], actions[0], cap)
  {
    hide Do, Possible;
  }

  /** The exact effect of size. From every reachable quiet link with both ends connected and
      less than a history missing: after one more write some lossless drain leaves the link
      quiet, iff the new payload has 255 octets, and so is never asked for, or neither it nor
      any payload the reader lacks has 256. */
  lemma QuietBySize(before: seq<Net>, path: seq<Action>, side: Side, payload: Payload, cap: Capacity)
    requires SafeRun(before, path, cap) && Quiet(before[|path|]) && BothConnected(before[|path|])
    requires |payload| <= MAX_PACKET
    requires var net := before[|path|];
             |Me(net, side).written| - |Peer(net, side).accepted| < cap
    ensures var net := before[|path|];
            FallsQuiet(Do(net, Send(side, payload), cap), cap)
            <==> |payload| == MAX_PACKET - 1
                 || NoneHuge(Me(net, side).written + [payload], |Peer(net, side).accepted|)
  {
    var net := before[|path|];
    var toLeft, toRight := RunKeeps(before, path, |path|, cap);
    TagLengths(net, toLeft, toRight, cap);
    QuietTags(net, toLeft, toRight);
    RunFits(before, path, side, cap);
    hide SafeRun, Invariant, Do, Drain, Fitting, Writable, OneWay;
    var written, k := Me(net, side).written + [payload], |Peer(net, side).accepted|;
    if |payload| == MAX_PACKET - 1 {
      Vanishes(net, side, payload, cap);
    } else if NoneHuge(written, k) {
      AcceptedIsPrefix(net, side, toLeft, toRight, cap);
      assert !HugeMissing(written, k, |written| - 1);
      CalmAfterWrite(net, side, payload, cap);
      var states, actions := OneWayEnds(Do(net, Send(side, payload), cap), side, cap);
    } else {
      var x :| HugeMissing(written, k, x);
      forall states, actions | Drain(states, actions, cap)
                               && states[0] == Do(net, Send(side, payload), cap)
        ensures !Quiet(states[|actions|])
      {
        AfterWriteNeverQuiet(net, side, payload, states, actions, x, cap);
      }
    }
  }

  lemma RunFits(before: seq<Net>, path: seq<Action>, side: Side, cap: Capacity)
    requires SafeRun(before, path, cap)
    ensures Fitting(Peer(before[|path|], side).accepted) && Writable(Me(before[|path|], side).written)
  {
    assert Fitting([]) && Writable([]);
    AcceptedFit(before, path, |path|, cap, (net, action) => Allowed(net, action, cap));
    WrittenPackets(before, path, |path|, cap, (net, action) => Allowed(net, action, cap));
    hide Fitting, Writable;
  }
}
