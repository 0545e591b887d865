/**
 Packets written before the handshake is over: over a lossless link everything that either side
 writes, from the moment it takes part in the handshake, reaches the other in order, up to a
 history's worth, however the deliveries and the writes interleave.
 */
module Early {
  import opened Framing
  import opened Protocol
  import opened Network
  import opened Safety
  import opened Recovery
  import opened Window
  import opened Storm
  import opened Settling
  import opened Answers

  /** The left side connects, any number of times before anything is written. Either side writes
      from when it takes part, the right side once no further SYN0 is on its way. */
  ghost predicate EarlyAllowed(net: Net, action: Action, cap: Capacity) {
    var me := Me(net, action.side);
    match action
    case Deliver(_) => true
    case Join(side) =>
      side == Left && me.ep.conn != Connected && net.left.written == [] == net.right.written
    case Send(side, payload) =>
      && Fits(payload) && |me.written| < cap && me.ep.conn != Disconnected
      && (side == Right ==> SYN0 !in me.inbox)
    case _ => false
  }

  // ----- What is in flight is in order -----

  /** A connected reader that has accepted `e` payloads accepts, from these frames, exactly the
      rest of `written`. */
  predicate InOrder(frames: seq<Frame>, e: nat, written: seq<Payload>, syn: Frame) {
    if frames == [] then e == |written|
    else if frames[0].kind == Syn then frames[0] == syn && InOrder(frames[1..], e, written, syn)
    else
      var s := frames[0].num;
      && IsData(frames[0]) && s < |written| && frames[0].payload == written[s]
      && s <= e && (frames[0].kind == Usr ==> s == e)
      && InOrder(frames[1..], if s == e then e + 1 else e, written, syn)
  }

  /** A reader that waits for SYN2 is in order from there on. */
  predicate Waits(frames: seq<Frame>, written: seq<Payload>) {
    if frames == [] then true
    else if frames[0] == SYN2 then InOrder(frames[1..], 0, written, SYN2)
    else
      && (frames[0] == SYN0 || (IsData(frames[0]) && Fits(frames[0].payload)))
      && Waits(frames[1..], written)
  }

  lemma {:induction false} InOrderConcat(frames: seq<Frame>, more: seq<Frame>, e: nat,
                                         written: seq<Payload>, syn: Frame)
    requires InOrder(frames, e, written, syn) && InOrder(more, |written|, written, syn)
    ensures InOrder(frames + more, e, written, syn)
    decreases |frames|
  {
    if frames == [] {
      assert frames + more == more;
    } else {
      assert (frames + more)[1..] == frames[1..] + more;
      var s := frames[0].num;
      InOrderConcat(frames[1..], more, if IsData(frames[0]) && s == e then e + 1 else e, written, syn);
    }
  }

  lemma {:induction false} InOrderWrite(frames: seq<Frame>, e: nat, written: seq<Payload>,
                                        payload: Payload, syn: Frame)
    requires InOrder(frames, e, written, syn) && |written| < SEQ_RANGE
    ensures InOrder(frames + [Frame(Usr, |written|, payload)], e, written + [payload], syn)
    decreases |frames|
  {
    var more := [Frame(Usr, |written|, payload)];
    if frames == [] {
      assert frames + more == more && more[1..] == [];
    } else {
      assert (frames + more)[1..] == frames[1..] + more;
      var s := frames[0].num;
      InOrderWrite(frames[1..], if IsData(frames[0]) && s == e then e + 1 else e, written, payload, syn);
    }
  }

  /** Sending everything again is in order for one who has everything, and for one who has nothing. */
  lemma {:induction false} AllInOrder(written: seq<Payload>, j: nat, e: nat, syn: Frame)
    requires j <= |written| < SEQ_RANGE && (e == j || e == |written|) && syn.kind == Syn
    ensures InOrder(FromTheFirst(written)[j..], e, written, syn)
    decreases |written| - j
  {
    var frames := FromTheFirst(written)[j..];
    if j < |written| {
      WrapSmall(j);
      assert frames[0] == Frame(Rtx, j, written[j]) && frames[1..] == FromTheFirst(written)[j + 1..];
      AllInOrder(written, j + 1, if e == j then j + 1 else e, syn);
    }
  }

  lemma AllAgain(written: seq<Payload>, e: nat, syn: Frame)
    requires |written| < SEQ_RANGE && (e == 0 || e == |written|) && syn.kind == Syn
    ensures InOrder(FromTheFirst(written), e, written, syn)
    ensures InOrder([syn] + FromTheFirst(written), e, written, syn)
  {
    AllInOrder(written, 0, e, syn);
    assert FromTheFirst(written)[0..] == FromTheFirst(written);
    assert ([syn] + FromTheFirst(written))[1..] == FromTheFirst(written);
  }

  lemma {:induction false} WaitsAppend(frames: seq<Frame>, more: seq<Frame>, written: seq<Payload>)
    requires Waits(frames, written)
    requires SYN2 in frames ==> InOrder(more, |written|, written, SYN2)
    requires SYN2 !in frames ==> Waits(more, written)
    ensures Waits(frames + more, written)
    decreases |frames|
  {
    if frames == [] {
      assert frames + more == more;
    } else {
      assert (frames + more)[1..] == frames[1..] + more;
      if frames[0] == SYN2 {
        InOrderConcat(frames[1..], more, 0, written, SYN2);
      } else {
        WaitsAppend(frames[1..], more, written);
      }
    }
  }

  lemma {:induction false} WaitsWrite(frames: seq<Frame>, written: seq<Payload>, payload: Payload)
    requires Waits(frames, written) && |written| < SEQ_RANGE && Fits(payload)
    ensures Waits(frames + [Frame(Usr, |written|, payload)], written + [payload])
    decreases |frames|
  {
    var more := [Frame(Usr, |written|, payload)];
    if frames == [] {
      assert frames + more == more && more[1..] == [];
    } else {
      assert (frames + more)[1..] == frames[1..] + more;
      if frames[0] == SYN2 {
        InOrderWrite(frames[1..], 0, written, payload, SYN2);
      } else {
        WaitsWrite(frames[1..], written, payload);
      }
    }
  }

  // ----- The invariant -----

  /** Numbers and history are those of the logs, and nothing has gone wrong. */
  ghost predicate Whole(me: End, peer: End, cap: Capacity) {
    && me.ep == Endpoint(me.ep.conn, Wrap(|me.accepted|), Wrap(|me.written|), me.written)
    && |me.written| <= cap && Fitting(me.written) && me.accepted <= peer.written
    && !me.sentDis && !me.underrun
  }

  ghost predicate LeftOk(net: Net) {
    var left, right := net.left, net.right;
    && left.ep.conn != SentSyn1
    && (left.ep.conn == Disconnected ==>
          left.written == [] && right.inbox == [] && right.ep.conn == Disconnected)
    && (left.ep.conn != Connected ==> left.accepted == [] && SYN2 !in right.inbox)
    && (left.ep.conn == SentSyn0 && right.ep.conn != Disconnected ==>
          left.inbox != [] && left.inbox[0] == SYN1)
    && (left.ep.conn == SentSyn0 && right.ep.conn == Disconnected ==>
          right.inbox != [] && right.inbox[0] == SYN0)
    && InOrder(left.inbox, |left.accepted|, right.written, SYN1)
  }

  ghost predicate RightOk(net: Net) {
    var left, right := net.left, net.right;
    && right.ep.conn != SentSyn0
    && (right.ep.conn == Disconnected ==>
          right.written == [] && left.inbox == [] && left.ep.conn != Connected)
    && (right.ep.conn == Connected ==>
          left.ep.conn == Connected && InOrder(right.inbox, |right.accepted|, left.written, SYN2))
    && (right.ep.conn != Connected ==> right.accepted == [] && Waits(right.inbox, left.written))
    && (right.ep.conn != Connected && left.ep.conn == Connected ==> SYN2 in right.inbox)
    && (right.written != [] ==> SYN0 !in right.inbox)
  }

  ghost predicate EarlyOk(net: Net, cap: Capacity) {
    && Whole(net.left, net.right, cap) && Whole(net.right, net.left, cap)
    && LeftOk(net) && RightOk(net)
  }

  // ----- What a reader does with what is in order -----

  /** Data in order: the next payload is accepted, an earlier one ignored. */
  lemma TakesData(me: End, peer: End, syn: Frame, cap: Capacity)
    requires Whole(me, peer, cap) && |peer.written| <= cap && Fitting(peer.written)
    requires me.ep.conn == Connected && me.inbox != [] && IsData(me.inbox[0])
    requires InOrder(me.inbox, |me.accepted|, peer.written, syn)
    ensures var o := OnArrival(me.ep, me.inbox[0]);
            var me' := Acted(me.(inbox := me.inbox[1..]), o);
            && o.sent == [] && me'.ep.conn == Connected && Whole(me', peer, cap)
            && InOrder(me'.inbox, |me'.accepted|, peer.written, syn)
  {
    var s, e := me.inbox[0].num, |me.accepted|;
    WrapSmall(e);
    WrapSmall(s);
    WrapWrap(e, 1);
    hide Wrap;
    if s == e {
      assert me.accepted + [peer.written[e]] <= peer.written;
    }
  }

  /** The handshake frame that connects a reader, or reaches it again. */
  lemma TakesSyn(me: End, peer: End, syn: Frame, cap: Capacity)
    requires Whole(me, peer, cap)
    requires syn == SYN1 ==> me.ep.conn != Disconnected
    requires syn == SYN2 ==> me.ep.conn == SentSyn1 || me.ep.conn == Connected
    requires syn == SYN1 || syn == SYN2
    ensures var o := OnArrival(me.ep, syn);
            && o.ep == me.ep.(conn := Connected) && o.accepted == [] && !o.underrun
            && o.sent == (if syn == SYN1 then [SYN2] else []) + FromTheFirst(me.written)
            && DIS !in o.sent
  {
    HandshakeResends(me.ep, me.written, cap);
    hide Wrap, OnFrame;
    assert [] + FromTheFirst(me.written) == FromTheFirst(me.written);
  }

  /** What wakes a reader that waits: SYN0, or data too early. */
  lemma AnswersEarly(me: End, peer: End, frame: Frame, cap: Capacity)
    requires Whole(me, peer, cap) && me.accepted == [] && Fits(frame.payload)
    requires (frame == SYN0 && me.written == [])
             || (IsData(frame) && me.ep.conn == SentSyn1)
    ensures var o := OnArrival(me.ep, frame);
            o.ep == me.ep.(conn := SentSyn1) && o.sent == [SYN1] && o.accepted == [] && !o.underrun
  {
    WrapSmall(0);
    if frame != SYN0 {
      HailsUntilConnected(me.ep, frame);
    }
    hide Wrap, TransmitHistoryFrom;
  }

  // ----- Every step keeps it -----

  /** The net after the right end has taken a frame with outcome `o`. */
  function RightTook(net: Net, o: Outcome): Net
    requires net.right.inbox != []
  {
    Net(net.left.(inbox := net.left.inbox + o.sent),
        Acted(net.right.(inbox := net.right.inbox[1..]), o))
  }

  function LeftTook(net: Net, o: Outcome): Net
    requires net.left.inbox != []
  {
    Net(Acted(net.left.(inbox := net.left.inbox[1..]), o),
        net.right.(inbox := net.right.inbox + o.sent))
  }

  lemma RightTakesData(net: Net, cap: Capacity)
    requires EarlyOk(net, cap) && net.right.inbox != []
    requires net.right.ep.conn == Connected && IsData(net.right.inbox[0])
    ensures EarlyOk(RightTook(net, OnArrival(net.right.ep, net.right.inbox[0])), cap)
  {
    TakesData(net.right, net.left, SYN2, cap);
    hide OnArrival, Wrap, InOrder, Waits, Fitting;
    assert net.left.inbox + [] == net.left.inbox;
  }

  lemma RightSends(net: Net, cap: Capacity)
    requires EarlyOk(net, cap) && net.right.inbox != [] && net.right.inbox[0] == SYN2
    ensures var left, right, all := net.left, net.right, FromTheFirst(net.right.written);
            && InOrder(right.inbox[1..], |right.accepted|, left.written, SYN2)
            && InOrder(left.inbox + all, |left.accepted|, right.written, SYN1)
            && DIS !in all && left.ep.conn == Connected
  {
    hide InOrder, Waits, Wrap, FromTheFirst, Whole;
    var left, right, all := net.left, net.right, FromTheFirst(net.right.written);
    LogFits(right, left, cap);
    SynTail(right.inbox, |right.accepted|, left.written);
    AllAgain(right.written, |right.written|, SYN1);
    InOrderConcat(left.inbox, all, |left.accepted|, right.written, SYN1);
    AllHaveKind(right.written);
  }

  lemma RightTakesSyn(net: Net, cap: Capacity)
    requires EarlyOk(net, cap) && net.right.inbox != [] && net.right.inbox[0] == SYN2
    ensures EarlyOk(RightTook(net, OnArrival(net.right.ep, SYN2)), cap)
  {
    hide OnArrival, Wrap, InOrder, Waits, Fitting, FromTheFirst;
    var right, all := net.right, FromTheFirst(net.right.written);
    RightSends(net, cap);
    TakesSyn(right, net.left, SYN2, cap);
    assert [] + all == all && right.accepted + [] == right.accepted;
  }

  lemma SynTail(frames: seq<Frame>, e: nat, written: seq<Payload>)
    requires frames != [] && frames[0] == SYN2
    ensures InOrder(frames, e, written, SYN2) ==> InOrder(frames[1..], e, written, SYN2)
    ensures Waits(frames, written) ==> InOrder(frames[1..], 0, written, SYN2)
  {}

  lemma AllHaveKind(written: seq<Payload>)
    ensures forall i :: 0 <= i < |FromTheFirst(written)| ==> FromTheFirst(written)[i].kind == Rtx
    ensures |FromTheFirst(written)| == |written|
  {}

  lemma RightIsWoken(net: Net, cap: Capacity)
    requires EarlyOk(net, cap) && net.right.inbox != [] && net.right.inbox[0] != SYN2
    requires net.right.ep.conn != Connected
    ensures EarlyOk(RightTook(net, OnArrival(net.right.ep, net.right.inbox[0])), cap)
  {
    var left, right := net.left, net.right;
    WaitsTail(right.inbox, left.written);
    OneSyn(right.written, SYN1);
    InOrderConcat(left.inbox, [SYN1], |left.accepted|, right.written, SYN1);
    hide OnArrival, Wrap, InOrder, Waits, Fitting;
    AnswersEarly(right, left, right.inbox[0], cap);
    assert right.accepted + [] == right.accepted;
  }

  lemma WaitsTail(frames: seq<Frame>, written: seq<Payload>)
    requires frames != [] && frames[0] != SYN2 && Waits(frames, written)
    ensures frames[0] == SYN0 || (IsData(frames[0]) && Fits(frames[0].payload))
    ensures Waits(frames[1..], written) && Fits(frames[0].payload)
  {}

  lemma OneSyn(written: seq<Payload>, syn: Frame)
    requires syn.kind == Syn
    ensures InOrder([syn], |written|, written, syn)
  {
    assert [syn][1..] == [];
  }

  lemma RightTakes(net: Net, cap: Capacity)
    requires EarlyOk(net, cap) && net.right.inbox != []
    ensures EarlyOk(Do(net, Deliver(Right), cap), cap)
  {
    var o := OnArrival(net.right.ep, net.right.inbox[0]);
    DeliverySplits(net, Left, Deliver(Right), cap);
    assert Do(net, Deliver(Right), cap) == RightTook(net, o);
    InOrderHead(net.right.inbox, |net.right.accepted|, net.left.written, SYN2);
    hide OnArrival, Do, RightTook, Whole, LeftOk, InOrder, Waits;
    if net.right.inbox[0] == SYN2 {
      RightTakesSyn(net, cap);
    } else if net.right.ep.conn == Connected {
      RightTakesData(net, cap);
    } else {
      RightIsWoken(net, cap);
    }
  }

  lemma InOrderHead(frames: seq<Frame>, e: nat, written: seq<Payload>, syn: Frame)
    requires frames != []
    ensures InOrder(frames, e, written, syn) ==> frames[0] == syn || IsData(frames[0])
  {}

  lemma LeftTakesData(net: Net, cap: Capacity)
    requires EarlyOk(net, cap) && net.left.inbox != []
    requires net.left.ep.conn == Connected && IsData(net.left.inbox[0])
    ensures EarlyOk(LeftTook(net, OnArrival(net.left.ep, net.left.inbox[0])), cap)
  {
    TakesData(net.left, net.right, SYN1, cap);
    hide OnArrival, Wrap, InOrder, Waits, Fitting;
    assert net.right.inbox + [] == net.right.inbox;
  }

  /** What the left end sends to SYN1 leaves the right inbox in order. */
  lemma LeftSends(net: Net, cap: Capacity)
    requires EarlyOk(net, cap) && net.left.inbox != [] && net.left.inbox[0] == SYN1
    ensures var left, right, sent := net.left, net.right, [SYN2] + FromTheFirst(net.left.written);
            && InOrder(left.inbox[1..], |left.accepted|, right.written, SYN1)
            && (if right.ep.conn == Connected
                then InOrder(right.inbox + sent, |right.accepted|, left.written, SYN2)
                else Waits(right.inbox + sent, left.written))
            && SYN2 in right.inbox + sent && DIS !in sent
            && (right.written != [] ==> SYN0 !in right.inbox + sent)
  {
    hide InOrder, Waits, Wrap, FromTheFirst, Whole;
    var left, right, sent := net.left, net.right, [SYN2] + FromTheFirst(net.left.written);
    LogFits(left, right, cap);
    SynTail1(left.inbox, |left.accepted|, right.written);
    AllAgain(left.written, |left.written|, SYN2);
    AllAgain(left.written, 0, SYN2);
    WaitsForAll(left.written);
    if right.ep.conn == Connected {
      InOrderConcat(right.inbox, sent, |right.accepted|, left.written, SYN2);
    } else {
      WaitsAppend(right.inbox, sent, left.written);
    }
    AllHaveKind(left.written);
    assert sent[0] == SYN2 && forall i :: 0 < i < |sent| ==> sent[i].kind == Rtx;
  }

  lemma LogFits(me: End, peer: End, cap: Capacity)
    requires Whole(me, peer, cap)
    ensures |me.written| <= cap < SEQ_RANGE && me.accepted <= peer.written
  {}

  lemma LeftTakesSyn(net: Net, cap: Capacity)
    requires EarlyOk(net, cap) && net.left.inbox != [] && net.left.inbox[0] == SYN1
    ensures EarlyOk(LeftTook(net, OnArrival(net.left.ep, SYN1)), cap)
  {
    hide OnArrival, Wrap, InOrder, Waits, Fitting, FromTheFirst;
    LeftSends(net, cap);
    TakesSyn(net.left, net.right, SYN1, cap);
    assert net.left.accepted + [] == net.left.accepted;
  }

  lemma SynTail1(frames: seq<Frame>, e: nat, written: seq<Payload>)
    requires frames != [] && frames[0] == SYN1 && InOrder(frames, e, written, SYN1)
    ensures InOrder(frames[1..], e, written, SYN1)
  {}

  lemma WaitsForAll(written: seq<Payload>)
    requires InOrder(FromTheFirst(written), 0, written, SYN2)
    ensures Waits([SYN2] + FromTheFirst(written), written)
  {
    assert ([SYN2] + FromTheFirst(written))[1..] == FromTheFirst(written);
  }

  lemma LeftTakes(net: Net, cap: Capacity)
    requires EarlyOk(net, cap) && net.left.inbox != []
    ensures EarlyOk(Do(net, Deliver(Left), cap), cap)
  {
    var o := OnArrival(net.left.ep, net.left.inbox[0]);
    DeliverySplits(net, Left, Deliver(Left), cap);
    assert Do(net, Deliver(Left), cap) == LeftTook(net, o);
    InOrderHead(net.left.inbox, |net.left.accepted|, net.right.written, SYN1);
    LeftIsReady(net);
    hide OnArrival, Do, LeftTook, Whole, RightOk, LeftOk, InOrder, Waits;
    if net.left.inbox[0] == SYN1 {
      LeftTakesSyn(net, cap);
    } else {
      LeftTakesData(net, cap);
    }
  }

  lemma LeftIsReady(net: Net)
    requires LeftOk(net) && RightOk(net) && net.left.inbox != []
    ensures InOrder(net.left.inbox, |net.left.accepted|, net.right.written, SYN1)
    ensures net.left.inbox[0] != SYN1 ==> net.left.ep.conn == Connected
  {}

  lemma Joins(net: Net, cap: Capacity)
    requires EarlyOk(net, cap) && EarlyAllowed(net, Join(Left), cap)
    ensures EarlyOk(Do(net, Join(Left), cap), cap)
  {
    var left, right := net.left, net.right;
    OneWait(left.written);
    WaitsAppend(right.inbox, [SYN0], left.written);
    WrapSmall(0);
    hide Wrap, InOrder, Waits;
    assert left.accepted + [] == left.accepted;
  }

  lemma OneWait(written: seq<Payload>)
    ensures Waits([SYN0], written)
  {
    assert [SYN0][1..] == [];
  }

  lemma WriteIsWhole(me: End, peer: End, payload: Payload, cap: Capacity)
    requires Whole(me, peer, cap) && |me.written| < cap && Fits(payload)
    ensures var o := OnWrite(me.ep, payload, cap);
            && o.sent == [Frame(Usr, |me.written|, payload)] && o.accepted == [] && !o.underrun
            && o.ep == me.ep.(txSeq := Wrap(|me.written| + 1), history := me.written + [payload])
  {
    WrapSmall(|me.written|);
    WrapWrap(|me.written|, 1);
    hide Wrap;
  }

  lemma LeftWrites(net: Net, payload: Payload, cap: Capacity)
    requires EarlyOk(net, cap) && EarlyAllowed(net, Send(Left, payload), cap)
    ensures EarlyOk(Do(net, Send(Left, payload), cap), cap)
  {
    var left, right := net.left, net.right;
    WriteIsWhole(left, right, payload, cap);
    if right.ep.conn == Connected {
      InOrderWrite(right.inbox, |right.accepted|, left.written, payload, SYN2);
    } else {
      WaitsWrite(right.inbox, left.written, payload);
    }
    hide Wrap, InOrder, Waits, OnWrite;
    assert left.accepted + [] == left.accepted;
  }

  lemma RightWrites(net: Net, payload: Payload, cap: Capacity)
    requires EarlyOk(net, cap) && EarlyAllowed(net, Send(Right, payload), cap)
    ensures EarlyOk(Do(net, Send(Right, payload), cap), cap)
  {
    var left, right := net.left, net.right;
    WriteIsWhole(right, left, payload, cap);
    InOrderWrite(left.inbox, |left.accepted|, right.written, payload, SYN1);
    hide Wrap, InOrder, Waits, OnWrite;
    assert right.accepted + [] == right.accepted;
  }

  lemma StepIsEarly(net: Net, action: Action, cap: Capacity)
    requires EarlyOk(net, cap) && Possible(net, action) && EarlyAllowed(net, action, cap)
    ensures EarlyOk(Do(net, action, cap), cap)
  {
    hide EarlyOk, Do;
    match action
    case Deliver(side) => if side == Left { LeftTakes(net, cap); } else { RightTakes(net, cap); }
    case Join(_) => Joins(net, cap);
    case Send(side, payload) =>
      if side == Left { LeftWrites(net, payload, cap); } else { RightWrites(net, payload, cap); }
    case _ =>
  }

  // ----- Runs -----

  ghost predicate EarlyRun(states: seq<Net>, actions: seq<Action>, cap: Capacity) {
    IsRun(states, actions, cap, (net, action) => EarlyAllowed(net, action, cap))
  }

  lemma {:induction false} RunIsEarly(states: seq<Net>, actions: seq<Action>, n: nat, cap: Capacity)
    requires EarlyRun(states, actions, cap) && n <= |actions| && EarlyOk(states[0], cap)
    ensures EarlyOk(states[n], cap)
  {
    hide EarlyOk, Do, EarlyAllowed, Possible;
    if n > 0 {
      RunIsEarly(states, actions, n - 1, cap);
      assert Possible(states[n - 1], actions[n - 1]) && EarlyAllowed(states[n - 1], actions[n - 1], cap);
      assert states[n] == Do(states[n - 1], actions[n - 1], cap);
      StepIsEarly(states[n - 1], actions[n - 1], cap);
    }
  }

  /** Nothing written early is lost. In every state of every such run no DIS has been sent, no
      history has run short, and what is accepted is a prefix of what was written; and whenever
      the link is quiet after somebody connected, both ends are connected and everything written
      has been accepted. */
  lemma EarlyWritesArrive(states: seq<Net>, actions: seq<Action>, n: nat, cap: Capacity)
    requires EarlyRun(states, actions, cap) && n <= |actions| && states[0] == FRESH_NET
    ensures var left, right := states[n].left, states[n].right;
            && !left.sentDis && !right.sentDis && !left.underrun && !right.underrun
            && right.accepted <= left.written && left.accepted <= right.written
            && (Quiet(states[n]) && left.ep.conn != Disconnected ==>
                  && left.ep.conn == Connected && right.ep.conn == Connected
                  && right.accepted == left.written && left.accepted == right.written)
  {
    FreshIsEarly(cap);
    RunIsEarly(states, actions, n, cap);
    QuietIsComplete(states[n], cap);
    hide EarlyRun;
  }

  lemma FreshIsEarly(cap: Capacity)
    ensures EarlyOk(FRESH_NET, cap)
  {
    WrapSmall(0);
  }

  lemma QuietIsComplete(net: Net, cap: Capacity)
    requires EarlyOk(net, cap)
    ensures Quiet(net) && net.left.ep.conn != Disconnected ==>
              && net.left.ep.conn == Connected && net.right.ep.conn == Connected
              && net.right.accepted == net.left.written && net.left.accepted == net.right.written
  {
    hide Wrap;
  }

  // ----- Draining ends -----

  lemma AllWeighs(written: seq<Payload>, cap: Capacity)
    ensures InboxWeight(FromTheFirst(written), cap) == |written|
    ensures InboxWeight([SYN2] + FromTheFirst(written), cap) == cap + 1 + |written|
    ensures Naks(FromTheFirst(written)) == 0
  {
    WeightOfRetransmissions(FromTheFirst(written), cap);
    WeightConcat([SYN2], FromTheFirst(written), cap);
    WeightOne(SYN2, cap);
    NoNaks(FromTheFirst(written));
  }

  lemma {:induction false} NoNaks(frames: seq<Frame>)
    requires forall i :: 0 <= i < |frames| ==> frames[i].kind != Nak
    ensures Naks(frames) == 0
  {
    if frames != [] {
      NoNaks(frames[1..]);
    }
  }

  lemma RightLightens(net: Net, cap: Capacity)
    requires EarlyOk(net, cap) && net.right.inbox != []
    ensures var o := OnArrival(net.right.ep, net.right.inbox[0]);
            Potential(RightTook(net, o), cap) < Potential(net, cap)
  {
    hide OnArrival, Live, Naks, Extra, InboxWeight, Wrap, InOrder, Waits, FromTheFirst, Fitting, Whole;
    var left, right, frame := net.left, net.right, net.right.inbox[0];
    var o := OnArrival(right.ep, frame);
    Heads(right.inbox, cap);
    InOrderHead(right.inbox, |right.accepted|, left.written, SYN2);
    WeightConcat(left.inbox, o.sent, cap);
    NaksAppend(left.inbox, o.sent);
    LogFits(right, left, cap);
    AllWeighs(right.written, cap);
    NothingWeighs(cap);
    if frame == SYN2 {
      TakesSyn(right, left, SYN2, cap);
      assert [] + FromTheFirst(right.written) == FromTheFirst(right.written);
    } else if right.ep.conn == Connected {
      ReaderFacts(right, left, cap);
      TakesData(right, left, SYN2, cap);
    } else {
      WaitsTail(right.inbox, left.written);
      AnswersEarly(right, left, frame, cap);
      OneSyn1(cap);
      OneLess(Live(right.inbox[1..]), Naks(left.inbox), cap);
    }
  }

  lemma NothingWeighs(cap: Capacity)
    ensures InboxWeight([], cap) == 0 && Naks([]) == 0
  {}

  lemma ReaderFacts(me: End, peer: End, cap: Capacity)
    requires Whole(me, peer, cap) && Whole(peer, me, cap)
    ensures |peer.written| <= cap && Fitting(peer.written)
  {}

  lemma LeftLightens(net: Net, cap: Capacity)
    requires EarlyOk(net, cap) && net.left.inbox != []
    ensures var o := OnArrival(net.left.ep, net.left.inbox[0]);
            Potential(LeftTook(net, o), cap) < Potential(net, cap)
  {
    hide OnArrival, Live, Naks, Extra, InboxWeight, Wrap, InOrder, Waits, FromTheFirst, Fitting, Whole;
    var left, right, frame := net.left, net.right, net.left.inbox[0];
    var o := OnArrival(left.ep, frame);
    Heads(left.inbox, cap);
    LeftIsReady(net);
    InOrderHead(left.inbox, |left.accepted|, right.written, SYN1);
    WeightConcat(right.inbox, o.sent, cap);
    LiveAppend(right.inbox, o.sent);
    LogFits(left, right, cap);
    AllWeighs(left.written, cap);
    NothingWeighs(cap);
    if frame == SYN1 {
      TakesSyn(left, right, SYN1, cap);
    } else {
      ReaderFacts(left, right, cap);
      TakesData(left, right, SYN1, cap);
      assert right.inbox + [] == right.inbox;
    }
  }

  lemma DeliveryLightens(net: Net, action: Action, cap: Capacity)
    requires EarlyOk(net, cap) && action.Deliver? && Possible(net, action)
    ensures Potential(Do(net, action, cap), cap) < Potential(net, cap)
  {
    DeliverySplits(net, Left, action, cap);
    if action.side == Left {
      LeftLightens(net, cap);
      assert Do(net, action, cap) == LeftTook(net, OnArrival(net.left.ep, net.left.inbox[0]));
    } else {
      RightLightens(net, cap);
      assert Do(net, action, cap) == RightTook(net, OnArrival(net.right.ep, net.right.inbox[0]));
    }
    hide OnArrival, EarlyOk, Potential;
  }

  lemma DrainIsEarly(states: seq<Net>, actions: seq<Action>, cap: Capacity)
    requires Drain(states, actions, cap)
    ensures EarlyRun(states, actions, cap)
  {
    hide Do, Possible;
  }

  /** From any point of such a run, lossless delivery ends: no drain is longer than the potential,
      and when it leaves the link quiet everything has arrived. */
  lemma {:induction false} EarlyDrainEnds(states: seq<Net>, actions: seq<Action>, n: nat, cap: Capacity)
    requires Drain(states, actions, cap) && n <= |actions| && EarlyOk(states[0], cap)
    ensures Potential(states[n], cap) + n <= Potential(states[0], cap)
    ensures EarlyOk(states[n], cap)
  {
    hide EarlyOk, Do, Possible, Potential, EarlyRun;
    if n > 0 {
      EarlyDrainEnds(states, actions, n - 1, cap);
      assert Possible(states[n - 1], actions[n - 1]) && actions[n - 1].Deliver?;
      assert states[n] == Do(states[n - 1], actions[n - 1], cap);
      DeliveryLightens(states[n - 1], actions[n - 1], cap);
      DrainIsEarly(states, actions, cap);
      RunIsEarly(states, actions, n, cap);
    }
  }

  // ----- A lost answer -----

  /** SYN1 was lost: the left end still waits for it, with packets written, and nothing is in
      flight. */
  ghost predicate AnswerLost(net: Net, cap: Capacity) {
    && Quiet(net) && Whole(net.left, net.right, cap) && Whole(net.right, net.left, cap)
    && net.left.ep.conn == SentSyn0 && net.right.ep.conn == SentSyn1
    && net.left.accepted == [] && net.right.accepted == [] && net.right.written == []
  }

  /** One more packet brings the answer again, and with it everything: when the link is quiet,
      both ends are connected, and all that was written has been accepted. */
  lemma PacketBringsAnswer(net: Net, payload: Payload, states: seq<Net>, actions: seq<Action>,
                           cap: Capacity)
    requires AnswerLost(net, cap) && |net.left.written| < cap && Fits(payload)
    requires Drain(states, actions, cap) && states[0] == Do(net, Send(Left, payload), cap)
    requires actions != []
    ensures |actions| <= 1 + Potential(states[1], cap)
    ensures Quiet(states[|actions|]) ==>
              && states[|actions|].left.ep.conn == Connected
              && states[|actions|].right.ep.conn == Connected
              && states[|actions|].right.accepted == net.left.written + [payload]
  {
    assert Possible(states[0], actions[0]) && actions[0].Deliver?;
    assert states[1] == Do(states[0], actions[0], cap);
    FirstIsAnswered(net, payload, actions[0], cap);
    var rest, more := states[1..], actions[1..];
    DrainRest(states, actions, cap);
    DrainIsEarly(rest, more, cap);
    EarlyDrainEnds(rest, more, |more|, cap);
    QuietIsComplete(rest[|more|], cap);
    DrainWrites(rest, more, |more|, Left, cap);
    EarlyStays(rest, more, cap);
    hide Drain, Do, EarlyOk, Potential, AnswerLost;
  }

  lemma DrainRest(states: seq<Net>, actions: seq<Action>, cap: Capacity)
    requires Drain(states, actions, cap) && actions != []
    ensures Drain(states[1..], actions[1..], cap)
  {
    hide Do, Possible;
  }

  /** The net when the packet has reached the right end and been answered. */
  function Answered(net: Net, payload: Payload): Net {
    var left, right := net.left, net.right;
    var n := |left.written|;
    Net(left.(ep := Endpoint(SentSyn0, 0, Wrap(n + 1), left.written + [payload]),
              written := left.written + [payload], inbox := [SYN1]),
        right.(inbox := []))
  }

  lemma AnsweredIsEarly(net: Net, payload: Payload, cap: Capacity)
    requires AnswerLost(net, cap) && |net.left.written| < cap && Fits(payload)
    ensures EarlyOk(Answered(net, payload), cap)
  {
    WrapSmall(0);
    OneSyn([], SYN1);
    hide Wrap;
  }

  lemma FirstIsAnswered(net: Net, payload: Payload, action: Action, cap: Capacity)
    requires AnswerLost(net, cap) && |net.left.written| < cap && Fits(payload)
    requires var start := Do(net, Send(Left, payload), cap);
             action.Deliver? && Possible(start, action)
    ensures var after := Do(Do(net, Send(Left, payload), cap), action, cap);
            && EarlyOk(after, cap) && after.left.ep.conn != Disconnected
            && after.left.written == net.left.written + [payload]
  {
    hide Wrap, OnWrite, Do, EarlyOk, OnArrival, Fitting;
    var left, right := net.left, net.right;
    var usr := Frame(Usr, |left.written|, payload);
    var start := Do(net, Send(Left, payload), cap);
    WriteIsWhole(left, right, payload, cap);
    SendSplits(net, Left, payload, cap);
    assert [] + [usr] == [usr] && left.accepted + [] == left.accepted;
    AnswersEarly(right, left, usr, cap);
    DeliverySplits(start, Left, action, cap);
    assert [] + [SYN1] == [SYN1] && right.accepted + [] == right.accepted;
    ZeroIsFirst();
    AnsweredIsEarly(net, payload, cap);
    assert Do(start, action, cap) == Answered(net, payload);
  }

  lemma ZeroIsFirst()
    ensures Wrap(0) == 0
  {}

  /** The left end is never disconnected again. */
  lemma {:induction false} EarlyStays(states: seq<Net>, actions: seq<Action>, cap: Capacity)
    requires EarlyRun(states, actions, cap) && EarlyOk(states[0], cap)
    requires states[0].left.ep.conn != Disconnected
    requires forall i :: 0 <= i < |actions| ==> actions[i].Deliver?
    ensures states[|actions|].left.ep.conn != Disconnected
    decreases |actions|
  {
    if actions != [] {
      var n := |actions| - 1;
      RunIsEarly(states, actions, n, cap);
      EarlyStays(states[..n + 1], actions[..n], cap);
      assert Possible(states[n], actions[n]);
      assert states[n + 1] == Do(states[n], actions[n], cap);
      LeftStays(states[n], actions[n], cap);
    }
  }

  lemma LeftStays(net: Net, action: Action, cap: Capacity)
    requires EarlyOk(net, cap) && action.Deliver? && Possible(net, action)
    requires net.left.ep.conn != Disconnected
    ensures Do(net, action, cap).left.ep.conn != Disconnected
  {
    DeliverySplits(net, Left, action, cap);
    if action.side == Left {
      LeftIsReady(net);
      InOrderHead(net.left.inbox, |net.left.accepted|, net.right.written, SYN1);
      if net.left.inbox[0] == SYN1 {
        TakesSyn(net.left, net.right, SYN1, cap);
      } else {
        TakesData(net.left, net.right, SYN1, cap);
      }
    }
    hide OnArrival, Do, Wrap, InOrder;
  }
}
