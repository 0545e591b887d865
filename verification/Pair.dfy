/**
 Two contexts and the octets between them behave as the network of frames: every action of the
 network is carried out by the classes, octet by octet, with the same effect. So the theorems
 about the network are theorems about the classes.
 */
module Pair {
  import opened Crc
  import opened Framing
  import opened Protocol
  import opened Context
  import opened Link
  import opened Network
  import opened Safety

  /** Noise: a frame too short to have a check. */
  const NOISE: seq<Octet> := [0, FLAG]

  ghost predicate ShortFrames(frames: seq<Frame>) {
    forall i :: 0 <= i < |frames| ==> |frames[i].payload| <= MAX_PACKET
  }

  ghost predicate ShortHistory(history: seq<Payload>) {
    forall i :: 0 <= i < |history| ==> |history[i]| <= MAX_PACKET
  }

  /** Every payload in flight and in the history went through WritePacket. */
  ghost predicate Short(end: End) { ShortFrames(end.inbox) && ShortHistory(end.ep.history) }

  ghost predicate ShortOutcome(o: Outcome) { ShortFrames(o.sent) && ShortHistory(o.ep.history) }

  lemma ReactionIsShort(ep: Endpoint, frame: Frame)
    requires ShortHistory(ep.history)
    ensures ShortOutcome(OnArrival(ep, frame))
  {
    hide Wrap, TransmitHistoryFrom, ShortFrames, ShortHistory, OnSyn1, OnSyn2, OnNak;
    ControlIsShort(ep, DIS);
    ControlIsShort(ep, SYN0);
    ControlIsShort(ep, SYN1);
    ControlIsShort(ep, Frame(Nak, ep.rxSeq, []));
    ResendsShort(ep, frame.num);
    SynIsShort(ep);
  }

  lemma ControlIsShort(ep: Endpoint, frame: Frame)
    requires frame.payload == []
    ensures ShortFrames([frame]) && ShortFrames([]) && ShortHistory([])
  {}

  lemma SynIsShort(ep: Endpoint)
    requires ShortHistory(ep.history)
    ensures ShortOutcome(OnSyn1(ep)) && ShortOutcome(OnSyn2(ep))
    ensures forall s :: ShortOutcome(OnNak(ep, s))
  {
    hide Wrap, TransmitHistoryFrom;
    ResendsShort(ep, 0);
    forall s ensures ShortOutcome(OnNak(ep, s)) { ResendsShort(ep, s); }
  }

  lemma ResendsShort(ep: Endpoint, s: SeqNum)
    requires ShortHistory(ep.history)
    ensures ShortOutcome(TransmitHistoryFrom(ep, s))
  {
    hide Wrap, FastForward;
  }

  // ----- Frames among octets -----

  lemma EncodeFirst(frames: seq<Frame>)
    requires frames != []
    ensures EncodeAll(frames) == EncodeFrame(frames[0]) + EncodeAll(frames[1..])
  {
    hide EncodeFrame;
    assert frames == [frames[0]] + frames[1..];
    EncodeConcat([frames[0]], frames[1..]);
    EncodeOne(frames[0]);
  }

  /** Where a frame ends is seen from the delimiters alone. */
  method FrameLength(octets: seq<Octet>, ghost frame: Frame) returns (n: nat)
    requires EncodeFrame(frame) <= octets
    ensures n == |EncodeFrame(frame)|
  {
    ghost var head := HeaderOf(frame.kind, frame.num);
    ghost var stuffed := StuffAll(Body(head, frame.payload));
    StuffHidesFlag(Body(head, frame.payload));
    assert EncodeFrame(frame) == [FLAG] + stuffed + [FLAG];
    hide HeaderOf, StuffAll, Body, EncodeFrame;
    assert octets[|stuffed| + 1] == FLAG;
    assert forall i :: 0 <= i < |stuffed| ==> octets[i + 1] == stuffed[i];
    n := 1;
    while octets[n] != FLAG
      invariant 1 <= n <= |stuffed| + 1
      decreases |stuffed| + 1 - n
    {
      n := n + 1;
    }
    n := n + 1;
  }

  method FramesLength(octets: seq<Octet>, count: nat, ghost frames: seq<Frame>) returns (n: nat)
    requires octets == EncodeAll(frames) && count <= |frames|
    ensures n == |EncodeAll(frames[..count])| && n <= |octets|
    ensures octets[n..] == EncodeAll(frames[count..])
    ensures octets[..n] == EncodeAll(frames[..count])
  {
    hide EncodeFrame, EncodeAll;
    NoFrames(frames);
    n := 0;
    var i := 0;
    while i < count
      invariant 0 <= i <= count && n <= |octets|
      invariant octets[..n] == EncodeAll(frames[..i]) && octets[n..] == EncodeAll(frames[i..])
    {
      EncodeFirst(frames[i..]);
      EncodeNext(frames, i);
      ghost var rest := octets[n..];
      var length := FrameLength(octets[n..], frames[i]);
      assert rest[..length] == EncodeFrame(frames[i]) && rest[length..] == EncodeAll(frames[i + 1..]);
      assert octets[n + length..] == rest[length..];
      assert octets[..n + length] == octets[..n] + rest[..length];
      n := n + length;
      i := i + 1;
    }
  }

  lemma NoFrames(frames: seq<Frame>)
    ensures EncodeAll(frames[..0]) == [] && EncodeAll(frames[0..]) == EncodeAll(frames)
  {
    assert frames[0..] == frames;
  }

  lemma EncodeNext(frames: seq<Frame>, i: nat)
    requires i < |frames|
    ensures EncodeAll(frames[..i + 1]) == EncodeAll(frames[..i]) + EncodeFrame(frames[i])
    ensures frames[i..][1..] == frames[i + 1..]
  {
    hide EncodeFrame;
    assert frames[..i + 1][..i] == frames[..i];
  }

  lemma NoiseIsBad(rx: Receiver)
    requires Fresh(rx)
    ensures Feed(rx, NOISE).events == [Bad] && Fresh(Feed(rx, NOISE).rx)
  {
    assert NOISE == [0] + [FLAG] && [0] == [] + [0];
    FeedSnoc(rx, [], 0);
    FeedSnoc(rx, [0], FLAG);
    ResetIsFresh(Feed(rx, [0]).rx);
    hide Update;
  }

  // ----- One context -----

  /** The context and the octets in flight to it are the end and its inbox. */
  ghost predicate Shows(ctx: SfpContext, inFlight: seq<Octet>, end: End, cap: Capacity)
    reads ctx, ctx.packet
  {
    && ctx.Valid() && !ctx.locked && ctx.hasDeliver && ctx.cap == cap
    && Fresh(ctx.Rx()) && ctx.Ep() == end.ep && ctx.delivered == end.accepted
    && inFlight == EncodeAll(end.inbox) && Short(end)
  }

  /** Delivering octets; `written` is what the context writes meanwhile. */
  method Take(ctx: SfpContext, octets: seq<Octet>) returns (written: seq<Octet>)
    requires ctx.Valid() && !ctx.locked
    modifies ctx, ctx.packet, ctx.writebuf
    ensures var effect := FeedOctets(State(old(ctx.Rx()), old(ctx.Ep())), octets);
            && ctx.Valid() && !ctx.locked
            && ctx.Rx() == effect.state.rx && ctx.Ep() == effect.state.ep
            && written == EncodeAll(effect.sent)
            && ctx.delivered == old(ctx.delivered) + (if ctx.hasDeliver then effect.accepted else [])
    ensures ctx.hasDeliver == old(ctx.hasDeliver)
  {
    hide FeedOctets, EncodeAll;
    var n := |ctx.wire|;
    DeliverAll(ctx, octets);
    written := ctx.wire[n..];
  }

  method TakeFrame(ctx: SfpContext, octets: seq<Octet>, ghost frame: Frame, ghost end: End,
                   ghost inFlight: seq<Octet>, cap: Capacity)
    returns (written: seq<Octet>)
    requires Shows(ctx, inFlight, end, cap)
    requires octets == EncodeFrame(frame) && |frame.payload| <= MAX_PACKET
    modifies ctx, ctx.packet, ctx.writebuf
    ensures var o := OnArrival(end.ep, frame);
            && written == EncodeAll(o.sent) && ShortFrames(o.sent)
            && Shows(ctx, inFlight, end.(ep := o.ep, accepted := end.accepted + o.accepted), cap)
  {
    FrameHasEffect(State(ctx.Rx(), ctx.Ep()), frame);
    ReactionIsShort(end.ep, frame);
    hide FeedOctets, EncodeAll, EncodeFrame, Fresh, OnArrival, ShortFrames;
    written := Take(ctx, octets);
  }

  method TakeNoise(ctx: SfpContext, ghost end: End, ghost inFlight: seq<Octet>, cap: Capacity)
    returns (written: seq<Octet>)
    requires Shows(ctx, inFlight, end, cap)
    modifies ctx, ctx.packet, ctx.writebuf
    ensures written == EncodeAll(OnGarbled(end.ep).sent)
    ensures Shows(ctx, inFlight, end, cap)
  {
    var start := State(ctx.Rx(), ctx.Ep());
    NoiseIsBad(ctx.Rx());
    FeedSplits(start, NOISE);
    OneEvent(ctx.Ep(), Bad);
    assert end.accepted + [] == end.accepted;
    hide FeedOctets, EncodeAll, Fresh, Feed, OnEvents;
    written := Take(ctx, NOISE);
  }

  method Write(ctx: SfpContext, payload: Payload, ghost end: End, ghost inFlight: seq<Octet>,
               cap: Capacity)
    returns (written: seq<Octet>)
    requires Shows(ctx, inFlight, end, cap) && |payload| <= MAX_PACKET
    modifies ctx, ctx.writebuf
    ensures var o := OnWrite(end.ep, payload, cap);
            && written == EncodeAll(o.sent) && ShortFrames(o.sent)
            && Shows(ctx, inFlight, end.(ep := o.ep), cap)
  {
    hide EncodeAll, EncodeFrame, Fresh, Wrap;
    var n := |ctx.wire|;
    var _ := ctx.WritePacket(payload);
    written := ctx.wire[n..];
  }

  method Connect(ctx: SfpContext, ghost end: End, ghost inFlight: seq<Octet>, cap: Capacity)
    returns (written: seq<Octet>)
    requires Shows(ctx, inFlight, end, cap)
    modifies ctx, ctx.writebuf
    ensures written == EncodeAll(OnConnect(end.ep).sent)
    ensures Shows(ctx, inFlight, end.(ep := OnConnect(end.ep).ep), cap)
  {
    ResetIsFresh(ctx.Rx());
    hide EncodeAll, Fresh;
    var n := |ctx.wire|;
    ctx.Connect();
    written := ctx.wire[n..];
  }

  // ----- One action -----

  /** What an action makes of the end it concerns, `me`, and of the frames towards its peer. */
  ghost predicate Became(me: End, me': End, inbox: seq<Frame>, o: Outcome) {
    me'.ep == o.ep && me'.inbox == inbox && me'.accepted == me.accepted + o.accepted
  }

  ghost predicate Received(peer: End, peer': End, sent: seq<Frame>) {
    && peer'.ep == peer.ep && peer'.accepted == peer.accepted
    && peer'.inbox == peer.inbox + sent
  }

  lemma ActionSplits(net: Net, action: Action, cap: Capacity)
    requires Possible(net, action)
    ensures var me, net' := Me(net, action.side), Do(net, action, cap);
            var me', peer' := Me(net', action.side), Peer(net', action.side);
            match action
            case Deliver(side) =>
              var o := OnArrival(me.ep, me.inbox[0]);
              Became(me, me', me.inbox[1..], o) && Received(Peer(net, side), peer', o.sent)
            case Drop(side, at) =>
              && Became(me, me', me.inbox[..at] + me.inbox[at + 1..], Silent(me.ep))
              && Received(Peer(net, side), peer', [])
            case Noise(side) =>
              Became(me, me', me.inbox, OnGarbled(me.ep))
              && Received(Peer(net, side), peer', OnGarbled(me.ep).sent)
            case Send(side, payload) =>
              var o := OnWrite(me.ep, payload, cap);
              Became(me, me', me.inbox, o) && Received(Peer(net, side), peer', o.sent)
            case Join(side) =>
              Became(me, me', me.inbox, OnConnect(me.ep))
              && Received(Peer(net, side), peer', OnConnect(me.ep).sent)
  {
    hide OnArrival, Wrap, PushBack;
    var peer := Peer(net, action.side);
    assert peer.inbox + [] == peer.inbox && Me(net, action.side).accepted + [] == Me(net, action.side).accepted;
  }

  /** The octets in flight towards an end that is not acting. */
  ghost predicate Transit(inFlight: seq<Octet>, end: End) {
    inFlight == EncodeAll(end.inbox) && ShortFrames(end.inbox)
  }

  lemma MoreInFlight(inFlight: seq<Octet>, peer: End, peer': End, sent: seq<Frame>)
    requires Transit(inFlight, peer) && Received(peer, peer', sent) && ShortFrames(sent)
    ensures Transit(inFlight + EncodeAll(sent), peer')
  {
    EncodeConcat(peer.inbox, sent);
    hide EncodeAll;
  }

  lemma SameEnd(ctx: SfpContext, inFlight: seq<Octet>, a: End, b: End, cap: Capacity)
    requires Shows(ctx, inFlight, a, cap)
    requires b.ep == a.ep && b.inbox == a.inbox && b.accepted == a.accepted
    ensures Shows(ctx, inFlight, b, cap)
  {}

  lemma OtherInFlight(ctx: SfpContext, inFlight: seq<Octet>, other: seq<Octet>, end: End,
                      inbox: seq<Frame>, cap: Capacity)
    requires Shows(ctx, inFlight, end, cap) && other == EncodeAll(inbox) && ShortFrames(inbox)
    ensures Shows(ctx, other, end.(inbox := inbox), cap)
  {}

  lemma InTransit(ctx: SfpContext, inFlight: seq<Octet>, end: End, cap: Capacity)
    requires Shows(ctx, inFlight, end, cap)
    ensures Transit(inFlight, end)
  {}

  lemma StillShows(ctx: SfpContext, inFlight: seq<Octet>, other: seq<Octet>, end: End, end': End,
                   cap: Capacity)
    requires Shows(ctx, inFlight, end, cap) && Transit(other, end')
    requires end'.ep == end.ep && end'.accepted == end.accepted
    ensures Shows(ctx, other, end', cap)
  {}

  method DeliverFrame(ctx: SfpContext, toMe: seq<Octet>, toPeer: seq<Octet>, ghost net: Net,
                      side: Side, cap: Capacity)
    returns (toMe': seq<Octet>, toPeer': seq<Octet>)
    requires Shows(ctx, toMe, Me(net, side), cap) && Transit(toPeer, Peer(net, side))
    requires Possible(net, Deliver(side))
    modifies ctx, ctx.packet, ctx.writebuf
    ensures var net' := Do(net, Deliver(side), cap);
            && Shows(ctx, toMe', Me(net', side), cap) && Transit(toPeer', Peer(net', side))
            && Peer(net', side).ep == Peer(net, side).ep
            && Peer(net', side).accepted == Peer(net, side).accepted
  {
    ghost var me := Me(net, side);
    ghost var frame, o := me.inbox[0], OnArrival(me.ep, me.inbox[0]);
    ActionSplits(net, Deliver(side), cap);
    EncodeFirst(me.inbox);
    ShortTail(me.inbox);
    hide OnArrival, Do, EncodeAll, EncodeFrame, ShortFrames;
    var n := FrameLength(toMe, frame);
    var written := TakeFrame(ctx, toMe[..n], frame, me, toMe, cap);
    toMe', toPeer' := toMe[n..], toPeer + written;
    ghost var after := me.(ep := o.ep, accepted := me.accepted + o.accepted);
    OtherInFlight(ctx, toMe, toMe', after, me.inbox[1..], cap);
    ghost var net' := Do(net, Deliver(side), cap);
    SameEnd(ctx, toMe', after.(inbox := me.inbox[1..]), Me(net', side), cap);
    MoreInFlight(toPeer, Peer(net, side), Peer(net', side), o.sent);
  }

  lemma ShortTail(frames: seq<Frame>)
    requires ShortFrames(frames) && frames != []
    ensures ShortFrames(frames[1..]) && |frames[0].payload| <= MAX_PACKET
  {}

  method DropFrame(ctx: SfpContext, toMe: seq<Octet>, toPeer: seq<Octet>, ghost net: Net,
                   side: Side, at: nat, cap: Capacity)
    returns (toMe': seq<Octet>)
    requires Shows(ctx, toMe, Me(net, side), cap) && Transit(toPeer, Peer(net, side))
    requires Possible(net, Drop(side, at))
    ensures var net' := Do(net, Drop(side, at), cap);
            && Shows(ctx, toMe', Me(net', side), cap) && Transit(toPeer, Peer(net', side))
            && Peer(net', side).ep == Peer(net, side).ep
            && Peer(net', side).accepted == Peer(net, side).accepted
  {
    ghost var me := Me(net, side);
    ActionSplits(net, Drop(side, at), cap);
    ghost var rest := me.inbox[..at] + me.inbox[at + 1..];
    assert ShortFrames(rest);
    EncodeConcat(me.inbox[..at], me.inbox[at + 1..]);
    assert Peer(net, side).inbox + [] == Peer(net, side).inbox && me.accepted + [] == me.accepted;
    assert toMe == EncodeAll(me.inbox) by { InTransit(ctx, toMe, me, cap); }
    hide Do, EncodeAll, EncodeFrame, ShortFrames, Shows;
    var from := FramesLength(toMe, at, me.inbox);
    var upto := FramesLength(toMe, at + 1, me.inbox);
    toMe' := toMe[..from] + toMe[upto..];
    OtherInFlight(ctx, toMe, toMe', me, rest, cap);
    SameEnd(ctx, toMe', me.(inbox := rest), Me(Do(net, Drop(side, at), cap), side), cap);
  }

  /** Noise, a write, or a call of sfpConnect: nothing in flight towards the end changes. */
  method ActAtOnce(ctx: SfpContext, toMe: seq<Octet>, toPeer: seq<Octet>, ghost net: Net,
                   action: Action, cap: Capacity)
    returns (toPeer': seq<Octet>)
    requires Shows(ctx, toMe, Me(net, action.side), cap) && Transit(toPeer, Peer(net, action.side))
    requires Possible(net, action) && !action.Deliver? && !action.Drop?
    modifies ctx, ctx.packet, ctx.writebuf
    ensures var net', side := Do(net, action, cap), action.side;
            && Shows(ctx, toMe, Me(net', side), cap) && Transit(toPeer', Peer(net', side))
            && Peer(net', side).ep == Peer(net, side).ep
            && Peer(net', side).accepted == Peer(net, side).accepted
  {
    ghost var side := action.side;
    ghost var me := Me(net, side);
    ghost var sent: seq<Frame> := [];
    ActionSplits(net, action, cap);
    assert me.accepted + [] == me.accepted;
    ControlIsShort(me.ep, Frame(Nak, me.ep.rxSeq, []));
    ControlIsShort(me.ep, SYN0);
    hide Do, EncodeAll, ShortFrames, OnWrite;
    var written;
    match action {
      case Noise(_) =>
        written := TakeNoise(ctx, me, toMe, cap);
        sent := OnGarbled(me.ep).sent;
      case Send(_, payload) =>
        OnlySends(me.ep, payload, cap);
        written := Write(ctx, payload, me, toMe, cap);
        sent := OnWrite(me.ep, payload, cap).sent;
      case Join(_) =>
        written := Connect(ctx, me, toMe, cap);
        sent := OnConnect(me.ep).sent;
    }
    toPeer' := toPeer + written;
    ghost var net' := Do(net, action, cap);
    SameEnd(ctx, toMe, me.(ep := Me(net', side).ep), Me(net', side), cap);
    MoreInFlight(toPeer, Peer(net, side), Peer(net', side), sent);
  }

  lemma OnlySends(ep: Endpoint, payload: Payload, cap: Capacity)
    ensures OnWrite(ep, payload, cap).accepted == []
  {}

  // ----- Two contexts -----

  /** What `side` is given to write in a run. */
  function WrittenIn(actions: seq<Action>, side: Side): seq<Payload> {
    if actions == [] then []
    else
      var last := actions[|actions| - 1];
      WrittenIn(actions[..|actions| - 1], side)
      + if last.Send? && last.side == side then [last.payload] else []
  }

  lemma {:induction false} WrittenByRun(states: seq<Net>, actions: seq<Action>, n: nat, side: Side,
                                        cap: Capacity, allowed: (Net, Action) -> bool)
    requires IsRun(states, actions, cap, allowed) && n <= |actions|
    requires Me(states[0], side).written == []
    ensures Me(states[n], side).written == WrittenIn(actions[..n], side)
  {
    if n > 0 {
      WrittenByRun(states, actions, n - 1, side, cap, allowed);
      assert actions[..n][..n - 1] == actions[..n - 1];
      assert Possible(states[n - 1], actions[n - 1]);
      assert states[n] == Do(states[n - 1], actions[n - 1], cap);
      hide OnArrival, OnWrite, IsRun;
    }
  }

  class TwoContexts {
    const left: SfpContext
    const right: SfpContext
    var toLeft: seq<Octet>
    var toRight: seq<Octet>

    ghost predicate Apart()
    {
      && left != right
      && left.packet != right.packet && left.packet != right.writebuf
      && left.writebuf != right.packet && left.writebuf != right.writebuf
    }

    /** The contexts and the octets in flight are the net. */
    ghost predicate Are(net: Net, cap: Capacity)
      reads this, left, left.packet, right, right.packet
    {
      && Apart()
      && Shows(left, toLeft, net.left, cap) && Shows(right, toRight, net.right, cap)
    }

    constructor (cap: Capacity, bufferSize: nat)
      requires 0 < bufferSize
      ensures Are(FRESH_NET, cap)
      ensures fresh(left) && fresh(left.packet) && fresh(left.writebuf)
      ensures fresh(right) && fresh(right.packet) && fresh(right.writebuf)
    {
      left := new SfpContext(cap, bufferSize, true);
      right := new SfpContext(cap, bufferSize, true);
      toLeft, toRight := [], [];
    }

    /** Any action of the network, carried out on the octets. */
    method Perform(action: Action, ghost net: Net, cap: Capacity)
      requires Are(net, cap) && Possible(net, action)
      modifies this, left, left.packet, left.writebuf, right, right.packet, right.writebuf
      ensures Are(Do(net, action, cap), cap)
    {
      hide Do, Shows, Transit;
      ghost var net' := Do(net, action, cap);
      if action.side == Left {
        InTransit(right, toRight, net.right, cap);
        toLeft, toRight := PerformAt(left, toLeft, toRight, net, action, cap);
        StillShows(right, old(toRight), toRight, net.right, net'.right, cap);
      } else {
        InTransit(left, toLeft, net.left, cap);
        toRight, toLeft := PerformAt(right, toRight, toLeft, net, action, cap);
        StillShows(left, old(toLeft), toLeft, net.left, net'.left, cap);
      }
    }

    static method PerformAt(ctx: SfpContext, toMe: seq<Octet>, toPeer: seq<Octet>, ghost net: Net,
                            action: Action, cap: Capacity)
      returns (toMe': seq<Octet>, toPeer': seq<Octet>)
      requires Shows(ctx, toMe, Me(net, action.side), cap)
      requires Transit(toPeer, Peer(net, action.side)) && Possible(net, action)
      modifies ctx, ctx.packet, ctx.writebuf
      ensures var net', side := Do(net, action, cap), action.side;
              && Shows(ctx, toMe', Me(net', side), cap) && Transit(toPeer', Peer(net', side))
              && Peer(net', side).ep == Peer(net, side).ep
              && Peer(net', side).accepted == Peer(net, side).accepted
    {
      hide Do, Shows, Transit;
      toMe', toPeer' := toMe, toPeer;
      match action {
        case Deliver(side) =>
          toMe', toPeer' := DeliverFrame(ctx, toMe, toPeer, net, side, cap);
        case Drop(side, at) => toMe' := DropFrame(ctx, toMe, toPeer, net, side, at, cap);
        case Noise(_) => toPeer' := ActAtOnce(ctx, toMe, toPeer, net, action, cap);
        case Send(_, _) => toPeer' := ActAtOnce(ctx, toMe, toPeer, net, action, cap);
        case Join(_) => toPeer' := ActAtOnce(ctx, toMe, toPeer, net, action, cap);
      }
    }

    /** Whole runs: the contexts end as the last state of the network's run. */
    method PerformAll(actions: seq<Action>, ghost states: seq<Net>, cap: Capacity,
                      ghost allowed: (Net, Action) -> bool)
      requires IsRun(states, actions, cap, allowed) && Are(states[0], cap)
      modifies this, left, left.packet, left.writebuf, right, right.packet, right.writebuf
      ensures Are(states[|actions|], cap)
    {
      hide Do, Possible, Are;
      var i := 0;
      while i < |actions|
        invariant 0 <= i <= |actions| && Are(states[i], cap)
      {
        Perform(actions[i], states[i], cap);
        i := i + 1;
      }
    }
  }

  /** The end-to-end theorem for the classes: after every safe run of two contexts over a link
      that loses and garbles, what each deliver callback was given is a prefix of what was
      written to the other context. */
  method SafeSession(actions: seq<Action>, ghost states: seq<Net>, cap: Capacity, bufferSize: nat)
    returns (pair: TwoContexts)
    requires 0 < bufferSize && SafeRun(states, actions, cap)
    ensures pair.Are(states[|actions|], cap)
    ensures pair.right.delivered <= WrittenIn(actions, Left)
    ensures pair.left.delivered <= WrittenIn(actions, Right)
  {
    pair := new TwoContexts(cap, bufferSize);
    pair.PerformAll(actions, states, cap, (net, action) => Allowed(net, action, cap));
    EndToEndSafety(states, actions, |actions|, cap);
    WrittenByRun(states, actions, |actions|, Left, cap, (net, action) => Allowed(net, action, cap));
    WrittenByRun(states, actions, |actions|, Right, cap, (net, action) => Allowed(net, action, cap));
    assert actions[..|actions|] == actions;
    hide WrittenIn, EncodeAll;
  }
}
