/**
 Two endpoints joined by two first-in first-out channels of frames. A state holds only what the
 two programs and the link hold, together with logs of what each application wrote and was given.
 */
module Network {
  import opened Framing
  import opened Protocol

  /** One end: its endpoint, the frames in flight towards it, the payloads its application wrote
      and accepted, and whether it ever ran into an underrun or sent DIS. */
  datatype End = End(
    ep: Endpoint, inbox: seq<Frame>, written: seq<Payload>, accepted: seq<Payload>,
    underrun: bool, sentDis: bool)

  datatype Net = Net(left: End, right: End)

  datatype Side = Left | Right

  const FRESH_END: End := End(FRESH_ENDPOINT, [], [], [], false, false)
  const FRESH_NET: Net := Net(FRESH_END, FRESH_END)

  function Me(net: Net, side: Side): End { if side == Left then net.left else net.right }

  function Peer(net: Net, side: Side): End { if side == Left then net.right else net.left }

  function Both(side: Side, me: End, peer: End): Net {
    if side == Left then Net(me, peer) else Net(peer, me)
  }

  function Acted(me: End, o: Outcome): End {
    me.(ep := o.ep, accepted := me.accepted + o.accepted,
        underrun := me.underrun || o.underrun, sentDis := me.sentDis || DIS in o.sent)
  }

  /** An endpoint reacts, and what it sends joins the frames in flight. */
  function React(net: Net, side: Side, me: End, o: Outcome): Net {
    var peer := Peer(net, side);
    Both(side, Acted(me, o), peer.(inbox := peer.inbox + o.sent))
  }

  datatype Action =
    | Deliver(side: Side)
    | Drop(side: Side, at: nat)             // the link loses a frame
    | Noise(side: Side)                     // the link delivers garbage that looks like a frame
    | Send(side: Side, payload: Payload)
    | Join(side: Side)                      // the application calls sfpConnect

  predicate Possible(net: Net, action: Action) {
    match action
    case Deliver(side) => Me(net, side).inbox != []
    case Drop(side, at) => at < |Me(net, side).inbox|
    case Send(side, payload) => |payload| <= MAX_PACKET
    case _ => true
  }

  function Do(net: Net, action: Action, cap: Capacity): Net
    requires Possible(net, action)
  {
    var me := Me(net, action.side);
    match action
    case Deliver(side) =>
      React(net, side, me.(inbox := me.inbox[1..]), OnArrival(me.ep, me.inbox[0]))
    case Drop(side, at) =>
      Both(side, me.(inbox := me.inbox[..at] + me.inbox[at + 1..]), Peer(net, side))
    case Noise(side) => React(net, side, me, OnGarbled(me.ep))
    case Send(side, payload) =>
      React(net, side, me.(written := me.written + [payload]), OnWrite(me.ep, payload, cap))
    case Join(side) => React(net, side, me, OnConnect(me.ep))
  }

  /** A run: each action is possible and allowed in the state it is taken in. */
  ghost predicate IsRun(states: seq<Net>, actions: seq<Action>, cap: Capacity,
                        allowed: (Net, Action) -> bool)
  {
    && |states| == |actions| + 1
    && forall i :: 0 <= i < |actions| ==>
         Possible(states[i], actions[i]) && allowed(states[i], actions[i])
         && states[i + 1] == Do(states[i], actions[i], cap)
  }

  /** What passes through the receiver's packet buffer, which also holds the check octets. */
  predicate Fits(payload: Payload) { |payload| <= MAX_PACKET - 2 }

  ghost predicate Fitting(payloads: seq<Payload>) {
    forall i :: 0 <= i < |payloads| ==> Fits(payloads[i])
  }

  lemma ReactionFits(ep: Endpoint, frame: Frame)
    ensures Fitting(OnArrival(ep, frame).accepted)
  {
    hide Wrap, FastForward, Retransmissions;
  }

  lemma ActionFits(net: Net, action: Action, cap: Capacity)
    requires Possible(net, action) && Fitting(net.left.accepted) && Fitting(net.right.accepted)
    ensures Fitting(Do(net, action, cap).left.accepted) && Fitting(Do(net, action, cap).right.accepted)
  {
    if action.Deliver? {
      ReactionFits(Me(net, action.side).ep, Me(net, action.side).inbox[0]);
    }
    hide OnArrival;
  }

  /** Whatever happens, nothing longer is ever accepted. */
  lemma {:induction false} AcceptedFit(states: seq<Net>, actions: seq<Action>, n: nat, cap: Capacity,
                                       allowed: (Net, Action) -> bool)
    requires IsRun(states, actions, cap, allowed) && n <= |actions|
    requires Fitting(states[0].left.accepted) && Fitting(states[0].right.accepted)
    ensures Fitting(states[n].left.accepted) && Fitting(states[n].right.accepted)
  {
    hide Do, Fitting, Possible;
    if n > 0 {
      AcceptedFit(states, actions, n - 1, cap, allowed);
      assert Possible(states[n - 1], actions[n - 1]);
      assert states[n] == Do(states[n - 1], actions[n - 1], cap);
      ActionFits(states[n - 1], actions[n - 1], cap);
    }
  }

  ghost predicate Writable(payloads: seq<Payload>) {
    forall i :: 0 <= i < |payloads| ==> |payloads[i]| <= MAX_PACKET
  }

  lemma ActionWrites(net: Net, action: Action, cap: Capacity)
    requires Possible(net, action) && Writable(net.left.written) && Writable(net.right.written)
    ensures Writable(Do(net, action, cap).left.written) && Writable(Do(net, action, cap).right.written)
  {
    hide OnArrival;
  }

  /** What is written is what can be written. */
  lemma {:induction false} WrittenPackets(states: seq<Net>, actions: seq<Action>, n: nat, cap: Capacity,
                                          allowed: (Net, Action) -> bool)
    requires IsRun(states, actions, cap, allowed) && n <= |actions|
    requires Writable(states[0].left.written) && Writable(states[0].right.written)
    ensures Writable(states[n].left.written) && Writable(states[n].right.written)
  {
    hide Do, Writable, Possible;
    if n > 0 {
      WrittenPackets(states, actions, n - 1, cap, allowed);
      assert Possible(states[n - 1], actions[n - 1]);
      assert states[n] == Do(states[n - 1], actions[n - 1], cap);
      ActionWrites(states[n - 1], actions[n - 1], cap);
    }
  }
}
