/**
 Handshake convergence: over lossless channels, with either side calling sfpConnect any number of
 times at any moment and nothing written, no side ever sends DIS, draining the link terminates,
 and a quiet link has both ends connected.
 */
module Handshake {
  import opened Protocol
  import opened Network

  predicate Connecting(net: Net, action: Action) { action.Deliver? || action.Join? }

  predicate IsSyn(frame: Frame) { frame == SYN0 || frame == SYN1 || frame == SYN2 }

  /** One end, facing a peer in state `peer`: it has only handshake frames in its inbox, and
      whatever it waits for is still on its way. `outbox` is the peer's inbox. */
  ghost predicate EndOk(me: End, peer: End) {
    && me.ep == Endpoint(me.ep.conn, 0, 0, []) && !me.sentDis
    && (forall i :: 0 <= i < |me.inbox| ==> IsSyn(me.inbox[i]))
    && (me.ep.conn == Disconnected ==>
          && (forall i :: 0 <= i < |me.inbox| ==> me.inbox[i] == SYN0)
          && (peer.ep.conn != Disconnected ==> me.inbox != [])
          && peer.inbox == [] && peer.ep.conn != SentSyn1 && peer.ep.conn != Connected)
    && (me.ep.conn == SentSyn0 ==> me.inbox != [] || SYN0 in peer.inbox)
    && (me.ep.conn == SentSyn1 ==> me.inbox != [] || SYN1 in peer.inbox)
  }

  ghost predicate HandshakeOk(net: Net) {
    EndOk(net.left, net.right) && EndOk(net.right, net.left)
  }

  /** What a handshake frame provokes. */
  lemma SynReaction(me: End, frame: Frame)
    requires me.ep == Endpoint(me.ep.conn, 0, 0, []) && IsSyn(frame)
    requires me.ep.conn == Disconnected ==> frame == SYN0
    ensures var o := OnArrival(me.ep, frame);
            o.accepted == [] &&
            if frame == SYN0 then o.ep == Endpoint(SentSyn1, 0, 0, []) && o.sent == [SYN1]
            else if frame == SYN1 then o.ep == Endpoint(Connected, 0, 0, []) && o.sent == [SYN2]
            else if me.ep.conn == SentSyn0 then o.ep == me.ep && o.sent == [SYN0]
            else o.ep == Endpoint(Connected, 0, 0, []) && o.sent == []
  {}

  lemma DeliverOk(me: End, peer: End)
    requires EndOk(me, peer) && EndOk(peer, me) && me.inbox != []
    ensures var o := OnArrival(me.ep, me.inbox[0]);
            var me' := Acted(me.(inbox := me.inbox[1..]), o);
            var peer' := peer.(inbox := peer.inbox + o.sent);
            EndOk(me', peer') && EndOk(peer', me')
  {
    var frame := me.inbox[0];
    SynReaction(me, frame);
    hide OnArrival;
    var o := OnArrival(me.ep, frame);
    assert forall f :: f in me.inbox && f != frame ==> f in me.inbox[1..];
    assert frame in o.sent || frame in me.inbox;
  }

  lemma JoinOk(me: End, peer: End)
    requires EndOk(me, peer) && EndOk(peer, me)
    ensures var o := OnConnect(me.ep);
            var me' := Acted(me, o);
            var peer' := peer.(inbox := peer.inbox + o.sent);
            EndOk(me', peer') && EndOk(peer', me')
  {
    var peerInbox := peer.inbox + [SYN0];
    assert peerInbox[|peer.inbox|] == SYN0;
  }

  lemma StepOk(net: Net, action: Action, cap: Capacity)
    requires HandshakeOk(net) && Possible(net, action) && Connecting(net, action)
    ensures HandshakeOk(Do(net, action, cap))
  {
    hide EndOk, OnArrival, OnConnect;
    var me, peer := Me(net, action.side), Peer(net, action.side);
    if action.Deliver? {
      DeliverOk(me, peer);
    } else {
      JoinOk(me, peer);
    }
  }

  // ----- Draining terminates -----

  /** Weight of a frame for a receiver, by whether the receiver and its peer are in SENT_SYN0. */
  function FrameWeight(frame: Frame, mine: bool, peers: bool): nat {
    if mine then (if frame == SYN2 then (if peers then 2 else 3) else 1)
    else if frame == SYN2 then 1
    else if frame == SYN1 then (if peers then 4 else 2)
    else (if peers then 2 else 3)
  }

  function InboxWeight(inbox: seq<Frame>, mine: bool, peers: bool): nat {
    if inbox == [] then 0
    else FrameWeight(inbox[0], mine, peers) + InboxWeight(inbox[1..], mine, peers)
  }

  lemma {:induction false} InboxWeightSnoc(inbox: seq<Frame>, frame: Frame, mine: bool, peers: bool)
    ensures InboxWeight(inbox + [frame], mine, peers)
         == InboxWeight(inbox, mine, peers) + FrameWeight(frame, mine, peers)
  {
    hide FrameWeight;
    if inbox == [] {
      assert inbox + [frame] == [frame] && [frame][1..] == [];
    } else {
      assert (inbox + [frame])[1..] == inbox[1..] + [frame];
      InboxWeightSnoc(inbox[1..], frame, mine, peers);
    }
  }

  lemma {:induction false} InboxWeightBound(inbox: seq<Frame>, mine: bool, peers: bool)
    ensures InboxWeight(inbox, mine, peers) <= 4 * |inbox|
  {
    if inbox != [] {
      InboxWeightBound(inbox[1..], mine, peers);
    }
  }

  function Starting(me: End): bool { me.ep.conn == SentSyn0 }

  function InFlight(me: End, peer: End): nat { |me.inbox| + |peer.inbox| }

  function PairWeight(me: End, peer: End): nat {
    InboxWeight(me.inbox, Starting(me), Starting(peer))
    + InboxWeight(peer.inbox, Starting(peer), Starting(me))
  }

  /** Each endpoint that leaves SENT_SYN0 may make the frames in flight heavier, once. */
  function Weight(me: End, peer: End): nat {
    (if Starting(me) then 5 * InFlight(me, peer) else 0)
    + (if Starting(peer) then 5 * InFlight(me, peer) else 0)
    + PairWeight(me, peer)
  }

  lemma PairWeightBound(me: End, peer: End)
    ensures PairWeight(me, peer) <= 4 * InFlight(me, peer)
  {
    InboxWeightBound(me.inbox, Starting(me), Starting(peer));
    InboxWeightBound(peer.inbox, Starting(peer), Starting(me));
  }

  lemma DeliverLightens(me: End, peer: End)
    requires EndOk(me, peer) && me.inbox != []
    ensures var o := OnArrival(me.ep, me.inbox[0]);
            Weight(Acted(me.(inbox := me.inbox[1..]), o), peer.(inbox := peer.inbox + o.sent))
            < Weight(me, peer)
  {
    var frame := me.inbox[0];
    SynReaction(me, frame);
    var o := OnArrival(me.ep, frame);
    var me' := Acted(me.(inbox := me.inbox[1..]), o);
    var peer' := peer.(inbox := peer.inbox + o.sent);
    hide OnArrival;
    assert peer.inbox + [] == peer.inbox;
    if o.sent != [] {
      InboxWeightSnoc(peer.inbox, o.sent[0], Starting(peer), Starting(me'));
    }
    PairWeightBound(me', peer');
  }

  function NetWeight(net: Net): nat { Weight(net.left, net.right) }

  lemma WeightIsSymmetric(me: End, peer: End)
    ensures Weight(me, peer) == Weight(peer, me)
  {}

  lemma StepLightens(net: Net, action: Action, cap: Capacity)
    requires HandshakeOk(net) && Possible(net, action) && action.Deliver?
    ensures NetWeight(Do(net, action, cap)) < NetWeight(net)
  {
    hide EndOk, OnArrival, Weight;
    var me, peer := Me(net, action.side), Peer(net, action.side);
    DeliverLightens(me, peer);
    var net' := Do(net, action, cap);
    WeightIsSymmetric(me, peer);
    WeightIsSymmetric(Me(net', action.side), Peer(net', action.side));
  }

  // ----- Every run -----

  ghost predicate ConnectingRun(states: seq<Net>, actions: seq<Action>, cap: Capacity) {
    IsRun(states, actions, cap, (net: Net, action: Action) => Connecting(net, action))
  }

  predicate SomeoneJoined(net: Net) {
    net.left.ep.conn != Disconnected || net.right.ep.conn != Disconnected
  }

  lemma JoinedStays(net: Net, action: Action, cap: Capacity)
    requires HandshakeOk(net) && Possible(net, action) && Connecting(net, action)
    requires SomeoneJoined(net) || action.Join?
    ensures SomeoneJoined(Do(net, action, cap))
  {
    var me := Me(net, action.side);
    if action.Deliver? {
      SynReaction(me, me.inbox[0]);
      hide OnArrival;
    }
  }

  lemma {:induction false} RunOk(states: seq<Net>, actions: seq<Action>, n: nat, cap: Capacity)
    requires ConnectingRun(states, actions, cap) && n <= |actions|
    requires HandshakeOk(states[0])
    ensures HandshakeOk(states[n])
    ensures SomeoneJoined(states[0]) || (exists i :: 0 <= i < n && actions[i].Join?)
            ==> SomeoneJoined(states[n])
  {
    hide HandshakeOk, Do, SomeoneJoined, Possible;
    if n > 0 {
      RunOk(states, actions, n - 1, cap);
      assert Possible(states[n - 1], actions[n - 1]) && Connecting(states[n - 1], actions[n - 1]);
      StepOk(states[n - 1], actions[n - 1], cap);
      if SomeoneJoined(states[n - 1]) || actions[n - 1].Join? {
        JoinedStays(states[n - 1], actions[n - 1], cap);
      }
    }
  }

  /** Once anybody has called sfpConnect, a quiet link has both ends connected; and DIS is never
      sent, quiet or not. */
  lemma Convergence(states: seq<Net>, actions: seq<Action>, n: nat, cap: Capacity)
    requires ConnectingRun(states, actions, cap) && n <= |actions| && states[0] == FRESH_NET
    ensures !states[n].left.sentDis && !states[n].right.sentDis
    ensures (exists i :: 0 <= i < n && actions[i].Join?)
            && states[n].left.inbox == [] && states[n].right.inbox == []
            ==> states[n].left.ep.conn == Connected && states[n].right.ep.conn == Connected
  {
    RunOk(states, actions, n, cap);
    hide ConnectingRun;
  }

  /** Draining terminates: from any state such a run reaches, no more deliveries are possible in
      a row than its weight, which is at most fourteen for each frame in flight. */
  lemma {:induction false} DrainTerminates(states: seq<Net>, actions: seq<Action>, cap: Capacity)
    requires ConnectingRun(states, actions, cap) && HandshakeOk(states[0])
    requires forall i :: 0 <= i < |actions| ==> actions[i].Deliver?
    ensures NetWeight(states[|actions|]) + |actions| <= NetWeight(states[0])
    decreases |actions|
  {
    hide HandshakeOk, Do, NetWeight;
    if actions != [] {
      var n := |actions| - 1;
      DrainTerminates(states[..n + 1], actions[..n], cap);
      RunOk(states, actions, n, cap);
      assert Possible(states[n], actions[n]) && Connecting(states[n], actions[n]);
      StepLightens(states[n], actions[n], cap);
    }
  }

  lemma WeightBound(net: Net)
    ensures NetWeight(net) <= 14 * (|net.left.inbox| + |net.right.inbox|)
  {
    PairWeightBound(net.left, net.right);
  }

  /** Convergence from any point of a run: however the frames in flight are delivered, the link
      falls quiet within that many deliveries. */
  lemma AlwaysConverges(states: seq<Net>, actions: seq<Action>, more: seq<Net>, deliveries: seq<Action>,
                        cap: Capacity)
    requires ConnectingRun(states, actions, cap) && states[0] == FRESH_NET
    requires ConnectingRun(more, deliveries, cap) && more[0] == states[|actions|]
    requires forall i :: 0 <= i < |deliveries| ==> deliveries[i].Deliver?
    ensures |deliveries| <= 14 * (|more[0].left.inbox| + |more[0].right.inbox|)
  {
    hide Do, HandshakeOk;
    assert HandshakeOk(FRESH_NET) by { FreshIsOk(); }
    RunOk(states, actions, |actions|, cap);
    DrainTerminates(more, deliveries, cap);
    WeightBound(more[0]);
  }

  lemma FreshIsOk()
    ensures HandshakeOk(FRESH_NET)
  {}

  // ----- The documented table -----

  datatype Stimulus = Connects | Receives(frame: Frame)

  function StateAfter(ep: Endpoint, stimulus: Stimulus): Conn {
    match stimulus
    case Connects => OnConnect(ep).ep.conn
    case Receives(frame) => OnFrame(ep, frame).ep.conn
  }

  /** The state table of the handshake's documentation, cell by cell. */
  function Documented(conn: Conn, stimulus: Stimulus): Conn {
    match conn
    case Disconnected =>
      if stimulus == Connects then SentSyn0
      else if stimulus == Receives(SYN0) then SentSyn1 else Disconnected
    case SentSyn0 => if stimulus == Receives(SYN1) then Connected else SentSyn0
    case SentSyn1 =>
      if stimulus == Receives(SYN1) || stimulus == Receives(SYN2) then Connected else SentSyn1
    case Connected =>
      if stimulus == Connects then SentSyn0
      else if stimulus == Receives(SYN0) then SentSyn1 else Connected
  }

  /** The engine follows the table in all cells but two: a crossing SYN0, and a repeated call. */
  lemma TableHoldsButTwoCells(ep: Endpoint, stimulus: Stimulus)
    requires stimulus.Receives? && stimulus.frame.kind == Syn ==>
               stimulus.frame.payload == [] && stimulus.frame != DIS
    ensures StateAfter(ep, stimulus) == Documented(ep.conn, stimulus)
            <==> !(ep.conn == SentSyn0 && stimulus == Receives(SYN0))
                 && !(ep.conn == SentSyn1 && stimulus == Connects)
  {
    hide Wrap, FastForward, Retransmissions;
  }
}
