/**
 Connecting again: a quiet link whose ends are in any state whatever, with any numbers and any
 histories, converges as a fresh one does, and is then as good as new.
 */
module Reconnect {
  import opened Protocol
  import opened Network
  import opened Safety
  import opened Recovery
  import opened Handshake
  import opened Window
  import Storm

  // ----- A link in any state, and a fresh one, under the same actions -----

  /** An end and its counterpart on a link that was fresh: the same, unless the counterpart has
      not been reached by the handshake yet. The logs are as they were in `start`. */
  ghost predicate LikeEnd(me: End, twin: End, start: End) {
    && me.inbox == twin.inbox && (me.ep == twin.ep || twin.ep.conn == Disconnected)
    && me.accepted == start.accepted && me.written == start.written
    && me.sentDis == start.sentDis && me.underrun == start.underrun
  }

  ghost predicate Like(net: Net, twin: Net, start: Net) {
    LikeEnd(net.left, twin.left, start.left) && LikeEnd(net.right, twin.right, start.right)
  }

  /** A handshake frame does the same to both. */
  lemma SameReaction(me: End, twin: End, peer: End, start: End)
    requires LikeEnd(me, twin, start) && EndOk(twin, peer) && me.inbox != []
    ensures var o := OnArrival(me.ep, me.inbox[0]);
            && o == OnArrival(twin.ep, me.inbox[0])
            && o.accepted == [] && !o.underrun && DIS !in o.sent
  {
    SynReaction(twin, me.inbox[0]);
    SynIsSafe(twin, me.inbox[0]);
  }

  lemma SynIsSafe(me: End, frame: Frame)
    requires me.ep == Endpoint(me.ep.conn, 0, 0, []) && IsSyn(frame)
    requires me.ep.conn == Disconnected ==> frame == SYN0
    ensures !OnArrival(me.ep, frame).underrun && DIS !in OnArrival(me.ep, frame).sent
  {}

  lemma StepAlike(net: Net, twin: Net, start: Net, action: Action, cap: Capacity)
    requires Like(net, twin, start) && HandshakeOk(twin)
    requires Connecting(net, action) && Possible(net, action)
    ensures Possible(twin, action)
    ensures Like(Do(net, action, cap), Do(twin, action, cap), start)
  {
    var side := action.side;
    if action.Deliver? {
      SameReaction(Me(net, side), Me(twin, side), Peer(twin, side), Me(start, side));
      hide OnArrival;
      assert Me(start, side).accepted + [] == Me(start, side).accepted;
    } else {
      assert Me(start, side).accepted + [] == Me(start, side).accepted;
    }
    hide EndOk;
  }

  lemma {:induction false} Mirror(states: seq<Net>, actions: seq<Action>, twin: Net, start: Net,
                                  cap: Capacity)
    returns (mirror: seq<Net>)
    requires ConnectingRun(states, actions, cap) && HandshakeOk(twin)
    requires Like(states[0], twin, start)
    ensures ConnectingRun(mirror, actions, cap) && mirror[0] == twin
    ensures Like(states[|actions|], mirror[|actions|], start) && HandshakeOk(mirror[|actions|])
    decreases |actions|
  {
    hide HandshakeOk, Do, Possible, Like;
    if actions == [] {
      mirror := [twin];
    } else {
      var n := |actions| - 1;
      mirror := Mirror(states[..n + 1], actions[..n], twin, start, cap);
      assert Possible(states[n], actions[n]) && Connecting(states[n], actions[n]);
      assert states[n + 1] == Do(states[n], actions[n], cap);
      StepAlike(states[n], mirror[n], start, actions[n], cap);
      StepOk(mirror[n], actions[n], cap);
      mirror := mirror + [Do(mirror[n], actions[n], cap)];
    }
  }

  const RENEWED: Endpoint := Endpoint(Connected, 0, 0, [])

  lemma StartsAlike(net: Net)
    requires Quiet(net)
    ensures Like(net, FRESH_NET, net) && HandshakeOk(FRESH_NET)
  {}

  /** Convergence from any quiet link: once anybody has called sfpConnect, and the link is quiet
      again, both ends are connected with their numbers at 0 and nothing in their histories.
      Meanwhile nothing is accepted and no DIS is sent. */
  lemma Reconverges(states: seq<Net>, actions: seq<Action>, cap: Capacity)
    requires ConnectingRun(states, actions, cap) && Quiet(states[0])
    ensures var last := states[|actions|];
            && last.left.accepted == states[0].left.accepted
            && last.right.accepted == states[0].right.accepted
            && last.left.sentDis == states[0].left.sentDis
            && last.right.sentDis == states[0].right.sentDis
            && ((exists i :: 0 <= i < |actions| && actions[i].Join?) && Quiet(last) ==>
                  last.left.ep == RENEWED && last.right.ep == RENEWED)
  {
    var last := states[|actions|];
    StartsAlike(states[0]);
    var mirror := Mirror(states, actions, FRESH_NET, states[0], cap);
    Convergence(mirror, actions, |actions|, cap);
    hide ConnectingRun;
  }

  /** And it does fall quiet: at any point at most fourteen deliveries for each frame in flight
      can follow one another. */
  lemma ReconnectEnds(states: seq<Net>, actions: seq<Action>, more: seq<Net>, deliveries: seq<Action>,
                      cap: Capacity)
    requires ConnectingRun(states, actions, cap) && Quiet(states[0])
    requires ConnectingRun(more, deliveries, cap) && more[0] == states[|actions|]
    requires forall i :: 0 <= i < |deliveries| ==> deliveries[i].Deliver?
    ensures |deliveries| <= 14 * (|more[0].left.inbox| + |more[0].right.inbox|)
  {
    StartsAlike(states[0]);
    var mirror := Mirror(states, actions, FRESH_NET, states[0], cap);
    var after := Mirror(more, deliveries, mirror[|actions|], states[0], cap);
    AlwaysConverges(mirror, actions, after, deliveries, cap);
    hide ConnectingRun;
  }

  // ----- As good as new -----

  /** A net behind earlier logs. */
  ghost predicate Adds(me: End, renewed: End, start: End) {
    && me.ep == renewed.ep && me.inbox == renewed.inbox
    && me.written == start.written + renewed.written
    && me.accepted == start.accepted + renewed.accepted
  }

  ghost predicate Later(net: Net, renewed: Net, start: Net) {
    && Adds(net.left, renewed.left, start.left)
    && Adds(net.right, renewed.right, start.right)
  }

  /** A reaction at one end, on either net. */
  lemma ReactsLater(net: Net, renewed: Net, start: Net, side: Side, me: End, now: End, o: Outcome)
    requires Later(net, renewed, start)
    requires Adds(me, now, Me(start, side))
    ensures Later(React(net, side, me, o), React(renewed, side, now, o), start)
  {}

  lemma StepLater(net: Net, renewed: Net, start: Net, action: Action, cap: Capacity)
    requires Later(net, renewed, start) && Possible(renewed, action)
    ensures Possible(net, action)
    ensures Later(Do(net, action, cap), Do(renewed, action, cap), start)
  {
    hide OnArrival, OnWrite, OnConnect, OnGarbled, React;
    var side := action.side;
    var me, now := Me(net, side), Me(renewed, side);
    match action
    case Deliver(_) =>
      ReactsLater(net, renewed, start, side, me.(inbox := me.inbox[1..]),
                  now.(inbox := now.inbox[1..]), OnArrival(me.ep, me.inbox[0]));
    case Drop(_, _) =>
    case Noise(_) => ReactsLater(net, renewed, start, side, me, now, OnGarbled(me.ep));
    case Send(_, payload) =>
      ReactsLater(net, renewed, start, side, me.(written := me.written + [payload]),
                  now.(written := now.written + [payload]), OnWrite(me.ep, payload, cap));
    case Join(_) => ReactsLater(net, renewed, start, side, me, now, OnConnect(me.ep));
  }

  lemma {:induction false} RunsLater(states: seq<Net>, renewed: seq<Net>, actions: seq<Action>,
                                     n: nat, cap: Capacity)
    requires AnyRun(states, actions, cap) && AnyRun(renewed, actions, cap) && n <= |actions|
    requires Later(states[0], renewed[0], states[0])
    ensures Later(states[n], renewed[n], states[0])
  {
    hide Do, Possible, Later;
    if n > 0 {
      RunsLater(states, renewed, actions, n - 1, cap);
      assert Possible(renewed[n - 1], actions[n - 1]);
      assert states[n] == Do(states[n - 1], actions[n - 1], cap);
      assert renewed[n] == Do(renewed[n - 1], actions[n - 1], cap);
      StepLater(states[n - 1], renewed[n - 1], states[0], actions[n - 1], cap);
    }
  }

  lemma RenewedIsUnheard(net: Net, cap: Capacity)
    requires Quiet(net) && net.left.ep == RENEWED && net.right.ep == RENEWED
    ensures Later(net, Unheard([], cap), net)
  {
    assert net.left.written + [] == net.left.written && net.right.written + [] == net.right.written;
    assert net.left.accepted + [] == net.left.accepted;
    assert net.right.accepted + [] == net.right.accepted;
  }

  /** After a reconnection everything proved of a safe run holds of what is written and accepted
      from then on: `since` is the run that a link with empty logs would take. What is accepted
      begins with the first payload written after the reconnection, and goes on in order. */
  lemma SafeSinceReconnect(states: seq<Net>, since: seq<Net>, actions: seq<Action>, side: Side,
                           cap: Capacity)
    requires AnyRun(states, actions, cap) && AllowedRun(since, actions, cap)
    requires Quiet(states[0])
    requires states[0].left.ep == RENEWED && states[0].right.ep == RENEWED
    requires since[0] == Unheard([], cap)
    ensures var last, now := states[|actions|], since[|actions|];
            && Me(last, side).written == Me(states[0], side).written + Me(now, side).written
            && Peer(last, side).accepted == Peer(states[0], side).accepted + Peer(now, side).accepted
            && Peer(now, side).accepted <= Me(now, side).written
            && !now.left.underrun && !now.right.underrun
            && !now.left.sentDis && !now.right.sentDis
  {
    RenewedIsUnheard(states[0], cap);
    AllowedIsAny(since, actions, cap);
    RunsLater(states, since, actions, |actions|, cap);
    var before, path := Meet(cap);
    var toLeft, toRight := RunKeeps(before, path, |path|, cap);
    var l, r := AllowedKeeps(since, actions, |actions|, toLeft, toRight, cap);
    hide SafeRun, AllowedRun, Unheard, AnyRun;
  }

  lemma AllowedIsAny(states: seq<Net>, actions: seq<Action>, cap: Capacity)
    requires AllowedRun(states, actions, cap)
    ensures AnyRun(states, actions, cap)
  {
    hide Do, Possible, Allowed;
  }

  /** The first payload after a reconnection, delivered over a lossless link, is accepted. */
  lemma FirstSinceReconnect(net: Net, side: Side, payload: Payload, states: seq<Net>,
                            actions: seq<Action>, cap: Capacity)
    requires Quiet(net) && net.left.ep == RENEWED && net.right.ep == RENEWED && Fits(payload)
    requires Drain(states, actions, cap) && states[0] == Do(net, Send(side, payload), cap)
    ensures |actions| <= 1 && (Quiet(states[|actions|]) <==> |actions| == 1)
    ensures Quiet(states[|actions|]) ==>
              Peer(states[|actions|], side).accepted == Peer(net, side).accepted + [payload]
  {
    SendSplits(net, side, payload, cap);
    var peer := Peer(net, side);
    var frame := Frame(Usr, 0, payload);
    assert OnWrite(RENEWED, payload, cap).sent == [frame];
    assert peer.inbox + [frame] == [frame];
    if actions != [] {
      assert Possible(states[0], actions[0]) && states[1] == Do(states[0], actions[0], cap);
      DeliverySplits(states[0], side, actions[0], cap);
      assert OnArrival(RENEWED, frame).accepted == [payload] && OnArrival(RENEWED, frame).sent == [];
      assert Me(net, side).inbox + [] == [];
      assert Quiet(states[1]);
      Storm.QuietIsFinal(states[1], if |actions| > 1 then actions[1] else actions[0]);
    }
    hide Do, OnArrival, OnWrite;
  }
}
