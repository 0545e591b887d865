/**
 The bound on how far a writer may run ahead is the weakest possible one. A write within it is
 always safe. After a write beyond it the link alone, by losing and garbling frames, can bring
 about an underrun; and then the reader can accept a payload in place of another.
 */
module Window {
  import opened Framing
  import opened Protocol
  import opened Network
  import opened Safety

  // ----- Continuations -----

  /** What the link can do by itself: deliver, lose, and garble as the theorems allow. */
  ghost predicate LinkActs(net: Net, action: Action) {
    || action.Deliver? || action.Drop?
    || (action.Noise? && Peer(net, action.side).ep.conn != Disconnected)
  }

  ghost predicate LinkRun(states: seq<Net>, actions: seq<Action>, cap: Capacity) {
    IsRun(states, actions, cap, (net, action) => LinkActs(net, action))
  }

  /** Whatever the link does from here on, `side` never finds its history too short. */
  ghost predicate NeverUnderruns(net: Net, side: Side, cap: Capacity) {
    forall states, actions :: LinkRun(states, actions, cap) && states[0] == net ==>
      !Me(states[|actions|], side).underrun
  }

  lemma Extend(states: seq<Net>, actions: seq<Action>, action: Action, cap: Capacity)
    returns (states': seq<Net>, actions': seq<Action>)
    requires LinkRun(states, actions, cap)
    requires Possible(states[|actions|], action) && LinkActs(states[|actions|], action)
    ensures LinkRun(states', actions', cap) && states'[0] == states[0]
    ensures states'[|actions'|] == Do(states[|actions|], action, cap)
  {
    hide Do, LinkActs, Possible;
    states', actions' := states + [Do(states[|actions|], action, cap)], actions + [action];
  }

  lemma NoActions(net: Net, cap: Capacity)
    ensures LinkRun([net], [], cap)
  {}

  function Waiting(net: Net, side: Side): seq<Frame> { Me(net, side).inbox }

  /** The net with the first `k` frames towards `side` lost. */
  function Skip(net: Net, side: Side, k: nat): Net
    requires k <= |Waiting(net, side)|
  {
    Both(side, Me(net, side).(inbox := Waiting(net, side)[k..]), Peer(net, side))
  }

  lemma {:induction false} Lose(states: seq<Net>, actions: seq<Action>, side: Side, k: nat,
                                cap: Capacity)
    returns (states': seq<Net>, actions': seq<Action>)
    requires LinkRun(states, actions, cap) && k <= |Waiting(states[|actions|], side)|
    ensures LinkRun(states', actions', cap) && states'[0] == states[0]
    ensures states'[|actions'|] == Skip(states[|actions|], side, k)
    decreases k
  {
    if k == 0 {
      states', actions' := states, actions;
    } else {
      hide LinkRun;
      states', actions' := Lose(states, actions, side, k - 1, cap);
      states', actions' := Extend(states', actions', Drop(side, 0), cap);
      var inbox := Waiting(states[|actions|], side);
      assert inbox[k - 1..][..0] + inbox[k - 1..][1..] == inbox[k..];
    }
  }

  // ----- A request for what history no longer holds -----

  /** History is full, and position `t` of the log is the one that fell out last. */
  ghost predicate JustOut(me: End, t: nat, cap: Capacity) {
    && me.ep.conn == Connected && LogAgrees(me.ep, me.written, cap)
    && |me.ep.history| == cap && |me.written| - t == cap + 1
  }

  /** Only a capacity of 63 could take the request for an acknowledgement of everything. */
  lemma JustOutUnderruns(me: End, t: nat, cap: Capacity)
    requires JustOut(me, t, cap) && cap < SEQ_RANGE - 1
    ensures Wrap(t) != me.ep.txSeq && TransmitHistoryFrom(me.ep, Wrap(t)).underrun
  {
    var n := |me.written|;
    FastForwardExact(Wrap(t), me.ep.txSeq, cap);
    hide Wrap, FastForward, Retransmissions;
    WrapInjective(t, n);
    WrapWrap(t, cap - me.ep.txSeq);
    WrapWrap(n, t + cap);
    assert t + cap - n == 0 - 1;
    MinusOne();
  }

  /** At a capacity of 63 that request has the number of the next write, and is ignored. */
  lemma IgnoredAtLimit(me: End, t: nat, cap: Capacity)
    requires JustOut(me, t, cap)
    ensures OnNak(me.ep, Wrap(t)) == Silent(me.ep) <==> cap == 63
  {
    if cap == SEQ_RANGE - 1 {
      WrapPeriod(t, 1);
      assert me.ep.txSeq == Wrap(t);
    } else {
      JustOutUnderruns(me, t, cap);
    }
    hide Wrap, TransmitHistoryFrom;
  }

  lemma MinusOne()
    ensures Wrap(0 - 1) == SEQ_RANGE - 1
  {}

  lemma RequestUnderruns(net: Net, side: Side, t: nat, cap: Capacity)
    requires Waiting(net, side) != [] && JustOut(Me(net, side), t, cap) && cap < SEQ_RANGE - 1
    requires var frame := Waiting(net, side)[0];
             Asks(frame, t) && (IsNak(frame) || frame == SYN1 || frame == SYN2)
    ensures Me(Do(net, Deliver(side), cap), side).underrun
    ensures var frame := Waiting(net, side)[0];
            frame.kind == Nak ==>
              OnArrival(Me(net, side).ep, frame) == TransmitHistoryFrom(Me(net, side).ep, Wrap(t))
  {
    JustOutUnderruns(Me(net, side), t, cap);
    assert Wrap(0) == 0;
    hide Wrap, TransmitHistoryFrom;
  }

  function Other(side: Side): Side { if side == Left then Right else Left }

  // ----- A closed window -----

  /** A request in flight that stands as far back as history reaches. */
  ghost predicate OldRequest(me: End, i: int, cap: Capacity) {
    0 <= i < |me.inbox| && IsRequest(me.inbox[i]) && cap <= Behind(me, me.inbox[i])
  }

  lemma ClosedBecause(me: End, peer: End, cap: Capacity)
    requires !WindowOpen(me, peer, cap) && |me.written| - |peer.accepted| < cap
    ensures exists i :: OldRequest(me, i, cap)
  {
    var i :| 0 <= i < |me.inbox| && IsRequest(me.inbox[i]) && !(Behind(me, me.inbox[i]) < cap);
    assert OldRequest(me, i, cap);
  }

  /** In a safe state nothing can be further back than history reaches. */
  lemma OldestPosition(me: End, peer: End, tm: seq<nat>, tp: seq<nat>, t: nat, cap: Capacity)
    requires Direction(me, peer, tp, tm, cap) && cap <= |me.written| - t
    requires Base(me.ep, me.written) <= t
    ensures |me.ep.history| == cap == |me.written| - t
  {
    hide DataOk, RequestsOk, Wrap;
  }

  lemma WriteMakesJustOut(me: End, peer: End, tm: seq<nat>, tp: seq<nat>, payload: Payload, t: nat,
                          cap: Capacity)
    requires Direction(me, peer, tp, tm, cap) && me.ep.conn == Connected
    requires Base(me.ep, me.written) <= t && cap <= |me.written| - t
    ensures JustOut(Acted(me.(written := me.written + [payload]), OnWrite(me.ep, payload, cap)), t, cap)
  {
    OldestPosition(me, peer, tm, tp, t, cap);
    WriteKeepsLog(me.ep, payload, me.written, cap);
    hide DataOk, RequestsOk, Wrap;
  }

  lemma RequestTag(net: Net, side: Side, i: nat, toLeft: seq<nat>, toRight: seq<nat>, cap: Capacity)
    returns (t: nat)
    requires Invariant(net, toLeft, toRight, cap) && OldRequest(Me(net, side), i, cap)
    ensures var me := Me(net, side);
            && Asks(me.inbox[i], t) && Base(me.ep, me.written) <= t && cap <= |me.written| - t
            && (IsNak(me.inbox[i]) || me.inbox[i] == SYN1 || me.inbox[i] == SYN2)
  {
    var tm := if side == Left then toLeft else toRight;
    t := tm[i];
    BehindIsDistance(Me(net, side), Me(net, side).inbox[i], t);
    hide DataOk, Wrap, Carries, Asks;
  }

  /** What a write changes, seen from either side. */
  lemma SendSplits(net: Net, side: Side, payload: Payload, cap: Capacity)
    requires |payload| <= MAX_PACKET
    ensures var me, net' := Me(net, side), Do(net, Send(side, payload), cap);
            var o := OnWrite(me.ep, payload, cap);
            && Me(net', side) == Acted(me.(written := me.written + [payload]), o)
            && Waiting(net', side) == me.inbox
            && Peer(net', side)
               == Peer(net, side).(inbox := Peer(net, side).inbox + o.sent)
  {
    hide OnWrite;
  }

  lemma AfterOldRequest(net: Net, side: Side, payload: Payload, i: nat, toLeft: seq<nat>,
                        toRight: seq<nat>, cap: Capacity)
    returns (states: seq<Net>, actions: seq<Action>)
    requires Invariant(net, toLeft, toRight, cap) && Me(net, side).ep.conn == Connected
    requires |payload| <= MAX_PACKET && cap < SEQ_RANGE - 1 && OldRequest(Me(net, side), i, cap)
    ensures LinkRun(states, actions, cap) && states[0] == Do(net, Send(side, payload), cap)
    ensures Me(states[|actions|], side).underrun
  {
    var t := RequestTag(net, side, i, toLeft, toRight, cap);
    var me, peer := Me(net, side), Peer(net, side);
    WriteMakesJustOut(me, peer, if side == Left then toLeft else toRight,
                      if side == Left then toRight else toLeft, payload, t, cap);
    SendSplits(net, side, payload, cap);
    var start := Do(net, Send(side, payload), cap);
    hide LinkRun, Do, Invariant, Asks, OnWrite, JustOut, Acted;
    NoActions(start, cap);
    states, actions := Lose([start], [], side, i, cap);
    var last := states[|actions|];
    assert Waiting(last, side)[0] == me.inbox[i];
    JustOutSkips(start, side, i, t, cap);
    RequestUnderruns(last, side, t, cap);
    states, actions := Extend(states, actions, Deliver(side), cap);
  }

  lemma JustOutSkips(net: Net, side: Side, k: nat, t: nat, cap: Capacity)
    requires k <= |Waiting(net, side)| && JustOut(Me(net, side), t, cap)
    ensures JustOut(Me(Skip(net, side, k), side), t, cap)
  {}

  /** The reader garbles nothing but asks for what it lacks, and everything before that request
      is lost. */
  lemma AfterTooMany(net: Net, side: Side, payload: Payload, toLeft: seq<nat>, toRight: seq<nat>,
                     cap: Capacity)
    returns (states: seq<Net>, actions: seq<Action>)
    requires Invariant(net, toLeft, toRight, cap) && Me(net, side).ep.conn == Connected
    requires |payload| <= MAX_PACKET && cap < SEQ_RANGE - 1
    requires cap <= |Me(net, side).written| - |Peer(net, side).accepted|
    ensures LinkRun(states, actions, cap) && states[0] == Do(net, Send(side, payload), cap)
    ensures var last := states[|actions|];
            var sent := TransmitHistoryFrom(Me(states[0], side).ep,
                                            Wrap(|Peer(net, side).accepted|)).sent;
            && Me(last, side).underrun
            && Peer(last, side) == Peer(states[0], side).(inbox := Peer(states[0], side).inbox + sent)
  {
    var me, peer := Me(net, side), Peer(net, side);
    var t := |peer.accepted|;
    WriteMakesJustOut(me, peer, if side == Left then toLeft else toRight,
                      if side == Left then toRight else toLeft, payload, t, cap);
    SendSplits(net, side, payload, cap);
    var start := Do(net, Send(side, payload), cap);
    assert peer.ep.rxSeq == Wrap(t);
    hide LinkRun, Do, Invariant, OnWrite, JustOut, Wrap, TransmitHistoryFrom;
    NoActions(start, cap);
    var k := |me.inbox|;
    states, actions := Lose([start], [], side, k, cap);
    var lost := states[|actions|];
    assert Waiting(lost, side) == [] && Peer(lost, side) == Peer(start, side);
    states, actions := Extend(states, actions, Noise(Other(side)), cap);
    var asked := states[|actions|];
    NoiseSplits(lost, side, cap);
    JustOutSkips(start, side, k, t, cap);
    assert JustOut(Me(asked, side), t, cap) by { SameLog(Me(lost, side), Me(asked, side), t, cap); }
    RequestUnderruns(asked, side, t, cap);
    states, actions := Extend(states, actions, Deliver(side), cap);
    AnswerSplits(asked, side, cap);
  }

  lemma SameLog(a: End, b: End, t: nat, cap: Capacity)
    requires JustOut(a, t, cap) && b.ep == a.ep && b.written == a.written
    ensures JustOut(b, t, cap)
  {}

  lemma NoiseSplits(net: Net, side: Side, cap: Capacity)
    ensures var net' := Do(net, Noise(Other(side)), cap);
            && Me(net', side) == Me(net, side).(inbox := Me(net, side).inbox
                                                         + [Frame(Nak, Peer(net, side).ep.rxSeq, [])])
            && Peer(net', side).ep == Peer(net, side).ep
            && Peer(net', side).(sentDis := Peer(net, side).sentDis) == Peer(net, side)
  {
    assert Peer(net, side).accepted + [] == Peer(net, side).accepted;
  }

  lemma AnswerSplits(net: Net, side: Side, cap: Capacity)
    requires Waiting(net, side) != []
    ensures var net' := Do(net, Deliver(side), cap);
            Peer(net', side) == Peer(net, side).(inbox := Peer(net, side).inbox
              + OnArrival(Me(net, side).ep, Waiting(net, side)[0]).sent)
  {
    hide OnArrival;
  }

  /** After any write beyond the bound the link alone can make the history too short. */
  lemma ClosedWindowUnderruns(net: Net, side: Side, payload: Payload, toLeft: seq<nat>,
                              toRight: seq<nat>, cap: Capacity)
    returns (states: seq<Net>, actions: seq<Action>)
    requires Invariant(net, toLeft, toRight, cap) && Me(net, side).ep.conn == Connected
    requires |payload| <= MAX_PACKET && cap < SEQ_RANGE - 1
    requires !WindowOpen(Me(net, side), Peer(net, side), cap)
    ensures LinkRun(states, actions, cap) && states[0] == Do(net, Send(side, payload), cap)
    ensures Me(states[|actions|], side).underrun
  {
    hide Invariant, Do, LinkRun, OldRequest, TransmitHistoryFrom;
    var me, peer := Me(net, side), Peer(net, side);
    if cap <= |me.written| - |peer.accepted| {
      states, actions := AfterTooMany(net, side, payload, toLeft, toRight, cap);
    } else {
      ClosedBecause(me, peer, cap);
      var i :| OldRequest(me, i, cap);
      assert 0 <= i by { AnIndex(me, i, cap); }
      states, actions := AfterOldRequest(net, side, payload, i, toLeft, toRight, cap);
    }
  }

  lemma AnIndex(me: End, i: int, cap: Capacity)
    requires OldRequest(me, i, cap)
    ensures 0 <= i
  {}

  lemma LinkRunIsAllowed(states: seq<Net>, actions: seq<Action>, cap: Capacity)
    requires LinkRun(states, actions, cap)
    ensures AllowedRun(states, actions, cap)
  {
    hide Do, Possible;
  }

  /** The bound is exact. In every state of every run within it, with the writer connected: the
      window is open iff, after one more write, the link alone can never make the history too
      short. */
  lemma WindowIsExact(before: seq<Net>, path: seq<Action>, side: Side, payload: Payload,
                      cap: Capacity)
    requires SafeRun(before, path, cap) && Me(before[|path|], side).ep.conn == Connected
    requires |payload| <= MAX_PACKET && cap < SEQ_RANGE - 1
    ensures var net := before[|path|];
            WindowOpen(Me(net, side), Peer(net, side), cap)
            <==> NeverUnderruns(Do(net, Send(side, payload), cap), side, cap)
  {
    var net := before[|path|];
    var toLeft, toRight := RunKeeps(before, path, |path|, cap);
    hide SafeRun, Invariant, Do, LinkRun, WindowOpen, AllowedRun;
    if WindowOpen(Me(net, side), Peer(net, side), cap) {
      var left, right := StepKeeps(net, Send(side, payload), toLeft, toRight, cap);
      forall states, actions | LinkRun(states, actions, cap)
                               && states[0] == Do(net, Send(side, payload), cap)
        ensures !Me(states[|actions|], side).underrun
      {
        LinkRunIsAllowed(states, actions, cap);
        var l, r := AllowedKeeps(states, actions, |actions|, left, right, cap);
        NoUnderrun(states[|actions|], l, r, cap);
      }
    } else {
      var states, actions := ClosedWindowUnderruns(net, side, payload, toLeft, toRight, cap);
    }
  }

  lemma NoUnderrun(net: Net, toLeft: seq<nat>, toRight: seq<nat>, cap: Capacity)
    requires Invariant(net, toLeft, toRight, cap)
    ensures !net.left.underrun && !net.right.underrun
  {}

  // ----- What an underrun does to the reader -----

  lemma RenumberedFirst(me: End, t: nat, cap: Capacity)
    requires JustOut(me, t, cap) && cap < SEQ_RANGE - 1
    ensures var sent := TransmitHistoryFrom(me.ep, Wrap(t)).sent;
            sent != [] && sent[0] == Frame(Rtx, Wrap(t), me.written[t + 1])
  {
    JustOutUnderruns(me, t, cap);
    WrapWrap(t, 0);
    hide Wrap, FastForward;
  }

  lemma AcceptsFirst(net: Net, side: Side, t: nat, payload: Payload, cap: Capacity)
    requires Waiting(net, side) != [] && Waiting(net, side)[0] == Frame(Rtx, Wrap(t), payload)
    requires Me(net, side).ep.conn == Connected && Me(net, side).ep.rxSeq == Wrap(t)
    requires |payload| <= MAX_PACKET - 2
    ensures Me(Do(net, Deliver(side), cap), side).accepted == Me(net, side).accepted + [payload]
    ensures Peer(Do(net, Deliver(side), cap), side).written == Peer(net, side).written
  {
    hide Wrap;
  }

  lemma SkipSplits(net: Net, side: Side, k: nat)
    requires k <= |Waiting(net, side)|
    ensures Me(Skip(net, side, k), side) == Me(net, side).(inbox := Waiting(net, side)[k..])
    ensures Peer(Skip(net, side, k), side) == Peer(net, side)
  {}

  lemma OtherSide(net: Net, side: Side)
    ensures Me(net, Other(side)) == Peer(net, side) && Peer(net, Other(side)) == Me(net, side)
  {}

  lemma PeerCounts(net: Net, side: Side, toLeft: seq<nat>, toRight: seq<nat>, cap: Capacity)
    requires Invariant(net, toLeft, toRight, cap)
    ensures Peer(net, side).ep.rxSeq == Wrap(|Peer(net, side).accepted|)
  {}

  /** A reader that lacks a whole history when one more payload is written: the link alone can
      make it accept the second payload it lacks in place of the first. */
  lemma ClosedWindowSpoils(net: Net, side: Side, payload: Payload, toLeft: seq<nat>,
                           toRight: seq<nat>, cap: Capacity)
    returns (states: seq<Net>, actions: seq<Action>)
    requires Invariant(net, toLeft, toRight, cap) && |payload| <= MAX_PACKET && cap < SEQ_RANGE - 1
    requires Me(net, side).ep.conn == Connected && Peer(net, side).ep.conn == Connected
    requires var k, written := |Peer(net, side).accepted|, Me(net, side).written + [payload];
             cap <= |Me(net, side).written| - k && |written[k + 1]| <= MAX_PACKET - 2
    ensures LinkRun(states, actions, cap) && states[0] == Do(net, Send(side, payload), cap)
    ensures var k, written := |Peer(net, side).accepted|, Me(net, side).written + [payload];
            && Me(states[|actions|], side).written == written
            && Peer(states[|actions|], side).accepted == Peer(net, side).accepted + [written[k + 1]]
  {
    var me, peer := Me(net, side), Peer(net, side);
    var t := |peer.accepted|;
    var start := Do(net, Send(side, payload), cap);
    var k := |Peer(start, side).inbox|;
    SendSplits(net, side, payload, cap);
    PeerCounts(net, side, toLeft, toRight, cap);
    WriteMakesJustOut(me, peer, if side == Left then toLeft else toRight,
                      if side == Left then toRight else toLeft, payload, t, cap);
    hide LinkRun, Do, Invariant, OnWrite, JustOut, Wrap, TransmitHistoryFrom, Skip;
    RenumberedFirst(Me(start, side), t, cap);
    states, actions := AfterTooMany(net, side, payload, toLeft, toRight, cap);
    var sent := TransmitHistoryFrom(Me(start, side).ep, Wrap(t)).sent;
    var asked := states[|actions|];
    OtherSide(asked, side);
    states, actions := Lose(states, actions, Other(side), k, cap);
    var lost := states[|actions|];
    SkipSplits(asked, Other(side), k);
    OtherSide(lost, side);
    assert (Peer(start, side).inbox + sent)[k..] == sent;
    AcceptsFirst(lost, Other(side), t, Me(start, side).written[t + 1], cap);
    states, actions := Extend(states, actions, Deliver(Other(side)), cap);
    OtherSide(states[|actions|], side);
    LogsStay(net, side, payload, states, actions, cap);
  }

  /** The link writes nothing. */
  lemma {:induction false} LogStays(states: seq<Net>, actions: seq<Action>, side: Side, n: nat,
                                    cap: Capacity)
    requires LinkRun(states, actions, cap) && n <= |actions|
    ensures Me(states[n], side).written == Me(states[0], side).written
  {
    if n > 0 {
      LogStays(states, actions, side, n - 1, cap);
      assert LinkActs(states[n - 1], actions[n - 1]);
      assert states[n] == Do(states[n - 1], actions[n - 1], cap);
      hide OnArrival, LinkRun, OnGarbled;
    }
  }

  lemma LogsStay(net: Net, side: Side, payload: Payload, states: seq<Net>, actions: seq<Action>,
                 cap: Capacity)
    requires |payload| <= MAX_PACKET
    requires LinkRun(states, actions, cap) && states[0] == Do(net, Send(side, payload), cap)
    ensures Me(states[|actions|], side).written == Me(net, side).written + [payload]
  {
    LogStays(states, actions, side, |actions|, cap);
    SendSplits(net, side, payload, cap);
    hide LinkRun, Do, OnWrite;
  }

  // ----- Runs that fail -----

  /** The left end has written `log`, and nothing of it has arrived or will. */
  function Unheard(log: seq<Payload>, cap: Capacity): Net {
    var history := if |log| <= cap then log else log[|log| - cap..];
    Net(End(Endpoint(Connected, 0, Wrap(|log|), history), [], log, [], false, false),
        End(Endpoint(Connected, 0, 0, []), [], [], [], false, false))
  }

  ghost predicate AnyRun(states: seq<Net>, actions: seq<Action>, cap: Capacity) {
    IsRun(states, actions, cap, (net, action) => true)
  }

  lemma Meet(cap: Capacity)
    returns (states: seq<Net>, actions: seq<Action>)
    ensures SafeRun(states, actions, cap) && AnyRun(states, actions, cap)
    ensures |states| == |actions| + 1 && states[|actions|] == Unheard([], cap)
  {
    actions := [Join(Left), Deliver(Right), Deliver(Left), Deliver(Right)];
    var s0 := FRESH_NET;
    var s1, s2 := Do(s0, actions[0], cap), Do(Do(s0, actions[0], cap), actions[1], cap);
    var s3 := Do(s2, actions[2], cap);
    var s4 := Do(s3, actions[3], cap);
    states := [s0, s1, s2, s3, s4];
  }

  lemma WriteUnheard(log: seq<Payload>, payload: Payload, cap: Capacity)
    requires |payload| <= MAX_PACKET
    ensures var net, written := Unheard(log, cap), Do(Unheard(log, cap), Send(Left, payload), cap);
            && |written.right.inbox| == 1
            && Do(written, Drop(Right, 0), cap) == Unheard(log + [payload], cap)
            && (|log| < cap ==> Allowed(net, Send(Left, payload), cap))
  {
    WrapWrap(|log|, 1);
    hide Wrap;
  }

  lemma LoseOne(states: seq<Net>, actions: seq<Action>, log: seq<Payload>, payload: Payload,
                cap: Capacity)
    returns (states': seq<Net>, actions': seq<Action>)
    requires AnyRun(states, actions, cap) && states[|actions|] == Unheard(log, cap)
    requires |payload| <= MAX_PACKET
    ensures AnyRun(states', actions', cap) && states'[0] == states[0]
    ensures SafeRun(states, actions, cap) && |log| < cap ==> SafeRun(states', actions', cap)
    ensures |states'| == |actions'| + 1 && states'[|actions'|] == Unheard(log + [payload], cap)
  {
    var net := states[|actions|];
    WriteUnheard(log, payload, cap);
    SendPossible(net, payload);
    var written := Do(net, Send(Left, payload), cap);
    DropAllowed(written, cap);
    hide Do, Unheard, AnyRun, SafeRun, Allowed;
    states', actions' := Then(states, actions, Send(Left, payload), cap);
    states', actions' := Then(states', actions', Drop(Right, 0), cap);
  }

  /** Connecting, and then losing everything that is written. */
  lemma {:induction false} LoseAll(log: seq<Payload>, cap: Capacity)
    returns (states: seq<Net>, actions: seq<Action>)
    requires Writable(log)
    ensures AnyRun(states, actions, cap) && states[0] == FRESH_NET
    ensures |log| <= cap ==> SafeRun(states, actions, cap)
    ensures |states| == |actions| + 1 && states[|actions|] == Unheard(log, cap)
    decreases |log|
  {
    if log == [] {
      states, actions := Meet(cap);
    } else {
      hide Unheard, AnyRun, SafeRun;
      var n := |log| - 1;
      states, actions := LoseAll(log[..n], cap);
      states, actions := LoseOne(states, actions, log[..n], log[n], cap);
      assert log[..n] + [log[n]] == log;
    }
  }

  lemma DropAllowed(net: Net, cap: Capacity)
    ensures Allowed(net, Drop(Right, 0), cap)
  {}

  lemma Then(states: seq<Net>, actions: seq<Action>, action: Action, cap: Capacity)
    returns (states': seq<Net>, actions': seq<Action>)
    requires AnyRun(states, actions, cap) && Possible(states[|actions|], action)
    ensures AnyRun(states', actions', cap) && states'[0] == states[0]
    ensures SafeRun(states, actions, cap) && Allowed(states[|actions|], action, cap)
            ==> SafeRun(states', actions', cap)
    ensures |states'| == |actions'| + 1
    ensures states'[|actions'|] == Do(states[|actions|], action, cap)
  {
    hide Do, Allowed, Possible;
    states', actions' := states + [Do(states[|actions|], action, cap)], actions + [action];
  }

  lemma SendPossible(net: Net, payload: Payload)
    requires |payload| <= MAX_PACKET
    ensures Possible(net, Send(Left, payload))
  {}

  lemma Joined(before: seq<Net>, path: seq<Action>, action: Action, after: seq<Net>,
               more: seq<Action>, cap: Capacity)
    returns (states: seq<Net>, actions: seq<Action>)
    requires AnyRun(before, path, cap) && LinkRun(after, more, cap)
    requires Possible(before[|path|], action) && after[0] == Do(before[|path|], action, cap)
    ensures AnyRun(states, actions, cap) && states[0] == before[0]
    ensures states[|actions|] == after[|more|]
  {
    hide Do, Possible, LinkActs;
    states, actions := before + after, path + [action] + more;
  }

  /** Whatever the capacity: losing a whole history and one payload more ends with an underrun
      and the second payload accepted in place of the first. */
  lemma HistoryOverrun(log: seq<Payload>, cap: Capacity)
    returns (states: seq<Net>, actions: seq<Action>)
    requires |log| == cap + 1 && Writable(log) && |log[1]| <= MAX_PACKET - 2 && log[0] != log[1]
    requires cap < SEQ_RANGE - 1
    ensures AnyRun(states, actions, cap) && states[0] == FRESH_NET
    ensures states[|actions|].left.written == log && states[|actions|].right.accepted == [log[1]]
    ensures !(states[|actions|].right.accepted <= states[|actions|].left.written)
  {
    hide Invariant, Do, Possible, Unheard, SafeRun, AnyRun, LinkRun;
    var before, path := LoseAll(log[..cap], cap);
    var net := before[|path|];
    UnheardEnds(log[..cap], cap);
    assert log[..cap] + [log[cap]] == log;
    var toLeft, toRight := RunKeeps(before, path, |path|, cap);
    states, actions := ClosedWindowSpoils(net, Left, log[cap], toLeft, toRight, cap);
    SendPossible(net, log[cap]);
    states, actions := Joined(before, path, Send(Left, log[cap]), states, actions, cap);
    assert [] + [log[1]] == [log[1]];
    NotFirst(log[1], log);
  }

  lemma UnheardEnds(log: seq<Payload>, cap: Capacity)
    ensures var net := Unheard(log, cap);
            && net.left.ep.conn == Connected && net.right.ep.conn == Connected
            && net.left.written == log && net.right.accepted == []
  {}

  lemma NotFirst(payload: Payload, log: seq<Payload>)
    requires log != [] && log[0] != payload
    ensures !([payload] <= log)
  {
    assert [payload][0] != log[0];
  }

  /** Whatever the capacity: losing 64 payloads makes the next one look like the first. Neither
      end notices. */
  lemma NumbersAlias(log: seq<Payload>, payload: Payload, cap: Capacity)
    returns (states: seq<Net>, actions: seq<Action>)
    requires |log| == 64 && Writable(log) && |payload| <= MAX_PACKET - 2 && payload != log[0]
    ensures AnyRun(states, actions, cap) && states[0] == FRESH_NET
    ensures var left, right := states[|actions|].left, states[|actions|].right;
            && left.written == log + [payload] && right.accepted == [payload]
            && !(right.accepted <= left.written) && !left.underrun && !right.underrun
  {
    states, actions := LoseAll(log, cap);
    assert Wrap(64) == 0;
    states, actions := Then(states, actions, Send(Left, payload), cap);
    states, actions := Then(states, actions, Deliver(Right), cap);
    assert [] + [payload] == [payload];
    NotFirst(payload, log + [payload]);
  }
}
