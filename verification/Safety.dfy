/**
 End-to-end safety: over channels that lose frames and deliver noise, with one side connecting
 and both sides writing within the window, neither side ever disconnects or runs into an
 underrun, and what each application accepts is a prefix of what its peer wrote.
 */
module Safety {
  import opened Protocol
  import opened Network

  // ----- Which actions the theorem covers -----

  predicate IsRequest(frame: Frame) {
    frame.kind == Nak || frame == SYN1 || frame == SYN2
  }

  predicate IsNak(frame: Frame) { frame.kind == Nak && frame.payload == [] }

  /** How far behind the log a request asks transmission to restart. */
  function Behind(me: End, request: Frame): nat {
    if request.kind == Nak then Wrap(|me.written| - request.num) else |me.written|
  }

  /** One more payload still leaves history covering whatever the peer can ask for. */
  ghost predicate WindowOpen(me: End, peer: End, cap: Capacity) {
    && |me.written| - |peer.accepted| < cap
    && forall i :: 0 <= i < |me.inbox| && IsRequest(me.inbox[i]) ==> Behind(me, me.inbox[i]) < cap
  }

  /** The left side is the one that connects, any number of times until it is connected;
      noise only reaches an endpoint whose peer has joined. */
  ghost predicate Allowed(net: Net, action: Action, cap: Capacity) {
    var me, peer := Me(net, action.side), Peer(net, action.side);
    match action
    case Deliver(_) => true
    case Drop(_, _) => true
    case Noise(_) => peer.ep.conn != Disconnected
    case Send(_, _) => me.ep.conn == Connected && WindowOpen(me, peer, cap)
    case Join(side) => side == Left && me.ep.conn != Connected
  }

  // ----- Tagged channels: `tags[i]` is the absolute position a frame in flight stands for -----

  /** Number of payloads that have fallen out of history. */
  function Base(ep: Endpoint, written: seq<Payload>): int { |written| - |ep.history| }

  ghost predicate DataOk(frames: seq<Frame>, tags: seq<nat>, written: seq<Payload>, accepted: nat,
                         cap: Capacity)
  {
    && |frames| == |tags|
    && (forall p :: 0 <= p < |frames| && IsData(frames[p]) ==>
          Carries(frames[p], written, tags[p]) && accepted <= tags[p] + cap)
    && (forall p, q :: 0 <= p < q < |frames| && IsData(frames[p]) && IsData(frames[q]) ==>
          tags[p] < tags[q] + cap)
  }

  predicate Asks(frame: Frame, tag: nat) {
    if frame.kind == Nak then frame.num == Wrap(tag) else tag == 0
  }

  ghost predicate RequestsOk(frames: seq<Frame>, tags: seq<nat>, base: int, accepted: nat) {
    && |frames| == |tags|
    && (forall p :: 0 <= p < |frames| && IsRequest(frames[p]) ==>
          Asks(frames[p], tags[p]) && base <= tags[p] <= accepted)
    && (forall p, q :: 0 <= p < q < |frames| && IsRequest(frames[p]) && IsRequest(frames[q]) ==>
          tags[p] <= tags[q])
  }

  /** The direction in which `me` writes and `peer` accepts. */
  ghost predicate Direction(me: End, peer: End, data: seq<nat>, requests: seq<nat>, cap: Capacity) {
    && LogAgrees(me.ep, me.written, cap)
    && peer.accepted <= me.written
    && peer.ep.rxSeq == Wrap(|peer.accepted|)
    && Base(me.ep, me.written) <= |peer.accepted|
    && DataOk(peer.inbox, data, me.written, |peer.accepted|, cap)
    && RequestsOk(me.inbox, requests, Base(me.ep, me.written), |peer.accepted|)
  }

  // ----- Channel lemmas -----

  lemma DataTail(frames: seq<Frame>, tags: seq<nat>, written: seq<Payload>, accepted: nat,
                 cap: Capacity)
    requires DataOk(frames, tags, written, accepted, cap) && frames != []
    ensures DataOk(frames[1..], tags[1..], written, accepted, cap)
    ensures IsData(frames[0]) && tags[0] == accepted ==>
              DataOk(frames[1..], tags[1..], written, accepted + 1, cap)
  {
    hide Carries, IsData;
  }

  lemma DataAppend(frames: seq<Frame>, tags: seq<nat>, more: seq<Frame>, moreTags: seq<nat>,
                   written: seq<Payload>, accepted: nat, cap: Capacity)
    requires DataOk(frames, tags, written, accepted, cap) && accepted <= |written|
    requires |more| == |moreTags|
    requires forall j :: 0 <= j < |more| && IsData(more[j]) ==>
               Carries(more[j], written, moreTags[j]) && |written| <= moreTags[j] + cap
    ensures DataOk(frames + more, tags + moreTags, written, accepted, cap)
  {
    hide Wrap, IsData;
  }

  lemma DataWritten(frames: seq<Frame>, tags: seq<nat>, written: seq<Payload>, payload: Payload,
                    accepted: nat, cap: Capacity)
    requires DataOk(frames, tags, written, accepted, cap)
    ensures DataOk(frames, tags, written + [payload], accepted, cap)
  {
    hide Wrap, IsData;
  }

  lemma DataDrop(frames: seq<Frame>, tags: seq<nat>, at: nat, written: seq<Payload>, accepted: nat,
                 cap: Capacity)
    requires DataOk(frames, tags, written, accepted, cap) && at < |frames|
    ensures DataOk(frames[..at] + frames[at + 1..], tags[..at] + tags[at + 1..], written, accepted, cap)
  {
    hide Carries, IsData;
  }

  lemma RequestsAppend(frames: seq<Frame>, tags: seq<nat>, more: seq<Frame>, moreTags: seq<nat>,
                       base: int, accepted: nat)
    requires RequestsOk(frames, tags, base, accepted) && base <= accepted
    requires |more| == |moreTags|
    requires forall j :: 0 <= j < |more| && IsRequest(more[j]) ==>
               Asks(more[j], moreTags[j]) && moreTags[j] == accepted
    ensures RequestsOk(frames + more, tags + moreTags, base, accepted)
  {
    hide Asks, IsRequest;
  }

  lemma RequestsDrop(frames: seq<Frame>, tags: seq<nat>, at: nat, base: int, accepted: nat)
    requires RequestsOk(frames, tags, base, accepted) && at < |frames|
    ensures RequestsOk(frames[..at] + frames[at + 1..], tags[..at] + tags[at + 1..], base, accepted)
  {
    hide Asks, IsRequest;
  }

  // ----- One reaction keeps both directions -----

  /** An outcome at `me`, after taking `k` frames from its inbox, that respects both logs:
      `sentTags` are the positions its frames stand for. */
  ghost predicate GoodOutcome(me: End, peer: End, tags: seq<nat>, k: nat, o: Outcome,
                              sentTags: seq<nat>, cap: Capacity)
    requires k <= 1 && k <= |me.inbox| == |tags|
  {
    && |sentTags| == |o.sent| && !o.underrun && DIS !in o.sent
    && LogAgrees(o.ep, me.written, cap)
    && Base(o.ep, me.written) <= |peer.accepted|
    && (forall q :: k <= q < |me.inbox| && IsRequest(me.inbox[q]) ==>
          Base(o.ep, me.written) <= tags[q])
    && (forall j :: 0 <= j < |o.sent| && IsData(o.sent[j]) ==>
          Carries(o.sent[j], me.written, sentTags[j]) && |me.written| <= sentTags[j] + cap)
    && (forall j :: 0 <= j < |o.sent| && IsRequest(o.sent[j]) ==>
          Asks(o.sent[j], sentTags[j]) && sentTags[j] == |me.accepted|)
    && (if o.accepted == [] then o.ep.rxSeq == me.ep.rxSeq
        else k == 1 && IsData(me.inbox[0]) && tags[0] == |me.accepted|
             && o.accepted == [me.inbox[0].payload] && o.sent == []
             && o.ep.rxSeq == Next(me.ep.rxSeq))
  }

  lemma KeepsWriting(me: End, peer: End, tm: seq<nat>, tp: seq<nat>, k: nat, o: Outcome,
                     ts: seq<nat>, cap: Capacity)
    requires k <= 1 && k <= |me.inbox| == |tm|
    requires Direction(me, peer, tp, tm, cap)
    requires GoodOutcome(me, peer, tm, k, o, ts, cap)
    ensures Direction(Acted(me.(inbox := me.inbox[k..]), o), peer.(inbox := peer.inbox + o.sent),
                      tp + ts, tm[k..], cap)
  {
    hide Wrap, Carries, Asks, IsData, IsRequest, LogAgrees;
    DataAppend(peer.inbox, tp, o.sent, ts, me.written, |peer.accepted|, cap);
  }

  lemma KeepsReading(me: End, peer: End, tm: seq<nat>, tp: seq<nat>, k: nat, o: Outcome,
                     ts: seq<nat>, cap: Capacity)
    requires k <= 1 && k <= |me.inbox| == |tm|
    requires Direction(peer, me, tm, tp, cap)
    requires GoodOutcome(me, peer, tm, k, o, ts, cap)
    ensures Direction(peer.(inbox := peer.inbox + o.sent), Acted(me.(inbox := me.inbox[k..]), o),
                      tm[k..], tp + ts, cap)
  {
    var accepted := me.accepted + o.accepted;
    if k == 1 {
      DataTail(me.inbox, tm, peer.written, |me.accepted|, cap);
    } else {
      assert me.inbox[k..] == me.inbox && tm[k..] == tm;
    }
    if o.accepted != [] {
      assert Carries(me.inbox[0], peer.written, |me.accepted|);
      WrapWrap(|me.accepted|, 1);
      assert peer.inbox + [] == peer.inbox && tp + ts == tp;
    } else {
      RequestsAppend(peer.inbox, tp, o.sent, ts, Base(peer.ep, peer.written), |me.accepted|);
      assert accepted == me.accepted;
    }
    hide Wrap, IsRequest, Asks, LogAgrees;
  }

  // ----- The outcomes that occur -----

  /** A reaction that sends at most one control frame and leaves the numbers alone. */
  ghost predicate PlainAnswer(me: End, o: Outcome) {
    && o.ep == me.ep.(conn := o.ep.conn) && !o.underrun && o.accepted == []
    && (o.sent == [] || (|o.sent| == 1 && !IsData(o.sent[0]) && o.sent[0] != DIS
                         && (IsRequest(o.sent[0]) ==> Asks(o.sent[0], |me.accepted|))))
  }

  /** Answering with one control frame, or not at all, and leaving the numbers alone. */
  lemma AnswerIsGood(me: End, peer: End, tm: seq<nat>, tp: seq<nat>, k: nat, o: Outcome, cap: Capacity)
    returns (ts: seq<nat>)
    requires k <= 1 && k <= |me.inbox| == |tm|
    requires Direction(me, peer, tp, tm, cap)
    requires PlainAnswer(me, o)
    ensures GoodOutcome(me, peer, tm, k, o, ts, cap)
  {
    hide Wrap, IsData, IsRequest, Asks, Carries;
    ts := seq(|o.sent|, i => |me.accepted|);
  }

  /** Accepting the data frame at the head of the inbox. */
  lemma AcceptIsGood(me: End, peer: End, tm: seq<nat>, tp: seq<nat>, cap: Capacity)
    requires Direction(me, peer, tp, tm, cap) && Direction(peer, me, tm, tp, cap)
    requires me.inbox != [] && IsData(me.inbox[0]) && me.inbox[0].num == me.ep.rxSeq
    ensures GoodOutcome(me, peer, tm, 1,
              Outcome(me.ep.(rxSeq := Next(me.ep.rxSeq)), [], [me.inbox[0].payload], false), [], cap)
  {
    assert Carries(me.inbox[0], peer.written, tm[0]);
    assert Base(peer.ep, peer.written) <= |me.accepted| <= |peer.written|;
    WrapInjective(tm[0], |me.accepted|);
    hide Wrap, IsRequest, Asks;
  }

  lemma RequestPosition(me: End, peer: End, tm: seq<nat>, tp: seq<nat>, s: SeqNum, cap: Capacity)
    requires Direction(me, peer, tp, tm, cap)
    requires me.inbox != [] && IsRequest(me.inbox[0]) && s == Wrap(tm[0]) && s != me.ep.txSeq
    ensures Base(me.ep, me.written) <= tm[0] < |me.written| && tm[0] <= |peer.accepted|
    ensures forall q :: 1 <= q < |me.inbox| && IsRequest(me.inbox[q]) ==> tm[0] <= tm[q]
  {
    hide Wrap, Asks, IsRequest, DataOk;
  }

  lemma RetransmitTags(ep: Endpoint, written: seq<Payload>, s: SeqNum, start: nat, cap: Capacity)
    returns (ts: seq<nat>)
    requires LogAgrees(ep, written, cap)
    requires Base(ep, written) <= start < |written| && s == Wrap(start)
    ensures var o := TransmitHistoryFrom(ep, s);
            && !o.underrun && LogAgrees(o.ep, written, cap) && Base(o.ep, written) == start
            && o.ep.rxSeq == ep.rxSeq && o.accepted == [] && |ts| == |o.sent|
            && forall j :: 0 <= j < |o.sent| ==>
                 o.sent[j].kind == Rtx && Carries(o.sent[j], written, ts[j]) && start <= ts[j]
  {
    RetransmitFromLog(ep, written, cap, s, start);
    ts := seq(|written| - start, i requires 0 <= i => start + i);
    hide Wrap, FastForward, Retransmissions, Carries, LogAgrees;
  }

  /** Answering a request at the head of the inbox with the payloads from its position on. */
  lemma RetransmitIsGood(me: End, peer: End, tm: seq<nat>, tp: seq<nat>, s: SeqNum, cap: Capacity)
    returns (ts: seq<nat>)
    requires Direction(me, peer, tp, tm, cap)
    requires me.inbox != [] && IsRequest(me.inbox[0]) && s == Wrap(tm[0]) && s != me.ep.txSeq
    ensures GoodOutcome(me, peer, tm, 1, TransmitHistoryFrom(me.ep, s), ts, cap)
  {
    RequestPosition(me, peer, tm, tp, s, cap);
    assert |me.written| <= tm[0] + cap;
    hide Wrap, TransmitHistoryFrom, Carries, LogAgrees, DataOk, RequestsOk;
    ts := RetransmitTags(me.ep, me.written, s, tm[0], cap);
  }

  lemma RetransmissionsAreData(ep: Endpoint, s: SeqNum)
    ensures var o := TransmitHistoryFrom(ep, s);
            && o.accepted == [] && o.ep.conn == ep.conn && o.ep.rxSeq == ep.rxSeq
            && forall j :: 0 <= j < |o.sent| ==> o.sent[j].kind == Rtx
  {
    hide Wrap, FastForward;
  }

  // ----- A connected endpoint, and the two handshake answers that retransmit -----

  lemma DataOutcome(me: End, peer: End, tm: seq<nat>, tp: seq<nat>, cap: Capacity)
    returns (ts: seq<nat>)
    requires Direction(me, peer, tp, tm, cap) && Direction(peer, me, tm, tp, cap)
    requires me.inbox != [] && IsData(me.inbox[0]) && me.ep.conn == Connected
    ensures GoodOutcome(me, peer, tm, 1, OnArrival(me.ep, me.inbox[0]), ts, cap)
  {
    var frame := me.inbox[0];
    hide Wrap, GoodOutcome, DataOk, RequestsOk, LogAgrees;
    if frame.num == me.ep.rxSeq && OnArrival(me.ep, frame) == OnFrame(me.ep, frame) {
      AcceptIsGood(me, peer, tm, tp, cap);
      ts := [];
    } else {
      ts := AnswerIsGood(me, peer, tm, tp, 1, OnArrival(me.ep, frame), cap);
    }
  }

  lemma NakOutcome(me: End, peer: End, tm: seq<nat>, tp: seq<nat>, cap: Capacity)
    returns (ts: seq<nat>)
    requires Direction(me, peer, tp, tm, cap)
    requires me.inbox != [] && IsNak(me.inbox[0]) && me.ep.conn == Connected
    ensures GoodOutcome(me, peer, tm, 1, OnArrival(me.ep, me.inbox[0]), ts, cap)
  {
    var s := me.inbox[0].num;
    assert s == Wrap(tm[0]);
    hide Wrap, TransmitHistoryFrom, GoodOutcome, Direction;
    if s != me.ep.txSeq {
      ts := RetransmitIsGood(me, peer, tm, tp, s, cap);
    } else {
      ts := AnswerIsGood(me, peer, tm, tp, 1, Silent(me.ep), cap);
    }
  }

  lemma Syn2Outcome(me: End, peer: End, tm: seq<nat>, tp: seq<nat>, cap: Capacity)
    returns (ts: seq<nat>)
    requires Direction(me, peer, tp, tm, cap)
    requires me.inbox != [] && me.inbox[0] == SYN2
    requires me.ep.conn == SentSyn1 || me.ep.conn == Connected
    ensures GoodOutcome(me, peer, tm, 1, OnArrival(me.ep, SYN2), ts, cap)
  {
    assert 0 == Wrap(tm[0]);
    hide Wrap, TransmitHistoryFrom, Direction, RequestsOk;
    if me.ep.txSeq != 0 {
      ts := RetransmitIsGood(me, peer, tm, tp, 0, cap);
    } else {
      ts := AnswerIsGood(me, peer, tm, tp, 1, Silent(me.ep), cap);
    }
  }

  lemma PrefixSyn2(me: End, peer: End, tm: seq<nat>, o: Outcome, ts: seq<nat>, cap: Capacity)
    requires 1 <= |me.inbox| == |tm| && me.accepted == [] && o.accepted == []
    requires GoodOutcome(me, peer, tm, 1, o, ts, cap)
    ensures GoodOutcome(me, peer, tm, 1,
                        Outcome(o.ep.(conn := Connected), [SYN2] + o.sent, [], o.underrun),
                        [0] + ts, cap)
  {
    hide Wrap, Carries;
  }

  lemma Syn1Outcome(me: End, peer: End, tm: seq<nat>, tp: seq<nat>, cap: Capacity)
    returns (ts: seq<nat>)
    requires Direction(me, peer, tp, tm, cap)
    requires me.inbox != [] && me.inbox[0] == SYN1 && me.accepted == []
    requires me.ep.conn != Disconnected
    ensures GoodOutcome(me, peer, tm, 1, OnArrival(me.ep, SYN1), ts, cap)
  {
    assert 0 == Wrap(tm[0]);
    RetransmissionsAreData(me.ep, 0);
    hide Wrap, TransmitHistoryFrom, Direction, RequestsOk, GoodOutcome;
    if me.ep.txSeq != 0 {
      ts := RetransmitIsGood(me, peer, tm, tp, 0, cap);
    } else {
      ts := AnswerIsGood(me, peer, tm, tp, 1, Silent(me.ep), cap);
    }
    PrefixSyn2(me, peer, tm, TransmitAllUnlessInitial(me.ep), ts, cap);
    ts := [0] + ts;
  }

  /** What can stand at the head of an inbox in a run of the protocol. */
  ghost predicate Expected(me: End, frame: Frame) {
    || (frame == SYN1 && me.accepted == [] && me.ep.conn != Disconnected)
    || (frame == SYN2 && (me.ep.conn == SentSyn1 || me.ep.conn == Connected))
    || (me.ep.conn == Connected && (IsData(frame) || IsNak(frame)))
    || PlainAnswer(me, OnArrival(me.ep, frame))
  }

  lemma ExpectedIsGood(me: End, peer: End, tm: seq<nat>, tp: seq<nat>, cap: Capacity)
    returns (ts: seq<nat>)
    requires Direction(me, peer, tp, tm, cap) && Direction(peer, me, tm, tp, cap)
    requires me.inbox != [] && |tm| == |me.inbox| && Expected(me, me.inbox[0])
    ensures GoodOutcome(me, peer, tm, 1, OnArrival(me.ep, me.inbox[0]), ts, cap)
  {
    var frame := me.inbox[0];
    hide Wrap, OnArrival, GoodOutcome, Direction, IsData, IsNak, Asks, IsRequest;
    if frame == SYN1 && me.accepted == [] && me.ep.conn != Disconnected {
      ts := Syn1Outcome(me, peer, tm, tp, cap);
    } else if frame == SYN2 && (me.ep.conn == SentSyn1 || me.ep.conn == Connected) {
      ts := Syn2Outcome(me, peer, tm, tp, cap);
    } else if me.ep.conn == Connected && IsData(frame) {
      ts := DataOutcome(me, peer, tm, tp, cap);
    } else if me.ep.conn == Connected && IsNak(frame) {
      ts := NakOutcome(me, peer, tm, tp, cap);
    } else {
      ts := AnswerIsGood(me, peer, tm, tp, 1, OnArrival(me.ep, frame), cap);
    }
  }

  // ----- Handshake phases -----

  predicate Pristine(me: End) {
    && me.ep.rxSeq == 0 && me.ep.txSeq == 0 && me.ep.history == []
    && me.written == [] && me.accepted == []
  }

  /** Who can be in which state with which frames in flight, when only the left side connects. */
  ghost predicate Phase(net: Net) {
    var left, right := net.left, net.right;
    && left.ep.conn != SentSyn1 && right.ep.conn != SentSyn0
    && (right.ep.conn == Connected ==> left.ep.conn == Connected)
    && (left.ep.conn == Connected ==> right.ep.conn != Disconnected)
    && (left.ep.conn == Disconnected ==>
          right.ep.conn == Disconnected && left.inbox == [] && right.inbox == [])
    && (left.ep.conn != Connected ==> Pristine(left))
    && (right.ep.conn != Connected ==> Pristine(right) && left.accepted == [])
    && RightInboxOk(right.inbox, left.ep.conn, right.ep.conn)
    && LeftInboxOk(left.inbox, right.ep.conn, left.accepted)
  }

  ghost predicate RightInboxOk(inbox: seq<Frame>, left: Conn, right: Conn) {
    && (forall p :: 0 <= p < |inbox| ==>
          inbox[p] == SYN0 || inbox[p] == SYN2 || IsData(inbox[p]) || IsNak(inbox[p]))
    && (left != Connected ==>
          forall p :: 0 <= p < |inbox| ==> inbox[p] == SYN0 || IsNak(inbox[p]))
    && (right == Disconnected ==> forall p :: 0 <= p < |inbox| ==> inbox[p] == SYN0)
    && (right == Connected ==> forall p :: 0 <= p < |inbox| ==> inbox[p] != SYN0)
    && (forall p, q :: 0 <= p < q < |inbox| && inbox[p] == SYN2 ==> inbox[q] != SYN0)
  }

  ghost predicate LeftInboxOk(inbox: seq<Frame>, right: Conn, accepted: seq<Payload>) {
    && (forall p :: 0 <= p < |inbox| ==> inbox[p] == SYN1 || IsData(inbox[p]) || IsNak(inbox[p]))
    && (right != Connected ==>
          forall p :: 0 <= p < |inbox| ==> inbox[p] == SYN1 || IsNak(inbox[p]))
    && (right == Disconnected ==> forall p :: 0 <= p < |inbox| ==> IsNak(inbox[p]))
    && (accepted != [] ==> forall p :: 0 <= p < |inbox| ==> inbox[p] != SYN1)
    && (forall p, q :: 0 <= p < q < |inbox| && IsData(inbox[p]) ==> inbox[q] != SYN1)
  }

  lemma RightInboxTail(inbox: seq<Frame>, left: Conn, right: Conn)
    requires inbox != [] && RightInboxOk(inbox, left, right)
    ensures RightInboxOk(inbox[1..], left,
                         if inbox[0] == SYN0 then SentSyn1 else if inbox[0] == SYN2 then Connected
                         else right)
  {
    hide IsData, IsNak;
  }

  lemma RightInboxAppend(inbox: seq<Frame>, more: seq<Frame>, left: Conn, left': Conn, right: Conn)
    requires RightInboxOk(inbox, left, right) && (left == Connected ==> left' == Connected)
    requires right == Disconnected ==> left' != Connected
    requires left' == Connected ==>
      forall j :: 0 <= j < |more| ==> more[j] == SYN2 || IsData(more[j]) || IsNak(more[j])
    requires left' != Connected ==>
      right != Connected && forall j :: 0 <= j < |more| ==>
        more[j] == SYN0 || (IsNak(more[j]) && right != Disconnected)
    ensures RightInboxOk(inbox + more, left', right)
  {
    assert !IsData(SYN0) && !IsNak(SYN0) && !IsNak(SYN2);
    hide IsData, IsNak;
  }

  lemma LeftInboxTail(inbox: seq<Frame>, right: Conn, accepted: seq<Payload>, accepted': seq<Payload>)
    requires inbox != [] && LeftInboxOk(inbox, right, accepted)
    requires accepted' == accepted || IsData(inbox[0])
    ensures LeftInboxOk(inbox[1..], right, accepted')
  {
    hide IsData, IsNak;
  }

  lemma LeftInboxAppend(inbox: seq<Frame>, more: seq<Frame>, right: Conn, right': Conn,
                        accepted: seq<Payload>)
    requires LeftInboxOk(inbox, right, accepted) && (right == Connected ==> right' == Connected)
    requires right' == Disconnected ==>
      right == Disconnected && forall j :: 0 <= j < |more| ==> IsNak(more[j])
    requires right' != Connected ==> accepted == []
    requires forall j :: 0 <= j < |more| ==>
      (more[j] == SYN1 && right' != Connected) || (IsData(more[j]) && right' == Connected)
      || IsNak(more[j])
    ensures LeftInboxOk(inbox + more, right', accepted)
  {
    assert !IsData(SYN1) && !IsNak(SYN1) && forall f: Frame :: !(IsData(f) && IsNak(f));
    hide IsData, IsNak;
  }

  lemma RightInboxDrop(inbox: seq<Frame>, at: nat, left: Conn, right: Conn)
    requires at < |inbox| && RightInboxOk(inbox, left, right)
    ensures RightInboxOk(inbox[..at] + inbox[at + 1..], left, right)
  {
    hide IsData, IsNak;
  }

  lemma LeftInboxDrop(inbox: seq<Frame>, at: nat, right: Conn, accepted: seq<Payload>)
    requires at < |inbox| && LeftInboxOk(inbox, right, accepted)
    ensures LeftInboxOk(inbox[..at] + inbox[at + 1..], right, accepted)
  {
    hide IsData, IsNak;
  }

  // ----- The invariant -----

  ghost predicate Invariant(net: Net, toLeft: seq<nat>, toRight: seq<nat>, cap: Capacity) {
    && Phase(net)
    && Direction(net.left, net.right, toRight, toLeft, cap)
    && Direction(net.right, net.left, toLeft, toRight, cap)
    && !net.left.underrun && !net.left.sentDis && !net.right.underrun && !net.right.sentDis
  }

  /** One reaction: if its outcome is good and the phases stay right, the invariant is kept. */
  lemma ReactKeeps(net: Net, side: Side, k: nat, o: Outcome, toLeft: seq<nat>, toRight: seq<nat>,
                   ts: seq<nat>, cap: Capacity)
    returns (toLeft': seq<nat>, toRight': seq<nat>)
    requires Invariant(net, toLeft, toRight, cap)
    requires k <= 1 && k <= |Me(net, side).inbox|
    requires GoodOutcome(Me(net, side), Peer(net, side), if side == Left then toLeft else toRight,
                         k, o, ts, cap)
    requires Phase(React(net, side, Me(net, side).(inbox := Me(net, side).inbox[k..]), o))
    ensures Invariant(React(net, side, Me(net, side).(inbox := Me(net, side).inbox[k..]), o),
                      toLeft', toRight', cap)
  {
    var me, peer := Me(net, side), Peer(net, side);
    var tm, tp := if side == Left then toLeft else toRight, if side == Left then toRight else toLeft;
    assert |tm| == |me.inbox|;
    hide Phase, Direction;
    KeepsWriting(me, peer, tm, tp, k, o, ts, cap);
    KeepsReading(me, peer, tm, tp, k, o, ts, cap);
    if side == Left {
      toLeft', toRight' := toLeft[k..], toRight + ts;
    } else {
      toLeft', toRight' := toLeft + ts, toRight[k..];
    }
  }

  lemma RightExpects(net: Net)
    requires Phase(net) && net.right.inbox != []
    ensures Expected(net.right, net.right.inbox[0])
  {
    assert Wrap(0) == 0;
    hide LeftInboxOk, Wrap, OnSyn1, OnSyn2, OnNak;
  }

  lemma DeliverRight(net: Net, toLeft: seq<nat>, toRight: seq<nat>, cap: Capacity)
    returns (toLeft': seq<nat>, toRight': seq<nat>)
    requires Invariant(net, toLeft, toRight, cap) && net.right.inbox != []
    ensures Invariant(Do(net, Deliver(Right), cap), toLeft', toRight', cap)
  {
    var me := net.right;
    var o := OnArrival(me.ep, me.inbox[0]);
    PhaseAfterRight(net, cap);
    RightExpects(net);
    hide OnArrival, Expected, GoodOutcome, Phase, Direction;
    var ts := ExpectedIsGood(me, net.left, toRight, toLeft, cap);
    toLeft', toRight' := ReactKeeps(net, Right, 1, o, toLeft, toRight, ts, cap);
  }

  /** What the right side can answer, and the connection state it ends in. */
  lemma RightReaction(net: Net)
    requires Phase(net) && net.right.inbox != []
    ensures var ep, frame := net.right.ep, net.right.inbox[0];
            var o := OnArrival(ep, frame);
            && o.ep.conn == (if frame == SYN0 then SentSyn1 else if frame == SYN2 then Connected
                             else ep.conn)
            && o.ep.conn != Disconnected
            && (forall j :: 0 <= j < |o.sent| ==>
                  (o.sent[j] == SYN1 && o.ep.conn != Connected)
                  || (IsData(o.sent[j]) && o.ep.conn == Connected) || IsNak(o.sent[j]))
            && (o.ep.conn != Connected ==> o.ep == Endpoint(o.ep.conn, 0, 0, []) && o.accepted == [])
  {
    var ep, frame := net.right.ep, net.right.inbox[0];
    RetransmissionsAreData(ep, 0);
    RetransmissionsAreData(ep, frame.num);
    hide Wrap, TransmitHistoryFrom, LeftInboxOk;
  }

  lemma PhaseAfterRight(net: Net, cap: Capacity)
    requires Phase(net) && net.right.inbox != []
    ensures Phase(Do(net, Deliver(Right), cap))
  {
    var left, right := net.left, net.right;
    var o := OnArrival(right.ep, right.inbox[0]);
    RightReaction(net);
    RightInboxTail(right.inbox, left.ep.conn, right.ep.conn);
    LeftInboxAppend(left.inbox, o.sent, right.ep.conn, o.ep.conn, left.accepted);
    hide OnArrival, RightInboxOk, LeftInboxOk;
  }

  lemma LeftExpects(net: Net)
    requires Phase(net) && net.left.inbox != []
    ensures Expected(net.left, net.left.inbox[0])
  {
    hide RightInboxOk, Wrap, OnSyn1, OnSyn2;
  }

  lemma LeftReaction(net: Net)
    requires Phase(net) && net.left.inbox != []
    ensures var ep, frame := net.left.ep, net.left.inbox[0];
            var o := OnArrival(ep, frame);
            && o.ep.conn == (if frame == SYN1 then Connected else ep.conn)
            && (forall j :: 0 <= j < |o.sent| ==>
                  (o.sent[j] == SYN2 && o.ep.conn == Connected)
                  || (o.sent[j] == SYN0 && o.ep.conn != Connected)
                  || (IsData(o.sent[j]) && o.ep.conn == Connected)
                  || (IsNak(o.sent[j]) && o.ep.conn == Connected))
            && (o.ep.conn != Connected ==> o.ep == ep && o.accepted == [])
            && (o.accepted != [] ==> IsData(frame))
  {
    var ep, frame := net.left.ep, net.left.inbox[0];
    RetransmissionsAreData(ep, 0);
    RetransmissionsAreData(ep, frame.num);
    hide Wrap, TransmitHistoryFrom, RightInboxOk;
  }

  lemma PhaseAfterLeft(net: Net, cap: Capacity)
    requires Phase(net) && net.left.inbox != []
    ensures Phase(Do(net, Deliver(Left), cap))
  {
    var left, right := net.left, net.right;
    var o := OnArrival(left.ep, left.inbox[0]);
    LeftReaction(net);
    LeftInboxTail(left.inbox, right.ep.conn, left.accepted, left.accepted + o.accepted);
    RightInboxAppend(right.inbox, o.sent, left.ep.conn, o.ep.conn, right.ep.conn);
    hide OnArrival, RightInboxOk, LeftInboxOk;
  }

  lemma DeliverLeft(net: Net, toLeft: seq<nat>, toRight: seq<nat>, cap: Capacity)
    returns (toLeft': seq<nat>, toRight': seq<nat>)
    requires Invariant(net, toLeft, toRight, cap) && net.left.inbox != []
    ensures Invariant(Do(net, Deliver(Left), cap), toLeft', toRight', cap)
  {
    var me := net.left;
    var o := OnArrival(me.ep, me.inbox[0]);
    PhaseAfterLeft(net, cap);
    LeftExpects(net);
    hide OnArrival, Expected, GoodOutcome, Phase, Direction;
    var ts := ExpectedIsGood(me, net.right, toLeft, toRight, cap);
    toLeft', toRight' := ReactKeeps(net, Left, 1, o, toLeft, toRight, ts, cap);
  }

  lemma TagLengths(net: Net, toLeft: seq<nat>, toRight: seq<nat>, cap: Capacity)
    requires Invariant(net, toLeft, toRight, cap)
    ensures |toLeft| == |net.left.inbox| && |toRight| == |net.right.inbox|
  {
    hide Phase, LogAgrees;
  }

  lemma NoiseKeeps(net: Net, side: Side, toLeft: seq<nat>, toRight: seq<nat>, cap: Capacity)
    returns (toLeft': seq<nat>, toRight': seq<nat>)
    requires Invariant(net, toLeft, toRight, cap) && Allowed(net, Noise(side), cap)
    ensures Invariant(Do(net, Noise(side), cap), toLeft', toRight', cap)
  {
    var me, peer := Me(net, side), Peer(net, side);
    var tm, tp := if side == Left then toLeft else toRight, if side == Left then toRight else toLeft;
    var o := OnGarbled(me.ep);
    assert Asks(o.sent[0], |me.accepted|);
    PhaseAfterNoise(net, side);
    hide Wrap, Phase, GoodOutcome;
    var ts := AnswerIsGood(me, peer, tm, tp, 0, o, cap);
    assert me.(inbox := me.inbox[0..]) == me;
    toLeft', toRight' := ReactKeeps(net, side, 0, o, toLeft, toRight, ts, cap);
  }

  lemma PhaseAfterNoise(net: Net, side: Side)
    requires Phase(net) && Peer(net, side).ep.conn != Disconnected
    ensures Phase(React(net, side, Me(net, side), OnGarbled(Me(net, side).ep)))
  {
    var left, right := net.left, net.right;
    var nak := Frame(Nak, Me(net, side).ep.rxSeq, []);
    if side == Left {
      RightInboxAppend(right.inbox, [nak], left.ep.conn, left.ep.conn, right.ep.conn);
    } else {
      LeftInboxAppend(left.inbox, [nak], right.ep.conn, right.ep.conn, left.accepted);
    }
    hide RightInboxOk, LeftInboxOk;
  }

  lemma JoinResets(net: Net)
    requires Phase(net) && net.left.ep.conn != Connected
    ensures PlainAnswer(net.left, OnConnect(net.left.ep))
  {}

  lemma JoinKeeps(net: Net, toLeft: seq<nat>, toRight: seq<nat>, cap: Capacity)
    returns (toLeft': seq<nat>, toRight': seq<nat>)
    requires Invariant(net, toLeft, toRight, cap) && net.left.ep.conn != Connected
    ensures Invariant(Do(net, Join(Left), cap), toLeft', toRight', cap)
  {
    hide Phase, Direction, GoodOutcome, OnConnect, PlainAnswer;
    var me, peer := net.left, net.right;
    var o := OnConnect(me.ep);
    TagLengths(net, toLeft, toRight, cap);
    PhaseAfterJoin(net);
    JoinResets(net);
    assert me.(inbox := me.inbox[0..]) == me;
    var ts := AnswerIsGood(me, peer, toLeft, toRight, 0, o, cap);
    toLeft', toRight' := ReactKeeps(net, Left, 0, o, toLeft, toRight, ts, cap);
  }

  lemma PhaseAfterJoin(net: Net)
    requires Phase(net) && net.left.ep.conn != Connected
    ensures Phase(React(net, Left, net.left, OnConnect(net.left.ep)))
  {
    var left, right := net.left, net.right;
    RightInboxAppend(right.inbox, [SYN0], left.ep.conn, SentSyn0, right.ep.conn);
    hide RightInboxOk, LeftInboxOk;
  }

  lemma DropKeepsDirections(me: End, peer: End, at: nat, tm: seq<nat>, tp: seq<nat>, cap: Capacity)
    requires Direction(me, peer, tp, tm, cap) && Direction(peer, me, tm, tp, cap)
    requires at < |me.inbox| == |tm|
    ensures var me' := me.(inbox := me.inbox[..at] + me.inbox[at + 1..]);
            var tm' := tm[..at] + tm[at + 1..];
            Direction(me', peer, tp, tm', cap) && Direction(peer, me', tm', tp, cap)
  {
    hide Wrap, DataOk, RequestsOk, LogAgrees;
    DataDrop(me.inbox, tm, at, peer.written, |me.accepted|, cap);
    RequestsDrop(me.inbox, tm, at, Base(me.ep, me.written), |peer.accepted|);
  }

  lemma DropKeeps(net: Net, side: Side, at: nat, toLeft: seq<nat>, toRight: seq<nat>, cap: Capacity)
    returns (toLeft': seq<nat>, toRight': seq<nat>)
    requires Invariant(net, toLeft, toRight, cap) && at < |Me(net, side).inbox|
    ensures Invariant(Do(net, Drop(side, at), cap), toLeft', toRight', cap)
  {
    var me, peer := Me(net, side), Peer(net, side);
    var tm := if side == Left then toLeft else toRight;
    var tp := if side == Left then toRight else toLeft;
    PhaseAfterDrop(net, side, at, cap);
    DropKeepsDirections(me, peer, at, tm, tp, cap);
    hide Phase, Direction;
    var rest := tm[..at] + tm[at + 1..];
    toLeft', toRight' := if side == Left then rest else toLeft, if side == Left then toRight else rest;
  }

  lemma PhaseAfterDrop(net: Net, side: Side, at: nat, cap: Capacity)
    requires Phase(net) && at < |Me(net, side).inbox|
    ensures Phase(Do(net, Drop(side, at), cap))
  {
    var left, right := net.left, net.right;
    if side == Left {
      LeftInboxDrop(left.inbox, at, right.ep.conn, left.accepted);
    } else {
      RightInboxDrop(right.inbox, at, left.ep.conn, right.ep.conn);
    }
    hide RightInboxOk, LeftInboxOk;
  }

  // ----- Writing -----

  lemma BehindIsDistance(me: End, request: Frame, tag: nat)
    requires Asks(request, tag) && IsRequest(request) && 0 <= |me.written| - tag < SEQ_RANGE
    ensures Behind(me, request) == |me.written| - tag
  {
    hide Wrap;
    WrapWrap(tag, 0 - |me.written|);
    WrapWrap(tag, |me.written|);
    WrapSmall(|me.written| - tag);
  }

  lemma WindowBound(me: End, peer: End, tm: seq<nat>, tp: seq<nat>, cap: Capacity)
    requires Direction(me, peer, tp, tm, cap) && WindowOpen(me, peer, cap)
    ensures |me.written| + 1 - cap <= |peer.accepted|
    ensures forall q :: 0 <= q < |me.inbox| && IsRequest(me.inbox[q]) ==>
              |me.written| + 1 - cap <= tm[q]
  {
    forall q | 0 <= q < |me.inbox| && IsRequest(me.inbox[q])
      ensures |me.written| + 1 - cap <= tm[q]
    {
      BehindIsDistance(me, me.inbox[q], tm[q]);
    }
  }

  lemma WriteIsGood(me: End, peer: End, payload: Payload, tm: seq<nat>, tp: seq<nat>, cap: Capacity)
    requires Direction(me, peer, tp, tm, cap) && Direction(peer, me, tm, tp, cap)
    requires WindowOpen(me, peer, cap)
    ensures var me' := me.(written := me.written + [payload]);
            GoodOutcome(me', peer, tm, 0, OnWrite(me.ep, payload, cap), [|me.written|], cap)
            && Direction(peer, me', tm, tp, cap)
            && DataOk(peer.inbox, tp, me'.written, |peer.accepted|, cap)
  {
    WindowBound(me, peer, tm, tp, cap);
    WriteKeepsLog(me.ep, payload, me.written, cap);
    DataWritten(peer.inbox, tp, me.written, payload, |peer.accepted|, cap);
    hide Wrap, Carries, Asks, IsRequest, DataOk;
  }

  lemma SendKeeps(net: Net, side: Side, payload: Payload, toLeft: seq<nat>, toRight: seq<nat>,
                  cap: Capacity)
    returns (toLeft': seq<nat>, toRight': seq<nat>)
    requires Invariant(net, toLeft, toRight, cap)
    requires Possible(net, Send(side, payload)) && Allowed(net, Send(side, payload), cap)
    ensures Invariant(Do(net, Send(side, payload), cap), toLeft', toRight', cap)
  {
    var me, peer := Me(net, side), Peer(net, side);
    var tm, tp := if side == Left then toLeft else toRight, if side == Left then toRight else toLeft;
    var o := OnWrite(me.ep, payload, cap);
    var ts := [|me.written|];
    var me' := me.(written := me.written + [payload]);
    WriteIsGood(me, peer, payload, tm, tp, cap);
    PhaseAfterSend(net, side, payload, cap);
    WriteKeepsDirection(me, peer, payload, tm, tp, cap);
    hide Phase, OnWrite, GoodOutcome;
    KeepsReading(me', peer, tm, tp, 0, o, ts, cap);
    assert me'.(inbox := me'.inbox[0..]) == me' && tm[0..] == tm;
    toLeft', toRight' := if side == Left then tm else tp + ts, if side == Left then tp + ts else tm;
    hide Direction;
  }

  lemma WriteKeepsDirection(me: End, peer: End, payload: Payload, tm: seq<nat>, tp: seq<nat>,
                            cap: Capacity)
    requires Direction(me, peer, tp, tm, cap) && Direction(peer, me, tm, tp, cap)
    requires WindowOpen(me, peer, cap)
    ensures var o := OnWrite(me.ep, payload, cap);
            Direction(Acted(me.(written := me.written + [payload]), o),
                      peer.(inbox := peer.inbox + o.sent), tp + [|me.written|], tm, cap)
  {
    var written := me.written + [payload];
    WindowBound(me, peer, tm, tp, cap);
    WriteKeepsLog(me.ep, payload, me.written, cap);
    DataWritten(peer.inbox, tp, me.written, payload, |peer.accepted|, cap);
    var o := OnWrite(me.ep, payload, cap);
    DataAppend(peer.inbox, tp, o.sent, [|me.written|], written, |peer.accepted|, cap);
    hide Wrap, Carries, Asks, IsRequest, DataOk;
  }

  lemma PhaseAfterSend(net: Net, side: Side, payload: Payload, cap: Capacity)
    requires Phase(net) && |payload| <= 256 && Me(net, side).ep.conn == Connected
    ensures Phase(Do(net, Send(side, payload), cap))
  {
    var left, right := net.left, net.right;
    var usr := Frame(Usr, Me(net, side).ep.txSeq, payload);
    if side == Left {
      RightInboxAppend(right.inbox, [usr], Connected, Connected, right.ep.conn);
    } else {
      LeftInboxAppend(left.inbox, [usr], Connected, Connected, left.accepted);
    }
    hide RightInboxOk, LeftInboxOk, Wrap, PushBack;
  }

  // ----- Every step, every run -----

  lemma StepKeeps(net: Net, action: Action, toLeft: seq<nat>, toRight: seq<nat>, cap: Capacity)
    returns (toLeft': seq<nat>, toRight': seq<nat>)
    requires Invariant(net, toLeft, toRight, cap)
    requires Possible(net, action) && Allowed(net, action, cap)
    ensures Invariant(Do(net, action, cap), toLeft', toRight', cap)
  {
    hide Invariant, Do;
    match action
    case Deliver(side) =>
      if side == Left {
        toLeft', toRight' := DeliverLeft(net, toLeft, toRight, cap);
      } else {
        toLeft', toRight' := DeliverRight(net, toLeft, toRight, cap);
      }
    case Drop(side, at) => toLeft', toRight' := DropKeeps(net, side, at, toLeft, toRight, cap);
    case Noise(side) => toLeft', toRight' := NoiseKeeps(net, side, toLeft, toRight, cap);
    case Send(side, payload) => toLeft', toRight' := SendKeeps(net, side, payload, toLeft, toRight, cap);
    case Join(side) => toLeft', toRight' := JoinKeeps(net, toLeft, toRight, cap);
  }

  lemma FreshHolds(cap: Capacity)
    ensures Invariant(FRESH_NET, [], [], cap)
  {
    assert Wrap(0) == 0;
  }

  ghost predicate AllowedRun(states: seq<Net>, actions: seq<Action>, cap: Capacity) {
    IsRun(states, actions, cap, (net, action) => Allowed(net, action, cap))
  }

  ghost predicate SafeRun(states: seq<Net>, actions: seq<Action>, cap: Capacity) {
    AllowedRun(states, actions, cap) && states[0] == FRESH_NET
  }

  lemma AllowedStep(states: seq<Net>, actions: seq<Action>, i: nat, cap: Capacity)
    requires AllowedRun(states, actions, cap) && i < |actions|
    ensures Possible(states[i], actions[i]) && Allowed(states[i], actions[i], cap)
            && states[i + 1] == Do(states[i], actions[i], cap)
  {
    hide Do, Allowed, Possible;
  }

  lemma {:induction false} AllowedKeeps(states: seq<Net>, actions: seq<Action>, n: nat,
                                        toLeft: seq<nat>, toRight: seq<nat>, cap: Capacity)
    returns (toLeft': seq<nat>, toRight': seq<nat>)
    requires AllowedRun(states, actions, cap) && n <= |actions|
    requires Invariant(states[0], toLeft, toRight, cap)
    ensures Invariant(states[n], toLeft', toRight', cap)
  {
    hide Invariant, Do, Allowed;
    if n == 0 {
      toLeft', toRight' := toLeft, toRight;
    } else {
      toLeft', toRight' := AllowedKeeps(states, actions, n - 1, toLeft, toRight, cap);
      AllowedStep(states, actions, n - 1, cap);
      hide AllowedRun;
      toLeft', toRight' := StepKeeps(states[n - 1], actions[n - 1], toLeft', toRight', cap);
    }
  }

  lemma RunKeeps(states: seq<Net>, actions: seq<Action>, n: nat, cap: Capacity)
    returns (toLeft: seq<nat>, toRight: seq<nat>)
    requires SafeRun(states, actions, cap) && n <= |actions|
    ensures Invariant(states[n], toLeft, toRight, cap)
  {
    hide Invariant, AllowedRun;
    FreshHolds(cap);
    toLeft, toRight := AllowedKeeps(states, actions, n, [], [], cap);
  }

  /** The end-to-end theorem, in both directions and in every state of every run. */
  lemma EndToEndSafety(states: seq<Net>, actions: seq<Action>, n: nat, cap: Capacity)
    requires SafeRun(states, actions, cap) && n <= |actions|
    ensures var left, right := states[n].left, states[n].right;
            && !left.sentDis && !right.sentDis && !left.underrun && !right.underrun
            && right.accepted <= left.written && left.accepted <= right.written
  {
    var _, _ := RunKeeps(states, actions, n, cap);
    hide SafeRun;
  }
}
