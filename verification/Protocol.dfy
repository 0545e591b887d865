/**
 One end of the link at frame level: connection state, sequence numbers and the bounded history
 of sent payloads, with the reaction to every kind of frame. The class in Context.dfy is proved
 to implement these functions.
 */
module Protocol {
  import opened Crc
  import opened Framing

  type Payload = seq<Octet>

  /** Sequence numbers have six bits. */
  const SEQ_RANGE: nat := 64
  type SeqNum = s: nat | s < SEQ_RANGE

  datatype Kind = Usr | Rtx | Nak | Syn

  datatype Frame = Frame(kind: Kind, num: SeqNum, payload: Payload)

  const SYN0: Frame := Frame(Syn, 0, [])
  const SYN1: Frame := Frame(Syn, 1, [])
  const SYN2: Frame := Frame(Syn, 2, [])
  const DIS: Frame := Frame(Syn, 3, [])

  function Wrap(x: int): SeqNum { x % SEQ_RANGE }

  function Next(s: SeqNum): SeqNum { Wrap(s + 1) }

  lemma WrapPeriod(x: int, q: int)
    ensures Wrap(x + SEQ_RANGE * q) == Wrap(x)
  {}

  lemma WrapWrap(x: int, y: int)
    ensures Wrap(Wrap(x) + y) == Wrap(x + y)
    ensures Wrap(y - Wrap(x)) == Wrap(y - x)
  {
    var q := x / SEQ_RANGE;
    assert x == SEQ_RANGE * q + Wrap(x);
    hide Wrap;
    WrapPeriod(x + y, 0 - q);
    WrapPeriod(y - x, q);
  }

  lemma WrapInjective(x: int, y: int)
    requires -64 < x - y < 64
    ensures Wrap(x) == Wrap(y) <==> x == y
  {}

  lemma WrapSmall(x: int)
    requires 0 <= x < SEQ_RANGE
    ensures Wrap(x) == x
  {}

  // ----- Headers -----

  function KindBits(kind: Kind): Octet {
    match kind case Usr => 0 case Rtx => 1 case Nak => 2 case Syn => 3
  }

  function HeaderOf(kind: Kind, s: SeqNum): Octet { (KindBits(kind) << 6) | (s as bv8) }

  function KindOf(header: Octet): Kind {
    var bits := (header >> 6) & 3;
    if bits == 0 then Usr else if bits == 1 then Rtx else if bits == 2 then Nak else Syn
  }

  function SeqOf(header: Octet): SeqNum { (header & 63) as nat }

  lemma HeaderBits(bits: Octet, num: Octet)
    requires bits < 4 && num < 64
    ensures (((bits << 6) | num) >> 6) & 3 == bits && ((bits << 6) | num) & 63 == num
  {}

  lemma NumberBits(s: SeqNum)
    ensures (s as bv8) < 64 && (s as bv8) as nat == s
  {}

  lemma HeaderRoundTrip(kind: Kind, s: SeqNum)
    ensures KindOf(HeaderOf(kind, s)) == kind && SeqOf(HeaderOf(kind, s)) == s
  {
    NumberBits(s);
    HeaderBits(KindBits(kind), s as bv8);
  }

  function EncodeFrame(frame: Frame): seq<Octet> {
    Encode(HeaderOf(frame.kind, frame.num), frame.payload)
  }

  function EncodeAll(frames: seq<Frame>): seq<Octet> {
    if frames == [] then []
    else EncodeAll(frames[..|frames| - 1]) + EncodeFrame(frames[|frames| - 1])
  }

  // ----- The endpoint -----

  datatype Conn = Disconnected | SentSyn0 | SentSyn1 | Connected

  datatype Endpoint = Endpoint(conn: Conn, rxSeq: SeqNum, txSeq: SeqNum, history: seq<Payload>)

  const FRESH_ENDPOINT: Endpoint := Endpoint(Disconnected, 0, 0, [])

  /** `underrun` records that history could not supply the requested frame. */
  datatype Outcome = Outcome(
    ep: Endpoint, sent: seq<Frame>, accepted: seq<Payload>, underrun: bool)

  function Answer(ep: Endpoint, frame: Frame): Outcome { Outcome(ep, [frame], [], false) }

  function Silent(ep: Endpoint): Outcome { Outcome(ep, [], [], false) }

  /** Capacity of the history: a parameter of the build, far below the range of numbers. */
  type Capacity = c: nat | 0 < c < SEQ_RANGE witness 8

  /** A ring buffer of `cap` payloads: when it is full the oldest one makes room. */
  function PushBack(history: seq<Payload>, payload: Payload, cap: Capacity): seq<Payload>
  {
    (if |history| < cap then history else history[1..]) + [payload]
  }

  const SIZE_RANGE: nat := 0x1_0000_0000_0000_0000
  const UNSIGNED_RANGE: nat := 0x1_0000_0000

  /** How many history entries precede number `s`, in the engine's wrapping arithmetic. */
  function FastForward(s: SeqNum, txSeq: SeqNum, size: nat): nat {
    var oldest := (txSeq - size) % SIZE_RANGE;
    (s - oldest) % SIZE_RANGE % UNSIGNED_RANGE % SEQ_RANGE
  }

  /** The engine's word sizes are multiples of the range of numbers. */
  lemma WrapWord(x: int)
    ensures Wrap(x % SIZE_RANGE) == Wrap(x) && Wrap(x % UNSIGNED_RANGE) == Wrap(x)
  {
    var p, q := x / SIZE_RANGE, x / UNSIGNED_RANGE;
    assert x % SIZE_RANGE == x + SEQ_RANGE * (0 - 0x400_0000_0000_0000 * p);
    assert x % UNSIGNED_RANGE == x + SEQ_RANGE * (0 - 0x400_0000 * q);
    hide Wrap;
    WrapPeriod(x, 0 - 0x400_0000_0000_0000 * p);
    WrapPeriod(x, 0 - 0x400_0000 * q);
  }

  lemma FastForwardExact(s: SeqNum, txSeq: SeqNum, size: nat)
    ensures FastForward(s, txSeq, size) == Wrap(s + size - txSeq)
  {
    var oldest := (txSeq - size) % SIZE_RANGE;
    var ff := (s - oldest) % SIZE_RANGE;
    assert FastForward(s, txSeq, size) == Wrap(ff % UNSIGNED_RANGE);
    hide Wrap, FastForward;
    WrapWord(ff);
    WrapWord(s - oldest);
    WrapWord(txSeq - size);
    WrapWrap(oldest, s);
    WrapWrap(txSeq - size, s);
  }

  function Retransmissions(history: seq<Payload>, s: SeqNum): seq<Frame> {
    seq(|history|, i requires 0 <= i < |history| => Frame(Rtx, Wrap(s + i), history[i]))
  }

  function TransmitHistoryFrom(ep: Endpoint, s: SeqNum): Outcome {
    var ff := FastForward(s, ep.txSeq, |ep.history|);
    var kept := if |ep.history| > ff then ep.history[ff..] else ep.history;
    Outcome(ep.(txSeq := Wrap(s + |kept|), history := kept),
            Retransmissions(kept, s), [], !(|ep.history| > ff))
  }

  function OnData(ep: Endpoint, frame: Frame): Outcome {
    match ep.conn
    case Disconnected => Answer(ep, DIS)
    case SentSyn0 => Answer(ep, SYN0)
    case SentSyn1 => Answer(ep, SYN1)
    case Connected =>
      if frame.num == ep.rxSeq then Outcome(ep.(rxSeq := Next(ep.rxSeq)), [], [frame.payload], false)
      else if frame.kind == Usr then Answer(ep, Frame(Nak, ep.rxSeq, []))
      else Silent(ep)
  }

  function OnNak(ep: Endpoint, s: SeqNum): Outcome {
    match ep.conn
    case Disconnected => Answer(ep, DIS)
    case SentSyn0 => Answer(ep, SYN0)
    case SentSyn1 => Answer(ep, SYN1)
    case Connected => if s != ep.txSeq then TransmitHistoryFrom(ep, s) else Silent(ep)
  }

  function TransmitAllUnlessInitial(ep: Endpoint): Outcome {
    if ep.txSeq != 0 then TransmitHistoryFrom(ep, 0) else Silent(ep)
  }

  function OnSyn1(ep: Endpoint): Outcome {
    if ep.conn == Disconnected then Answer(ep, DIS)
    else
      var o := TransmitAllUnlessInitial(ep);
      Outcome(o.ep.(conn := Connected), [SYN2] + o.sent, [], o.underrun)
  }

  function OnSyn2(ep: Endpoint): Outcome {
    if ep.conn == Disconnected then Answer(ep, DIS)
    else if ep.conn == SentSyn0 then Answer(ep, SYN0)
    else
      var o := TransmitAllUnlessInitial(ep);
      o.(ep := o.ep.(conn := Connected))
  }

  function OnFrame(ep: Endpoint, frame: Frame): Outcome {
    match frame.kind
    case Usr => OnData(ep, frame)
    case Rtx => OnData(ep, frame)
    case Nak => OnNak(ep, frame.num)
    case Syn =>
      if frame.num == 0 then Answer(Endpoint(SentSyn1, 0, 0, []), SYN1)
      else if frame.num == 1 then OnSyn1(ep)
      else if frame.num == 2 then OnSyn2(ep)
      else if frame.num == 3 then Silent(ep.(conn := Disconnected))
      else Silent(ep)
  }

  /** A frame with a bad length or check provokes a request in every connection state. */
  function OnGarbled(ep: Endpoint): Outcome { Answer(ep, Frame(Nak, ep.rxSeq, [])) }

  function OnEvent(ep: Endpoint, event: Event): Outcome {
    match event
    case Bad => OnGarbled(ep)
    case Good(header, payload) => OnFrame(ep, Frame(KindOf(header), SeqOf(header), payload))
  }

  /** One octet from the link: at most one event, and the reaction to it. */
  function OnOctet(rx: Receiver, ep: Endpoint, octet: Octet): Outcome {
    var events := Step(rx, octet).events;
    if events == [] then Silent(ep) else OnEvent(ep, events[0])
  }

  function OnConnect(ep: Endpoint): Outcome { Answer(Endpoint(SentSyn0, 0, 0, []), SYN0) }

  function OnWrite(ep: Endpoint, payload: Payload, cap: Capacity): Outcome
  {
    Answer(ep.(txSeq := Next(ep.txSeq), history := PushBack(ep.history, payload, cap)),
           Frame(Usr, ep.txSeq, payload))
  }

  /** The reaction to a whole transmitted frame that reaches a receiver undamaged: payloads of
      255 octets vanish in the packet buffer and payloads of 256 look like a bad frame. */
  function OnArrival(ep: Endpoint, frame: Frame): Outcome {
    if |frame.payload| <= MAX_PACKET - 2 then OnFrame(ep, frame)
    else if |frame.payload| == MAX_PACKET - 1 then Silent(ep)
    else OnGarbled(ep)
  }

  // ----- Retransmission is exact -----

  /** The number of history entry `i` when `txSeq` is the next number to be used. */
  function NumberOf(ep: Endpoint, i: nat): SeqNum
    requires i < |ep.history|
  {
    Wrap(ep.txSeq - |ep.history| + i)
  }

  ghost predicate InWindow(ep: Endpoint, s: SeqNum) {
    exists i :: 0 <= i < |ep.history| && NumberOf(ep, i) == s
  }

  lemma WindowIsFastForward(ep: Endpoint, s: SeqNum)
    requires |ep.history| < SEQ_RANGE
    ensures var ff := FastForward(s, ep.txSeq, |ep.history|);
            && (InWindow(ep, s) <==> ff < |ep.history|)
            && (ff < |ep.history| ==> NumberOf(ep, ff) == s)
  {
    var n := |ep.history|;
    var ff := FastForward(s, ep.txSeq, n);
    FastForwardExact(s, ep.txSeq, n);
    hide Wrap, FastForward;
    WrapWrap(s + n - ep.txSeq, ep.txSeq - n);
    WrapSmall(s);
    if InWindow(ep, s) {
      var i :| 0 <= i < n && NumberOf(ep, i) == s;
      WrapWrap(ep.txSeq - n + i, n - ep.txSeq);
      WrapSmall(i);
      assert ff == i;
    }
    if ff < n {
      assert NumberOf(ep, ff) == s;
    }
  }

  /** Retransmissions continue the numbering of any position their first number stands for. */
  lemma RetransmissionsFrom(history: seq<Payload>, s: SeqNum, origin: int)
    requires s == Wrap(origin)
    ensures var sent := Retransmissions(history, s);
            |sent| == |history|
            && forall i :: 0 <= i < |sent| ==> sent[i] == Frame(Rtx, Wrap(origin + i), history[i])
  {
    hide Wrap;
    var sent := Retransmissions(history, s);
    forall i | 0 <= i < |sent| ensures sent[i] == Frame(Rtx, Wrap(origin + i), history[i]) {
      WrapWrap(origin, i);
    }
  }

  lemma RetransmitInWindow(ep: Endpoint, s: SeqNum, first: nat)
    requires |ep.history| < SEQ_RANGE
    requires first == FastForward(s, ep.txSeq, |ep.history|) < |ep.history|
    ensures var o := TransmitHistoryFrom(ep, s);
            && NumberOf(ep, first) == s && o.ep == ep.(history := ep.history[first..])
            && !o.underrun && |o.sent| == |o.ep.history|
            && forall i :: 0 <= i < |o.sent| ==>
                 o.sent[i] == Frame(Rtx, NumberOf(ep, first + i), ep.history[first + i])
  {
    WindowIsFastForward(ep, s);
    FastForwardExact(s, ep.txSeq, |ep.history|);
    var base := ep.txSeq - |ep.history|;
    hide Wrap, FastForward;
    WrapWrap(base + first, |ep.history| - first);
    WrapSmall(ep.txSeq);
    RetransmissionsFrom(ep.history[first..], s, base + first);
    hide Retransmissions;
  }

  lemma RetransmitOutOfWindow(ep: Endpoint, s: SeqNum)
    requires |ep.history| < SEQ_RANGE && s != ep.txSeq
    requires FastForward(s, ep.txSeq, |ep.history|) >= |ep.history|
    ensures var o := TransmitHistoryFrom(ep, s);
            && o.ep == ep.(txSeq := Wrap(s + |ep.history|)) && o.ep.txSeq != ep.txSeq
            && o.underrun && o.sent == Retransmissions(ep.history, s)
  {
    var n := |ep.history|;
    FastForwardExact(s, ep.txSeq, n);
    hide Wrap, FastForward, Retransmissions;
    if Wrap(s + n) == ep.txSeq {
      WrapWrap(s + n, 0 - ep.txSeq);
      WrapSmall(0);
      WrapSmall(s);
      WrapSmall(ep.txSeq);
    }
  }

  /** For a request other than `txSeq`: `txSeq` survives iff the request lies in the window.
      If so, history becomes its suffix from the request on, and every payload goes out again
      under its own number; if not, all of history goes out renumbered from the request. */
  lemma ExactRetransmission(ep: Endpoint, s: SeqNum)
    requires |ep.history| < SEQ_RANGE && s != ep.txSeq
    ensures var o := TransmitHistoryFrom(ep, s);
            && (o.ep.txSeq == ep.txSeq <==> InWindow(ep, s))
            && (o.underrun <==> !InWindow(ep, s))
            && |o.sent| == |o.ep.history|
            && (InWindow(ep, s) ==>
                  exists first :: 0 <= first < |ep.history| && NumberOf(ep, first) == s
                    && o.ep.history == ep.history[first..]
                    && forall i :: 0 <= i < |o.sent| ==>
                         o.sent[i] == Frame(Rtx, NumberOf(ep, first + i), ep.history[first + i]))
            && (!InWindow(ep, s) ==>
                  && o.ep.history == ep.history
                  && o.ep.txSeq == Wrap(s + |ep.history|)
                  && forall i :: 0 <= i < |o.sent| ==>
                       o.sent[i] == Frame(Rtx, Wrap(s + i), ep.history[i]))
  {
    WindowIsFastForward(ep, s);
    var first := FastForward(s, ep.txSeq, |ep.history|);
    hide TransmitHistoryFrom, InWindow, FastForward, Wrap;
    if first < |ep.history| {
      RetransmitInWindow(ep, s, first);
    } else {
      RetransmitOutOfWindow(ep, s);
    }
  }

  // ----- History agrees with the log of everything written -----

  ghost predicate LogAgrees(ep: Endpoint, written: seq<Payload>, cap: Capacity) {
    && ep.txSeq == Wrap(|written|)
    && |ep.history| <= cap && |ep.history| <= |written|
    && ep.history == written[|written| - |ep.history|..]
  }

  /** Frame `frame` carries the `i`-th payload written. */
  predicate Carries(frame: Frame, written: seq<Payload>, i: nat) {
    i < |written| && frame.num == Wrap(i) && frame.payload == written[i]
  }

  predicate IsData(frame: Frame) { frame.kind == Usr || frame.kind == Rtx }

  ghost predicate AllCarry(frames: seq<Frame>, written: seq<Payload>) {
    forall j :: 0 <= j < |frames| && IsData(frames[j]) ==> exists i :: Carries(frames[j], written, i)
  }

  /** A retransmission that finds its start, at position `start` of the log. */
  lemma RetransmitFromLog(ep: Endpoint, written: seq<Payload>, cap: Capacity, s: SeqNum, start: nat)
    requires LogAgrees(ep, written, cap)
    requires |written| - |ep.history| <= start < |written| && Wrap(start) == s
    ensures var o := TransmitHistoryFrom(ep, s);
            && !o.underrun && LogAgrees(o.ep, written, cap)
            && o.ep == ep.(history := written[start..])
            && |o.sent| == |written| - start
            && forall i :: 0 <= i < |o.sent| ==>
                 o.sent[i].kind == Rtx && Carries(o.sent[i], written, start + i)
  {
    var n := |ep.history|;
    var first := start - (|written| - n);
    FastForwardExact(s, ep.txSeq, n);
    hide Wrap, FastForward;
    WrapWrap(|written|, s + n);
    WrapWrap(start, n - |written|);
    WrapSmall(first);
    RetransmitInWindow(ep, s, first);
    assert ep.history[first..] == written[start..];
    RetransmissionsFrom(ep.history[first..], s, start);
    hide Retransmissions;
  }

  lemma NumberAtStart(ep: Endpoint, written: seq<Payload>, cap: Capacity, s: SeqNum, ff: nat)
    requires LogAgrees(ep, written, cap)
    requires ff == FastForward(s, ep.txSeq, |ep.history|)
    ensures Wrap(|written| - |ep.history| + ff) == s
  {
    var n := |ep.history|;
    FastForwardExact(s, ep.txSeq, n);
    hide FastForward, Wrap;
    WrapWrap(|written|, s + n);
    WrapWrap(s + n - |written|, |written| - n);
    WrapSmall(s);
  }

  lemma RetransmissionKeepsLog(ep: Endpoint, written: seq<Payload>, cap: Capacity, s: SeqNum)
    requires LogAgrees(ep, written, cap)
    requires !TransmitHistoryFrom(ep, s).underrun
    ensures LogAgrees(TransmitHistoryFrom(ep, s).ep, written, cap)
    ensures AllCarry(TransmitHistoryFrom(ep, s).sent, written)
  {
    var n := |ep.history|;
    var ff := FastForward(s, ep.txSeq, n);
    var start := |written| - n + ff;
    assert ff < n;
    NumberAtStart(ep, written, cap, s, ff);
    hide FastForward, Wrap;
    RetransmitFromLog(ep, written, cap, s, start);
    hide TransmitHistoryFrom;
    forall j | 0 <= j < |TransmitHistoryFrom(ep, s).sent|
      ensures exists i :: Carries(TransmitHistoryFrom(ep, s).sent[j], written, i)
    {
      assert Carries(TransmitHistoryFrom(ep, s).sent[j], written, start + j);
    }
  }

  datatype Input = Arrives(frame: Frame) | ArrivesGarbled | Writes(payload: Payload)

  /** Nothing in the session restarts the handshake from scratch. */
  predicate InSession(input: Input) {
    !(input.Arrives? && input.frame.kind == Syn && input.frame.num == 0)
  }

  function OnInput(ep: Endpoint, input: Input, cap: Capacity): Outcome
  {
    match input
    case Arrives(frame) => OnFrame(ep, frame)
    case ArrivesGarbled => OnGarbled(ep)
    case Writes(payload) => OnWrite(ep, payload, cap)
  }

  function WrittenBy(input: Input): seq<Payload> {
    if input.Writes? then [input.payload] else []
  }

  lemma WriteKeepsLog(ep: Endpoint, payload: Payload, written: seq<Payload>, cap: Capacity)
    requires LogAgrees(ep, written, cap)
    ensures LogAgrees(OnWrite(ep, payload, cap).ep, written + [payload], cap)
    ensures Carries(OnWrite(ep, payload, cap).sent[0], written + [payload], |written|)
  {
    hide Wrap;
    WrapWrap(|written|, 1);
  }

  ghost predicate KeepsLog(o: Outcome, written: seq<Payload>, cap: Capacity) {
    !o.underrun ==> LogAgrees(o.ep, written, cap) && AllCarry(o.sent, written)
  }

  lemma TransmitAllKeepsLog(ep: Endpoint, written: seq<Payload>, cap: Capacity)
    requires LogAgrees(ep, written, cap)
    ensures KeepsLog(TransmitAllUnlessInitial(ep), written, cap)
  {
    hide TransmitHistoryFrom, Wrap;
    if !TransmitHistoryFrom(ep, 0).underrun {
      RetransmissionKeepsLog(ep, written, cap, 0);
    }
  }

  lemma NakKeepsLog(ep: Endpoint, s: SeqNum, written: seq<Payload>, cap: Capacity)
    requires LogAgrees(ep, written, cap)
    ensures KeepsLog(OnNak(ep, s), written, cap)
  {
    hide TransmitHistoryFrom, Wrap;
    if !TransmitHistoryFrom(ep, s).underrun {
      RetransmissionKeepsLog(ep, written, cap, s);
    }
  }

  lemma HandleKeepsLog(ep: Endpoint, frame: Frame, written: seq<Payload>, cap: Capacity)
    requires LogAgrees(ep, written, cap) && InSession(Arrives(frame))
    ensures KeepsLog(OnFrame(ep, frame), written, cap)
  {
    hide TransmitAllUnlessInitial, OnNak, Wrap;
    TransmitAllKeepsLog(ep, written, cap);
    NakKeepsLog(ep, frame.num, written, cap);
    if frame.kind == Syn && frame.num == 1 && ep.conn != Disconnected {
      var o := TransmitAllUnlessInitial(ep);
      forall j | 0 <= j < |[SYN2] + o.sent| && IsData(([SYN2] + o.sent)[j]) && !o.underrun
        ensures exists i :: Carries(([SYN2] + o.sent)[j], written, i)
      {
        assert ([SYN2] + o.sent)[j] == o.sent[j - 1];
      }
    }
  }

  lemma InputKeepsLog(ep: Endpoint, input: Input, written: seq<Payload>, cap: Capacity)
    requires LogAgrees(ep, written, cap) && InSession(input)
    ensures KeepsLog(OnInput(ep, input, cap), written + WrittenBy(input), cap)
  {
    hide OnFrame, Wrap;
    match input
    case Writes(payload) => WriteKeepsLog(ep, payload, written, cap);
    case Arrives(frame) =>
      assert written + [] == written;
      HandleKeepsLog(ep, frame, written, cap);
    case ArrivesGarbled => assert written + [] == written;
  }

  /** A whole session at one endpoint, whatever its peer and the link do. */
  datatype Session = Session(
    ep: Endpoint, sent: seq<Frame>, written: seq<Payload>, underrun: bool)

  function Run(conn: Conn, inputs: seq<Input>, cap: Capacity): Session {
    if inputs == [] then Session(FRESH_ENDPOINT.(conn := conn), [], [], false)
    else
      var input := inputs[|inputs| - 1];
      var before := Run(conn, inputs[..|inputs| - 1], cap);
      var o := OnInput(before.ep, input, cap);
      Session(o.ep, before.sent + o.sent, before.written + WrittenBy(input),
              before.underrun || o.underrun)
  }

  lemma AllCarryLater(frames: seq<Frame>, more: seq<Frame>, written: seq<Payload>, tail: seq<Payload>)
    requires AllCarry(frames, written) && AllCarry(more, written + tail)
    ensures AllCarry(frames + more, written + tail)
  {
    forall j | 0 <= j < |frames| && IsData(frames[j])
      ensures exists i :: Carries(frames[j], written + tail, i)
    {
      var i :| Carries(frames[j], written, i);
      assert Carries(frames[j], written + tail, i);
    }
  }

  /** In every session without underrun, history is the end of the log of payloads written,
      `txSeq` counts them, and each data frame sent carries a payload under its own number. */
  lemma {:induction false} HistoryAgreesWithLog(conn: Conn, inputs: seq<Input>, cap: Capacity)
    requires forall i :: 0 <= i < |inputs| ==> InSession(inputs[i])
    requires !Run(conn, inputs, cap).underrun
    ensures LogAgrees(Run(conn, inputs, cap).ep, Run(conn, inputs, cap).written, cap)
    ensures AllCarry(Run(conn, inputs, cap).sent, Run(conn, inputs, cap).written)
  {
    if inputs == [] {
      assert Wrap(0) == 0;
    } else {
      hide OnInput, LogAgrees, AllCarry;
      var n := |inputs| - 1;
      var before := Run(conn, inputs[..n], cap);
      HistoryAgreesWithLog(conn, inputs[..n], cap);
      InputKeepsLog(before.ep, inputs[n], before.written, cap);
      AllCarryLater(before.sent, OnInput(before.ep, inputs[n], cap).sent,
                    before.written, WrittenBy(inputs[n]));
    }
  }
}
