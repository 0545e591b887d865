/**
 The engine itself: one mutable context that is fed octets from the link, is handed packets to
 send, and writes stuffed octets through a bounded write buffer. Every method is proved against
 the functions of Framing.dfy and Protocol.dfy.
 */
module Context {
  import opened Crc
  import opened Framing
  import opened Protocol

  datatype EscapeState = EscapeNormal | Escaping
  datatype FrameState = FrameNew | FrameReceiving

  lemma EncodeOne(frame: Frame)
    ensures EncodeAll([frame]) == EncodeFrame(frame)
  {
    hide EncodeFrame;
    assert EncodeAll([]) == [];
  }

  lemma {:induction false} EncodeConcat(left: seq<Frame>, right: seq<Frame>)
    ensures EncodeAll(left + right) == EncodeAll(left) + EncodeAll(right)
    decreases |right|
  {
    hide EncodeFrame;
    if right == [] {
      assert left + right == left;
    } else {
      var n := |right| - 1;
      assert (left + right)[..|left| + n] == left + right[..n];
      EncodeConcat(left, right[..n]);
    }
  }

  function Low(crc: bv16): Octet { (crc & 0xff) as bv8 }

  function Complement(crc: bv16): bv16 { !crc }

  function ShiftOut(crc: bv16): bv16 { crc >> 8 }

  lemma CheckOctets(crc: bv16)
    ensures Low(Complement(crc)) == CheckLow(crc)
    ensures Low(ShiftOut(Complement(crc))) == CheckHigh(crc)
  {}

  lemma StuffPair(low: Octet, high: Octet)
    ensures StuffAll([low, high]) == Stuff(low) + Stuff(high)
  {
    hide Stuff;
    assert [low, high] == [low] + [high] && [low] == [] + [low];
    StuffSnoc([low], high);
    StuffSnoc([], low);
  }

  lemma EncodeParts(head: Octet, payload: Payload)
    ensures var crc := Fold(CRC_PRESET, [head] + payload);
            Encode(head, payload)
            == [FLAG] + StuffAll([head] + payload) + StuffAll([CheckLow(crc), CheckHigh(crc)]) + [FLAG]
  {
    hide Fold, StuffAll, CheckLow, CheckHigh;
    var crc := Fold(CRC_PRESET, [head] + payload);
    StuffConcat([head] + payload, [CheckLow(crc), CheckHigh(crc)]);
  }

  class SfpContext {
    // Receiver.
    var rxSeq: SeqNum
    var rxCrc: bv16
    var escapeState: EscapeState
    var frameState: FrameState
    var header: Octet
    const packet: array<Octet>
    var packetLen: nat

    // Transmitter.
    var txSeq: SeqNum
    var txCrc: bv16
    const cap: Capacity
    var history: seq<Payload>
    const writebuf: array<Octet>
    var writebufn: nat

    var connectState: Conn

    // The callbacks: octets handed to the write callback, and whether a deliver callback is
    // set together with the payloads it was given.
    var wire: seq<Octet>
    var hasDeliver: bool
    var delivered: seq<Payload>

    /** The transmitter lock is held by the thread running this code; it is not recursive. */
    ghost var locked: bool

    ghost predicate Valid()
      reads this
    {
      && packet.Length == MAX_PACKET && packetLen <= MAX_PACKET
      && 0 < writebuf.Length && packet != writebuf
      && writebufn == 0
    }

    /** The state of the receiver as a value. */
    function Rx(): Receiver
      requires packetLen <= packet.Length
      reads this, packet
    {
      Receiver(rxCrc, escapeState == Escaping, frameState == FrameReceiving, header,
               packet[..packetLen])
    }

    /** The frame-level state as a value. */
    function Ep(): Endpoint
      reads this
    {
      Endpoint(connectState, rxSeq, txSeq, history)
    }

    /** Octets written so far, whether flushed or still buffered. */
    function Logical(): seq<Octet>
      requires writebufn <= writebuf.Length
      reads this, writebuf
    {
      wire + writebuf[..writebufn]
    }

    constructor (capacity: Capacity, bufferSize: nat, deliver: bool)
      requires 0 < bufferSize
      ensures Valid() && fresh(packet) && fresh(writebuf) && !locked
      ensures cap == capacity && writebuf.Length == bufferSize && hasDeliver == deliver
      ensures Fresh(Rx()) && Ep() == FRESH_ENDPOINT && wire == [] && delivered == []
    {
      connectState := Disconnected;
      rxSeq := 0;
      rxCrc, escapeState, frameState, packetLen := CRC_PRESET, EscapeNormal, FrameNew, 0;
      header := 0;
      txSeq, txCrc, writebufn := 0, CRC_PRESET, 0;
      cap, history := capacity, [];
      packet := new Octet[MAX_PACKET];
      writebuf := new Octet[bufferSize];
      wire, hasDeliver, delivered := [], deliver, [];
      locked := false;
    }

    /** Initialisation in place; the history is left for Connect to clear. */
    method Init()
      requires packet.Length == MAX_PACKET && 0 < writebuf.Length && packet != writebuf
      modifies this
      ensures Valid() && Fresh(Rx()) && locked == old(locked)
      ensures Ep() == FRESH_ENDPOINT.(history := old(history))
      ensures !hasDeliver && wire == old(wire) && delivered == old(delivered)
    {
      hide Fresh, Reset;
      connectState := Disconnected;
      rxSeq := 0;
      ResetReceiver();
      SetDeliverCallback(false);
      txSeq, txCrc, writebufn := 0, CRC_PRESET, 0;
    }

    method SetDeliverCallback(deliver: bool)
      modifies `hasDeliver
      ensures hasDeliver == deliver
    {
      hasDeliver := deliver;
    }

    // ----- The lock and the callbacks -----

    ghost method Lock()
      requires !locked
      modifies `locked
      ensures locked
    { locked := true; }

    ghost method Unlock()
      requires locked
      modifies `locked
      ensures !locked
    { locked := false; }

    method Deliver(payload: Payload)
      requires !locked
      modifies `delivered
      ensures delivered == if hasDeliver then old(delivered) + [payload] else old(delivered)
    {
      if hasDeliver {
        delivered := delivered + [payload];
      }
    }

    // ----- Writing octets -----

    method FlushWriteBuffer()
      requires writebufn <= writebuf.Length
      modifies `wire, `writebufn
      ensures writebufn == 0 && wire == old(Logical())
    {
      wire := wire + writebuf[..writebufn];
      writebufn := 0;
    }

    method BufferedWrite(octet: Octet) returns (outlen: nat)
      requires 0 < writebuf.Length && writebufn <= writebuf.Length
      modifies `wire, `writebufn, writebuf
      ensures writebufn <= writebuf.Length
      ensures Logical() == old(Logical()) + [octet] && outlen == 1
    {
      if writebufn >= writebuf.Length {
        FlushWriteBuffer();
      }
      writebuf[writebufn] := octet;
      writebufn := writebufn + 1;
      outlen := 1;
    }

    method WriteNoCrc(octet: Octet) returns (outlen: nat)
      requires 0 < writebuf.Length && writebufn <= writebuf.Length
      modifies `wire, `writebufn, writebuf
      ensures writebufn <= writebuf.Length
      ensures Logical() == old(Logical()) + Stuff(octet) && outlen == |Stuff(octet)|
    {
      outlen := 0;
      var o := octet;
      if Reserved(octet) {
        o := octet ^ FLIP;
        var n := BufferedWrite(ESC);
        outlen := outlen + n;
      }
      var n := BufferedWrite(o);
      outlen := outlen + n;
    }

    method WriteOctet(octet: Octet) returns (outlen: nat)
      requires 0 < writebuf.Length && writebufn <= writebuf.Length
      modifies `txCrc, `wire, `writebufn, writebuf
      ensures writebufn <= writebuf.Length && txCrc == Update(old(txCrc), octet)
      ensures Logical() == old(Logical()) + Stuff(octet) && outlen == |Stuff(octet)|
    {
      txCrc := Update(txCrc, octet);
      outlen := WriteNoCrc(octet);
    }

    /** Header and payload, stuffed, with the running check kept in `txCrc`. */
    method WriteChecked(head: Octet, payload: Payload) returns (outlen: nat)
      requires 0 < writebuf.Length && writebufn <= writebuf.Length && txCrc == CRC_PRESET
      modifies `txCrc, `wire, `writebufn, writebuf
      ensures writebufn <= writebuf.Length
      ensures txCrc == Fold(CRC_PRESET, [head] + payload)
      ensures Logical() == old(Logical()) + StuffAll([head] + payload)
      ensures outlen == |StuffAll([head] + payload)|
    {
      ghost var m := [head] + payload;
      hide Stuff, Update;
      assert m[..1] == [] + [head];
      FoldSnoc(CRC_PRESET, [], head);
      StuffSnoc([], head);
      assert StuffAll([]) == [] && Fold(CRC_PRESET, []) == CRC_PRESET;
      outlen := WriteOctet(head);
      var i := 0;
      while i < |payload|
        invariant 0 <= i <= |payload|
        invariant writebufn <= writebuf.Length
        invariant txCrc == Fold(CRC_PRESET, m[..i + 1])
        invariant Logical() == old(Logical()) + StuffAll(m[..i + 1])
        invariant outlen == |StuffAll(m[..i + 1])|
      {
        assert m[..i + 2] == m[..i + 1] + [payload[i]];
        FoldSnoc(CRC_PRESET, m[..i + 1], payload[i]);
        StuffSnoc(m[..i + 1], payload[i]);
        var n := WriteOctet(payload[i]);
        outlen := outlen + n;
        i := i + 1;
      }
      assert m[..|payload| + 1] == m;
    }

    /** The two check octets, low one first, outside the running check. */
    method WriteCheck() returns (outlen: nat)
      requires 0 < writebuf.Length && writebufn <= writebuf.Length
      modifies `wire, `writebufn, writebuf
      ensures writebufn <= writebuf.Length
      ensures Logical() == old(Logical()) + StuffAll([CheckLow(txCrc), CheckHigh(txCrc)])
      ensures outlen == |StuffAll([CheckLow(txCrc), CheckHigh(txCrc)])|
    {
      ghost var low, high := CheckLow(txCrc), CheckHigh(txCrc);
      CheckOctets(txCrc);
      StuffPair(low, high);
      hide Stuff, StuffAll, CheckLow, CheckHigh, Low, Complement, ShiftOut;
      var crc := Complement(txCrc);
      outlen := 0;
      for i := 0 to 2
        invariant writebufn <= writebuf.Length
        invariant i == 0 ==> crc == Complement(txCrc) && Logical() == old(Logical()) && outlen == 0
        invariant i == 1 ==> crc == ShiftOut(Complement(txCrc))
                             && Logical() == old(Logical()) + Stuff(low) && outlen == |Stuff(low)|
        invariant i == 2 ==> Logical() == old(Logical()) + Stuff(low) + Stuff(high)
                             && outlen == |Stuff(low)| + |Stuff(high)|
      {
        var n := WriteNoCrc(Low(crc));
        outlen := outlen + n;
        crc := ShiftOut(crc);
      }
    }

    /** One whole frame, flushed: the wire grows by exactly its encoding, whatever the size of
        the write buffer, and the number of octets written is reported. */
    method TransmitFrameWithHeader(head: Octet, payload: Payload) returns (outlen: nat)
      requires 0 < writebuf.Length && writebufn == 0 && locked
      modifies `txCrc, `wire, `writebufn, writebuf
      ensures writebufn == 0
      ensures wire == old(wire) + Encode(head, payload)
      ensures outlen == |Encode(head, payload)|
    {
      EncodeParts(head, payload);
      hide Fold, StuffAll, Encode, CheckLow, CheckHigh;
      txCrc := CRC_PRESET;
      outlen := BufferedWrite(FLAG);
      var n := WriteChecked(head, payload);
      outlen := outlen + n;
      n := WriteCheck();
      outlen := outlen + n;
      n := BufferedWrite(FLAG);
      outlen := outlen + n;
      FlushWriteBuffer();
    }

    // ----- Sending frames -----

    /** A control frame: a request, or one of the handshake frames. */
    method TransmitControl(frame: Frame)
      requires 0 < writebuf.Length && writebufn == 0 && locked
      requires frame.payload == []
      modifies `txCrc, `wire, `writebufn, writebuf
      ensures writebufn == 0 && wire == old(wire) + EncodeAll([frame])
    {
      hide Encode, HeaderOf;
      EncodeOne(frame);
      var _ := TransmitFrameWithHeader(HeaderOf(frame.kind, frame.num), []);
    }

    method TransmitFrameImpl(payload: Payload, retransmit: bool) returns (outlen: nat)
      requires 0 < writebuf.Length && writebufn == 0 && locked
      modifies `txSeq, `history, `txCrc, `wire, `writebufn, writebuf
      ensures var frame := Frame(if retransmit then Rtx else Usr, old(txSeq), payload);
              writebufn == 0 && wire == old(wire) + EncodeAll([frame])
              && outlen == |EncodeFrame(frame)|
      ensures txSeq == Next(old(txSeq))
      ensures history == if retransmit then old(history) else PushBack(old(history), payload, cap)
    {
      hide Encode, HeaderOf, Wrap;
      var head;
      if retransmit {
        head := HeaderOf(Rtx, txSeq);
      } else {
        head := HeaderOf(Usr, txSeq);
        history := PushBack(history, payload, cap);
      }
      EncodeOne(Frame(if retransmit then Rtx else Usr, txSeq, payload));
      outlen := TransmitFrameWithHeader(head, payload);
      txSeq := Next(txSeq);
    }

    method TransmitHistory()
      requires 0 < writebuf.Length && writebufn == 0 && locked
      modifies `txSeq, `history, `txCrc, `wire, `writebufn, writebuf
      ensures writebufn == 0 && history == old(history)
      ensures txSeq == Wrap(old(txSeq) + |history|)
      ensures wire == old(wire) + EncodeAll(Retransmissions(history, old(txSeq)))
    {
      hide EncodeFrame, Wrap;
      ghost var frames := Retransmissions(history, txSeq);
      WrapSmall(txSeq);
      assert EncodeAll([]) == [];
      var count := |history|;
      var i := 0;
      while i < count
        invariant 0 <= i <= count == |history| && history == old(history) && writebufn == 0
        invariant txSeq == Wrap(old(txSeq) + i)
        invariant wire == old(wire) + EncodeAll(frames[..i])
      {
        assert frames[..i + 1] == frames[..i] + [frames[i]];
        EncodeConcat(frames[..i], [frames[i]]);
        WrapWrap(old(txSeq) + i, 1);
        var _ := TransmitFrameImpl(history[i], true);
        i := i + 1;
      }
      assert frames[..count] == frames;
    }

    method TransmitHistoryFromSeq(s: SeqNum)
      requires 0 < writebuf.Length && writebufn == 0 && locked
      modifies `txSeq, `history, `txCrc, `wire, `writebufn, writebuf
      ensures var o := TransmitHistoryFrom(old(Ep()), s);
              writebufn == 0 && Ep() == o.ep && wire == old(wire) + EncodeAll(o.sent)
    {
      hide EncodeAll, Wrap, FastForward, Retransmissions;
      var fastforward := FastForward(s, txSeq, |history|);
      if |history| > fastforward {
        var i := 0;
        while i < fastforward
          invariant 0 <= i <= fastforward < |old(history)|
          invariant history == old(history)[i..]
          modifies `history
        {
          history := history[1..];
          i := i + 1;
        }
      }
      txSeq := s;
      TransmitHistory();
    }

    method ClearHistory()
      modifies `history
      ensures history == []
    {
      while history != []
        decreases |history|
      {
        history := history[1..];
      }
    }

    // ----- Connecting and writing -----

    method ResetReceiver()
      modifies `rxCrc, `escapeState, `frameState, `packetLen
      ensures packetLen == 0
      ensures old(packetLen) <= packet.Length ==> Rx() == Reset(old(Rx()))
      ensures Fresh(Rx())
    {
      rxCrc := CRC_PRESET;
      escapeState := EscapeNormal;
      frameState := FrameNew;
      packetLen := 0;
    }

    method Connect()
      requires Valid() && !locked
      modifies this, writebuf
      ensures Valid() && !locked && delivered == old(delivered)
      ensures hasDeliver == old(hasDeliver)
      ensures Rx() == Reset(old(Rx()))
      ensures var o := OnConnect(old(Ep()));
              Ep() == o.ep && wire == old(wire) + EncodeAll(o.sent)
    {
      hide EncodeAll;
      ResetReceiver();
      rxSeq := 0;
      Lock();
      txSeq := 0;
      ClearHistory();
      TransmitControl(SYN0);
      connectState := SentSyn0;
      Unlock();
    }

    method WritePacket(payload: Payload) returns (outlen: nat)
      requires Valid() && !locked && |payload| <= MAX_PACKET
      modifies this, writebuf
      ensures Valid() && !locked && delivered == old(delivered)
      ensures hasDeliver == old(hasDeliver)
      ensures Rx() == old(Rx())
      ensures var o := OnWrite(old(Ep()), payload, cap);
              Ep() == o.ep && wire == old(wire) + EncodeAll(o.sent)
              && outlen == |EncodeFrame(o.sent[0])|
    {
      hide EncodeAll, EncodeFrame, Wrap;
      Lock();
      outlen := TransmitFrameImpl(payload, false);
      Unlock();
    }

    // ----- Receiving -----

    method BufferOctet(octet: Octet)
      requires packet.Length == MAX_PACKET && packetLen <= MAX_PACKET
      modifies `rxCrc, `escapeState, `frameState, `packetLen, packet
      ensures packetLen <= MAX_PACKET
      ensures Rx() == if |old(Rx()).buf| >= MAX_PACKET then Reset(old(Rx()))
                      else old(Rx()).(buf := old(Rx()).buf + [octet])
    {
      if MAX_PACKET <= packetLen {
        ResetReceiver();
      } else {
        packet[packetLen] := octet;
        packetLen := packetLen + 1;
      }
    }

    method HandleNak(s: SeqNum)
      requires Valid() && locked
      modifies `txSeq, `history, `txCrc, `wire, `writebufn, writebuf
      ensures Valid()
      ensures var o := OnNak(old(Ep()), s);
              Ep() == o.ep && wire == old(wire) + EncodeAll(o.sent)
    {
      hide EncodeAll, TransmitHistoryFrom;
      NothingToSend();
      match connectState {
        case Disconnected => TransmitControl(DIS);
        case SentSyn0 => TransmitControl(SYN0);
        case SentSyn1 => TransmitControl(SYN1);
        case Connected =>
          if s != txSeq {
            TransmitHistoryFromSeq(s);
          }
      }
    }

    method HandleSyn0()
      requires Valid() && locked
      modifies this, writebuf
      ensures Valid() && locked && delivered == old(delivered)
      ensures hasDeliver == old(hasDeliver)
      ensures Rx() == Reset(old(Rx()))
      ensures Ep() == Endpoint(SentSyn1, 0, 0, []) && wire == old(wire) + EncodeAll([SYN1])
    {
      hide EncodeAll;
      ResetReceiver();
      rxSeq := 0;
      txSeq := 0;
      ClearHistory();
      TransmitControl(SYN1);
      connectState := SentSyn1;
    }

    method HandleSyn1()
      requires Valid() && locked
      modifies `connectState, `txSeq, `history, `txCrc, `wire, `writebufn, writebuf
      ensures Valid()
      ensures var o := OnSyn1(old(Ep()));
              Ep() == o.ep && wire == old(wire) + EncodeAll(o.sent)
    {
      hide EncodeAll, TransmitHistoryFrom;
      if connectState == Disconnected {
        TransmitControl(DIS);
      } else {
        EncodeConcat([SYN2], TransmitAllUnlessInitial(Ep()).sent);
        NothingToSend();
        TransmitControl(SYN2);
        if txSeq != 0 {
          TransmitHistoryFromSeq(0);
        }
        connectState := Connected;
      }
    }

    method HandleSyn2()
      requires Valid() && locked
      modifies `connectState, `txSeq, `history, `txCrc, `wire, `writebufn, writebuf
      ensures Valid()
      ensures var o := OnSyn2(old(Ep()));
              Ep() == o.ep && wire == old(wire) + EncodeAll(o.sent)
    {
      hide EncodeAll, TransmitHistoryFrom;
      if connectState == Disconnected {
        TransmitControl(DIS);
      } else if connectState == SentSyn0 {
        TransmitControl(SYN0);
      } else {
        NothingToSend();
        if txSeq != 0 {
          TransmitHistoryFromSeq(0);
        }
        connectState := Connected;
      }
    }

    lemma NothingToSend()
      ensures EncodeAll([]) == []
    {}

    /** The first half of a data frame: the connection state is examined under the lock. */
    method AnswerUnlessConnected() returns (connected: bool)
      requires Valid() && !locked
      modifies `locked, `txCrc, `wire, `writebufn, writebuf
      ensures Valid() && !locked && connected == (connectState == Connected)
      ensures connected ==> wire == old(wire)
      ensures !connected ==>
        wire == old(wire) + EncodeAll([if connectState == Disconnected then DIS
                                       else if connectState == SentSyn0 then SYN0 else SYN1])
    {
      hide EncodeAll;
      Lock();
      connected := false;
      match connectState {
        case Disconnected => TransmitControl(DIS);
        case SentSyn0 => TransmitControl(SYN0);
        case SentSyn1 => TransmitControl(SYN1);
        case Connected => connected := true;
      }
      Unlock();
    }

    /** What the header and the buffered payload say. */
    ghost predicate Holds(frame: Frame)
      requires packetLen <= packet.Length
      reads this, packet
    {
      frame == Frame(KindOf(header), SeqOf(header), packet[..packetLen])
    }

    /** A data frame; the payload is delivered with the lock released. */
    method HandleUsr(ghost frame: Frame) returns (ret: int)
      requires Valid() && !locked && Holds(frame) && IsData(frame)
      modifies `rxSeq, `delivered, `locked, `txCrc, `wire, `writebufn, writebuf
      ensures Valid() && !locked
      ensures var o := OnData(old(Ep()), frame);
              Ep() == o.ep && wire == old(wire) + EncodeAll(o.sent)
      ensures var o := OnData(old(Ep()), frame);
              delivered == old(delivered) + (if hasDeliver then o.accepted else [])
              && ret == |o.accepted|
    {
      hide EncodeAll, KindOf, SeqOf, Wrap;
      NothingToSend();
      ret := 0;
      var connected := AnswerUnlessConnected();
      if connected {
        if SeqOf(header) != rxSeq {
          if KindOf(header) == Usr {
            Lock();
            TransmitControl(Frame(Nak, rxSeq, []));
            Unlock();
          }
        } else {
          Deliver(packet[..packetLen]);
          rxSeq := Next(rxSeq);
          ret := 1;
        }
      }
    }

    method HandleSyn(ghost frame: Frame)
      requires Valid() && locked && Holds(frame) && frame.kind == Syn
      modifies this, writebuf
      ensures Valid() && locked && delivered == old(delivered) && header == old(header)
      ensures hasDeliver == old(hasDeliver)
      ensures var o := OnFrame(old(Ep()), frame);
              Ep() == o.ep && wire == old(wire) + EncodeAll(o.sent)
    {
      hide EncodeAll, KindOf, SeqOf, OnSyn1, OnSyn2;
      NothingToSend();
      var s := SeqOf(header);
      if s == 0 {
        HandleSyn0();
      } else if s == 1 {
        HandleSyn1();
      } else if s == 2 {
        HandleSyn2();
      } else if s == 3 {
        connectState := Disconnected;
      }
    }

    method TransmitNakLocked()
      requires Valid() && !locked
      modifies `locked, `txCrc, `wire, `writebufn, writebuf
      ensures Valid() && !locked
      ensures wire == old(wire) + EncodeAll(OnGarbled(Ep()).sent)
    {
      hide EncodeAll;
      Lock();
      TransmitControl(Frame(Nak, rxSeq, []));
      Unlock();
    }

    /** A checked frame, dispatched by kind. */
    method Dispatch(ghost frame: Frame) returns (ret: int)
      requires Valid() && !locked && Holds(frame)
      modifies this, writebuf
      ensures Valid() && !locked && header == old(header)
      ensures hasDeliver == old(hasDeliver)
      ensures var o := OnFrame(old(Ep()), frame);
              Ep() == o.ep && wire == old(wire) + EncodeAll(o.sent)
      ensures var o := OnFrame(old(Ep()), frame);
              delivered == old(delivered) + (if hasDeliver then o.accepted else [])
              && ret == |o.accepted|
      ensures ret != 0 ==> ret == 1 && OnFrame(old(Ep()), frame).accepted == [packet[..packetLen]]
    {
      hide EncodeAll, KindOf, SeqOf, OnNak, OnSyn1, OnSyn2, Wrap;
      OnlyDataIsAccepted(Ep(), frame);
      ret := 0;
      match KindOf(header) {
        case Usr => ret := HandleUsr(frame);
        case Rtx => ret := HandleUsr(frame);
        case Nak =>
          Lock();
          HandleNak(SeqOf(header));
          Unlock();
        case Syn =>
          Lock();
          HandleSyn(frame);
          Unlock();
      }
    }

    lemma OnlyDataIsAccepted(ep: Endpoint, frame: Frame)
      ensures !IsData(frame) ==> OnFrame(ep, frame).accepted == []
      ensures OnFrame(ep, frame).accepted in {[], [frame.payload]}
    {
      hide FastForward, Wrap, Retransmissions;
    }

    /** The closing FLAG of a frame. */
    method HandleFrame() returns (ret: int)
      requires Valid() && !locked
      modifies this, writebuf
      ensures Valid() && !locked && header == old(header)
      ensures hasDeliver == old(hasDeliver)
      ensures var o := OnEvent(old(Ep()), Close(old(Rx())));
              Ep() == o.ep && wire == old(wire) + EncodeAll(o.sent)
      ensures var o := OnEvent(old(Ep()), Close(old(Rx())));
              delivered == old(delivered) + (if hasDeliver then o.accepted else [])
              && ret == |o.accepted|
      ensures var o := OnEvent(old(Ep()), Close(old(Rx())));
              ret != 0 ==> ret == 1 && o.accepted == [packet[..packetLen]]
    {
      hide EncodeAll, KindOf, SeqOf, OnFrame, Wrap;
      ret := 0;
      if 2 > packetLen {
        TransmitNakLocked();
        return;
      }
      assert packet[..packetLen][..packetLen - 2] == packet[..packetLen - 2];
      packetLen := packetLen - 2;
      if CRC_GOOD != rxCrc {
        TransmitNakLocked();
        return;
      }
      ret := Dispatch(Frame(KindOf(header), SeqOf(header), packet[..packetLen]));
    }

    method CopyOutPacket(buf: array<Octet>, len: nat, outlen: nat)
      returns (ret: int, copied: nat)
      requires Valid() && buf != packet && buf != writebuf && len <= buf.Length
      modifies buf
      ensures ret == if len < packetLen then -1 else 1
      ensures ret == -1 ==> buf[..] == old(buf[..]) && copied == outlen
      ensures ret == 1 ==> copied == packetLen && buf[..copied] == packet[..packetLen]
                           && buf[copied..] == old(buf[copied..])
    {
      if len < packetLen {
        return -1, outlen;
      }
      forall i | 0 <= i < packetLen {
        buf[i] := packet[i];
      }
      return 1, packetLen;
    }

    /** How the caller of DeliverOctet learns of an accepted payload. */
    twostate predicate Reported(accepted: seq<Payload>, buf: array?<Octet>, len: nat, outlen: nat,
                                ret: int, copied: nat)
      reads if buf == null then {} else {buf}
    {
      && (accepted == [] ==> ret == 0)
      && (accepted != [] ==> ret == if buf != null && len < |accepted[0]| then -1 else 1)
      && (ret == 1 && buf != null ==>
            accepted != [] && copied == |accepted[0]| <= buf.Length
            && buf[..copied] == accepted[0] && buf[copied..] == old(buf[copied..]))
      && (ret != 1 || buf == null ==>
            copied == outlen && (buf != null ==> buf[..] == old(buf[..])))
    }

    method DeliverFlag(buf: array?<Octet>, len: nat, outlen: nat) returns (ret: int, copied: nat)
      requires Valid() && !locked
      requires buf != null ==> buf != packet && buf != writebuf && len <= buf.Length
      modifies this, writebuf, if buf == null then {} else {buf}
      ensures Valid() && !locked
      ensures hasDeliver == old(hasDeliver)
      ensures Rx() == Reset(old(Rx()))
      ensures var o := OnOctet(old(Rx()), old(Ep()), FLAG);
              Ep() == o.ep && wire == old(wire) + EncodeAll(o.sent)
      ensures var o := OnOctet(old(Rx()), old(Ep()), FLAG);
              delivered == old(delivered) + (if hasDeliver then o.accepted else [])
              && Reported(o.accepted, buf, len, outlen, ret, copied)
    {
      hide EncodeAll, OnEvent, Close;
      NothingToSend();
      ret, copied := 0, outlen;
      ghost var accepted := OnOctet(Rx(), Ep(), FLAG).accepted;
      if frameState == FrameReceiving {
        ret := HandleFrame();
        assert ret != 0 ==> accepted == [packet[..packetLen]];
        if ret != 0 && buf != null {
          ret, copied := CopyOutPacket(buf, len, outlen);
        }
      }
      ResetReceiver();
    }

    method TakeOctet(octet: Octet)
      requires Valid() && octet != FLAG && octet != ESC
      modifies `rxCrc, `escapeState, `frameState, `header, `packetLen, packet
      ensures packetLen <= MAX_PACKET
      ensures Rx() == Step(old(Rx()), octet).rx
    {
      hide Update;
      var o := octet;
      if escapeState == Escaping {
        o := octet ^ FLIP;
        escapeState := EscapeNormal;
      }
      rxCrc := Update(rxCrc, o);
      if frameState == FrameNew {
        header := o;
        frameState := FrameReceiving;
      } else {
        BufferOctet(o);
      }
    }

    /** Entry point of the receiver. `buf` may be null; then only the deliver callback sees the
        payload. `outlen` is the caller's length variable, returned updated. */
    method DeliverOctet(octet: Octet, buf: array?<Octet>, len: nat, outlen: nat)
      returns (ret: int, copied: nat)
      requires Valid() && !locked
      requires buf != null ==> buf != packet && buf != writebuf && len <= buf.Length
      modifies this, packet, writebuf, if buf == null then {} else {buf}
      ensures Valid() && !locked
      ensures hasDeliver == old(hasDeliver)
      ensures Rx() == Step(old(Rx()), octet).rx
      ensures var o := OnOctet(old(Rx()), old(Ep()), octet);
              Ep() == o.ep && wire == old(wire) + EncodeAll(o.sent)
      ensures var o := OnOctet(old(Rx()), old(Ep()), octet);
              delivered == old(delivered) + (if hasDeliver then o.accepted else [])
              && Reported(o.accepted, buf, len, outlen, ret, copied)
    {
      hide EncodeAll, OnEvent, Close, Take;
      NothingToSend();
      ret, copied := 0, outlen;
      if FLAG == octet {
        ret, copied := DeliverFlag(buf, len, outlen);
      } else if ESC == octet {
        escapeState := Escaping;
      } else {
        TakeOctet(octet);
      }
    }
  }
}
