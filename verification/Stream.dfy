/**
 The chunked reader over the engine: octets arrive in arbitrary chunks, a chunk may hold several
 messages or none, and a read stops behind the first non-empty message, keeping the rest of the
 chunk for later. Writes may be interleaved with the reads.
 */
module Stream {
  import opened Crc
  import opened Framing
  import opened Protocol
  import opened Context
  import opened Link

  /** What an operation of the next layer completes with. */
  datatype Status = Success | TimedOut | Failed

  type Packet = p: Payload | |p| <= MAX_PACKET

  /** A read of the next layer: what the application writes while it is pending, how it
      completes, and the octets it brings on success. */
  datatype Completion = Completion(meanwhile: seq<Packet>, status: Status, octets: seq<Octet>)

  /** The octets brought by a list of reads. */
  function Joined(incoming: seq<Completion>): seq<Octet> {
    if incoming == [] then []
    else (if incoming[0].status == Success then incoming[0].octets else []) + Joined(incoming[1..])
  }

  /** One operation of the next layer that a handshake or a read waits for. */
  datatype Op = Op(read: bool, status: Status, settling: bool)

  ghost predicate AllGood(ops: seq<Op>) {
    forall i :: 0 <= i < |ops| ==> ops[i].status == Success
  }

  /** The operations went well, or all but the last did and it ended as `status` says. */
  ghost predicate EndedWith(ops: seq<Op>, status: Status) {
    if status == Success then AllGood(ops)
    else ops != [] && AllGood(ops[..|ops| - 1]) && ops[|ops| - 1].status == status
  }

  ghost predicate SettledByTime(ops: seq<Op>) {
    EndedWith(ops, TimedOut) && ops[|ops| - 1].settling
  }

  /** Some operation belonged to the settling part. */
  ghost predicate Settling(ops: seq<Op>) { exists i :: 0 <= i < |ops| && ops[i].settling }

  lemma Extends(ops: seq<Op>, op: Op)
    requires AllGood(ops)
    ensures EndedWith(ops + [op], op.status)
    ensures op.status == Success ==> AllGood(ops + [op])
    ensures op.status != Success ==> !AllGood(ops + [op])
    ensures Settling(ops + [op]) <==> Settling(ops) || op.settling
    ensures op.status == TimedOut && op.settling ==> SettledByTime(ops + [op])
  {
    assert (ops + [op])[..|ops|] == ops && (ops + [op])[|ops|] == op;
    if Settling(ops) {
      var i :| 0 <= i < |ops| && ops[i].settling;
      assert (ops + [op])[i] == ops[i];
    }
  }

  lemma Ended(ops: seq<Op>)
    ensures AllGood(ops) <==> EndedWith(ops, Success)
    ensures AllGood([]) && !Settling([])
    ensures forall status :: EndedWith(ops, status) && status != Success ==> !AllGood(ops)
    ensures SettledByTime(ops) ==> Settling(ops) && !AllGood(ops)
  {}

  /** Messages of length zero are keepalives, not messages. */
  function NonEmpty(payloads: seq<Payload>): seq<Payload> {
    if payloads == [] then []
    else
      var last := payloads[|payloads| - 1];
      NonEmpty(payloads[..|payloads| - 1]) + if last == [] then [] else [last]
  }

  /** The messages that delivering octets one at a time accepts. */
  function Messages(start: State, octets: seq<Octet>): seq<Payload> {
    NonEmpty(FeedOctets(start, octets).accepted)
  }

  lemma {:induction false} NonEmptyConcat(left: seq<Payload>, right: seq<Payload>)
    ensures NonEmpty(left + right) == NonEmpty(left) + NonEmpty(right)
    decreases |right|
  {
    if right == [] {
      assert left + right == left;
    } else {
      var n := |right| - 1;
      assert (left + right)[..|left| + n] == left + right[..n];
      NonEmptyConcat(left, right[..n]);
    }
  }

  /** Octets that are still to come only add messages. */
  lemma MessagesGrow(start: State, octets: seq<Octet>, more: seq<Octet>)
    ensures Messages(start, octets) <= Messages(start, octets + more)
  {
    hide FeedOctets, NonEmpty;
    var l := FeedOctets(start, octets);
    FeedOctetsConcat(start, octets, more);
    NonEmptyConcat(l.accepted, FeedOctets(l.state, more).accepted);
  }

  // ----- Reception does not depend on transmission -----

  ghost predicate SameReception(a: Endpoint, b: Endpoint) {
    a.conn == b.conn && a.rxSeq == b.rxSeq
  }

  lemma RetransmittingIsSending(ep: Endpoint, s: SeqNum)
    ensures var o := TransmitHistoryFrom(ep, s);
            o.accepted == [] && SameReception(o.ep, ep)
  {
    hide Wrap, FastForward, Retransmissions;
  }

  lemma FrameReception(a: Endpoint, b: Endpoint, frame: Frame)
    requires SameReception(a, b)
    ensures var o := OnFrame(a, frame);
            && o.accepted == OnFrame(b, frame).accepted && SameReception(o.ep, OnFrame(b, frame).ep)
            && (o.accepted != [] ==> o.ep.conn == Connected && o.accepted == [frame.payload])
  {
    hide TransmitHistoryFrom, Wrap;
    RetransmittingIsSending(a, frame.num);
    RetransmittingIsSending(b, frame.num);
    RetransmittingIsSending(a, 0);
    RetransmittingIsSending(b, 0);
  }

  /** What an octet makes of the receiving side, whatever has been written meanwhile. */
  lemma OctetReception(rx: Receiver, a: Endpoint, b: Endpoint, octet: Octet)
    requires SameReception(a, b) && |rx.buf| <= MAX_PACKET
    ensures var o := OnOctet(rx, a, octet);
            && o.accepted == OnOctet(rx, b, octet).accepted
            && SameReception(o.ep, OnOctet(rx, b, octet).ep)
            && (o.accepted != [] ==> o.ep.conn == Connected && |o.accepted| == 1
                                     && |o.accepted[0]| <= MAX_PACKET)
  {
    hide OnFrame, Take, HeaderOf, KindOf, SeqOf;
    var events := Step(rx, octet).events;
    if events != [] && events[0].Good? {
      var frame := Frame(KindOf(events[0].header), SeqOf(events[0].header), events[0].payload);
      FrameReception(a, b, frame);
    }
  }

  lemma MessagesSnoc(start: State, octets: seq<Octet>, octet: Octet)
    requires |FeedOctets(start, octets).state.rx.buf| <= MAX_PACKET
    ensures var before := FeedOctets(start, octets);
            var o := OnOctet(before.state.rx, before.state.ep, octet);
            Messages(start, octets + [octet])
            == Messages(start, octets)
               + if o.accepted == [] || o.accepted[0] == [] then [] else [o.accepted[0]]
  {
    hide OnOctet, Step;
    var before := FeedOctets(start, octets);
    var o := OnOctet(before.state.rx, before.state.ep, octet);
    assert (octets + [octet])[..|octets|] == octets;
    OctetReception(before.state.rx, before.state.ep, before.state.ep, octet);
    if o.accepted == [] {
      assert before.accepted + [] == before.accepted;
    } else {
      assert (before.accepted + o.accepted)[..|before.accepted|] == before.accepted;
    }
  }

  class SfpStream {
    const ctx: SfpContext
    const pkt: array<Octet>
    var pktLen: nat
    var readBuffer: seq<Octet>

    /** The next layer: how its coming reads complete, and its coming writes. A read past the
        end fails; a write past the end succeeds. `handed` is what its writes were given. */
    var incoming: seq<Completion>
    var outgoing: seq<Status>
    var handed: seq<Octet>

    /** How many octets of what the engine wrote have left the write buffer. */
    var flushed: nat

    /** How far the last write of the next layer went, and whether one failed since the write
        buffer was last emptied. */
    ghost var issued: nat
    ghost var owed: bool

    /** The operations of the next layer in the handshake or read at hand. */
    ghost var ops: seq<Op>

    /** The context when the handshake began, the octets read since, and the messages returned. */
    ghost var start: State
    ghost var log: seq<Octet>
    ghost var returned: seq<Payload>

    ghost predicate Shape()
      reads `pktLen
    {
      && pkt.Length == MAX_PACKET && pktLen <= MAX_PACKET
      && pkt != ctx.packet && pkt != ctx.writebuf
    }

    /** Everything the engine wrote has been written out, unless a write failed. */
    ghost predicate Prompt()
      reads `flushed, `owed, ctx
    {
      flushed <= |ctx.wire| && (!owed ==> flushed == |ctx.wire|)
    }

    /** The context has processed exactly these octets, which held these messages; there is no
        callback that it could have passed them to instead. */
    ghost predicate Processed(octets: seq<Octet>, messages: seq<Payload>)
      reads ctx, ctx.packet, `start
    {
      && ctx.Valid() && !ctx.locked && !ctx.hasDeliver
      && ctx.Rx() == FeedOctets(start, octets).state.rx
      && SameReception(ctx.Ep(), FeedOctets(start, octets).state.ep)
      && Messages(start, octets) == messages
    }

    /** Of the octets read, all but those in the read buffer are processed. */
    ghost predicate Behind(messages: seq<Payload>)
      reads `pktLen, `readBuffer, `start, `log, ctx, ctx.packet
    {
      && Shape() && |readBuffer| <= |log| && readBuffer == log[|log| - |readBuffer|..]
      && Processed(log[..|log| - |readBuffer|], messages)
    }

    /** Every message processed is returned, or it is the one that waits in `pkt`; while none
        waits, nothing that was read is lost. */
    ghost predicate Consistent()
      reads `pktLen, `readBuffer, `start, `log, `returned, ctx, ctx.packet, pkt
    {
      && Shape()
      && Behind(returned + if pktLen == 0 then [] else [pkt[..pktLen]])
      && (pktLen != 0 ==> ctx.connectState == Connected)
    }

    constructor (context: SfpContext, completions: seq<Completion>, writes: seq<Status>)
      requires context.Valid() && !context.locked
      ensures Shape() && ctx == context && incoming == completions && outgoing == writes && fresh(pkt)
      ensures pktLen == 0 && readBuffer == [] && Prompt() && handed == []
    {
      ctx := context;
      pkt := new Octet[MAX_PACKET];
      pktLen, readBuffer, incoming, outgoing := 0, [], completions, writes;
      handed, flushed, issued, owed, ops := [], |context.wire|, |context.wire|, false, [];
      start, log, returned := State(context.Rx(), context.Ep()), [], [];
    }

    method DeliverOne(octet: Octet, ghost octets: seq<Octet>, ghost messages: seq<Payload>)
      returns (rc: int)
      requires Shape() && Processed(octets, messages)
      modifies ctx, ctx.packet, ctx.writebuf, pkt, `pktLen
      ensures Shape() && (rc == 0 || rc == 1) && |old(ctx.wire)| <= |ctx.wire|
      ensures rc == 1 && pktLen != 0 ==>
        Processed(octets + [octet], messages + [pkt[..pktLen]]) && ctx.connectState == Connected
      ensures !(rc == 1 && pktLen != 0) ==>
        Processed(octets + [octet], messages) && (pktLen == old(pktLen) || pktLen == 0)
    {
      ghost var before := FeedOctets(start, octets).state;
      FeedOctetsSnoc(start, octets, octet);
      MessagesSnoc(start, octets, octet);
      OctetReception(ctx.Rx(), ctx.Ep(), before.ep, octet);
      hide FeedOctets, Messages, OnOctet, Step, EncodeAll;
      rc, pktLen := ctx.DeliverOctet(octet, pkt, pkt.Length, pktLen);
    }

    /** The loop over the read buffer. It stops behind the first non-empty message. */
    method DeliverInputSequence()
      requires Behind(returned)
      modifies ctx, ctx.packet, ctx.writebuf, pkt, `pktLen, `readBuffer
      ensures Consistent() && |old(ctx.wire)| <= |ctx.wire|
      ensures pktLen == 0 ==> readBuffer == []
    {
      hide Processed;
      ghost var before := log[..|log| - |readBuffer|];
      assert before + readBuffer[..0] == before;
      assert returned + [] == returned;
      pktLen := 0;
      var delivered := 0;
      var found := false;
      while delivered < |readBuffer| && !found
        invariant 0 <= delivered <= |readBuffer|
        invariant Shape() && (found <==> pktLen != 0) && |old(ctx.wire)| <= |ctx.wire|
        invariant found ==> ctx.connectState == Connected
        invariant Processed(before + readBuffer[..delivered],
                            returned + if found then [pkt[..pktLen]] else [])
        modifies ctx, ctx.packet, ctx.writebuf, pkt, `pktLen
        decreases |readBuffer| - delivered, !found
      {
        assert before + readBuffer[..delivered + 1]
            == before + readBuffer[..delivered] + [readBuffer[delivered]];
        var rc := DeliverOne(readBuffer[delivered], before + readBuffer[..delivered], returned);
        delivered := delivered + 1;
        found := rc == 1 && pktLen != 0;
      }
      assert log[..|log| - (|readBuffer| - delivered)] == before + readBuffer[..delivered];
      readBuffer := readBuffer[delivered..];
    }

    /** One write of the next layer: all that is in the write buffer. */
    method WriteOut() returns (status: Status)
      requires flushed <= |ctx.wire|
      modifies `outgoing, `handed, `issued
      ensures handed == old(handed) + ctx.wire[flushed..] && issued == |ctx.wire|
      ensures status == if old(outgoing) == [] then Success else old(outgoing)[0]
      ensures outgoing == if old(outgoing) == [] then [] else old(outgoing)[1..]
    {
      handed := handed + ctx.wire[flushed..];
      issued := |ctx.wire|;
      status := Success;
      if outgoing != [] {
        status := outgoing[0];
        outgoing := outgoing[1..];
      }
    }

    /** Emptying the write buffer, once what it holds has been written out. */
    method Consume()
      requires issued == |ctx.wire|
      modifies `flushed, `owed
      ensures flushed == |ctx.wire| && !owed
    {
      flushed := |ctx.wire|;
      owed := false;
    }

    /** A write that a handshake waits for; the write buffer is emptied only if it succeeds. */
    method OwnWrite(ghost settling: bool) returns (status: Status)
      requires flushed <= |ctx.wire|
      modifies `outgoing, `handed, `flushed, `issued, `owed, `ops
      ensures Prompt() && (status == Success ==> flushed == |ctx.wire|)
      ensures ops == old(ops) + [Op(false, status, settling)]
      ensures status == if old(outgoing) == [] then Success else old(outgoing)[0]
      ensures handed == old(handed) + ctx.wire[old(flushed)..]
    {
      status := WriteOut();
      ops := ops + [Op(false, status, settling)];
      if status == Success {
        Consume();
      } else {
        owed := true;
      }
    }

    /** Sending a packet changes nothing for the reader. */
    method AsyncWrite(payload: Packet, ghost octets: seq<Octet>, ghost messages: seq<Payload>)
      returns (status: Status)
      requires Processed(octets, messages) && Prompt()
      modifies ctx, ctx.writebuf, `outgoing, `handed, `flushed, `issued, `owed
      ensures Processed(octets, messages) && ctx.connectState == old(ctx.connectState)
      ensures Prompt() && (status == Success ==> flushed == |ctx.wire|)
      ensures status == if old(outgoing) == [] then Success else old(outgoing)[0]
      ensures old(flushed) <= |ctx.wire| && handed == old(handed) + ctx.wire[old(flushed)..]
      ensures exists frame :: ctx.wire == old(ctx.wire) + EncodeAll([frame])
                && frame.kind == Usr && frame.payload == payload
    {
      hide FeedOctets, Messages, EncodeAll, EncodeFrame, Wrap;
      ghost var frame := Frame(Usr, ctx.txSeq, payload);
      var _ := ctx.WritePacket(payload);
      assert ctx.wire == old(ctx.wire) + EncodeAll([frame]);
      status := WriteOut();
      if status == Success {
        Consume();
      } else {
        owed := true;
      }
    }

    /** One read of the next layer into the emptied read buffer. */
    method ReadSome(ghost settling: bool) returns (status: Status)
      requires Shape() && Processed(log, returned) && Prompt()
      modifies `readBuffer, `incoming, `log, `ops, `outgoing, `handed, `flushed, `issued, `owed
      modifies ctx, ctx.writebuf
      ensures Shape() && Processed(old(log), returned) && ctx.connectState == old(ctx.connectState)
      ensures Prompt() && |incoming| <= |old(incoming)|
      ensures status == if old(incoming) == [] then Failed else old(incoming)[0].status
      ensures incoming == if old(incoming) == [] then [] else old(incoming)[1..]
      ensures readBuffer == if status == Success then old(incoming)[0].octets else []
      ensures ops == old(ops) + [Op(true, status, settling)]
      ensures log == old(log) + readBuffer
      ensures old(log) + Joined(old(incoming)) == log + Joined(incoming)
    {
      hide Processed;
      readBuffer := [];
      status := Failed;
      if incoming != [] {
        var read := incoming[0];
        var i := 0;
        while i < |read.meanwhile|
          invariant 0 <= i <= |read.meanwhile| && readBuffer == [] && log == old(log)
          invariant Shape() && Processed(log, returned) && Prompt()
          invariant ctx.connectState == old(ctx.connectState)
          modifies `outgoing, `handed, `flushed, `issued, `owed, ctx, ctx.writebuf
        {
          var _ := AsyncWrite(read.meanwhile[i], log, returned);
          i := i + 1;
        }
        status := read.status;
        incoming := incoming[1..];
        if status == Success {
          readBuffer := read.octets;
          log := log + readBuffer;
        }
      }
      ops := ops + [Op(true, status, settling)];
    }

    /** Reading and delivering once, with nothing unprocessed in the read buffer, no message
        waiting and nothing left to be written out. */
    method ReadAndDeliver(ghost settling: bool) returns (status: Status)
      requires Shape() && Processed(log, returned) && Prompt()
      modifies this`pktLen, `readBuffer, `incoming, `log, `ops, `outgoing, `handed, `flushed
      modifies `issued, `owed, ctx, ctx.packet, ctx.writebuf, pkt
      ensures old(log) + Joined(old(incoming)) == log + Joined(incoming)
      ensures flushed <= |ctx.wire| && ops == old(ops) + [Op(true, status, settling)]
      ensures status == if old(incoming) == [] then Failed else old(incoming)[0].status
      ensures status != Success ==>
        && log == old(log) && pktLen == old(pktLen) && Shape() && Processed(log, returned)
        && readBuffer == [] && ctx.connectState == old(ctx.connectState) && Prompt()
      ensures status == Success ==> Consistent() && (pktLen == 0 ==> readBuffer == [])
      ensures status == Success ==> |incoming| < |old(incoming)|
      ensures |incoming| <= |old(incoming)|
    {
      hide Processed, Joined;
      status := ReadSome(settling);
      assert log[..|log| - |readBuffer|] == old(log);
      if status == Success {
        DeliverInputSequence();
      }
    }

    lemma NothingYet()
      requires ctx.Valid() && !ctx.locked && !ctx.hasDeliver
      requires start == State(ctx.Rx(), ctx.Ep())
      ensures Processed([], [])
    {}

    /** Initialisation and connection, then reading until the context is connected and for a
        while longer, until a message arrives or the settling time has passed. It succeeds exactly
        when the context is connected and nothing failed but, at most, settling ran out of time.
        What is left in the read buffer from before the handshake is discarded by its first read;
        after that no octet is. `atRead` tells whether a failure is that of a read. */
    method Handshake() returns (status: Status, atRead: bool)
      requires Shape() && ctx.Valid() && !ctx.locked && Prompt()
      modifies this, ctx, ctx.packet, ctx.writebuf, pkt
      ensures Fresh(start.rx) && start.ep == Endpoint(SentSyn0, 0, 0, []) && returned == []
      ensures Joined(old(incoming)) == log + Joined(incoming)
      ensures status == Success ==> Consistent() && ctx.connectState == Connected
      ensures status == Success <==>
                ctx.connectState == Connected && (AllGood(ops) || SettledByTime(ops))
      ensures status == Success ==> pktLen != 0 || SettledByTime(ops)
      ensures status != Success ==> EndedWith(ops, status)
      ensures status != Success && atRead ==> Messages(start, log) == []
      ensures ctx.Valid() && !ctx.locked && Prompt()
    {
      hide Step, OnOctet, EncodeAll, Joined;
      ctx.Init();
      ctx.Connect();
      start, log, returned, ops := State(ctx.Rx(), ctx.Ep()), [], [], [];
      NothingYet();
      hide Messages, AllGood, EndedWith, Settling, SettledByTime;
      Ended([]);
      atRead := false;
      status := OwnWrite(false);
      Extends([], Op(false, status, false));
      if status == Success {
        status, atRead := ReadUntilConnected();
      }
      if status == Success && pktLen == 0 {
        status, atRead := ReadUntilDelivery();
        if status == TimedOut && ctx.connectState == Connected {
          status := Success;
        }
        assert ctx.connectState == Connected || status != Success;
      }
    }

    method ReadUntilConnected() returns (status: Status, atRead: bool)
      requires Shape() && log == [] && returned == [] && Processed([], [])
      requires ctx.connectState != Connected && Prompt() && AllGood(ops) && !Settling(ops)
      modifies this`pktLen, `readBuffer, `incoming, `log, `ops, `outgoing, `handed, `flushed
      modifies `issued, `owed, ctx, ctx.packet, ctx.writebuf, pkt
      ensures Joined(old(incoming)) == log + Joined(incoming)
      ensures Prompt() && EndedWith(ops, status) && !Settling(ops)
      ensures status == Success ==>
        Consistent() && ctx.connectState == Connected && (pktLen == 0 ==> readBuffer == [])
      ensures status != Success ==> if atRead then Processed(log, []) else Consistent()
    {
      hide Joined, Behind, AllGood, EndedWith, Settling;
      ghost var first := true;
      status, atRead := Success, false;
      while ctx.connectState != Connected
        invariant Shape() && Joined(old(incoming)) == log + Joined(incoming)
        invariant Prompt() && AllGood(ops) && !Settling(ops)
        invariant first ==> log == [] && Processed([], [])
        invariant !first ==> Consistent() && (pktLen == 0 ==> readBuffer == [])
        decreases |incoming|
      {
        if !first {
          AllRead();
        }
        hide Processed;
        ghost var before := ops;
        status := ReadAndDeliver(false);
        Extends(before, Op(true, status, false));
        if status != Success {
          return status, true;
        }
        before := ops;
        status := OwnWrite(false);
        Extends(before, Op(false, status, false));
        if status != Success {
          return status, false;
        }
        first := false;
      }
      status := Success;
      Ended(ops);
    }

    lemma AllRead()
      requires Consistent() && pktLen == 0 && readBuffer == []
      ensures Processed(log, returned)
    {
      hide FeedOctets, Messages;
      assert returned + [] == returned && log[..|log|] == log;
    }

    /** Entered with nothing delivered and nothing buffered, as the code asserts. */
    method ReadUntilDelivery() returns (status: Status, atRead: bool)
      requires Consistent() && returned == [] && pktLen == 0 && readBuffer == []
      requires Prompt() && AllGood(ops)
      modifies this`pktLen, `readBuffer, `incoming, `log, `ops, `outgoing, `handed, `flushed
      modifies `issued, `owed, ctx, ctx.packet, ctx.writebuf, pkt
      ensures old(log) + Joined(old(incoming)) == log + Joined(incoming)
      ensures Consistent() && Prompt() && EndedWith(ops, status)
      ensures status == Success ==> pktLen != 0 && ctx.connectState == Connected
      ensures status == TimedOut ==> SettledByTime(ops)
      ensures status != Success && atRead ==> Processed(log, [])
    {
      hide Joined, Behind, AllGood, EndedWith, Settling, SettledByTime;
      status, atRead := Success, false;
      while pktLen == 0
        invariant Consistent() && (pktLen == 0 ==> readBuffer == [])
        invariant Prompt() && AllGood(ops)
        invariant old(log) + Joined(old(incoming)) == log + Joined(incoming)
        decreases |incoming|
      {
        AllRead();
        hide Processed;
        ghost var before := ops;
        status := ReadAndDeliver(true);
        Extends(before, Op(true, status, true));
        if status != Success {
          AllProcessed();
          return status, true;
        }
        before := ops;
        status := OwnWrite(true);
        Extends(before, Op(false, status, true));
        if status != Success {
          return status, false;
        }
      }
      status := Success;
      Ended(ops);
    }

    /** One message, or none when a read fails, or a write that answers what was read. A message
        that waits is returned first, and octets that wait are delivered before more are read.
        It succeeds exactly when it returns a message and no operation failed; a write that fails
        is reported behind the message, if there is one. */
    method AsyncRead() returns (status: Status, message: Payload)
      requires Consistent() && Prompt()
      modifies this`pktLen, `readBuffer, `incoming, `log, `ops, `outgoing, `handed, `flushed
      modifies `issued, `owed, `returned, ctx, ctx.packet, ctx.writebuf, pkt
      ensures Consistent() && Prompt() && pktLen == 0
      ensures old(log) + Joined(old(incoming)) == log + Joined(incoming)
      ensures status == Success <==> message != [] && AllGood(ops)
      ensures status != Success ==> EndedWith(ops, status)
      ensures old(pktLen) != 0 ==> ops == [] && status == Success
      ensures message != [] ==>
        returned == old(returned) + [message] && ctx.connectState == Connected
      ensures message == [] ==> returned == old(returned) && Messages(start, log) == returned
    {
      hide Processed, Messages, Joined, EndedWith;
      status := FindMessage();
      message := pkt[..pktLen];
      if pktLen != 0 {
        assert returned + [message] + [] == returned + [message];
        returned := returned + [message];
      }
      pktLen := 0;
    }

    /** The reading part: without a message, everything read is processed and returned. */
    method FindMessage() returns (status: Status)
      requires Consistent() && Prompt()
      modifies this`pktLen, `readBuffer, `incoming, `log, `ops, `outgoing, `handed, `flushed
      modifies `issued, `owed, ctx, ctx.packet, ctx.writebuf, pkt
      ensures Consistent() && Prompt()
      ensures status == Success <==> pktLen != 0 && AllGood(ops)
      ensures status != Success ==> EndedWith(ops, status)
      ensures old(pktLen) != 0 ==> ops == [] && pktLen == old(pktLen) && pkt[..] == old(pkt[..])
      ensures old(log) + Joined(old(incoming)) == log + Joined(incoming)
      ensures pktLen == 0 ==> Messages(start, log) == returned
    {
      hide Joined, Behind, Messages, AllGood, EndedWith, Settling, SettledByTime;
      status, ops := Success, [];
      Ended([]);
      if pktLen == 0 && readBuffer != [] {
        status := DrainBuffer();
      }
      while status == Success && pktLen == 0
        invariant Consistent() && Prompt() && (pktLen == 0 ==> readBuffer == [])
        invariant EndedWith(ops, status) && (status == Success <==> AllGood(ops))
        invariant old(pktLen) != 0 ==> ops == [] && pktLen == old(pktLen) && pkt[..] == old(pkt[..])
        invariant old(log) + Joined(old(incoming)) == log + Joined(incoming)
        decreases |incoming|, status == Success
      {
        status := ReadAndFlush();
      }
      if pktLen == 0 {
        AllRead();
        AllProcessed();
      }
    }

    method DrainBuffer() returns (status: Status)
      requires Consistent() && Prompt() && pktLen == 0 && AllGood(ops)
      modifies this`pktLen, `readBuffer, `ops, `outgoing, `handed, `flushed, `issued, `owed
      modifies ctx, ctx.packet, ctx.writebuf, pkt
      ensures Consistent() && Prompt() && (pktLen == 0 ==> readBuffer == [])
      ensures EndedWith(ops, status) && (status == Success <==> AllGood(ops))
    {
      hide Joined, Behind, AllGood, EndedWith, Settling, SettledByTime;
      NoneWaits();
      hide Processed;
      DeliverInputSequence();
      status := Flush();
    }

    /** One turn of the reading loop. */
    method ReadAndFlush() returns (status: Status)
      requires Consistent() && Prompt() && pktLen == 0 && readBuffer == [] && AllGood(ops)
      modifies this`pktLen, `readBuffer, `incoming, `log, `ops, `outgoing, `handed, `flushed
      modifies `issued, `owed, ctx, ctx.packet, ctx.writebuf, pkt
      ensures Consistent() && Prompt() && (pktLen == 0 ==> readBuffer == [])
      ensures EndedWith(ops, status) && (status == Success <==> AllGood(ops))
      ensures old(log) + Joined(old(incoming)) == log + Joined(incoming)
      ensures status == Success ==> |incoming| < |old(incoming)|
      ensures |incoming| < |old(incoming)| || (|incoming| == |old(incoming)| && status != Success)
    {
      hide Joined, Behind, AllGood, EndedWith, Settling, SettledByTime;
      AllRead();
      hide Processed;
      ghost var before := ops;
      status := ReadAndDeliver(false);
      Extends(before, Op(true, status, false));
      if status != Success {
        AllProcessed();
      } else {
        status := Flush();
      }
    }

    /** Writing out the engine's answers, if there are any; the write buffer is emptied even if
        that fails. */
    method Flush() returns (status: Status)
      requires flushed <= |ctx.wire| && AllGood(ops)
      modifies `ops, `outgoing, `handed, `flushed, `issued, `owed
      ensures flushed == |ctx.wire| && EndedWith(ops, status) && (status == Success <==> AllGood(ops))
      ensures old(flushed) == |ctx.wire| ==> ops == old(ops)
      ensures old(flushed) < |ctx.wire| ==>
        && ops == old(ops) + [Op(false, status, false)]
        && status == (if old(outgoing) == [] then Success else old(outgoing)[0])
        && handed == old(handed) + ctx.wire[old(flushed)..]
    {
      hide AllGood, EndedWith, Settling, SettledByTime;
      status := Success;
      Ended(ops);
      if flushed < |ctx.wire| {
        status := WriteOut();
        Extends(ops, Op(false, status, false));
        ops := ops + [Op(false, status, false)];
        Consume();
      }
    }

    lemma NoneWaits()
      requires Consistent() && pktLen == 0
      ensures Behind(returned)
    {
      hide FeedOctets, Messages;
      assert returned + [] == returned;
    }

    lemma AllProcessed()
      requires Shape() && Processed(log, returned) && pktLen == 0 && readBuffer == []
      ensures Consistent() && Messages(start, log) == returned
    {
      hide FeedOctets, Messages;
      assert returned + [] == returned && log[..|log|] == log;
    }

    lemma ReturnedSoFar()
      requires Consistent()
      ensures returned <= Messages(start, log)
    {
      hide FeedOctets, Messages;
      var n := |log| - |readBuffer|;
      assert log == log[..n] + readBuffer;
      MessagesGrow(start, log[..n], readBuffer);
    }

    /** A packet sent between reads. */
    method AsyncSend(payload: Packet) returns (status: Status)
      requires Consistent() && Prompt()
      modifies ctx, ctx.writebuf, `outgoing, `handed, `flushed, `issued, `owed
      ensures Consistent() && ctx.connectState == old(ctx.connectState)
      ensures Prompt() && (status == Success ==> flushed == |ctx.wire|)
      ensures status == if old(outgoing) == [] then Success else old(outgoing)[0]
      ensures old(flushed) <= |ctx.wire| && handed == old(handed) + ctx.wire[old(flushed)..]
    {
      hide Processed;
      ghost var messages := returned + if pktLen == 0 then [] else [pkt[..pktLen]];
      status := AsyncWrite(payload, log[..|log| - |readBuffer|], messages);
    }
  }

  datatype Request = Read | Write(payload: Packet)

  /** A whole session: the handshake, then reads and writes in any order until one fails, with
      further writes while reads are pending. However the octets are cut into chunks, and
      whatever is written meanwhile, the messages returned are the first of those that
      octet-at-a-time delivery accepts, and all of them once a read has come back without one. */
  method Session(stream: SfpStream, requests: seq<Request>)
    returns (exhausted: bool, messages: seq<Payload>)
    requires stream.Shape() && stream.ctx.Valid() && !stream.ctx.locked && stream.Prompt()
    modifies stream, stream.ctx, stream.ctx.packet, stream.ctx.writebuf, stream.pkt
    ensures Fresh(stream.start.rx) && stream.start.ep == Endpoint(SentSyn0, 0, 0, [])
    ensures Joined(old(stream.incoming)) == stream.log + Joined(stream.incoming)
    ensures exhausted ==> messages == Messages(stream.start, stream.log)
    ensures messages <= Messages(stream.start, Joined(old(stream.incoming)))
    ensures |messages| <= |requests|
  {
    hide Messages, Joined, Fresh, AllGood, EndedWith, SettledByTime;
    hide SfpStream.Behind, SfpStream.Processed;
    messages := [];
    var status, atRead := stream.Handshake();
    exhausted := status != Success && atRead;
    var i := 0;
    while status == Success && i < |requests|
      invariant 0 <= |messages| <= i <= |requests|
      invariant status == Success ==>
        stream.Consistent() && stream.Prompt() && stream.ctx.connectState == Connected
      invariant stream.returned == messages <= Messages(stream.start, stream.log)
      invariant exhausted ==> messages == Messages(stream.start, stream.log)
      invariant Joined(old(stream.incoming)) == stream.log + Joined(stream.incoming)
      invariant Fresh(stream.start.rx) && stream.start.ep == Endpoint(SentSyn0, 0, 0, [])
    {
      match requests[i] {
        case Read =>
          var message;
          status, message := stream.AsyncRead();
          exhausted := message == [];
          if message != [] {
            messages := messages + [message];
          }
        case Write(payload) =>
          status := stream.AsyncSend(payload);
      }
      stream.ReturnedSoFar();
      i := i + 1;
    }
    MessagesGrow(stream.start, stream.log, Joined(stream.incoming));
  }
}
