/**
 Octet stuffing (section 4.2 of RFC 1662) and the octet-driven receiver, as functions on values.
 The class in Context.dfy is proved against these functions; here printer and parser are proved
 to undo each other.
 */
module Framing {
  import opened Crc

  const FLAG: Octet := 0x7e
  const ESC: Octet := 0x7d
  const FLIP: Octet := 0x20

  /** Size of the receiver's packet buffer; the two check octets are buffered in it too. */
  const MAX_PACKET: nat := 256

  // ----- The transmitter -----

  predicate Reserved(octet: Octet) { octet == FLAG || octet == ESC }

  function Stuff(octet: Octet): seq<Octet> {
    if Reserved(octet) then [ESC, octet ^ FLIP] else [octet]
  }

  function StuffAll(octets: seq<Octet>): seq<Octet> {
    if octets == [] then [] else StuffAll(octets[..|octets| - 1]) + Stuff(octets[|octets| - 1])
  }

  /** A frame before stuffing: header, payload, complemented check sequence, low octet first. */
  function Body(header: Octet, payload: seq<Octet>): seq<Octet> {
    var crc := Fold(CRC_PRESET, [header] + payload);
    [header] + payload + [CheckLow(crc), CheckHigh(crc)]
  }

  function Encode(header: Octet, payload: seq<Octet>): seq<Octet> {
    [FLAG] + StuffAll(Body(header, payload)) + [FLAG]
  }

  lemma StuffSnoc(octets: seq<Octet>, octet: Octet)
    ensures StuffAll(octets + [octet]) == StuffAll(octets) + Stuff(octet)
  {
    assert (octets + [octet])[..|octets|] == octets;
  }

  lemma {:induction false} StuffConcat(left: seq<Octet>, right: seq<Octet>)
    ensures StuffAll(left + right) == StuffAll(left) + StuffAll(right)
    decreases |right|
  {
    hide Stuff;
    if right == [] {
      assert left + right == left;
    } else {
      var n := |right| - 1;
      assert left + right == (left + right[..n]) + [right[n]];
      StuffSnoc(left + right[..n], right[n]);
      StuffConcat(left, right[..n]);
    }
  }

  /** Inside a frame the stuffed octets never contain the delimiter. */
  lemma {:induction false} StuffHidesFlag(octets: seq<Octet>)
    ensures FLAG !in StuffAll(octets)
  {
    if octets != [] {
      StuffHidesFlag(octets[..|octets| - 1]);
    }
  }

  // ----- The receiver -----

  datatype Receiver = Receiver(
    crc: bv16, escaping: bool, receiving: bool, header: Octet, buf: seq<Octet>)

  /** What a closing FLAG hands to the frame layer. */
  datatype Event = Bad | Good(header: Octet, payload: seq<Octet>)

  datatype Fed = Fed(rx: Receiver, events: seq<Event>)

  function Reset(rx: Receiver): Receiver {
    rx.(crc := CRC_PRESET, escaping := false, receiving := false, buf := [])
  }

  function Close(rx: Receiver): Event {
    if |rx.buf| < 2 || rx.crc != CRC_GOOD then Bad else Good(rx.header, rx.buf[..|rx.buf| - 2])
  }

  /** One destuffed octet. */
  function Take(rx: Receiver, octet: Octet): Receiver {
    var crc := Update(rx.crc, octet);
    if !rx.receiving then rx.(crc := crc, header := octet, receiving := true)
    else if MAX_PACKET <= |rx.buf| then Reset(rx)
    else rx.(crc := crc, buf := rx.buf + [octet])
  }

  /** One octet from the link. */
  function Step(rx: Receiver, octet: Octet): Fed {
    if octet == FLAG then Fed(Reset(rx), if rx.receiving then [Close(rx)] else [])
    else if octet == ESC then Fed(rx.(escaping := true), [])
    else Fed(Take(rx.(escaping := false), if rx.escaping then octet ^ FLIP else octet), [])
  }

  function Feed(rx: Receiver, octets: seq<Octet>): Fed {
    if octets == [] then Fed(rx, [])
    else
      var before := Feed(rx, octets[..|octets| - 1]);
      var last := Step(before.rx, octets[|octets| - 1]);
      Fed(last.rx, before.events + last.events)
  }

  lemma FeedSnoc(rx: Receiver, octets: seq<Octet>, octet: Octet)
    ensures Feed(rx, octets + [octet])
         == Fed(Step(Feed(rx, octets).rx, octet).rx,
                Feed(rx, octets).events + Step(Feed(rx, octets).rx, octet).events)
  {
    assert (octets + [octet])[..|octets|] == octets;
  }

  lemma {:induction false} FeedConcat(rx: Receiver, left: seq<Octet>, right: seq<Octet>)
    ensures Feed(rx, left + right)
         == Fed(Feed(Feed(rx, left).rx, right).rx,
                Feed(rx, left).events + Feed(Feed(rx, left).rx, right).events)
    decreases |right|
  {
    hide Step;
    if right == [] {
      assert left + right == left;
    } else {
      var n := |right| - 1;
      assert left + right == (left + right[..n]) + [right[n]];
      FeedSnoc(rx, left + right[..n], right[n]);
      FeedConcat(rx, left, right[..n]);
    }
  }

  // ----- What the receiver has taken since its last reset -----

  /** The destuffed octets of the frame being received. */
  function Taken(rx: Receiver): seq<Octet> {
    if rx.receiving then [rx.header] + rx.buf else []
  }

  ghost predicate Valid(rx: Receiver) {
    && rx.crc == Fold(CRC_PRESET, Taken(rx))
    && |rx.buf| <= MAX_PACKET
    && (!rx.receiving ==> rx.buf == [])
  }

  /** Between frames: nothing taken and no escape pending. */
  ghost predicate Fresh(rx: Receiver) {
    Valid(rx) && !rx.receiving && !rx.escaping
  }

  lemma ResetIsFresh(rx: Receiver)
    ensures Fresh(Reset(rx))
  {}

  /** A destuffed octet is appended to what was taken, unless the buffer is full: then all of it,
      that octet included, is forgotten. */
  lemma TakeExtends(rx: Receiver, octet: Octet)
    requires Valid(rx)
    ensures Valid(Take(rx, octet))
    ensures Take(rx, octet).escaping == (rx.escaping && |Taken(rx)| <= MAX_PACKET)
    ensures Taken(Take(rx, octet)) == if |Taken(rx)| <= MAX_PACKET then Taken(rx) + [octet] else []
  {
    hide Update;
    FoldSnoc(CRC_PRESET, Taken(rx), octet);
    if rx.receiving {
      assert [rx.header] + (rx.buf + [octet]) == Taken(rx) + [octet];
    }
  }

  lemma StepKeepsValid(rx: Receiver, octet: Octet)
    requires Valid(rx)
    ensures Valid(Step(rx, octet).rx)
  {
    hide Take;
    if octet != FLAG && octet != ESC {
      TakeExtends(rx.(escaping := false), if rx.escaping then octet ^ FLIP else octet);
    }
  }

  /** No octet stream whatsoever overruns the packet buffer or breaks the running register. */
  lemma {:induction false} FeedKeepsValid(rx: Receiver, octets: seq<Octet>)
    requires Valid(rx)
    ensures Valid(Feed(rx, octets).rx)
  {
    hide Step, Valid;
    if octets != [] {
      FeedKeepsValid(rx, octets[..|octets| - 1]);
      StepKeepsValid(Feed(rx, octets[..|octets| - 1]).rx, octets[|octets| - 1]);
    }
  }

  lemma FlipTwice(octet: Octet)
    ensures (octet ^ FLIP) ^ FLIP == octet
    ensures Reserved(octet) ==> !Reserved(octet ^ FLIP)
  {}

  /** Stuffing and destuffing cancel, octet by octet. */
  lemma FeedStuffed(rx: Receiver, octet: Octet)
    requires !rx.escaping
    ensures Feed(rx, Stuff(octet)) == Fed(Take(rx, octet), [])
  {
    hide Take;
    FlipTwice(octet);
    assert rx.(escaping := false) == rx;
    if Reserved(octet) {
      var flipped := octet ^ FLIP;
      assert [ESC] + [flipped] == Stuff(octet) && [] + [ESC] == [ESC];
      FeedSnoc(rx, [], ESC);
      FeedSnoc(rx, [ESC], flipped);
    } else {
      assert [] + [octet] == Stuff(octet);
      FeedSnoc(rx, [], octet);
    }
  }

  /** The receiver has taken exactly these octets since it was fresh. */
  ghost predicate TookIn(fed: Fed, octets: seq<Octet>) {
    fed.events == [] && Valid(fed.rx) && !fed.rx.escaping && Taken(fed.rx) == octets
  }

  lemma TakeNext(rx: Receiver, octets: seq<Octet>, octet: Octet)
    requires TookIn(Feed(rx, StuffAll(octets)), octets) && |octets| <= MAX_PACKET
    ensures TookIn(Feed(rx, StuffAll(octets + [octet])), octets + [octet])
  {
    hide Take, Stuff, StuffAll, Feed, Taken, Valid;
    var before := Feed(rx, StuffAll(octets)).rx;
    StuffSnoc(octets, octet);
    FeedConcat(rx, StuffAll(octets), Stuff(octet));
    FeedStuffed(before, octet);
    TakeExtends(before, octet);
  }

  /** Up to the capacity of the buffer a fresh receiver takes in exactly what was stuffed. */
  lemma {:induction false} FeedStuffAll(rx: Receiver, octets: seq<Octet>)
    requires Fresh(rx) && |octets| <= MAX_PACKET + 1
    ensures TookIn(Feed(rx, StuffAll(octets)), octets)
  {
    hide Feed, StuffAll, TookIn, Fresh;
    if octets == [] {
      TakeNothing(rx);
    } else {
      var n := |octets| - 1;
      FeedStuffAll(rx, octets[..n]);
      TakeNext(rx, octets[..n], octets[n]);
      assert octets == octets[..n] + [octets[n]];
    }
  }

  lemma TakeNothing(rx: Receiver)
    requires Fresh(rx)
    ensures TookIn(Feed(rx, StuffAll([])), [])
  {
    assert StuffAll([]) == [];
  }

  // ----- Acceptance is exact -----

  lemma BodySplit(header: Octet, payload: seq<Octet>)
    ensures var body, m := Body(header, payload), [header] + payload;
            |body| == |m| + 2 && body[..|m|] == m && body[0] == header
            && body[|m|] == CheckLow(Fold(CRC_PRESET, m))
            && body[|m| + 1] == CheckHigh(Fold(CRC_PRESET, m))
  {
    hide Fold, CheckLow, CheckHigh;
  }

  /** The check passes iff the last two octets complement the check of all the octets before. */
  lemma CheckIsExact(body: seq<Octet>)
    requires |body| >= 2
    ensures var crc := Fold(CRC_PRESET, body[..|body| - 2]);
            Fold(CRC_PRESET, body) == CRC_GOOD
            <==> body[|body| - 2] == CheckLow(crc) && body[|body| - 1] == CheckHigh(crc)
  {
    hide Update, CheckLow, CheckHigh;
    var n := |body| - 2;
    assert body[..n + 1][..n] == body[..n];
    assert Fold(CRC_PRESET, body[..n + 1]) == Update(Fold(CRC_PRESET, body[..n]), body[n]);
    GoodResidue(Fold(CRC_PRESET, body[..n]), body[n], body[n + 1]);
  }

  lemma AcceptedIsBuilt(rx: Receiver)
    requires Valid(rx) && rx.receiving && Close(rx).Good?
    ensures Taken(rx) == Body(rx.header, rx.buf[..|rx.buf| - 2])
  {
    hide Fold, CheckLow, CheckHigh;
    var body, n := Taken(rx), |rx.buf| - 2;
    CheckIsExact(body);
    assert body[..n + 1] == [rx.header] + rx.buf[..n];
    assert body == body[..n + 1] + [body[n + 1], body[n + 2]];
  }

  lemma BuiltIsAccepted(rx: Receiver, header: Octet, payload: seq<Octet>)
    requires Valid(rx) && rx.receiving && Taken(rx) == Body(header, payload)
    ensures Close(rx) == Good(header, payload)
  {
    hide Fold, CheckLow, CheckHigh;
    var body := Taken(rx);
    BodySplit(header, payload);
    CheckIsExact(body);
    assert rx.buf == body[1..];
    assert body[1..][..|payload|] == body[..|payload| + 1][1..] == payload;
  }

  /** A frame is dispatched iff the octets taken are the body the transmitter builds for it. */
  lemma AcceptedIffBuilt(rx: Receiver, header: Octet, payload: seq<Octet>)
    requires Valid(rx) && rx.receiving
    ensures Close(rx) == Good(header, payload) <==> Taken(rx) == Body(header, payload)
  {
    hide Fold, CheckLow, CheckHigh, Body, Valid;
    if Close(rx) == Good(header, payload) {
      AcceptedIsBuilt(rx);
    } else if Taken(rx) == Body(header, payload) {
      BuiltIsAccepted(rx, header, payload);
    }
  }

  /** A body hit by an odd number of bit errors, or by a burst of at most sixteen bits, is never
      dispatched as a frame of the same length. */
  lemma DamageIsRejected(rx: Receiver, header: Octet, payload: seq<Octet>, at: nat, k: nat)
    requires Valid(rx) && rx.receiving
    requires |Taken(rx)| == |Body(header, payload)|
    requires BitDistance(Taken(rx), Body(header, payload)) % 2 == 1
             || Burst(Taken(rx), Body(header, payload), at, k)
    ensures Close(rx) == Bad
  {
    hide Fold, Burst, BitDistance, CheckLow, CheckHigh;
    var sent := Body(header, payload);
    if BitDistance(Taken(rx), sent) % 2 == 1 {
      DetectsOddErrors(CRC_PRESET, Taken(rx), sent);
    } else {
      DetectsBursts(CRC_PRESET, Taken(rx), sent, at, k);
    }
    BodySplit(header, payload);
    CheckIsExact(sent);
  }

  // ----- One frame through the receiver -----

  /** What a receiver makes of a whole transmitted frame, by the size of its payload. */
  function Arrival(header: Octet, payload: seq<Octet>): seq<Event>
    requires |payload| <= MAX_PACKET
  {
    if |payload| <= MAX_PACKET - 2 then [Good(header, payload)]
    else if |payload| == MAX_PACKET - 1 then []
    else [Bad]
  }

  lemma {:induction false} FeedBody(rx: Receiver, header: Octet, payload: seq<Octet>)
    requires Fresh(rx) && |payload| <= MAX_PACKET
    ensures var fed := Feed(rx, StuffAll(Body(header, payload)));
            fed.events == [] && Valid(fed.rx) && !fed.rx.escaping
            && (|payload| <= MAX_PACKET - 2 ==> Taken(fed.rx) == Body(header, payload))
            && (|payload| == MAX_PACKET - 1 ==> Taken(fed.rx) == [])
            && (|payload| == MAX_PACKET ==> |Taken(fed.rx)| == 1)
  {
    hide Feed, Body, Fold, Take, Stuff;
    var body := Body(header, payload);
    BodySplit(header, payload);
    if |payload| <= MAX_PACKET - 2 {
      FeedStuffAll(rx, body);
    } else {
      var full, rest := body[..MAX_PACKET + 1], body[MAX_PACKET + 1..];
      FeedStuffAll(rx, full);
      FeedOverflow(Feed(rx, StuffAll(full)).rx, rest);
      StuffConcat(full, rest);
      assert body == full + rest;
      FeedConcat(rx, StuffAll(full), StuffAll(rest));
    }
  }

  /** With the buffer full the next octet wipes it, and one more is mistaken for a header. */
  lemma FeedOverflow(rx: Receiver, rest: seq<Octet>)
    requires Valid(rx) && !rx.escaping && |Taken(rx)| == MAX_PACKET + 1
    requires 1 <= |rest| <= 2
    ensures var fed := Feed(rx, StuffAll(rest));
            fed.events == [] && Valid(fed.rx) && !fed.rx.escaping && |Taken(fed.rx)| == |rest| - 1
  {
    hide Feed, Take, Stuff, Fold;
    TakeExtends(rx, rest[0]);
    FeedStuffed(rx, rest[0]);
    assert [] + [rest[0]] == [rest[0]] && StuffAll([]) == [];
    StuffSnoc([], rest[0]);
    assert StuffAll([rest[0]]) == Stuff(rest[0]);
    if |rest| == 1 {
      assert rest == [rest[0]];
    } else {
      assert rest == [rest[0]] + [rest[1]];
      StuffSnoc([rest[0]], rest[1]);
      var wiped := Take(rx, rest[0]);
      FeedStuffed(wiped, rest[1]);
      TakeExtends(wiped, rest[1]);
      FeedConcat(rx, Stuff(rest[0]), Stuff(rest[1]));
    }
  }

  lemma FeedFlag(rx: Receiver)
    ensures Feed(rx, [FLAG]) == Fed(Reset(rx), if rx.receiving then [Close(rx)] else [])
  {
    hide Reset, Close;
    FeedSnoc(rx, [], FLAG);
    assert [] + [FLAG] == [FLAG];
  }

  lemma CloseByLength(end: Receiver, header: Octet, payload: seq<Octet>)
    requires |payload| <= MAX_PACKET && Valid(end)
    requires |payload| <= MAX_PACKET - 2 ==> Taken(end) == Body(header, payload)
    requires |payload| == MAX_PACKET - 1 ==> Taken(end) == []
    requires |payload| == MAX_PACKET ==> |Taken(end)| == 1
    ensures (if end.receiving then [Close(end)] else []) == Arrival(header, payload)
  {
    hide Fold;
    if |payload| <= MAX_PACKET - 2 {
      AcceptedIffBuilt(end, header, payload);
    }
  }

  /** Self-synchronisation: from any receiver state at all (dangling escape, truncated or
      overlong frame) the opening FLAG closes whatever was there, and then the transmitted frame
      arrives as if the receiver had been fresh. */
  lemma FrameArrives(rx: Receiver, header: Octet, payload: seq<Octet>)
    requires |payload| <= MAX_PACKET
    ensures var fed := Feed(rx, Encode(header, payload));
            Fresh(fed.rx)
            && fed.events == (if rx.receiving then [Close(rx)] else []) + Arrival(header, payload)
  {
    hide Feed, Fold, Body, Close;
    var stuffed := StuffAll(Body(header, payload));
    var start := Reset(rx);
    ResetIsFresh(rx);
    FeedFlag(rx);
    FeedBody(start, header, payload);
    var end := Feed(start, stuffed).rx;
    FeedFlag(end);
    ResetIsFresh(end);
    FeedConcat(rx, [FLAG], stuffed);
    FeedConcat(rx, [FLAG] + stuffed, [FLAG]);
    CloseByLength(end, header, payload);
  }

  /** The exact size boundary: of the payloads up to 256 octets that can be written, those of at
      most 254 are dispatched, and no other is. */
  lemma DispatchedIffFits(rx: Receiver, header: Octet, payload: seq<Octet>)
    requires Fresh(rx) && |payload| <= 256
    ensures Good(header, payload) in Feed(rx, Encode(header, payload)).events
            <==> |payload| <= 254
  {
    hide Feed, Encode;
    FrameArrives(rx, header, payload);
  }

  // ----- Whole streams -----

  /** A stretch of transmitter output: an extra FLAG, as a keepalive, or a frame. */
  datatype Item = Keepalive | Packet(header: Octet, payload: seq<Octet>)

  ghost predicate Sendable(items: seq<Item>, limit: nat) {
    forall i :: 0 <= i < |items| && items[i].Packet? ==> |items[i].payload| <= limit
  }

  function Output(items: seq<Item>): seq<Octet> {
    if items == [] then []
    else
      var last := items[|items| - 1];
      Output(items[..|items| - 1])
      + if last.Packet? then Encode(last.header, last.payload) else [FLAG]
  }

  function Arrivals(items: seq<Item>): seq<Event>
    requires Sendable(items, MAX_PACKET)
  {
    if items == [] then []
    else
      var last := items[|items| - 1];
      Arrivals(items[..|items| - 1])
      + if last.Packet? then Arrival(last.header, last.payload) else []
  }

  /** The packets of a stream, in order. */
  function Packets(items: seq<Item>): seq<Event> {
    if items == [] then []
    else
      var last := items[|items| - 1];
      Packets(items[..|items| - 1])
      + if last.Packet? then [Good(last.header, last.payload)] else []
  }

  lemma {:induction false} StreamArrives(rx: Receiver, items: seq<Item>)
    requires Fresh(rx) && Sendable(items, MAX_PACKET)
    ensures Fresh(Feed(rx, Output(items)).rx)
    ensures Feed(rx, Output(items)).events == Arrivals(items)
  {
    hide Encode, Feed, Fresh, Arrival;
    if items == [] {
      FeedNothing(rx);
    } else {
      var n := |items| - 1;
      var last := items[n];
      StreamArrives(rx, items[..n]);
      var mid := Feed(rx, Output(items[..n])).rx;
      FreshFacts(mid);
      if last.Packet? {
        FrameArrives(mid, last.header, last.payload);
        FeedConcat(rx, Output(items[..n]), Encode(last.header, last.payload));
      } else {
        FeedFlag(mid);
        ResetIsFresh(mid);
        FeedConcat(rx, Output(items[..n]), [FLAG]);
      }
    }
  }

  lemma FeedNothing(rx: Receiver)
    ensures Feed(rx, []) == Fed(rx, [])
  {}

  lemma FreshFacts(rx: Receiver)
    requires Fresh(rx)
    ensures !rx.receiving
  {}

  /** Round trip: a fresh receiver dispatches exactly the packets sent, in order, once each,
      however many extra FLAGs stand between them. */
  lemma StreamRoundTrip(rx: Receiver, items: seq<Item>)
    requires Fresh(rx) && Sendable(items, MAX_PACKET - 2)
    ensures Feed(rx, Output(items)).events == Packets(items)
  {
    StreamArrives(rx, items);
    ArrivalsAreWhole(items);
  }

  lemma {:induction false} ArrivalsAreWhole(items: seq<Item>)
    requires Sendable(items, MAX_PACKET - 2)
    ensures Arrivals(items) == Packets(items)
  {
    if items != [] {
      ArrivalsAreWhole(items[..|items| - 1]);
    }
  }
}
