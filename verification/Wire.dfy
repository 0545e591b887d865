/**
 The octets on the wire, against a second definition that is written with the numbers of the
 protocol and of RFC 1662 alone: what any other implementation has to send and to expect.
 */
module Wire {
  import opened Crc
  import opened Framing
  import opened Protocol
  import opened Context

  // ----- The format -----

  /** Section 4.2 of RFC 1662: two octets are escaped, every other one stands for itself. */
  function Escaped(octets: seq<Octet>): seq<Octet> {
    if octets == [] then []
    else
      (if octets[0] == 0x7e then [0x7d, 0x5e] else if octets[0] == 0x7d then [0x7d, 0x5d]
       else [octets[0]])
      + Escaped(octets[1..])
  }

  /** Two bits for the kind of frame, six for the number. */
  function FirstOctet(kind: Kind, s: nat): nat {
    match kind case Usr => s case Rtx => 64 + s case Nak => 128 + s case Syn => 192 + s
  }

  /** The register starts with ones; its complement is sent, low octet first. */
  function CheckOf(octets: seq<Octet>): seq<Octet> {
    var crc := SerialFold(0xffff, octets);
    [((0xffff ^ crc) & 0xff) as bv8, ((0xffff ^ crc) >> 8) as bv8]
  }

  function Standard(first: Octet, payload: seq<Octet>): seq<Octet> {
    [0x7e] + Escaped([first] + payload + CheckOf([first] + payload)) + [0x7e]
  }

  // ----- The engine keeps to it -----

  lemma StuffIsEscape(octet: Octet)
    ensures octet == 0x7e ==> Stuff(octet) == [0x7d, 0x5e]
    ensures octet == 0x7d ==> Stuff(octet) == [0x7d, 0x5d]
    ensures octet != 0x7e && octet != 0x7d ==> Stuff(octet) == [octet]
  {}

  lemma {:induction false} StuffAllIsEscaped(octets: seq<Octet>)
    ensures StuffAll(octets) == Escaped(octets)
  {
    if octets != [] {
      hide Stuff;
      assert octets == [octets[0]] + octets[1..] && [octets[0]] == [] + [octets[0]];
      StuffConcat([octets[0]], octets[1..]);
      StuffSnoc([], octets[0]);
      StuffIsEscape(octets[0]);
      StuffAllIsEscaped(octets[1..]);
    }
  }

  lemma ShiftedKind(bits: Octet, num: Octet)
    requires bits < 4 && num < 64
    ensures (bits << 6) | num == 64 * bits + num && num <= 255 - 64 * bits
  {}

  /** The first octet of every frame, as a number. */
  lemma FirstOctets(kind: Kind, s: SeqNum)
    ensures HeaderOf(kind, s) as nat == FirstOctet(kind, s)
  {
    NumberBits(s);
    var num := s as bv8;
    ShiftedKind(KindBits(kind), num);
    match kind
    case Usr => UsrOctet(num);
    case Rtx => RtxOctet(num);
    case Nak => NakOctet(num);
    case Syn => SynOctet(num);
  }

  lemma UsrOctet(num: Octet)
    requires num < 64
    ensures 64 * (0 as bv8) + num == num
  {}

  lemma RtxOctet(num: Octet)
    requires num < 64
    ensures (64 + num) as nat == 64 + num as nat
  {}

  lemma NakOctet(num: Octet)
    requires num < 64
    ensures (128 + num) as nat == 128 + num as nat
  {}

  lemma SynOctet(num: Octet)
    requires num < 64
    ensures (192 + num) as nat == 192 + num as nat
  {}

  lemma ControlOctets()
    ensures HeaderOf(SYN0.kind, SYN0.num) == 0xc0 && HeaderOf(SYN1.kind, SYN1.num) == 0xc1
    ensures HeaderOf(SYN2.kind, SYN2.num) == 0xc2 && HeaderOf(DIS.kind, DIS.num) == 0xc3
    ensures SYN0.payload == SYN1.payload == SYN2.payload == DIS.payload == []
  {}

  lemma ComplementOctets(crc: bv16)
    ensures CheckLow(crc) == ((0xffff ^ crc) & 0xff) as bv8
    ensures CheckHigh(crc) == ((0xffff ^ crc) >> 8) as bv8
  {}

  /** Every frame the engine sends is the frame of the format, octet by octet. */
  lemma EncodeIsStandard(frame: Frame)
    ensures EncodeFrame(frame) == Standard(HeaderOf(frame.kind, frame.num), frame.payload)
    ensures HeaderOf(frame.kind, frame.num) as nat == FirstOctet(frame.kind, frame.num)
  {
    hide StuffAll, Escaped, Body, CheckOf, HeaderOf;
    var first := HeaderOf(frame.kind, frame.num);
    FirstOctets(frame.kind, frame.num);
    BodyIsStandard(first, frame.payload);
    StuffAllIsEscaped(Body(first, frame.payload));
  }

  lemma BodyIsStandard(first: Octet, payload: seq<Octet>)
    ensures Body(first, payload) == [first] + payload + CheckOf([first] + payload)
  {
    hide Fold, SerialFold, CheckLow, CheckHigh;
    var m := [first] + payload;
    FoldIsSerial(0xffff, m);
    ComplementOctets(SerialFold(0xffff, m));
    SameBody(first, payload);
  }

  /** The register starts as the format says. */
  lemma SameBody(first: Octet, payload: seq<Octet>)
    ensures var crc := Fold(0xffff, [first] + payload);
            Body(first, payload) == [first] + payload + [CheckLow(crc), CheckHigh(crc)]
  {
    hide Fold, CheckLow, CheckHigh;
  }

  /** Numbers count up to 63 and start over. */
  lemma NextNumber(s: SeqNum)
    ensures Next(s) == if s == 63 then 0 else s + 1
  {}

  // ----- What the receiver makes of any octets -----

  function Flipped(octet: Octet): Octet { octet ^ 0x20 }

  /** Escapes taken away: an octet behind one or more of them is flipped. */
  function Unescaped(octets: seq<Octet>): (seq<Octet>, bool) {
    if octets == [] then ([], false)
    else
      var last := octets[|octets| - 1];
      var (before, escaping) := Unescaped(octets[..|octets| - 1]);
      if last == 0x7d then (before, true)
      else (before + [if escaping then Flipped(last) else last], false)
  }

  ghost predicate TookUnescaped(fed: Fed, unescaped: (seq<Octet>, bool)) {
    && fed.events == [] && Valid(fed.rx) && fed.rx.escaping == unescaped.1
    && Taken(fed.rx) == unescaped.0
  }

  lemma UnescapesOne(rx: Receiver, octet: Octet)
    requires Valid(rx) && octet != 0x7e && (octet != 0x7d ==> |Taken(rx)| <= 256)
    ensures var after := Step(rx, octet);
            TookUnescaped(after, if octet == 0x7d then (Taken(rx), true)
                                 else (Taken(rx) + [if rx.escaping then Flipped(octet) else octet], false))
  {
    EscapingIsApart(rx);
    var o := if rx.escaping then octet ^ FLIP else octet;
    assert rx.escaping ==> o == Flipped(octet);
    hide Take, Taken, Valid, Flipped;
    if octet != 0x7d {
      TakeExtends(rx.(escaping := false), o);
    }
  }

  lemma EscapingIsApart(rx: Receiver)
    requires Valid(rx)
    ensures Valid(rx.(escaping := false)) && Taken(rx.(escaping := false)) == Taken(rx)
    ensures Valid(rx.(escaping := true)) && Taken(rx.(escaping := true)) == Taken(rx)
  {}

  /** Between delimiters a receiver takes in what any octets stand for, sent by the engine or not. */
  lemma {:induction false} ReceiverUnescapes(rx: Receiver, octets: seq<Octet>)
    requires Fresh(rx) && 0x7e !in octets && |Unescaped(octets).0| <= 257
    ensures TookUnescaped(Feed(rx, octets), Unescaped(octets))
    decreases |octets|
  {
    if octets != [] {
      hide Step, Taken, Valid, Fresh, Flipped;
      var n := |octets| - 1;
      assert octets[n] in octets;
      ReceiverUnescapes(rx, octets[..n]);
      UnescapesOne(Feed(rx, octets[..n]).rx, octets[n]);
    }
  }

  /** What a fresh context puts on the wire first. */
  method FirstFrame(capacity: Capacity, bufferSize: nat) returns (wire: seq<Octet>)
    requires 0 < bufferSize
    ensures wire == [0x7e, 0xc0, 0x74, 0x36, 0x7e]
  {
    var ctx := new SfpContext(capacity, bufferSize, false);
    ctx.Connect();
    wire := ctx.wire;
    EncodeOne(SYN0);
    SynOctets();
  }

  lemma SynOctets()
    ensures EncodeFrame(SYN0) == [0x7e, 0xc0, 0x74, 0x36, 0x7e]
  {
    hide Update, Stuff;
    EncodeParts(HeaderOf(Syn, 0), []);
    ControlOctets();
    assert [HeaderOf(Syn, 0)] + [] == [0xc0];
    FoldSnoc(CRC_PRESET, [], 0xc0);
    assert [] + [0xc0] == [0xc0];
    SynCheck();
    StuffPair(0x74, 0x36);
    StuffSnoc([], 0xc0);
    StuffIsEscape(0xc0);
    StuffIsEscape(0x74);
    StuffIsEscape(0x36);
  }

  lemma SynCheck()
    ensures CheckLow(Update(CRC_PRESET, 0xc0)) == 0x74 && CheckHigh(Update(CRC_PRESET, 0xc0)) == 0x36
  {}
}
