/**
 The octet level implements the frame level: feeding a context the encoding of a list of frames,
 octet by octet, has exactly the effect of handing it those frames one by one.
 */
module Link {
  import opened Crc
  import opened Framing
  import opened Protocol
  import opened Context

  /** The state of a context as a value, and what a stretch of input makes of it. */
  datatype State = State(rx: Receiver, ep: Endpoint)

  datatype Effect = Effect(state: State, sent: seq<Frame>, accepted: seq<Payload>)

  function FeedOctets(state: State, octets: seq<Octet>): Effect {
    if octets == [] then Effect(state, [], [])
    else
      var n := |octets| - 1;
      var before := FeedOctets(state, octets[..n]);
      var o := OnOctet(before.state.rx, before.state.ep, octets[n]);
      Effect(State(Step(before.state.rx, octets[n]).rx, o.ep),
             before.sent + o.sent, before.accepted + o.accepted)
  }

  /** The reaction of an endpoint to a list of events. */
  function OnEvents(ep: Endpoint, events: seq<Event>): Outcome {
    if events == [] then Silent(ep)
    else
      var n := |events| - 1;
      var before := OnEvents(ep, events[..n]);
      var o := OnEvent(before.ep, events[n]);
      Outcome(o.ep, before.sent + o.sent, before.accepted + o.accepted,
              before.underrun || o.underrun)
  }

  /** The reaction of an endpoint to a list of transmitted frames. */
  function OnFrames(ep: Endpoint, frames: seq<Frame>): Outcome {
    if frames == [] then Silent(ep)
    else
      var n := |frames| - 1;
      var before := OnFrames(ep, frames[..n]);
      var o := OnArrival(before.ep, frames[n]);
      Outcome(o.ep, before.sent + o.sent, before.accepted + o.accepted,
              before.underrun || o.underrun)
  }

  lemma {:induction false} OnEventsConcat(ep: Endpoint, left: seq<Event>, right: seq<Event>)
    ensures var l := OnEvents(ep, left);
            var r := OnEvents(l.ep, right);
            OnEvents(ep, left + right)
            == Outcome(r.ep, l.sent + r.sent, l.accepted + r.accepted, l.underrun || r.underrun)
    decreases |right|
  {
    hide OnEvent;
    if right == [] {
      assert left + right == left;
    } else {
      var n := |right| - 1;
      assert (left + right)[..|left| + n] == left + right[..n];
      OnEventsConcat(ep, left, right[..n]);
    }
  }

  lemma OneEvent(ep: Endpoint, event: Event)
    ensures var o := OnEvent(ep, event);
            OnEvents(ep, [event]) == o
  {
    hide OnEvent;
    assert OnEvents(ep, [event][..0]) == Silent(ep);
    var o := OnEvent(ep, event);
    assert [] + o.sent == o.sent && [] + o.accepted == o.accepted;
  }

  lemma NoEvents(ep: Endpoint)
    ensures OnEvents(ep, []) == Silent(ep)
  {}

  /** Receiver and endpoint only meet in the events. */
  lemma {:induction false} FeedSplits(state: State, octets: seq<Octet>)
    ensures var fed := Feed(state.rx, octets);
            var o := OnEvents(state.ep, fed.events);
            FeedOctets(state, octets) == Effect(State(fed.rx, o.ep), o.sent, o.accepted)
  {
    hide OnEvent, Take, Close;
    if octets != [] {
      var n := |octets| - 1;
      var before := Feed(state.rx, octets[..n]);
      var events := Step(before.rx, octets[n]).events;
      FeedSplits(state, octets[..n]);
      OnEventsConcat(state.ep, before.events, events);
      var mid := OnEvents(state.ep, before.events);
      if events != [] {
        OneEvent(mid.ep, events[0]);
        assert events == [events[0]];
      }
    }
  }

  lemma {:induction false} FeedOctetsConcat(state: State, left: seq<Octet>, right: seq<Octet>)
    ensures var l := FeedOctets(state, left);
            var r := FeedOctets(l.state, right);
            FeedOctets(state, left + right)
            == Effect(r.state, l.sent + r.sent, l.accepted + r.accepted)
    decreases |right|
  {
    hide OnOctet, Step;
    if right == [] {
      assert left + right == left;
    } else {
      var n := |right| - 1;
      assert (left + right)[..|left| + n] == left + right[..n];
      FeedOctetsConcat(state, left, right[..n]);
    }
  }

  ghost predicate AllFit(frames: seq<Frame>, limit: nat) {
    forall i :: 0 <= i < |frames| ==> |frames[i].payload| <= limit
  }

  /** One encoded frame has the effect of the frame. */
  lemma FrameHasEffect(state: State, frame: Frame)
    requires Fresh(state.rx) && |frame.payload| <= MAX_PACKET
    ensures var effect := FeedOctets(state, EncodeFrame(frame));
            var o := OnArrival(state.ep, frame);
            Fresh(effect.state.rx) && effect == Effect(State(effect.state.rx, o.ep), o.sent, o.accepted)
  {
    FreshFacts(state.rx);
    hide Encode, Feed, FeedOctets, HeaderOf, KindOf, SeqOf, OnFrame, Fresh, OnEvents;
    var head := HeaderOf(frame.kind, frame.num);
    HeaderRoundTrip(frame.kind, frame.num);
    FrameArrives(state.rx, head, frame.payload);
    FeedSplits(state, EncodeFrame(frame));
    NoEvents(state.ep);
    if |frame.payload| <= MAX_PACKET - 2 {
      OneEvent(state.ep, Good(head, frame.payload));
    } else if |frame.payload| == MAX_PACKET {
      OneEvent(state.ep, Bad);
    }
  }

  /** The refinement: octets of whole frames in, frame-level reactions out. */
  lemma {:induction false} OctetsImplementFrames(state: State, frames: seq<Frame>)
    requires Fresh(state.rx) && AllFit(frames, MAX_PACKET)
    ensures var effect := FeedOctets(state, EncodeAll(frames));
            var o := OnFrames(state.ep, frames);
            Fresh(effect.state.rx) && effect == Effect(State(effect.state.rx, o.ep), o.sent, o.accepted)
  {
    if frames == [] {
      assert EncodeAll(frames) == [];
    } else {
      hide EncodeFrame, FeedOctets, OnArrival, Fresh;
      var n := |frames| - 1;
      OctetsImplementFrames(state, frames[..n]);
      var mid := FeedOctets(state, EncodeAll(frames[..n])).state;
      FrameHasEffect(mid, frames[n]);
      FeedOctetsConcat(state, EncodeAll(frames[..n]), EncodeFrame(frames[n]));
    }
  }

  /** The context has reacted as `effect` says, since its logs were `wire` and `delivered`. */
  ghost predicate Reached(ctx: SfpContext, effect: Effect, wire: seq<Octet>, delivered: seq<Payload>)
    reads ctx, ctx.packet
  {
    && ctx.Valid() && !ctx.locked
    && ctx.Rx() == effect.state.rx && ctx.Ep() == effect.state.ep
    && ctx.wire == wire + EncodeAll(effect.sent)
    && ctx.delivered == delivered + (if ctx.hasDeliver then effect.accepted else [])
  }

  lemma FeedOctetsSnoc(state: State, octets: seq<Octet>, octet: Octet)
    ensures var before := FeedOctets(state, octets);
            var o := OnOctet(before.state.rx, before.state.ep, octet);
            && FeedOctets(state, octets + [octet])
               == Effect(State(Step(before.state.rx, octet).rx, o.ep),
                         before.sent + o.sent, before.accepted + o.accepted)
            && EncodeAll(before.sent + o.sent) == EncodeAll(before.sent) + EncodeAll(o.sent)
  {
    hide OnOctet, Step, EncodeFrame;
    var before := FeedOctets(state, octets);
    assert (octets + [octet])[..|octets|] == octets;
    EncodeConcat(before.sent, OnOctet(before.state.rx, before.state.ep, octet).sent);
  }

  method DeliverNext(ctx: SfpContext, octet: Octet, ghost start: State, ghost octets: seq<Octet>,
                     ghost wire: seq<Octet>, ghost delivered: seq<Payload>)
    requires Reached(ctx, FeedOctets(start, octets), wire, delivered)
    modifies ctx, ctx.packet, ctx.writebuf
    ensures Reached(ctx, FeedOctets(start, octets + [octet]), wire, delivered)
    ensures ctx.hasDeliver == old(ctx.hasDeliver)
  {
    FeedOctetsSnoc(start, octets, octet);
    hide FeedOctets, OnOctet, Step, EncodeAll;
    var _, _ := ctx.DeliverOctet(octet, null, 0, 0);
  }

  lemma AtStart(ctx: SfpContext, octets: seq<Octet>)
    requires ctx.Valid() && !ctx.locked
    ensures Reached(ctx, FeedOctets(State(ctx.Rx(), ctx.Ep()), octets[..0]), ctx.wire, ctx.delivered)
  {
    ctx.NothingToSend();
    hide EncodeAll;
  }

  /** A read handler: every octet read is delivered to the context, in order. */
  method DeliverAll(ctx: SfpContext, octets: seq<Octet>)
    requires ctx.Valid() && !ctx.locked
    modifies ctx, ctx.packet, ctx.writebuf
    ensures Reached(ctx, FeedOctets(State(old(ctx.Rx()), old(ctx.Ep())), octets),
                    old(ctx.wire), old(ctx.delivered))
    ensures ctx.hasDeliver == old(ctx.hasDeliver)
  {
    hide FeedOctets, EncodeAll, Reached;
    ghost var start := State(ctx.Rx(), ctx.Ep());
    AtStart(ctx, octets);
    var i := 0;
    while i < |octets|
      invariant 0 <= i <= |octets|
      invariant Reached(ctx, FeedOctets(start, octets[..i]), old(ctx.wire), old(ctx.delivered))
      invariant ctx.hasDeliver == old(ctx.hasDeliver)
    {
      assert octets[..i + 1] == octets[..i] + [octets[i]];
      DeliverNext(ctx, octets[i], start, octets[..i], old(ctx.wire), old(ctx.delivered));
      i := i + 1;
    }
    assert octets[..i] == octets;
  }

  /** A context that is fed whole frames reacts as the endpoint does to the frames. */
  method DeliverFrames(ctx: SfpContext, octets: seq<Octet>, ghost frames: seq<Frame>)
    requires ctx.Valid() && !ctx.locked && Fresh(ctx.Rx())
    requires octets == EncodeAll(frames) && AllFit(frames, MAX_PACKET)
    modifies ctx, ctx.packet, ctx.writebuf
    ensures var o := OnFrames(old(ctx.Ep()), frames);
            && ctx.Valid() && !ctx.locked && Fresh(ctx.Rx()) && ctx.Ep() == o.ep
            && ctx.wire == old(ctx.wire) + EncodeAll(o.sent)
            && ctx.delivered == old(ctx.delivered) + (if ctx.hasDeliver then o.accepted else [])
    ensures ctx.hasDeliver == old(ctx.hasDeliver)
  {
    OctetsImplementFrames(State(ctx.Rx(), ctx.Ep()), frames);
    hide FeedOctets, EncodeAll, OnFrames, Fresh;
    DeliverAll(ctx, octets);
  }
}
