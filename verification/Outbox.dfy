/**
 The outbox: octets the engine wrote are queued as buffers, each with a completion handler, and
 handed to the stream one write at a time. Handlers are the caller's code; one that sends again
 before it returns re-enters the outbox in the middle of its own bookkeeping.
 */
module Outbox {
  import opened Crc

  /** What is written in one go: a frame is never empty. */
  type Octets = s: seq<Octet> | s != [] witness [0]

  /** A completion handler returns, or first writes octets, flushes them with the handler `next`,
      and then goes on as `rest`. */
  datatype Handler = Returns(id: nat) | Sends(octets: Octets, next: Handler, rest: Handler)

  datatype SendData = SendData(buffer: Octets, handler: Handler)

  datatype Error = NoError | OperationAborted | OtherError

  /** The handlers of all a handler sends, and the octets of it. */
  function Nexts(handler: Handler): seq<Handler> {
    match handler case Returns(_) => [] case Sends(_, next, rest) => [next] + Nexts(rest)
  }

  function Written(handler: Handler): seq<Octet> {
    match handler case Returns(_) => [] case Sends(octets, _, rest) => octets + Written(rest)
  }

  /** The entries a handler queues, the first with what was in the write buffer before. */
  function Entries(buffer: seq<Octet>, handler: Handler): seq<SendData>
    decreases handler
  {
    match handler
    case Returns(_) => []
    case Sends(octets, next, rest) => [SendData(buffer + octets, next)] + Entries([], rest)
  }

  function Handlers(outbox: seq<SendData>): seq<Handler> {
    seq(|outbox|, i requires 0 <= i < |outbox| => outbox[i].handler)
  }

  lemma {:induction false} EntriesAreNexts(buffer: seq<Octet>, handler: Handler)
    ensures Handlers(Entries(buffer, handler)) == Nexts(handler)
    decreases handler
  {
    match handler
    case Returns(_) =>
    case Sends(octets, next, rest) =>
      EntriesAreNexts([], rest);
      HandlersConcat([SendData(buffer + octets, next)], Entries([], rest));
  }

  lemma HandlersConcat(left: seq<SendData>, right: seq<SendData>)
    ensures Handlers(left + right) == Handlers(left) + Handlers(right)
  {}

  lemma Associative<T>(a: seq<T>, b: seq<T>, c: seq<T>)
    ensures a + b + c == a + (b + c)
  {}

  function Buffers(outbox: seq<SendData>): seq<Octet> {
    if outbox == [] then [] else outbox[0].buffer + Buffers(outbox[1..])
  }

  lemma {:induction false} BuffersConcat(left: seq<SendData>, right: seq<SendData>)
    ensures Buffers(left + right) == Buffers(left) + Buffers(right)
  {
    if left == [] {
      assert left + right == right;
    } else {
      assert (left + right)[1..] == left[1..] + right;
      BuffersConcat(left[1..], right);
    }
  }

  /** The number of calls a handler leads to, its own included, and those of a list. */
  function Calls(handler: Handler): nat {
    match handler case Returns(_) => 1 case Sends(_, next, rest) => Calls(next) + Calls(rest)
  }

  function Work(handlers: seq<Handler>): nat {
    if handlers == [] then 0 else Calls(handlers[0]) + Work(handlers[1..])
  }

  lemma {:induction false} WorkConcat(left: seq<Handler>, right: seq<Handler>)
    ensures Work(left + right) == Work(left) + Work(right)
  {
    if left == [] {
      assert left + right == right;
    } else {
      assert (left + right)[1..] == left[1..] + right;
      WorkConcat(left[1..], right);
    }
  }

  lemma {:induction false} WorkOfNexts(handler: Handler)
    ensures Work(Nexts(handler)) == Calls(handler) - 1
  {
    match handler
    case Returns(_) =>
    case Sends(_, next, rest) =>
      WorkOfNexts(rest);
      WorkConcat([next], Nexts(rest));
      assert [next][1..] == [];
  }

  /** The handlers that wait in the outbox, and the calls they lead to. */
  function Waiting(outbox: seq<SendData>): multiset<Handler> { multiset(Handlers(outbox)) }

  function Pending(outbox: seq<SendData>): nat { Work(Handlers(outbox)) }

  lemma Push(outbox: seq<SendData>, data: SendData)
    ensures Waiting(outbox + [data]) == Waiting(outbox) + multiset{data.handler}
    ensures Pending(outbox + [data]) == Pending(outbox) + Calls(data.handler)
  {
    HandlersConcat(outbox, [data]);
    assert Handlers([data]) == [data.handler] && [data.handler][1..] == [];
    WorkConcat(Handlers(outbox), [data.handler]);
  }

  lemma Pop(outbox: seq<SendData>)
    requires outbox != []
    ensures Handlers(outbox) == [outbox[0].handler] + Handlers(outbox[1..])
    ensures Waiting(outbox) == multiset{outbox[0].handler} + Waiting(outbox[1..])
    ensures Pending(outbox) == Calls(outbox[0].handler) + Pending(outbox[1..])
    ensures 0 < Calls(outbox[0].handler)
  {
    assert Handlers(outbox) == [outbox[0].handler] + Handlers(outbox[1..]);
    assert Handlers(outbox)[1..] == Handlers(outbox[1..]);
    WorkOfNexts(outbox[0].handler);
  }

  // ----- The octets of a stream that have not been lost -----

  /** The octets handed over, those waiting from entry `k` on, and those in the write buffer. */
  function AllOctets(handed: seq<Octet>, outbox: seq<SendData>, k: nat, writeBuffer: seq<Octet>)
    : seq<Octet>
    requires k <= |outbox|
  {
    handed + Buffers(outbox[k..]) + writeBuffer
  }

  lemma StreamPrefix(handed: seq<Octet>, outbox: seq<SendData>, k: nat, writeBuffer: seq<Octet>)
    requires k <= |outbox|
    ensures handed <= AllOctets(handed, outbox, k, writeBuffer)
    ensures k == |outbox| ==> AllOctets(handed, outbox, k, writeBuffer) == handed + writeBuffer
    ensures k < |outbox| ==> |handed + writeBuffer| < |AllOctets(handed, outbox, k, writeBuffer)|
  {
    assert handed + [] == handed;
  }

  lemma StreamWrite(handed: seq<Octet>, outbox: seq<SendData>, k: nat, writeBuffer: seq<Octet>,
                    octets: seq<Octet>)
    requires k <= |outbox|
    ensures AllOctets(handed, outbox, k, writeBuffer + octets)
         == AllOctets(handed, outbox, k, writeBuffer) + octets
  {
    hide Buffers;
  }

  lemma {:induction false} BuffersOfEntries(buffer: seq<Octet>, handler: Handler)
    requires handler.Sends?
    ensures Buffers(Entries(buffer, handler)) == buffer + Written(handler)
    decreases handler
  {
    var rest := handler.rest;
    assert Entries(buffer, handler)[1..] == Entries([], rest);
    if rest.Sends? {
      BuffersOfEntries([], rest);
    } else {
      assert Buffers(Entries([], rest)) == [] && Written(rest) == [];
    }
    hide Buffers, Entries;
    assert buffer + handler.octets + Written(rest) == buffer + (handler.octets + Written(rest));
  }

  /** Entries made of the write buffer and some more octets keep the stream together. */
  lemma StreamPush(handed: seq<Octet>, outbox: seq<SendData>, k: nat, entries: seq<SendData>,
                   writeBuffer: seq<Octet>, octets: seq<Octet>)
    requires k <= |outbox| && Buffers(entries) == writeBuffer + octets
    ensures AllOctets(handed, outbox + entries, k, [])
         == AllOctets(handed, outbox, k, writeBuffer) + octets
  {
    hide Buffers;
    var waiting := Buffers(outbox[k..]);
    BuffersConcat(outbox[k..], entries);
    assert (outbox + entries)[k..] == outbox[k..] + entries;
    Associative(handed, waiting, writeBuffer + octets);
    Associative(handed + waiting, writeBuffer, octets);
    assert handed + (waiting + (writeBuffer + octets)) + [] == handed + (waiting + (writeBuffer + octets));
  }

  lemma StreamPop(handed: seq<Octet>, outbox: seq<SendData>, writeBuffer: seq<Octet>)
    requires outbox != []
    ensures AllOctets(handed, outbox, 1, writeBuffer) == AllOctets(handed, outbox[1..], 0, writeBuffer)
  {
    assert outbox[1..] == outbox[1..][0..];
  }

  lemma StreamStart(handed: seq<Octet>, outbox: seq<SendData>, writeBuffer: seq<Octet>)
    requires outbox != []
    ensures AllOctets(handed + outbox[0].buffer, outbox, 1, writeBuffer)
         == AllOctets(handed, outbox, 0, writeBuffer)
  {
    assert outbox[0..] == outbox;
    assert Buffers(outbox) == outbox[0].buffer + Buffers(outbox[1..]);
    hide Buffers;
  }

  // ----- Which handlers send while nothing is queued -----

  /** Calling these handlers in turn, and behind them those they queue, comes to one that sends
      although none is left behind it. */
  predicate SendsAlone(handlers: seq<Handler>)
    decreases Work(handlers)
  {
    if handlers == [] then false
    else
      WorkConcat(handlers[1..], Nexts(handlers[0]));
      WorkOfNexts(handlers[0]);
      (|handlers| == 1 && handlers[0].Sends?) || SendsAlone(handlers[1..] + Nexts(handlers[0]))
  }

  function AllNexts(handlers: seq<Handler>): seq<Handler> {
    if handlers == [] then [] else Nexts(handlers[0]) + AllNexts(handlers[1..])
  }

  /** The handlers reached by `n` sends, one inside the other. */
  function Generation(handlers: seq<Handler>, n: nat): seq<Handler>
    decreases n
  {
    if n == 0 then handlers else Generation(AllNexts(handlers), n - 1)
  }

  /** The last handler sends, and no other. */
  predicate OnlyLastSends(handlers: seq<Handler>) {
    && handlers != [] && handlers[|handlers| - 1].Sends?
    && forall i :: 0 <= i < |handlers| - 1 ==> handlers[i].Returns?
  }

  ghost predicate SomeGeneration(handlers: seq<Handler>) {
    exists n: nat :: OnlyLastSends(Generation(handlers, n))
  }

  lemma ByGeneration(handlers: seq<Handler>)
    ensures SomeGeneration(handlers)
            <==> OnlyLastSends(handlers) || SomeGeneration(AllNexts(handlers))
  {
    hide OnlyLastSends, AllNexts;
    if SomeGeneration(handlers) {
      var n: nat :| OnlyLastSends(Generation(handlers, n));
      if n > 0 {
        assert Generation(handlers, n) == Generation(AllNexts(handlers), n - 1);
        assert SomeGeneration(AllNexts(handlers));
      }
    }
    if SomeGeneration(AllNexts(handlers)) {
      var n: nat :| OnlyLastSends(Generation(AllNexts(handlers), n));
      assert Generation(handlers, n + 1) == Generation(AllNexts(handlers), n);
    }
    if OnlyLastSends(handlers) {
      assert OnlyLastSends(Generation(handlers, 0));
    }
  }

  lemma NoGeneration()
    ensures !SomeGeneration([])
  {
    forall n: nat ensures Generation([], n) == [] { EmptyGeneration(n); }
  }

  lemma {:induction false} EmptyGeneration(n: nat)
    ensures Generation([], n) == []
  {
    if n > 0 {
      EmptyGeneration(n - 1);
    }
  }

  lemma CalledNext(left: seq<Handler>, queued: seq<Handler>)
    requires left != []
    ensures SendsAlone(left + queued)
            <==> (|left + queued| == 1 && left[0].Sends?)
                 || SendsAlone(left[1..] + (queued + Nexts(left[0])))
  {
    hide Nexts, Work;
    assert (left + queued)[1..] == left[1..] + queued;
    Associative(left[1..], queued, Nexts(left[0]));
  }

  lemma OnlyLastNext(left: seq<Handler>, queued: seq<Handler>)
    requires left != []
    ensures queued == [] && OnlyLastSends(left)
            <==> (|left + queued| == 1 && left[0].Sends?)
                 || (queued + Nexts(left[0]) == [] && OnlyLastSends(left[1..]))
  {
    assert Nexts(left[0]) == [] <==> left[0].Returns?;
    assert queued + Nexts(left[0]) == [] <==> queued == [] && left[0].Returns?;
    hide Nexts;
    if left[0].Returns? && |left| > 1 {
      assert left[1..][|left| - 2] == left[|left| - 1];
      assert forall i :: 0 < i < |left| ==> left[1..][i - 1] == left[i];
    }
  }

  /** One generation, the first part of which is called and has queued `queued`. */
  lemma {:induction false} SendsAloneFrom(left: seq<Handler>, queued: seq<Handler>)
    ensures SendsAlone(left + queued)
            <==> (queued == [] && OnlyLastSends(left)) || SomeGeneration(queued + AllNexts(left))
    decreases Work(left + queued), left == []
  {
    if left == [] {
      assert left + queued == queued && queued + AllNexts(left) == queued;
      NoGeneration();
      if queued != [] {
        assert queued + [] == queued && [] + AllNexts(queued) == AllNexts(queued);
        SendsAloneFrom(queued, []);
        ByGeneration(queued);
      }
    } else {
      LessWork(left, queued);
      hide Work, SendsAlone, OnlyLastSends, SomeGeneration, AllNexts, Nexts;
      CalledNext(left, queued);
      OnlyLastNext(left, queued);
      AllNextsNext(left, queued);
      SendsAloneFrom(left[1..], queued + Nexts(left[0]));
    }
  }

  lemma AllNextsNext(left: seq<Handler>, queued: seq<Handler>)
    requires left != []
    ensures queued + AllNexts(left) == (queued + Nexts(left[0])) + AllNexts(left[1..])
  {
    Associative(queued, Nexts(left[0]), AllNexts(left[1..]));
  }

  lemma LessWork(left: seq<Handler>, queued: seq<Handler>)
    requires left != []
    ensures Work(left[1..] + (queued + Nexts(left[0]))) < Work(left + queued)
  {
    WorkConcat(left[1..] + queued, Nexts(left[0]));
    WorkOfNexts(left[0]);
    assert (left + queued)[1..] == left[1..] + queued;
    Associative(left[1..], queued, Nexts(left[0]));
    hide Nexts, Calls;
  }

  /** The exact condition: in some generation the last handler sends, and no other. */
  lemma SendsAloneExactly(handlers: seq<Handler>)
    ensures SendsAlone(handlers) <==> SomeGeneration(handlers)
  {
    hide SomeGeneration, SendsAlone, OnlyLastSends;
    assert AllNexts([]) == [] && !OnlyLastSends([]) by { EmptyOnly(); }
    assert [] + handlers == handlers && handlers + [] == handlers;
    SendsAloneFrom([], handlers);
  }

  lemma EmptyOnly()
    ensures !OnlyLastSends([]) && AllNexts([]) == []
  {}

  predicate AllReturn(outbox: seq<SendData>) {
    forall i :: 0 <= i < |outbox| ==> outbox[i].handler.Returns?
  }

  lemma Settle(given: multiset<Handler>, called: multiset<Handler>, waiting: multiset<Handler>,
              handler: Handler)
    requires given == called + waiting + multiset{handler}
    ensures given == called + (waiting + multiset{handler}) + multiset{}
    ensures given == (called + multiset{handler}) + waiting + multiset{}
  {}

  lemma Unsettle(given: multiset<Handler>, called: multiset<Handler>, waiting: multiset<Handler>,
                 handler: Handler)
    requires given == called + (multiset{handler} + waiting) + multiset{}
    ensures given == called + waiting + multiset{handler}
  {}

  lemma {:induction false} ReturningNeverSends(handlers: seq<Handler>)
    requires forall i :: 0 <= i < |handlers| ==> handlers[i].Returns?
    ensures !SendsAlone(handlers)
  {
    if handlers != [] {
      assert handlers[1..] + Nexts(handlers[0]) == handlers[1..];
      ReturningNeverSends(handlers[1..]);
    }
  }

  lemma DropKeepsAlone(outbox: seq<SendData>, buffer: seq<Octet>)
    requires outbox != []
    ensures var handler, rest := outbox[0].handler, outbox[1..];
            && (|outbox| == 1 && handler.Sends? ==> SendsAlone(Handlers(outbox)))
            && (!(|outbox| == 1 && handler.Sends?) ==>
                  SendsAlone(Handlers(outbox)) == SendsAlone(Handlers(rest + Entries(buffer, handler))))
            && (handler.Returns? ==> rest + Entries(buffer, handler) == rest)
  {
    var handler, rest := outbox[0].handler, outbox[1..];
    Pop(outbox);
    HandlersConcat(rest, Entries(buffer, handler));
    EntriesAreNexts(buffer, handler);
    assert [handler] + Handlers(rest) + [] == [handler] + Handlers(rest);
    CalledNext([handler] + Handlers(rest), []);
    hide SendsAlone, Nexts;
  }

  /** What happens to the outbox: a sender writes and flushes, a write completes, the stream is
      closed. */
  datatype Event = Sent(octets: seq<Octet>, handler: Handler) | Completed(error: Error) | Closed

  function WrittenBy(events: seq<Event>): seq<Octet> {
    if events == [] then []
    else
      var last := events[|events| - 1];
      WrittenBy(events[..|events| - 1]) + if last.Sent? then last.octets else []
  }

  function GivenBy(events: seq<Event>): multiset<Handler> {
    if events == [] then multiset{}
    else
      var last := events[|events| - 1];
      GivenBy(events[..|events| - 1]) + if last.Sent? then multiset{last.handler} else multiset{}
  }

  lemma EventsSnoc(events: seq<Event>, n: nat)
    requires n < |events|
    ensures var written, given := WrittenBy(events[..n]), GivenBy(events[..n]);
            match events[n]
            case Sent(octets, handler) =>
              WrittenBy(events[..n + 1]) == written + octets
              && GivenBy(events[..n + 1]) == given + multiset{handler}
            case _ => WrittenBy(events[..n + 1]) == written && GivenBy(events[..n + 1]) == given
  {
    assert events[..n + 1][..n] == events[..n];
  }

  class Queue {
    var writeBuffer: seq<Octet>
    var outbox: seq<SendData>

    /** The stream: whether it is open, how many writes are outstanding on it, and the octets of
        every write started. */
    var open: bool
    var outstanding: nat
    var handed: seq<Octet>

    /** Everything the write callback was given, and what is left of it without the octets lost
        when writes were cancelled; `complete` says that none were. */
    ghost var appended: seq<Octet>
    ghost var kept: seq<Octet>
    ghost var complete: bool

    /** Every handler passed to the outbox, and every handler called. */
    ghost var given: multiset<Handler>
    ghost var called: multiset<Handler>

    /** Every handler given is called or waits, except those in `hand`. */
    ghost predicate Settled(hand: multiset<Handler>)
      reads this
    {
      && given == called + Waiting(outbox) + hand
      && Tracked()
    }

    ghost predicate Tracked()
      reads `complete, `kept, `appended
    {
      if complete then kept == appended else |kept| < |appended|
    }

    /** The octets handed over come first among those kept; while the stream is open the rest
        waits in the outbox from entry `k` on and in the write buffer. */
    ghost predicate Kept(k: nat)
      reads this
    {
      && k <= |outbox|
      && handed <= kept
      && (open ==> kept == AllOctets(handed, outbox, k, writeBuffer))
    }

    /** One write is outstanding, that of the first entry, exactly while there is an entry. */
    ghost predicate Paced()
      reads this
    {
      && outstanding == (if outbox == [] then 0 else 1)
      && Kept(outstanding)
    }

    constructor ()
      ensures Paced() && Settled(multiset{}) && open && complete && outbox == []
      ensures writeBuffer == [] && appended == [] && given == multiset{} && handed == []
    {
      writeBuffer, outbox, open, outstanding, handed := [], [], true, 0, [];
      appended, kept, complete, given, called := [], [], true, multiset{}, multiset{};
    }

    method WriteCallback(octets: seq<Octet>)
      modifies `writeBuffer, `appended, `kept
      ensures old(Settled(multiset{})) ==> Settled(multiset{})
      ensures writeBuffer == old(writeBuffer) + octets
      ensures appended == old(appended) + octets && kept == old(kept) + octets && old(kept) <= kept
      ensures old(Paced()) ==> Paced()
    {
      if outstanding <= |outbox| {
        StreamWrite(handed, outbox, outstanding, writeBuffer, octets);
      }
      hide AllOctets;
      writeBuffer := writeBuffer + octets;
      appended := appended + octets;
      kept := kept + octets;
    }

    twostate predicate Steady()
      reads this
    {
      open == old(open) && complete == old(complete) && old(kept) <= kept
    }

    twostate predicate Unchanged()
      reads this
    {
      && outbox == old(outbox) && writeBuffer == old(writeBuffer) && kept == old(kept)
      && outstanding == old(outstanding) && handed == old(handed)
      && given == old(given) && appended == old(appended)
    }

    /** What queueing entries does, `written` being all that is kept then. The first entry on an
        open stream starts a write; the first on a closed one is dropped and called back. */
    twostate predicate Queued(entries: seq<SendData>, written: seq<Octet>)
      requires entries != []
      reads this
    {
      && writeBuffer == []
      && (open || old(outbox) != [] ==> outbox == old(outbox) + entries && kept == written)
      && (open && old(outbox) == [] ==>
            outstanding == old(outstanding) + 1 && handed == old(handed) + entries[0].buffer)
      && (!open || old(outbox) != [] ==> outstanding == old(outstanding) && handed == old(handed))
      && (!open && old(outbox) == [] ==> outbox == [])
    }

    /** Nothing but calls: what is given and appended stays. */
    twostate predicate OnlyCalls()
      reads this
    {
      AllReturn(outbox) && given == old(given) && appended == old(appended) && kept == old(kept)
    }

    /** Calling a handler. */
    method Call(handler: Handler)
      requires Settled(multiset{handler})
      modifies this
      ensures Settled(multiset{}) && Steady()
      ensures Pending(outbox) <= old(Pending(outbox)) + Calls(handler) - 1
      ensures match handler
              case Returns(_) => Unchanged()
              case Sends(_, _, _) =>
                Queued(Entries(old(writeBuffer), handler), old(kept) + Written(handler))
      decreases Pending(outbox) + Calls(handler), 0, handler, 1
    {
      hide Pending, Waiting;
      Settle(given, called, Waiting(outbox), handler);
      called := called + multiset{handler};
      RunBody(handler);
    }

    /** The body of a handler: its sends, one after the other. */
    method RunBody(handler: Handler)
      requires Settled(multiset{})
      modifies this
      ensures Settled(multiset{}) && Steady()
      ensures Pending(outbox) <= old(Pending(outbox)) + Calls(handler) - 1
      ensures match handler
              case Returns(_) => Unchanged()
              case Sends(_, _, _) =>
                Queued(Entries(old(writeBuffer), handler), old(kept) + Written(handler))
      decreases Pending(outbox) + Calls(handler), 0, handler, 0
    {
      hide Pending, Waiting, AllReturn;
      if handler.Sends? {
        WorkOfNexts(handler.rest);
        SendOnce(handler.octets, handler.next);
        RunBody(handler.rest);
      }
    }

    method SendOnce(octets: Octets, next: Handler)
      requires Settled(multiset{})
      modifies this
      ensures Settled(multiset{}) && Steady()
      ensures Pending(outbox) <= old(Pending(outbox)) + Calls(next)
      ensures Queued([SendData(old(writeBuffer) + octets, next)], old(kept) + octets)
      decreases Pending(outbox) + Calls(next), 7
    {
      hide Pending, Waiting, Calls, AllReturn, Kept;
      WriteCallback(octets);
      FlushWriteBuffer(next);
    }

    method FlushWriteBuffer(handler: Handler)
      requires Settled(multiset{})
      modifies this
      ensures Settled(multiset{}) && Steady()
      ensures Pending(outbox) <= old(Pending(outbox)) + Calls(handler)
      ensures old(writeBuffer) != [] ==> Queued([SendData(old(writeBuffer), handler)], old(kept))
      ensures old(writeBuffer) == [] ==>
        match handler
        case Returns(_) => outbox == old(outbox) && writeBuffer == [] && kept == old(kept)
                           && outstanding == old(outstanding) && handed == old(handed)
        case Sends(_, _, _) => Queued(Entries([], handler), old(kept) + Written(handler))
      ensures handler.Returns? && old(AllReturn(outbox)) ==>
        && AllReturn(outbox) && given == old(given) + multiset{handler}
        && appended == old(appended) && kept == old(kept)
      decreases Pending(outbox) + Calls(handler), 6
    {
      hide Pending, Waiting;
      given := given + multiset{handler};
      if writeBuffer == [] {
        Call(handler);
      } else {
        Enqueue(handler);
      }
    }

    /** The write buffer becomes an entry; the first entry starts the pump. */
    method Enqueue(handler: Handler)
      requires Settled(multiset{handler}) && writeBuffer != []
      modifies this
      ensures Settled(multiset{}) && Steady()
      ensures Pending(outbox) <= old(Pending(outbox)) + Calls(handler)
      ensures Queued([SendData(old(writeBuffer), handler)], old(kept))
      ensures handler.Returns? && old(AllReturn(outbox)) ==> OnlyCalls()
      decreases Pending(outbox) + Calls(handler), 5
    {
      hide Calls, Pending, Waiting, Kept, Paced, Tracked, AllReturn;
      Emplace(handler);
      if |outbox| == 1 {
        WritePump();
      }
    }

    method Emplace(handler: Handler)
      requires Settled(multiset{handler}) && writeBuffer != []
      modifies `outbox, `writeBuffer
      ensures Settled(multiset{}) && writeBuffer == []
      ensures Pending(outbox) == old(Pending(outbox)) + Calls(handler)
      ensures outbox == old(outbox) + [SendData(old(writeBuffer), handler)]
      ensures handler.Returns? && old(AllReturn(outbox)) ==> AllReturn(outbox)
    {
      var data := SendData(writeBuffer, handler);
      Push(outbox, data);
      Settle(given, called, Waiting(outbox), handler);
      hide Calls, Pending, Waiting, Tracked;
      outbox := outbox + [data];
      writeBuffer := [];
    }

    method WritePump()
      requires Settled(multiset{})
      modifies this
      ensures Settled(multiset{}) && Steady()
      ensures Pending(outbox) <= old(Pending(outbox))
      ensures old(outbox) == [] || open ==>
        outbox == old(outbox) && writeBuffer == old(writeBuffer) && kept == old(kept)
      ensures old(outbox) == [] || !open ==> outstanding == old(outstanding) && handed == old(handed)
      ensures old(outbox) != [] && open ==>
        outstanding == old(outstanding) + 1 && handed == old(handed) + outbox[0].buffer
      ensures !open ==> outbox == [] && (old(writeBuffer) == [] ==> writeBuffer == [])
      ensures old(AllReturn(outbox)) ==> OnlyCalls()
      decreases Pending(outbox), 4
    {
      if outbox != [] {
        if open {
          outstanding := outstanding + 1;
          handed := handed + outbox[0].buffer;
        } else {
          VoidOutbox();
        }
      }
    }

    /** The first entry is dropped and its handler called. One that sends alone on an open stream
        starts a write all the same. */
    method DropFirst()
      requires Settled(multiset{}) && outbox != []
      modifies this
      ensures Settled(multiset{}) && Steady()
      ensures Pending(outbox) < old(Pending(outbox))
      ensures (writeBuffer == old(writeBuffer) && kept == old(kept)) || writeBuffer == []
      ensures var alone := open && |old(outbox)| == 1 && old(outbox)[0].handler.Sends?;
              if alone then outstanding == old(outstanding) + 1 && old(SendsAlone(Handlers(outbox)))
              else outstanding == old(outstanding) && handed == old(handed)
                   && (open ==> SendsAlone(Handlers(outbox)) == old(SendsAlone(Handlers(outbox))))
      ensures old(AllReturn(outbox)) ==>
        OnlyCalls() && writeBuffer == old(writeBuffer) && handed == old(handed)
      decreases Pending(outbox), 2
    {
      DropKeepsAlone(outbox, writeBuffer);
      hide Pending, Waiting, Handlers, SendsAlone, Buffers, Entries, Calls, Kept, Paced, Written;
      assert outbox[1..] == [] <==> |outbox| == 1;
      PopAndCall();
    }

    /** Every handler is called, those included that are queued meanwhile. */
    method VoidOutbox()
      requires Settled(multiset{})
      modifies this
      ensures Settled(multiset{}) && Steady() && outbox == []
      ensures (writeBuffer == old(writeBuffer) && kept == old(kept)) || writeBuffer == []
      ensures outstanding >= old(outstanding)
      ensures outstanding == old(outstanding) <==> !(open && SendsAlone(old(Handlers(outbox))))
      ensures outstanding == old(outstanding) ==> handed == old(handed)
      ensures old(AllReturn(outbox)) ==>
        OnlyCalls() && writeBuffer == old(writeBuffer) && handed == old(handed)
      decreases Pending(outbox), 3
    {
      assert Handlers([]) == [];
      hide Pending, Waiting, Handlers;
      ghost var alone := SendsAlone(Handlers(outbox));
      while outbox != []
        invariant Settled(multiset{}) && Steady()
        invariant Pending(outbox) <= old(Pending(outbox))
        invariant (writeBuffer == old(writeBuffer) && kept == old(kept)) || writeBuffer == []
        invariant outstanding >= old(outstanding)
        invariant outstanding == old(outstanding) ==>
          handed == old(handed) && (open ==> alone == SendsAlone(Handlers(outbox)))
        invariant outstanding != old(outstanding) ==> open && alone
        invariant old(AllReturn(outbox)) ==>
          OnlyCalls() && writeBuffer == old(writeBuffer) && handed == old(handed)
        decreases Pending(outbox)
      {
        DropFirst();
      }
    }

    method Close()
      modifies `open
      ensures !open
      ensures Settled(multiset{}) == old(Settled(multiset{}))
      ensures old(Paced()) ==> Paced()
    {
      open := false;
    }

    // ----- Writes complete -----

    lemma OutboxIsEmpty()
      ensures Buffers([]) == [] && Waiting([]) == multiset{} && Handlers([]) == []
    {}

    /** The stream reports the outstanding write complete. Every handler it leads to is called
        once. The outbox stays paced, exactly unless a handler sends with the stream open and
        nothing queued behind it: then its write is started twice, or started and dropped. What
        is kept stays complete, exactly unless a write is cancelled on an open stream with
        entries behind it: their octets are never handed over. */
    method HandleWrite(error: Error)
      requires Paced() && Settled(multiset{}) && outstanding == 1
      modifies this
      ensures Settled(multiset{})
      ensures var was := old(Handlers(outbox));
              var early := if error == NoError then |was| == 1 && was[0].Sends?
                           else SomeGeneration(was);
              && (Paced() <==> !(old(open) && early))
              && (error == NoError && open && early ==> outstanding == 2)
              && (Paced() && error != NoError ==> outstanding == 0)
      ensures if error == OtherError then !open else open == old(open)
      ensures error != NoError ==> outbox == []
      ensures Paced() ==>
        complete == (old(complete)
                     && !(error == OperationAborted && open && |old(outbox)| > 1))
      ensures old(AllReturn(outbox)) ==>
        AllReturn(outbox) && given == old(given) && appended == old(appended)
      ensures old(AllReturn(outbox)) && error != NoError ==>
        handed == old(handed) && writeBuffer == old(writeBuffer)
    {
      SendsAloneExactly(Handlers(outbox));
      ghost var single := |outbox| == 1;
      hide Pending, Waiting, SendsAlone, SomeGeneration, Buffers, AllOctets;
      outstanding := outstanding - 1;
      if error == NoError {
        FirstIsWritten();
      } else {
        VoidWritten();
        if error != OperationAborted {
          Close();
        } else if open && outstanding == 0 {
          Forget(single);
        }
      }
    }

    /** The first entry is written: its handler is called, and the next entry goes out. */
    method FirstIsWritten()
      requires Settled(multiset{}) && outbox != [] && outstanding == 0 && Kept(1)
      modifies this
      ensures Settled(multiset{}) && Steady()
      ensures var early := open && |old(outbox)| == 1 && old(outbox)[0].handler.Sends?;
              (Paced() <==> !early) && (early ==> outstanding == 2)
      ensures old(AllReturn(outbox)) ==>
        AllReturn(outbox) && given == old(given) && appended == old(appended)
    {
      hide Pending, Waiting, Handlers, AllOctets, Tracked;
      CallFirst();
      if outstanding == 0 {
        StartKeeps();
      }
      WritePump();
    }

    /** The stream keeps together when the next write starts, or nothing is left to write. */
    lemma StartKeeps()
      requires Kept(0)
      ensures open && outbox != [] ==>
        var started := handed + outbox[0].buffer;
        kept == AllOctets(started, outbox, 1, writeBuffer) && started <= kept
    {
      if outbox != [] {
        StreamStart(handed, outbox, writeBuffer);
        StreamPrefix(handed + outbox[0].buffer, outbox, 1, writeBuffer);
      }
    }

    /** The stream keeps together when the first handler queues its entries. */
    lemma CallKeeps()
      requires outbox != [] && outstanding == 0 && Kept(1)
      ensures var handler, rest := outbox[0].handler, outbox[1..];
              && (open ==> kept == AllOctets(handed, rest, 0, writeBuffer))
              && (open && handler.Sends? ==>
                    kept + Written(handler)
                    == AllOctets(handed, rest + Entries(writeBuffer, handler), 0, []))
              && handed <= kept + Written(handler)
    {
      var handler, rest := outbox[0].handler, outbox[1..];
      StreamPop(handed, outbox, writeBuffer);
      if handler.Sends? {
        BuffersOfEntries(writeBuffer, handler);
        StreamPush(handed, rest, 0, Entries(writeBuffer, handler), writeBuffer, Written(handler));
      }
      hide AllOctets, Buffers, Entries, Written;
    }

    method CallFirst()
      requires Settled(multiset{}) && outbox != [] && outstanding == 0 && Kept(1)
      modifies this
      ensures Settled(multiset{}) && Steady()
      ensures if open && |old(outbox)| == 1 && old(outbox)[0].handler.Sends?
              then outbox != [] && outstanding == 1
              else outstanding == 0 && Kept(0)
      ensures old(AllReturn(outbox)) ==>
        AllReturn(outbox) && given == old(given) && appended == old(appended)
    {
      CallKeeps();
      hide Pending, Waiting, Handlers, Buffers, AllOctets, Entries, Written, Calls, Tracked;
      PopAndCall();
    }

    /** The first entry leaves and its handler is called. */
    method PopAndCall()
      requires Settled(multiset{}) && outbox != []
      modifies this
      ensures Settled(multiset{}) && Steady()
      ensures Pending(outbox) < old(Pending(outbox))
      ensures var handler, rest := old(outbox)[0].handler, old(outbox)[1..];
              match handler
              case Returns(_) =>
                && outbox == rest && writeBuffer == old(writeBuffer) && kept == old(kept)
                && outstanding == old(outstanding) && handed == old(handed)
              case Sends(_, _, _) =>
                && writeBuffer == []
                && (open || rest != [] ==> outbox == rest + Entries(old(writeBuffer), handler)
                                           && kept == old(kept) + Written(handler))
                && (open && rest == [] ==> outbox != [] && outstanding == old(outstanding) + 1)
                && (!open || rest != [] ==> outstanding == old(outstanding) && handed == old(handed))
                && (!open && rest == [] ==> outbox == [])
      ensures old(AllReturn(outbox)) ==> OnlyCalls()
      decreases Pending(outbox), 1
    {
      hide Pending, Waiting, Handlers, Kept, Paced, Written, Calls, Tracked, AllReturn;
      var handler := Dequeue();
      Call(handler);
    }

    method Dequeue() returns (handler: Handler)
      requires Settled(multiset{}) && outbox != []
      modifies `outbox
      ensures handler == old(outbox)[0].handler && outbox == old(outbox)[1..]
      ensures Settled(multiset{handler})
      ensures Pending(outbox) + Calls(handler) == old(Pending(outbox))
      ensures old(AllReturn(outbox)) ==> AllReturn(outbox) && handler.Returns?
    {
      handler := outbox[0].handler;
      Pop(outbox);
      Unsettle(given, called, Waiting(outbox[1..]), handler);
      hide Pending, Waiting, Handlers, Calls, Tracked;
      outbox := outbox[1..];
    }

    /** The write failed or was cancelled: everything goes. */
    method VoidWritten()
      requires Settled(multiset{}) && outbox != [] && outstanding == 0 && Kept(1)
      modifies this
      ensures Settled(multiset{}) && Steady() && outbox == []
      ensures outstanding == 0 <==> !(open && SendsAlone(old(Handlers(outbox))))
      ensures outstanding == 0 ==> handed <= kept
      ensures !open ==> Paced()
      ensures open && outstanding == 0 ==>
        if |old(outbox)| == 1 then kept == handed + writeBuffer
        else |handed + writeBuffer| < |kept|
      ensures old(AllReturn(outbox)) ==>
        && AllReturn(outbox) && given == old(given) && appended == old(appended)
        && handed == old(handed) && writeBuffer == old(writeBuffer)
    {
      StreamPrefix(handed, outbox, 1, writeBuffer);
      if |outbox| == 1 {
        OneAlone(outbox);
      }
      hide Pending, Waiting, Handlers, SendsAlone, Buffers, AllOctets;
      VoidOutbox();
    }

    /** What was voided is no longer owed. */
    ghost method Forget(single: bool)
      requires Settled(multiset{}) && open && outstanding == 0 && outbox == [] && handed <= kept
      requires if single then kept == handed + writeBuffer else |handed + writeBuffer| < |kept|
      modifies `kept, `complete
      ensures Settled(multiset{}) && Paced() && complete == (old(complete) && single)
    {
      StreamPrefix(handed, [], 0, writeBuffer);
      hide AllOctets, Waiting;
      kept := handed + writeBuffer;
      complete := complete && single;
    }

    // ----- Runs -----

    lemma FlushKeeps(entries: seq<SendData>, octets: seq<Octet>)
      requires Paced() && entries != [] && Buffers(entries) == writeBuffer + octets
      ensures open ==>
        && AllOctets(handed, outbox + entries, outstanding, []) == kept + octets
        && handed <= kept + octets
        && (outbox == [] ==>
              && AllOctets(handed + entries[0].buffer, entries, 1, []) == kept + octets
              && handed + entries[0].buffer <= kept + octets)
    {
      StreamPush(handed, outbox, outstanding, entries, writeBuffer, octets);
      if outbox == [] {
        assert outbox + entries == entries;
        StreamStart(handed, entries, []);
        StreamPrefix(handed + entries[0].buffer, entries, 1, []);
      }
    }

    lemma Flushed(handler: Handler)
      requires Paced()
      ensures writeBuffer != [] ==>
        Buffers([SendData(writeBuffer, handler)]) == writeBuffer + []
      ensures handler.Sends? ==>
        Entries([], handler) != [] && Buffers(Entries([], handler)) == [] + Written(handler)
    {
      if writeBuffer != [] {
        var data := SendData(writeBuffer, handler);
        assert [data][1..] == [];
      }
      if handler.Sends? {
        BuffersOfEntries([], handler);
      }
    }

    /** Flushing from outside any handler. */
    method Flush(handler: Handler)
      requires Paced() && Settled(multiset{})
      modifies this
      ensures Paced() && Settled(multiset{}) && Steady()
      ensures open && old(writeBuffer) != [] ==>
        && outbox == old(outbox) + [SendData(old(writeBuffer), handler)] && writeBuffer == []
        && handed == old(handed) + if old(outbox) == [] then old(writeBuffer) else []
      ensures handler.Returns? && old(AllReturn(outbox)) ==>
        AllReturn(outbox) && given == old(given) + multiset{handler} && appended == old(appended)
    {
      Flushed(handler);
      if writeBuffer != [] {
        FlushKeeps([SendData(writeBuffer, handler)], []);
      } else if handler.Sends? {
        FlushKeeps(Entries([], handler), Written(handler));
      }
      hide Pending, Waiting, Buffers, AllOctets, Entries, Written, Tracked;
      FlushWriteBuffer(handler);
    }

    /** One event from outside; a completion reports the write that is outstanding, if any.
        `lossy` says that it cancelled a write on an open stream with entries behind it. */
    method Handle(event: Event) returns (lossy: bool)
      requires Paced() && Settled(multiset{}) && AllReturn(outbox)
      requires event.Sent? ==> event.handler.Returns?
      modifies this
      ensures Paced() && Settled(multiset{}) && AllReturn(outbox)
      ensures lossy == (old(open) && event == Completed(OperationAborted) && old(|outbox|) > 1)
      ensures complete == (old(complete) && !lossy)
      ensures if event.Sent?
              then appended == old(appended) + event.octets
                   && given == old(given) + multiset{event.handler}
              else appended == old(appended) && given == old(given)
    {
      NothingSends();
      lossy := open && event == Completed(OperationAborted) && |outbox| > 1;
      hide Paced, Settled, Handlers, SomeGeneration;
      match event {
        case Sent(octets, handler) =>
          WriteCallback(octets);
          Flush(handler);
        case Completed(error) =>
          if outstanding == 1 {
            HandleWrite(error);
          }
        case Closed => Close();
      }
    }

    lemma NothingSends()
      requires AllReturn(outbox) && Paced()
      ensures !SomeGeneration(Handlers(outbox))
      ensures |outbox| == 1 ==> Handlers(outbox)[0].Returns?
      ensures outstanding == (if outbox == [] then 0 else 1) && |Handlers(outbox)| == |outbox|
    {
      ReturningNeverSends(Handlers(outbox));
      SendsAloneExactly(Handlers(outbox));
    }

    lemma Drained()
      requires Paced() && Settled(multiset{})
      ensures outbox == [] ==> called == given
      ensures complete ==> handed <= appended
      ensures open && outbox == [] ==>
        (complete <==> handed + writeBuffer == appended) && |handed + writeBuffer| <= |appended|
    {
      OutboxIsEmpty();
      if outbox == [] {
        StreamPrefix(handed, outbox, 0, writeBuffer);
      }
    }

    /** Any run in which no handler sends before it returns: at most one write is outstanding, one
        is outstanding exactly while the outbox is not empty, every handler is called once or
        still waits, and the octets handed over are a prefix of those appended as long as no
        write was cancelled on an open stream with entries behind it; one that was shows on an
        open stream once the outbox is empty. */
    method Run(events: seq<Event>) returns (lost: bool)
      requires Paced() && Settled(multiset{}) && AllReturn(outbox) && complete
      requires forall i :: 0 <= i < |events| && events[i].Sent? ==> events[i].handler.Returns?
      modifies this
      ensures outstanding == (if outbox == [] then 0 else 1)
      ensures Settled(multiset{}) && AllReturn(outbox)
      ensures appended == old(appended) + WrittenBy(events)
      ensures given == old(given) + GivenBy(events)
      ensures outbox == [] ==> called == old(given) + GivenBy(events)
      ensures !lost ==> handed <= appended
      ensures open && outbox == [] ==> (!lost <==> handed + writeBuffer == appended)
      ensures lost ==> Completed(OperationAborted) in events
    {
      assert WrittenBy([]) == [] && GivenBy([]) == multiset{};
      hide Paced, Settled, WrittenBy, GivenBy;
      lost := false;
      var i := 0;
      while i < |events|
        invariant 0 <= i <= |events|
        invariant Paced() && Settled(multiset{}) && AllReturn(outbox) && complete == !lost
        invariant appended == old(appended) + WrittenBy(events[..i])
        invariant given == old(given) + GivenBy(events[..i])
        invariant lost ==> Completed(OperationAborted) in events
      {
        EventsSnoc(events, i);
        var lossy := Handle(events[i]);
        lost := lost || lossy;
        i := i + 1;
      }
      assert events[..i] == events;
      Drained();
      InPace();
    }

    lemma InPace()
      requires Paced()
      ensures outstanding == (if outbox == [] then 0 else 1)
    {}
  }

  /** With one entry, either its handler sends alone or no handler sends. */
  lemma OneAlone(outbox: seq<SendData>)
    requires |outbox| == 1
    ensures SendsAlone(Handlers(outbox)) <==> outbox[0].handler.Sends?
  {
    if outbox[0].handler.Returns? {
      ReturningNeverSends(Handlers(outbox));
    }
  }

  /** A sender whose handler sends once more, with nothing else queued, has a write started
      twice. */
  method TwiceStarted() returns (writes: nat)
    ensures writes == 2
  {
    var queue := new Queue();
    var last := Returns(2);
    queue.WriteCallback([0]);
    queue.Flush(Sends([0], Returns(1), last));
    queue.HandleWrite(NoError);
    writes := queue.outstanding;
  }

  /** Cancelling a write on an open stream loses the entry behind it, and what is sent next goes
      out in its place. */
  method CancelLoses() returns (queue: Queue)
    ensures queue.Paced() && queue.Settled(multiset{}) && queue.open
    ensures queue.appended == [1, 2, 3] && queue.handed == [1, 3]
  {
    queue := new Queue();
    WriteAndFlush(queue, [1], Returns(1));
    WriteAndFlush(queue, [2], Returns(2));
    queue.NothingSends();
    queue.HandleWrite(OperationAborted);
    WriteAndFlush(queue, [3], Returns(3));
  }

  method WriteAndFlush(queue: Queue, octets: Octets, handler: Handler)
    requires queue.Paced() && queue.Settled(multiset{}) && queue.open && queue.writeBuffer == []
    requires handler.Returns? && AllReturn(queue.outbox)
    modifies queue
    ensures queue.Paced() && queue.Settled(multiset{}) && queue.Steady()
    ensures queue.outbox == old(queue.outbox) + [SendData(octets, handler)]
    ensures queue.writeBuffer == [] && AllReturn(queue.outbox)
    ensures queue.handed == old(queue.handed) + if old(queue.outbox) == [] then octets else []
    ensures queue.appended == old(queue.appended) + octets
  {
    queue.WriteCallback(octets);
    assert queue.writeBuffer == octets;
    queue.Flush(handler);
  }
}
