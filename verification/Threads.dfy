/**
 One thread delivers octets while others write packets. Every thread moves by small steps that
 interleave in any order; only the transmitter lock keeps them apart. An endpoint is read when
 the lock is taken and written back when it is released, octets go out one at a time, and an
 accepted payload is delivered, and counted, without the lock.
 */
module Threads {
  import opened Crc
  import opened Framing
  import opened Protocol
  import opened Context

  datatype Option<T> = None | Some(value: T)

  /** Where a thread is. */
  datatype Pc =
    | Idle
    | Wanting(input: Input)                                     // about to take the lock
    | Emitting(input: Input, o: Outcome, octets: seq<Octet>)    // has it; these octets are to go
    | Looking(frame: Frame)                                     // has it; the link is connected
    | Judging(frame: Frame)                                     // a data frame, lock released
    | Objecting(frame: Frame)                                   // about to take it for a request
    | InCallback(frame: Frame)                                  // delivering the payload

  datatype Entry = Entry(thread: nat, input: Input)

  /** `asked` holds what each thread was given to do, and `log` what has taken effect. */
  datatype State = State(
    ep: Endpoint, wire: seq<Octet>, accepted: seq<Payload>, owner: Option<nat>, pcs: seq<Pc>,
    asked: seq<seq<Input>>, log: seq<Entry>)

  const RECEIVER: nat := 0

  datatype Action = Ask(t: nat, input: Input) | Enter(t: nat) | Emit(t: nat) | Leave(t: nat)
                  | Judge(t: nat) | Return(t: nat)

  predicate Possible(s: State, action: Action) {
    && action.t < |s.pcs| == |s.asked|
    && var pc := s.pcs[action.t];
       match action
       case Ask(t, input) => pc == Idle && (input.Writes? <==> t != RECEIVER)
       case Enter(_) => (pc.Wanting? || pc.Objecting?) && s.owner == None
       case Emit(_) => pc.Emitting? && pc.octets != []
       case Leave(_) => pc.Looking? || (pc.Emitting? && pc.octets == [])
       case Judge(_) => pc.Judging?
       case Return(_) => pc.InCallback?
  }

  function Move(s: State, t: nat, pc: Pc): State
    requires t < |s.pcs|
  {
    s.(pcs := s.pcs[t := pc])
  }

  function Logged(s: State, t: nat, input: Input): State {
    s.(log := s.log + [Entry(t, input)])
  }

  /** Taking the lock to react to `input` with `o`. */
  function Begin(s: State, t: nat, input: Input, o: Outcome): State
    requires t < |s.pcs|
  {
    Logged(Move(s, t, Emitting(input, o, EncodeAll(o.sent))), t, input).(owner := Some(t))
  }

  /** What a writer's critical section stores, and what the receiver's does. */
  function WriteBack(ep: Endpoint, input: Input, o: Outcome): Endpoint {
    if input.Writes? then ep.(txSeq := o.ep.txSeq, history := o.ep.history) else o.ep
  }

  function Do(s: State, action: Action, cap: Capacity): State
    requires Possible(s, action)
  {
    var t := action.t;
    var pc := s.pcs[t];
    match action
    case Ask(_, input) => Move(s, t, Wanting(input)).(asked := s.asked[t := s.asked[t] + [input]])
    case Enter(_) =>
      if pc.Objecting? then Begin(s, t, Arrives(pc.frame), Answer(s.ep, Frame(Nak, s.ep.rxSeq, [])))
      else if pc.input.Arrives? && IsData(pc.input.frame) && s.ep.conn == Connected
      then Move(s, t, Looking(pc.input.frame)).(owner := Some(t))
      else Begin(s, t, pc.input, OnInput(s.ep, pc.input, cap))
    case Emit(_) =>
      Move(s, t, pc.(octets := pc.octets[1..])).(wire := s.wire + [pc.octets[0]])
    case Leave(_) =>
      if pc.Looking? then Move(s, t, Judging(pc.frame)).(owner := None)
      else Move(s, t, Idle).(owner := None, ep := WriteBack(s.ep, pc.input, pc.o))
    case Judge(_) =>
      if pc.frame.num == s.ep.rxSeq then Move(s, t, InCallback(pc.frame))
      else if pc.frame.kind == Usr then Move(s, t, Objecting(pc.frame))
      else Logged(Move(s, t, Idle), t, Arrives(pc.frame))
    case Return(_) =>
      Logged(Move(s, t, Idle), t, Arrives(pc.frame))
        .(ep := s.ep.(rxSeq := Next(s.ep.rxSeq)), accepted := s.accepted + [pc.frame.payload])
  }

  // ----- One thread after the other -----

  /** The same inputs handled one at a time. */
  function Serial(ep: Endpoint, log: seq<Entry>, cap: Capacity): Outcome {
    if log == [] then Silent(ep)
    else
      var before := Serial(ep, log[..|log| - 1], cap);
      var o := OnInput(before.ep, log[|log| - 1].input, cap);
      Outcome(o.ep, before.sent + o.sent, before.accepted + o.accepted,
              before.underrun || o.underrun)
  }

  /** What thread `t` contributed to the log. */
  function Of(log: seq<Entry>, t: nat): seq<Input> {
    if log == [] then []
    else
      var last := log[|log| - 1];
      Of(log[..|log| - 1], t) + if last.thread == t then [last.input] else []
  }

  lemma SerialSnoc(ep: Endpoint, log: seq<Entry>, entry: Entry, cap: Capacity)
    ensures var before := Serial(ep, log, cap);
            var o := OnInput(before.ep, entry.input, cap);
            && Serial(ep, log + [entry], cap).ep == o.ep
            && Serial(ep, log + [entry], cap).accepted == before.accepted + o.accepted
            && EncodeAll(Serial(ep, log + [entry], cap).sent)
               == EncodeAll(before.sent) + EncodeAll(o.sent)
  {
    hide OnInput;
    assert (log + [entry])[..|log|] == log;
    var before := Serial(ep, log, cap);
    EncodeConcat(before.sent, OnInput(before.ep, entry.input, cap).sent);
  }

  lemma OfSnoc(log: seq<Entry>, entry: Entry, t: nat)
    ensures Of(log + [entry], t) == Of(log, t) + if entry.thread == t then [entry.input] else []
  {
    assert (log + [entry])[..|log|] == log;
  }

  // ----- The invariant -----

  predicate HasLock(pc: Pc) { pc.Emitting? || pc.Looking? }

  /** What a thread was asked and has not had logged. */
  function Unlogged(pc: Pc): seq<Input> {
    match pc
    case Idle => []
    case Wanting(input) => [input]
    case Emitting(_, _, _) => []
    case Looking(frame) => [Arrives(frame)]
    case Judging(frame) => [Arrives(frame)]
    case Objecting(frame) => [Arrives(frame)]
    case InCallback(frame) => [Arrives(frame)]
  }

  ghost predicate Mutex(s: State) {
    && |s.pcs| == |s.asked|
    && (s.owner.Some? ==> s.owner.value < |s.pcs|)
    && forall t :: 0 <= t < |s.pcs| ==> (HasLock(s.pcs[t]) <==> s.owner == Some(t))
  }

  /** What a thread was asked is logged, in that order, but for what it is at. */
  ghost predicate Accounted(s: State, t: nat)
    requires t < |s.pcs| == |s.asked|
  {
    Of(s.log, t) + Unlogged(s.pcs[t]) == s.asked[t]
  }

  /** Writers write, and the receiver judges data frames on a connected link only. */
  ghost predicate RightPlace(s: State, t: nat, pc: Pc) {
    match pc
    case Idle => true
    case Wanting(input) => input.Writes? <==> t != RECEIVER
    case Emitting(input, o, _) => input.Writes? <==> t != RECEIVER
    case Looking(frame) => t == RECEIVER && IsData(frame) && s.ep.conn == Connected
    case Judging(frame) => t == RECEIVER && IsData(frame) && s.ep.conn == Connected
    case Objecting(frame) => t == RECEIVER && frame.kind == Usr && s.ep.conn == Connected
                             && frame.num != s.ep.rxSeq
    case InCallback(frame) => t == RECEIVER && IsData(frame) && s.ep.conn == Connected
                              && frame.num == s.ep.rxSeq
  }

  /** The endpoint with what the thread in its critical section is going to store, and the
      octets that thread is still going to write. */
  function Pending(s: State): (Endpoint, seq<Octet>) {
    if s.owner.Some? && s.owner.value < |s.pcs| && s.pcs[s.owner.value].Emitting?
    then var pc := s.pcs[s.owner.value];
         (WriteBack(s.ep, pc.input, pc.o), pc.octets)
    else (s.ep, [])
  }

  ghost predicate AsSerial(s: State, start: Endpoint, cap: Capacity) {
    var o := Serial(start, s.log, cap);
    && Pending(s).0 == o.ep
    && s.wire + Pending(s).1 == EncodeAll(o.sent)
    && s.accepted == o.accepted
  }

  ghost predicate Invariant(s: State, start: Endpoint, cap: Capacity) {
    && Mutex(s)
    && (forall t :: 0 <= t < |s.pcs| ==> RightPlace(s, t, s.pcs[t]))
    && (forall t :: 0 <= t < |s.pcs| ==> Accounted(s, t))
    && AsSerial(s, start, cap)
  }

  lemma KeepsMutex(s: State, action: Action, cap: Capacity)
    requires Mutex(s) && Possible(s, action)
    ensures Mutex(Do(s, action, cap))
  {
    hide EncodeAll, OnInput, Wrap;
  }

  lemma KeepsAsked(s: State, action: Action, cap: Capacity, t: nat)
    requires Possible(s, action) && t < |s.pcs| && Accounted(s, t)
    ensures |Do(s, action, cap).asked| == |Do(s, action, cap).pcs| == |s.pcs|
    ensures Accounted(Do(s, action, cap), t)
  {
    hide EncodeAll, OnInput, Wrap, Of;
    forall entry { OfSnoc(s.log, entry, t); }
    assert Of(s.log, t) + [] == Of(s.log, t);
  }

  lemma KeepsRightPlace(s: State, start: Endpoint, action: Action, cap: Capacity, t: nat)
    requires Possible(s, action) && t < |s.pcs| && Mutex(s)
    requires RightPlace(s, t, s.pcs[t]) && RightPlace(s, action.t, s.pcs[action.t])
    ensures |Do(s, action, cap).pcs| == |s.pcs|
    ensures RightPlace(Do(s, action, cap), t, Do(s, action, cap).pcs[t])
  {
    hide EncodeAll, OnInput, Wrap;
  }

  lemma EnterKeepsSerial(s: State, start: Endpoint, action: Action, cap: Capacity)
    requires Mutex(s) && Possible(s, action) && action.Enter? && AsSerial(s, start, cap)
    requires RightPlace(s, action.t, s.pcs[action.t])
    ensures AsSerial(Do(s, action, cap), start, cap)
  {
    hide EncodeAll, Serial, Next, OnInput, Mutex;
    var t, pc := action.t, s.pcs[action.t];
    var input := if pc.Objecting? then Arrives(pc.frame) else pc.input;
    SerialSnoc(start, s.log, Entry(t, input), cap);
    RequestOrWrite(s.ep, input, cap);
    NoFrames();
  }

  /** The two reactions the interleaving relies on. */
  lemma RequestOrWrite(ep: Endpoint, input: Input, cap: Capacity)
    ensures input.Writes? ==>
      var o := OnInput(ep, input, cap);
      o.accepted == [] && o.ep == ep.(txSeq := o.ep.txSeq, history := o.ep.history)
    ensures input.Arrives? && input.frame.kind == Usr && ep.conn == Connected
            && input.frame.num != ep.rxSeq ==>
      OnInput(ep, input, cap) == Answer(ep, Frame(Nak, ep.rxSeq, []))
    ensures input.Arrives? && IsData(input.frame) && ep.conn == Connected
            && input.frame.num == ep.rxSeq ==>
      OnInput(ep, input, cap)
      == Outcome(ep.(rxSeq := Next(ep.rxSeq)), [], [input.frame.payload], false)
    ensures input.Arrives? && input.frame.kind == Rtx && ep.conn == Connected
            && input.frame.num != ep.rxSeq ==>
      OnInput(ep, input, cap) == Silent(ep)
    ensures !(input.Arrives? && IsData(input.frame) && ep.conn == Connected) ==>
      OnInput(ep, input, cap).accepted == []
  {
    hide Wrap, FastForward, Retransmissions;
  }

  lemma KeepsSerial(s: State, start: Endpoint, action: Action, cap: Capacity)
    requires Mutex(s) && Possible(s, action) && AsSerial(s, start, cap)
    requires RightPlace(s, action.t, s.pcs[action.t])
    requires s.owner.Some? ==> RightPlace(s, s.owner.value, s.pcs[s.owner.value])
    ensures AsSerial(Do(s, action, cap), start, cap)
  {
    hide EncodeAll, Serial, Next, OnInput;
    if action.Enter? {
      EnterKeepsSerial(s, start, action, cap);
    } else {
      var pc := s.pcs[action.t];
      NoFrames();
      if action.Judge? || action.Return? {
        SerialSnoc(start, s.log, Entry(action.t, Arrives(pc.frame)), cap);
        RequestOrWrite(Pending(s).0, Arrives(pc.frame), cap);
      }
    }
  }

  lemma NoFrames()
    ensures EncodeAll([]) == []
  {}

  // ----- Runs -----

  ghost predicate IsRun(states: seq<State>, actions: seq<Action>, cap: Capacity) {
    && |states| == |actions| + 1
    && forall i :: 0 <= i < |actions| ==>
         Possible(states[i], actions[i]) && states[i + 1] == Do(states[i], actions[i], cap)
  }

  /** Every thread idle, nothing done yet. */
  function AtRest(ep: Endpoint, threads: nat): State {
    State(ep, [], [], None, seq(threads, _ => Idle), seq(threads, _ => []), [])
  }

  lemma StartsInOrder(ep: Endpoint, threads: nat, cap: Capacity)
    ensures Invariant(AtRest(ep, threads), ep, cap)
  {
    NoFrames();
  }

  lemma StepKeeps(s: State, start: Endpoint, action: Action, cap: Capacity)
    requires Invariant(s, start, cap) && Possible(s, action)
    ensures Invariant(Do(s, action, cap), start, cap)
  {
    hide Do, AsSerial, RightPlace, Accounted, Possible;
    assert 0 <= action.t < |s.pcs| by { OfAThread(s, action); }
    KeepsMutex(s, action, cap);
    KeepsSerial(s, start, action, cap);
    forall t | 0 <= t < |s.pcs|
      ensures |Do(s, action, cap).pcs| == |s.pcs| == |Do(s, action, cap).asked|
      ensures RightPlace(Do(s, action, cap), t, Do(s, action, cap).pcs[t])
      ensures Accounted(Do(s, action, cap), t)
    {
      KeepsRightPlace(s, start, action, cap, t);
      KeepsAsked(s, action, cap, t);
    }
  }

  lemma OfAThread(s: State, action: Action)
    requires Possible(s, action)
    ensures action.t < |s.pcs| == |s.asked|
  {}

  lemma {:induction false} RunKeeps(states: seq<State>, actions: seq<Action>, start: Endpoint,
                                    cap: Capacity, n: nat)
    requires IsRun(states, actions, cap) && n <= |actions|
    requires Invariant(states[0], start, cap)
    ensures Invariant(states[n], start, cap)
  {
    hide Invariant, Do;
    if n > 0 {
      RunKeeps(states, actions, start, cap, n - 1);
      StepKeeps(states[n - 1], start, actions[n - 1], cap);
    }
  }

  /** Whatever the interleaving, threads act as if each input were handled by itself, in the
      order of the log, which is the order in which each thread was asked: the octets written are
      whole frames of that serial order, but for the frame the owner of the lock is writing. No
      thread waits for a lock it has, writes an octet without it or delivers a payload under it. */
  lemma ThreadsAreSerial(states: seq<State>, actions: seq<Action>, start: Endpoint, threads: nat,
                         cap: Capacity)
    requires IsRun(states, actions, cap) && states[0] == AtRest(start, threads)
    ensures var s := states[|actions|];
            var serial := Serial(start, s.log, cap);
            && s.wire <= EncodeAll(serial.sent)
            && s.accepted == serial.accepted
            && (s.owner == None ==> s.wire == EncodeAll(serial.sent) && s.ep == serial.ep)
            && |s.pcs| == |s.asked|
            && (forall t :: 0 <= t < |s.pcs| ==> Of(s.log, t) <= s.asked[t])
            && (forall t :: 0 <= t < |s.pcs| && s.pcs[t] == Idle ==> Of(s.log, t) == s.asked[t])
            && (forall t :: 0 <= t < |s.pcs| ==>
                  s.pcs[t].Wanting? || s.pcs[t].Objecting? || s.pcs[t].InCallback? ==>
                  s.owner != Some(t))
            && (forall t :: 0 <= t < |s.pcs| && s.pcs[t].Emitting? ==> s.owner == Some(t))
  {
    StartsInOrder(start, threads, cap);
    RunKeeps(states, actions, start, cap, |actions|);
    var s := states[|actions|];
    hide EncodeAll, Serial, Do, Of;
    forall t | 0 <= t < |s.pcs| && s.pcs[t] == Idle ensures Of(s.log, t) == s.asked[t] {
      assert Accounted(s, t);
    }
    forall t | 0 <= t < |s.pcs| ensures Of(s.log, t) <= s.asked[t] {
      assert Accounted(s, t);
    }
  }

  /** The thread that has the lock is never stuck, and each of its steps brings its release nearer. */
  lemma OwnerMoves(s: State, start: Endpoint, cap: Capacity)
    requires Invariant(s, start, cap) && s.owner.Some?
    ensures var t := s.owner.value;
            if s.pcs[t].Emitting? && s.pcs[t].octets != []
            then Possible(s, Emit(t)) && |Do(s, Emit(t), cap).pcs[t].octets| < |s.pcs[t].octets|
            else Possible(s, Leave(t)) && Do(s, Leave(t), cap).owner == None
  {
    hide AsSerial, Of;
    assert HasLock(s.pcs[s.owner.value]);
  }

  /** The inputs of a log. */
  function Inputs(log: seq<Entry>): seq<Input> {
    seq(|log|, i requires 0 <= i < |log| => log[i].input)
  }

  lemma {:induction false} SerialIsRun(conn: Conn, log: seq<Entry>, cap: Capacity)
    ensures var serial := Serial(FRESH_ENDPOINT.(conn := conn), log, cap);
            var run := Run(conn, Inputs(log), cap);
            serial.ep == run.ep && serial.sent == run.sent && serial.underrun == run.underrun
  {
    hide OnInput;
    if log != [] {
      var n := |log| - 1;
      assert Inputs(log)[..n] == Inputs(log[..n]);
      SerialIsRun(conn, log[..n], cap);
    }
  }

  /** Within a session without underrun, the frames that concurrent writers send carry their
      payloads in the order of the history. */
  lemma WritersShareOneOrder(states: seq<State>, actions: seq<Action>, conn: Conn, threads: nat,
                             cap: Capacity)
    requires IsRun(states, actions, cap)
    requires states[0] == AtRest(FRESH_ENDPOINT.(conn := conn), threads)
    requires var log := states[|actions|].log;
             forall i :: 0 <= i < |log| ==> InSession(log[i].input)
    requires !Serial(FRESH_ENDPOINT.(conn := conn), states[|actions|].log, cap).underrun
    ensures var s := states[|actions|];
            var run := Run(conn, Inputs(s.log), cap);
            && s.wire <= EncodeAll(run.sent) && AllCarry(run.sent, run.written)
            && (s.owner == None ==> LogAgrees(s.ep, run.written, cap))
  {
    hide Serial, Run, EncodeAll, Do, AllCarry, LogAgrees, Of;
    var log := states[|actions|].log;
    ThreadsAreSerial(states, actions, FRESH_ENDPOINT.(conn := conn), threads, cap);
    SerialIsRun(conn, log, cap);
    HistoryAgreesWithLog(conn, Inputs(log), cap);
  }
}
