/** The connector's drop-oldest queue: a bounded channel, any number of MQTT handlers that each run
    `enqueue` as three separate non-blocking selects, and one consumer, interleaved step by step. */
module Connector {
  datatype Message = Message(broker: string, topic: string, payload: string, receivedAt: int)

  /** Where a handler is: before the first select, before the drop, before counting the message it
      dropped, before the last select, or before counting its own message as dropped. */
  datatype Handler =
    | Quiet
    | AtSend(msg: Message)
    | AtDrop(msg: Message)
    | AtCountDropped(msg: Message, victim: Message)
    | AtResend(msg: Message)
    | AtCountLost(msg: Message)

  datatype Consumer = Ready | Forwarding(msg: Message) | Gone

  /** The worker with its counters. The last six fields are history: messages in order of arrival,
      of entering and of leaving the channel, and those forwarded, counted as dropped, and failed. */
  datatype State = State(
    capacity: nat,
    handlers: seq<Handler>,
    consumer: Consumer,
    queue: seq<Message>,
    recv: int,
    fwd: int,
    dropped: int,
    arrived: seq<Message>,
    entered: seq<Message>,
    departed: seq<Message>,
    forwarded: seq<Message>,
    lost: seq<Message>,
    failed: seq<Message>)

  datatype Action =
    | Receive(h: nat, msg: Message)
    | TrySend(h: nat, meet: bool)
    | DropOldest(h: nat)
    | CountDropped(h: nat)
    | Resend(h: nat, meet: bool)
    | CountLost(h: nat)
    | Take
    | Finish(ok: bool)
    | Shutdown

  const DEFAULT_BUFFER: nat := 1000

  /** The channel capacity a configured buffer size leads to. */
  function Capacity(bufferSize: int): nat {
    if bufferSize <= 0 then DEFAULT_BUFFER else bufferSize
  }

  /** A positive buffer size is the capacity; any other means 1000. */
  lemma CapacityIs(bufferSize: int)
    ensures bufferSize > 0 ==> Capacity(bufferSize) == bufferSize
    ensures bufferSize <= 0 ==> Capacity(bufferSize) == 1000
  {
  }

  function Init(capacity: nat, handlers: nat): State {
    State(capacity, seq(handlers, _ => Quiet), Ready, [], 0, 0, 0, [], [], [], [], [], [])
  }

  function SetHandler(s: State, h: nat, p: Handler): State
    requires h < |s.handlers|
  {
    s.(handlers := s.handlers[h := p])
  }

  /** Whether a non-blocking send finds room, or (unbuffered channel) a waiting receiver. */
  predicate CanSend(s: State, meet: bool) {
    |s.queue| < s.capacity || (s.capacity == 0 && meet && s.consumer.Ready?)
  }

  function SendTo(s: State, m: Message): State {
    if s.capacity == 0 then s.(consumer := Forwarding(m), entered := s.entered + [m], departed := s.departed + [m])
    else s.(queue := s.queue + [m], entered := s.entered + [m])
  }

  function HandlerStep(s: State, h: nat, a: Action): State
    requires h < |s.handlers|
  {
    match (s.handlers[h], a)
    case (Quiet, Receive(_, m)) =>
      SetHandler(s, h, AtSend(m)).(recv := s.recv + 1, arrived := s.arrived + [m])
    case (AtSend(m), TrySend(_, meet)) =>
      if CanSend(s, meet) then SetHandler(SendTo(s, m), h, Quiet) else SetHandler(s, h, AtDrop(m))
    case (AtDrop(m), DropOldest(_)) =>
      if s.queue == [] then SetHandler(s, h, AtResend(m))
      else SetHandler(s, h, AtCountDropped(m, s.queue[0])).(queue := s.queue[1..], departed := s.departed + [s.queue[0]])
    case (AtCountDropped(m, victim), CountDropped(_)) =>
      SetHandler(s, h, AtResend(m)).(dropped := s.dropped + 1, lost := s.lost + [victim])
    case (AtResend(m), Resend(_, meet)) =>
      if CanSend(s, meet) then SetHandler(SendTo(s, m), h, Quiet) else SetHandler(s, h, AtCountLost(m))
    case (AtCountLost(m), CountLost(_)) =>
      SetHandler(s, h, Quiet).(dropped := s.dropped + 1, lost := s.lost + [m])
    case _ => s
  }

  function Step(s: State, a: Action): State {
    match a
    case Take =>
      if s.consumer.Ready? && s.queue != [] then
        s.(consumer := Forwarding(s.queue[0]), queue := s.queue[1..], departed := s.departed + [s.queue[0]])
      else s
    case Finish(ok) =>
      if !s.consumer.Forwarding? then s
      else if ok then s.(consumer := Ready, fwd := s.fwd + 1, forwarded := s.forwarded + [s.consumer.msg])
      else s.(consumer := Ready, failed := s.failed + [s.consumer.msg])
    case Shutdown => if s.consumer.Ready? then s.(consumer := Gone) else s
    case _ => if a.h < |s.handlers| then HandlerStep(s, a.h, a) else s
  }

  function Run(s: State, schedule: seq<Action>): State {
    if schedule == [] then s else Step(Run(s, schedule[..|schedule| - 1]), schedule[|schedule| - 1])
  }

  lemma {:induction false} RunAppends(s: State, a: seq<Action>, b: seq<Action>)
    ensures Run(s, a + b) == Run(Run(s, a), b)
  {
    if b == [] {
      assert a + b == a;
    } else {
      RunAppends(s, a, b[..|b| - 1]);
      assert (a + b)[..|a + b| - 1] == a + b[..|b| - 1];
    }
  }

  lemma RunOne(s: State, a: Action)
    ensures Run(s, [a]) == Step(s, a)
  {
    assert [a][..0] == [];
  }

  /** One more action after a schedule. */
  lemma RunThen(s: State, schedule: seq<Action>, a: Action)
    ensures Run(s, schedule + [a]) == Step(Run(s, schedule), a)
  {
    RunAppends(s, schedule, [a]);
    RunOne(Run(s, schedule), a);
  }

  // ---------- conservation ----------

  function Occurrences(s: seq<Message>, x: Message): nat {
    if s == [] then 0 else Occurrences(s[..|s| - 1], x) + (if s[|s| - 1] == x then 1 else 0)
  }

  lemma {:induction false} OccurrencesConcat(s: seq<Message>, t: seq<Message>, x: Message)
    ensures Occurrences(s + t, x) == Occurrences(s, x) + Occurrences(t, x)
  {
    if t == [] {
      assert s + t == s;
    } else {
      OccurrencesConcat(s, t[..|t| - 1], x);
      assert (s + t)[..|s + t| - 1] == s + t[..|t| - 1];
    }
  }

  /** The messages a handler still has to put somewhere or to count. */
  function Hand(p: Handler): seq<Message> {
    match p
    case Quiet => []
    case AtCountDropped(m, victim) => [m, victim]
    case _ => [p.msg]
  }

  /** All handlers' messages, handler by handler. */
  function Hands(ps: seq<Handler>): seq<Message> {
    if ps == [] then [] else Hands(ps[..|ps| - 1]) + Hand(ps[|ps| - 1])
  }

  function InHand(c: Consumer): seq<Message> {
    if c.Forwarding? then [c.msg] else []
  }

  /** How many copies of `x` the handlers hold, and how many messages. */
  function HandsCount(ps: seq<Handler>, x: Message): nat {
    if ps == [] then 0 else HandsCount(ps[..|ps| - 1], x) + Occurrences(Hand(ps[|ps| - 1]), x)
  }

  function HandsSize(ps: seq<Handler>): nat {
    if ps == [] then 0 else HandsSize(ps[..|ps| - 1]) + |Hand(ps[|ps| - 1])|
  }

  lemma {:induction false} HandsCounted(ps: seq<Handler>, x: Message)
    ensures Occurrences(Hands(ps), x) == HandsCount(ps, x) && |Hands(ps)| == HandsSize(ps)
  {
    if ps != [] {
      HandsCounted(ps[..|ps| - 1], x);
      OccurrencesConcat(Hands(ps[..|ps| - 1]), Hand(ps[|ps| - 1]), x);
    }
  }

  lemma {:induction false} CountUpdate(ps: seq<Handler>, h: nat, p: Handler, x: Message)
    requires h < |ps|
    ensures HandsCount(ps[h := p], x) + Occurrences(Hand(ps[h]), x) == HandsCount(ps, x) + Occurrences(Hand(p), x)
    ensures HandsSize(ps[h := p]) + |Hand(ps[h])| == HandsSize(ps) + |Hand(p)|
  {
    var n := |ps| - 1;
    if h < n {
      CountUpdate(ps[..n], h, p, x);
      assert ps[h := p][..n] == ps[..n][h := p];
    } else {
      assert ps[h := p][..n] == ps[..n];
    }
  }

  lemma HandsUpdate(ps: seq<Handler>, h: nat, p: Handler, x: Message)
    requires h < |ps|
    ensures Occurrences(Hands(ps[h := p]), x) + Occurrences(Hand(ps[h]), x) == Occurrences(Hands(ps), x) + Occurrences(Hand(p), x)
    ensures |Hands(ps[h := p])| + |Hand(ps[h])| == |Hands(ps)| + |Hand(p)|
  {
    HandsCounted(ps, x);
    HandsCounted(ps[h := p], x);
    CountUpdate(ps, h, p, x);
  }

  /** Every copy of a message received is in exactly one place, and the counters tell the truth. */
  predicate Conserved(s: State, x: Message) {
    && Occurrences(s.arrived, x) == Occurrences(s.forwarded, x) + Occurrences(s.lost, x) + Occurrences(s.failed, x)
         + Occurrences(s.queue, x) + Occurrences(InHand(s.consumer), x) + Occurrences(Hands(s.handlers), x)
    && |s.arrived| == |s.forwarded| + |s.lost| + |s.failed| + |s.queue| + |InHand(s.consumer)| + |Hands(s.handlers)|
    && s.recv == |s.arrived| && s.fwd == |s.forwarded| && s.dropped == |s.lost|
  }

  /** The channel is first in, first out, and bounded. */
  predicate Fifo(s: State) {
    s.departed + s.queue == s.entered && |s.queue| <= s.capacity
  }

  lemma Appended(s: seq<Message>, m: Message, x: Message)
    ensures Occurrences(s + [m], x) == Occurrences(s, x) + Occurrences([m], x)
  {
    OccurrencesConcat(s, [m], x);
  }

  lemma Popped(s: seq<Message>, x: Message)
    requires s != []
    ensures Occurrences(s, x) == Occurrences([s[0]], x) + Occurrences(s[1..], x)
  {
    OccurrencesConcat([s[0]], s[1..], x);
    assert s == [s[0]] + s[1..];
  }

  lemma ReceiveConserves(s: State, h: nat, m: Message, x: Message)
    requires h < |s.handlers| && Conserved(s, x) && s.handlers[h].Quiet?
    ensures Conserved(HandlerStep(s, h, Receive(h, m)), x)
  {
    HandsUpdate(s.handlers, h, AtSend(m), x);
    Appended(s.arrived, m, x);
  }

  lemma SendConserves(s: State, h: nat, m: Message, x: Message, meet: bool)
    requires h < |s.handlers| && Conserved(s, x) && Fifo(s) && Hand(s.handlers[h]) == [m] && CanSend(s, meet)
    ensures Conserved(SetHandler(SendTo(s, m), h, Quiet), x)
  {
    HandsUpdate(s.handlers, h, Quiet, x);
    Appended(s.queue, m, x);
  }

  lemma MoveOnConserves(s: State, h: nat, p: Handler, x: Message)
    requires h < |s.handlers| && Conserved(s, x) && Hand(p) == Hand(s.handlers[h])
    ensures Conserved(SetHandler(s, h, p), x)
  {
    HandsUpdate(s.handlers, h, p, x);
  }

  lemma Pair(m: Message, n: Message, x: Message)
    ensures Occurrences([m, n], x) == Occurrences([m], x) + Occurrences([n], x)
  {
    OccurrencesConcat([m], [n], x);
  }

  lemma DropConserves(s: State, h: nat, m: Message, departed: seq<Message>, x: Message)
    requires h < |s.handlers| && Conserved(s, x) && s.handlers[h] == AtDrop(m) && s.queue != []
    ensures Conserved(SetHandler(s, h, AtCountDropped(m, s.queue[0])).(queue := s.queue[1..], departed := departed), x)
  {
    HandsUpdate(s.handlers, h, AtCountDropped(m, s.queue[0]), x);
    Popped(s.queue, x);
    Pair(m, s.queue[0], x);
    assert Occurrences(Hand(s.handlers[h]), x) == Occurrences([m], x);
  }

  lemma CountDroppedConserves(s: State, h: nat, x: Message)
    requires h < |s.handlers| && Conserved(s, x) && s.handlers[h].AtCountDropped?
    ensures Conserved(HandlerStep(s, h, CountDropped(h)), x)
  {
    var p := s.handlers[h];
    HandsUpdate(s.handlers, h, AtResend(p.msg), x);
    Appended(s.lost, p.victim, x);
    Pair(p.msg, p.victim, x);
  }

  lemma CountLostConserves(s: State, h: nat, x: Message)
    requires h < |s.handlers| && Conserved(s, x) && s.handlers[h].AtCountLost?
    ensures Conserved(HandlerStep(s, h, CountLost(h)), x)
  {
    HandsUpdate(s.handlers, h, Quiet, x);
    Appended(s.lost, s.handlers[h].msg, x);
  }

  lemma HandlerStepConserves(s: State, h: nat, a: Action, x: Message)
    requires h < |s.handlers| && Conserved(s, x) && Fifo(s)
    ensures Conserved(HandlerStep(s, h, a), x)
  {
    var p := s.handlers[h];
    if HandlerStep(s, h, a) == s {
    } else if p.Quiet? {
      ReceiveConserves(s, h, a.msg, x);
    } else if p.AtSend? {
      if CanSend(s, a.meet) { SendConserves(s, h, p.msg, x, a.meet); } else { MoveOnConserves(s, h, AtDrop(p.msg), x); }
    } else if p.AtDrop? {
      if s.queue == [] { MoveOnConserves(s, h, AtResend(p.msg), x); } else { DropConserves(s, h, p.msg, s.departed + [s.queue[0]], x); }
    } else if p.AtCountDropped? {
      CountDroppedConserves(s, h, x);
    } else if p.AtResend? {
      if CanSend(s, a.meet) { SendConserves(s, h, p.msg, x, a.meet); } else { MoveOnConserves(s, h, AtCountLost(p.msg), x); }
    } else {
      CountLostConserves(s, h, x);
    }
  }

  lemma StepConserves(s: State, a: Action, x: Message)
    requires Conserved(s, x) && Fifo(s)
    ensures Conserved(Step(s, a), x)
  {
    match a
    case Take =>
      if s.queue != [] { Popped(s.queue, x); }
    case Finish(_) =>
      if s.consumer.Forwarding? {
        Appended(s.forwarded, s.consumer.msg, x);
        Appended(s.failed, s.consumer.msg, x);
      }
    case Shutdown =>
    case _ => if a.h < |s.handlers| { HandlerStepConserves(s, a.h, a, x); }
  }

  lemma StepKeepsFifo(s: State, a: Action)
    requires Fifo(s)
    ensures Fifo(Step(s, a)) && Step(s, a).capacity == s.capacity && |Step(s, a).handlers| == |s.handlers|
  {
    if s.queue != [] {
      assert s.queue == [s.queue[0]] + s.queue[1..];
    }
  }

  // ---------- one handler ----------

  /** With one handler, what it holds is the only message that has arrived but not entered,
      and once past the drop it always finds room. */
  predicate Serial(s: State) {
    && |s.handlers| == 1 && s.capacity > 0
    && match s.handlers[0]
       case Quiet => s.entered == s.arrived
       case AtSend(m) => s.entered + [m] == s.arrived
       case AtDrop(m) => s.entered + [m] == s.arrived
       case AtCountDropped(m, _) => s.entered + [m] == s.arrived && |s.queue| < s.capacity
       case AtResend(m) => s.entered + [m] == s.arrived && |s.queue| < s.capacity
       case AtCountLost(_) => false
  }

  lemma StepKeepsSerial(s: State, a: Action)
    requires Fifo(s) && Serial(s)
    ensures Serial(Step(s, a))
  {
  }

  lemma {:induction false} HandsQuiet(n: nat)
    ensures Hands(seq(n, _ => Quiet)) == []
  {
    if n > 0 {
      HandsQuiet(n - 1);
      assert seq(n, _ => Quiet)[..n - 1] == seq(n - 1, _ => Quiet);
    }
  }

  lemma {:induction false} Reachable(capacity: nat, handlers: nat, schedule: seq<Action>, x: Message)
    ensures var s := Run(Init(capacity, handlers), schedule);
      && Conserved(s, x) && Fifo(s) && s.capacity == capacity && |s.handlers| == handlers
      && (handlers == 1 && capacity > 0 ==> Serial(s))
  {
    if schedule == [] {
      HandsQuiet(handlers);
    } else {
      Reachable(capacity, handlers, schedule[..|schedule| - 1], x);
      var s, a := Run(Init(capacity, handlers), schedule[..|schedule| - 1]), schedule[|schedule| - 1];
      StepConserves(s, a, x);
      StepKeepsFifo(s, a);
      if handlers == 1 && capacity > 0 { StepKeepsSerial(s, a); }
    }
  }

  // ---------- results ----------

  /** Conservation, for any number of handlers and any schedule: each message received is forwarded,
      dropped, failed, queued, in the consumer's hand or in a handler's hand, exactly once, and
      recv = fwd + dropped + failed + queued + in hand. */
  lemma EveryMessageAccountedFor(capacity: nat, handlers: nat, schedule: seq<Action>, x: Message)
    ensures var s := Run(Init(capacity, handlers), schedule);
      && Occurrences(s.arrived, x) == Occurrences(s.forwarded, x) + Occurrences(s.lost, x) + Occurrences(s.failed, x)
           + Occurrences(s.queue, x) + Occurrences(InHand(s.consumer), x) + Occurrences(Hands(s.handlers), x)
      && s.recv == s.fwd + s.dropped + |s.failed| + |s.queue| + |InHand(s.consumer)| + |Hands(s.handlers)|
      && s.fwd == |s.forwarded| && s.dropped == |s.lost|
  {
    Reachable(capacity, handlers, schedule, x);
  }

  /** One handler and a configured buffer: messages leave the channel in order of arrival without gaps,
      the channel never overflows, the last select never falls to its default, and between calls
      everything that arrived has left or is queued, newest last. */
  lemma DropsOldestFirst(bufferSize: int, schedule: seq<Action>, meet: bool)
    ensures var s := Run(Init(Capacity(bufferSize), 1), schedule);
      && |s.queue| <= Capacity(bufferSize)
      && s.departed <= s.arrived
      && |s.handlers| == 1 && !s.handlers[0].AtCountLost?
      && (s.handlers[0].Quiet? ==> s.departed + s.queue == s.arrived)
      && (s.handlers[0].AtResend? ==> Step(s, Resend(0, meet)).queue == s.queue + [s.handlers[0].msg])
  {
    Reachable(Capacity(bufferSize), 1, schedule, Message("", "", "", 0));
  }

  /** Some handler is about to drop the message it has just received. */
  predicate Loses(capacity: nat, handlers: nat, schedule: seq<Action>) {
    var s := Run(Init(capacity, handlers), schedule);
    exists h :: 0 <= h < |s.handlers| && s.handlers[h].AtCountLost?
  }

  lemma RunFour(s: State, a: Action, b: Action, c: Action, d: Action)
    ensures Run(s, [a, b, c, d]) == Step(Step(Step(Step(s, a), b), c), d)
  {
    RunOne(s, a);
    RunThen(s, [a], b);
    RunThen(s, [a] + [b], c);
    RunThen(s, [a] + [b] + [c], d);
    assert [a] + [b] + [c] + [d] == [a, b, c, d];
  }

  lemma RunFive(s: State, a: Action, b: Action, c: Action, d: Action, e: Action)
    ensures Run(s, [a, b, c, d, e]) == Step(Step(Step(Step(Step(s, a), b), c), d), e)
  {
    RunFour(s, a, b, c, d);
    RunThen(s, [a, b, c, d], e);
    assert [a, b, c, d] + [e] == [a, b, c, d, e];
  }

  /** Without a buffer, a handler finds no room, nothing to drop, and no room again. */
  lemma FindsNoRoom(s: State, m: Message)
    requires s.capacity == 0 && s.queue == [] && s.handlers != [] && s.handlers[0].Quiet?
    ensures var s' := Step(Step(Step(Step(s, Receive(0, m)), TrySend(0, false)), DropOldest(0)), Resend(0, false));
      |s'.handlers| == |s.handlers| && s'.handlers[0].AtCountLost?
  {
    var s2 := Step(Step(s, Receive(0, m)), TrySend(0, false));
    assert s2.handlers == s.handlers[0 := AtDrop(m)] && s2.queue == [] && s2.capacity == 0;
  }

  lemma UnbufferedLoses(handlers: nat)
    requires handlers > 0
    ensures exists schedule :: Loses(0, handlers, schedule)
  {
    var m, s0 := Message("b", "t", "p", 0), Init(0, handlers);
    RunFour(s0, Receive(0, m), TrySend(0, false), DropOldest(0), Resend(0, false));
    FindsNoRoom(s0, m);
    assert Loses(0, handlers, [Receive(0, m), TrySend(0, false), DropOldest(0), Resend(0, false)]);
  }

  /** The channel holds `n` messages and all handlers are quiet. */
  predicate Filled(s: State, capacity: nat, handlers: nat, n: nat) {
    s.capacity == capacity && s.handlers == seq(handlers, _ => Quiet) && |s.queue| == n
  }

  lemma {:induction false} Fill(capacity: nat, handlers: nat, n: nat) returns (schedule: seq<Action>)
    requires n <= capacity && handlers > 0
    ensures Filled(Run(Init(capacity, handlers), schedule), capacity, handlers, n)
  {
    schedule := [];
    if n > 0 {
      var m := Message("b", "t", "p", 0);
      var before := Fill(capacity, handlers, n - 1);
      var s := Run(Init(capacity, handlers), before);
      RunThen(Init(capacity, handlers), before, Receive(0, m));
      RunThen(Init(capacity, handlers), before + [Receive(0, m)], TrySend(0, false));
      var s1 := Step(s, Receive(0, m));
      assert s1.handlers == s.handlers[0 := AtSend(m)];
      assert s.handlers[0 := AtSend(m)][0 := Quiet] == s.handlers;
      schedule := before + [Receive(0, m)] + [TrySend(0, false)];
    }
  }

  /** Two handlers on a full channel can lose the newer of their messages: the slot that one of them
      frees is taken by the other. */
  lemma TwoHandlersMayLoseNewest(s: State, p: nat, q: nat, m: Message, m': Message)
    requires p < |s.handlers| && q < |s.handlers| && p != q
    requires s.handlers[p] == AtDrop(m) && s.handlers[q].Quiet? && |s.queue| == s.capacity > 0
    ensures var s1 := Step(Step(s, DropOldest(p)), CountDropped(p));
      var s2 := Step(Step(s1, Receive(q, m')), TrySend(q, false));
      var s3 := Step(s2, Resend(p, false));
      && |s3.handlers| == |s.handlers| && s3.handlers[p] == AtCountLost(m)
      && Step(s3, CountLost(p)).lost == s.lost + [s.queue[0], m] && s3.queue == s.queue[1..] + [m']
  {
    var s1 := Step(Step(s, DropOldest(p)), CountDropped(p));
    assert s1.handlers[p] == AtResend(m) && s1.handlers[q].Quiet? && s1.queue == s.queue[1..] && s1.lost == s.lost + [s.queue[0]];
    var s2 := Step(Step(s1, Receive(q, m')), TrySend(q, false));
    assert s2.handlers[p] == AtResend(m) && s2.queue == s1.queue + [m'] && s2.lost == s1.lost && s2.capacity == s.capacity;
    assert Step(s2, Resend(p, false)) == SetHandler(s2, p, AtCountLost(m));
  }

  lemma RivalsLose(capacity: nat, handlers: nat)
    requires capacity > 0 && handlers > 1
    ensures exists schedule :: Loses(capacity, handlers, schedule)
  {
    var m, s0 := Message("b", "t", "p", 0), Init(capacity, handlers);
    var fill := Fill(capacity, handlers, capacity);
    var s := Run(s0, fill);
    RunThen(s0, fill, Receive(0, m));
    RunThen(s0, fill + [Receive(0, m)], TrySend(0, false));
    var first := fill + [Receive(0, m)] + [TrySend(0, false)];
    var s1 := Run(s0, first);
    assert s1.handlers[0] == AtDrop(m) && s1.handlers[1].Quiet? && |s1.queue| == s1.capacity;
    TwoHandlersMayLoseNewest(s1, 0, 1, m, m);
    RunFive(s1, DropOldest(0), CountDropped(0), Receive(1, m), TrySend(1, false), Resend(0, false));
    RunAppends(s0, first, [DropOldest(0), CountDropped(0), Receive(1, m), TrySend(1, false), Resend(0, false)]);
    assert Loses(capacity, handlers, first + [DropOldest(0), CountDropped(0), Receive(1, m), TrySend(1, false), Resend(0, false)]);
  }

  /** The message just received can be the one dropped if and only if there is a handler, and the channel is
      unbuffered or there is another handler. */
  lemma NewestMayBeLostIff(capacity: nat, handlers: nat)
    ensures (exists schedule :: Loses(capacity, handlers, schedule)) <==> handlers > 0 && (capacity == 0 || handlers > 1)
  {
    if handlers > 0 && capacity == 0 {
      UnbufferedLoses(handlers);
    } else if handlers > 1 {
      RivalsLose(capacity, handlers);
    } else {
      forall schedule ensures !Loses(capacity, handlers, schedule) {
        Reachable(capacity, handlers, schedule, Message("", "", "", 0));
      }
    }
  }

  // ---------- the worker object ----------

  /** What the worker's fields hold. */
  datatype View = View(queue: seq<Message>, recv: int, fwd: int, dropped: int)

  function ViewOf(s: State): View {
    View(s.queue, s.recv, s.fwd, s.dropped)
  }

  /** The consumer for a while: one entry of `results` for each forward it gets to. */
  function Consume(v: View, results: seq<bool>): View
    decreases |results|
  {
    if results == [] || v.queue == [] then v
    else Consume(v.(queue := v.queue[1..], fwd := v.fwd + if results[0] then 1 else 0), results[1..])
  }

  function Discard(v: View): View {
    if v.queue == [] then v else v.(queue := v.queue[1..], dropped := v.dropped + 1)
  }

  /** The message handler, with the consumer running in the gaps between the selects of `enqueue`. */
  function Handled(v: View, capacity: nat, msg: Message, gap1: seq<bool>, gap2: seq<bool>): View {
    var v1 := v.(recv := v.recv + 1);
    if |v.queue| < capacity then v1.(queue := v.queue + [msg])
    else
      var v2 := Consume(Discard(Consume(v1, gap1)), gap2);
      if |v2.queue| < capacity then v2.(queue := v2.queue + [msg]) else v2.(dropped := v2.dropped + 1)
  }

  class BrokerWorker {
    const capacity: nat
    var queue: seq<Message>
    var recv: int
    var fwd: int
    var dropped: int

    function Fields(): View
      reads this
    {
      View(queue, recv, fwd, dropped)
    }

    constructor (bufferSize: int)
      ensures capacity == Capacity(bufferSize) && Fields() == View([], 0, 0, 0)
      ensures (bufferSize > 0 ==> capacity == bufferSize) && (bufferSize <= 0 ==> capacity == 1000)
    {
      capacity := Capacity(bufferSize);
      queue := [];
      recv, fwd, dropped := 0, 0, 0;
    }

    method ProcessLoop(results: seq<bool>)
      modifies this`queue, this`fwd
      ensures Fields() == Consume(old(Fields()), results)
    {
      var i := 0;
      while i < |results| && queue != []
        invariant 0 <= i <= |results|
        invariant recv == old(recv) && dropped == old(dropped)
        invariant Consume(Fields(), results[i..]) == Consume(old(Fields()), results)
      {
        queue := queue[1..];
        if results[i] {
          fwd := fwd + 1;
        }
        i := i + 1;
        assert results[i - 1..][1..] == results[i..];
      }
    }

    method Handle(msg: Message, gap1: seq<bool>, gap2: seq<bool>)
      modifies this
      ensures Fields() == Handled(old(Fields()), capacity, msg, gap1, gap2)
    {
      recv := recv + 1;
      if |queue| < capacity {
        queue := queue + [msg];
        return;
      }
      ProcessLoop(gap1);
      if queue != [] {
        queue := queue[1..];
        dropped := dropped + 1;
      }
      ProcessLoop(gap2);
      if |queue| < capacity {
        queue := queue + [msg];
      } else {
        dropped := dropped + 1;
      }
    }
  }

  // ---------- what the handler does ----------

  function Successes(results: seq<bool>): nat {
    if results == [] then 0 else (if results[0] then 1 else 0) + Successes(results[1..])
  }

  function Min(a: nat, b: nat): nat {
    if a < b then a else b
  }

  /** The consumer takes messages from the front and counts the forwards that succeed. */
  lemma {:induction false} ConsumeTakes(v: View, results: seq<bool>)
    ensures var n := Min(|results|, |v.queue|);
      Consume(v, results) == v.(queue := v.queue[n..], fwd := v.fwd + Successes(results[..n]))
    decreases |results|
  {
    if results != [] && v.queue != [] {
      var n := Min(|results|, |v.queue|);
      ConsumeTakes(v.(queue := v.queue[1..], fwd := v.fwd + if results[0] then 1 else 0), results[1..]);
      assert v.queue[1..][n - 1..] == v.queue[n..];
      assert results[..n][1..] == results[1..][..n - 1];
    }
  }

  /** What one call of the handler comes to: room means no loss; on a full channel only the oldest message can
      be lost, and only if the consumer has not emptied the channel; the new message is queued last. */
  lemma HandledMeans(v: View, capacity: nat, msg: Message, gap1: seq<bool>, gap2: seq<bool>)
    requires |v.queue| <= capacity
    ensures var v' := Handled(v, capacity, msg, gap1, gap2);
      var n1 := Min(|gap1|, |v.queue|);
      var rest := if n1 < |v.queue| then v.queue[n1 + 1..] else [];
      var n2 := Min(|gap2|, |rest|);
      && |v'.queue| <= capacity && v'.recv == v.recv + 1
      && (|v.queue| < capacity ==> v'.queue == v.queue + [msg] && v'.dropped == v.dropped && v'.fwd == v.fwd)
      && (|v.queue| == capacity > 0 ==>
            && v'.queue == rest[n2..] + [msg]
            && v'.dropped == v.dropped + (if |gap1| < capacity then 1 else 0)
            && v'.fwd == v.fwd + Successes(gap1[..n1]) + Successes(gap2[..n2]))
      && (capacity == 0 ==> v'.queue == [] && v'.dropped == v.dropped + 1 && v'.fwd == v.fwd)
  {
    var v1 := v.(recv := v.recv + 1);
    ConsumeTakes(v1, gap1);
    ConsumeTakes(Discard(Consume(v1, gap1)), gap2);
  }

  // ---------- the worker as runs ----------

  /** Handler `h` is at `p`, all other handlers are as in `s`, the consumer is ready, and the fields are `v`. */
  predicate Stands(s: State, s': State, h: nat, p: Handler, v: View) {
    h < |s.handlers| && s'.capacity == s.capacity && s'.handlers == s.handlers[h := p] && s'.consumer.Ready? && ViewOf(s') == v
  }

  /** The consumer's turns. */
  lemma {:induction false} ConsumeRuns(s: State, s': State, h: nat, p: Handler, results: seq<bool>) returns (schedule: seq<Action>)
    requires Stands(s, s', h, p, ViewOf(s'))
    ensures Stands(s, Run(s', schedule), h, p, Consume(ViewOf(s'), results))
    decreases |results|
  {
    schedule := [];
    if results != [] && s'.queue != [] {
      var s1 := Step(Step(s', Take), Finish(results[0]));
      var rest := ConsumeRuns(s, s1, h, p, results[1..]);
      RunOne(s', Take);
      RunThen(s', [Take], Finish(results[0]));
      RunAppends(s', [Take] + [Finish(results[0])], rest);
      schedule := [Take] + [Finish(results[0])] + rest;
    }
  }

  /** The second select and its counter. */
  lemma DiscardRuns(s: State, s': State, h: nat, m: Message) returns (schedule: seq<Action>)
    requires Stands(s, s', h, AtDrop(m), ViewOf(s'))
    ensures Stands(s, Run(s', schedule), h, AtResend(m), Discard(ViewOf(s')))
  {
    var s1 := Step(s', DropOldest(h));
    RunOne(s', DropOldest(h));
    schedule := [DropOldest(h)];
    assert s.handlers[h := AtDrop(m)][h := AtResend(m)] == s.handlers[h := AtResend(m)];
    if s'.queue != [] {
      RunThen(s', [DropOldest(h)], CountDropped(h));
      assert s1.handlers[h := AtResend(m)] == s.handlers[h := AtResend(m)];
      schedule := [DropOldest(h)] + [CountDropped(h)];
    }
  }

  /** The last select and its counter. */
  lemma ResendRuns(s: State, s': State, h: nat, m: Message) returns (schedule: seq<Action>)
    requires Stands(s, s', h, AtResend(m), ViewOf(s'))
    ensures var v := ViewOf(s');
      Stands(s, Run(s', schedule), h, Quiet, if |v.queue| < s.capacity then v.(queue := v.queue + [m]) else v.(dropped := v.dropped + 1))
  {
    var s1 := Step(s', Resend(h, false));
    RunOne(s', Resend(h, false));
    schedule := [Resend(h, false)];
    assert s.handlers[h := AtResend(m)][h := Quiet] == s.handlers[h := Quiet];
    if |s'.queue| >= s.capacity {
      RunThen(s', [Resend(h, false)], CountLost(h));
      assert s1.handlers[h := Quiet] == s.handlers[h := Quiet];
      schedule := [Resend(h, false)] + [CountLost(h)];
    }
  }

  /** Arrival and the first select. */
  lemma ReceiveRuns(s: State, h: nat, m: Message) returns (schedule: seq<Action>)
    requires h < |s.handlers| && s.handlers[h].Quiet? && s.consumer.Ready?
    ensures var v1 := ViewOf(s).(recv := s.recv + 1);
      if |s.queue| < s.capacity then Stands(s, Run(s, schedule), h, Quiet, v1.(queue := s.queue + [m]))
      else Stands(s, Run(s, schedule), h, AtDrop(m), v1)
  {
    var s1 := Step(s, Receive(h, m));
    RunOne(s, Receive(h, m));
    RunThen(s, [Receive(h, m)], TrySend(h, false));
    assert s1.handlers == s.handlers[h := AtSend(m)];
    assert s.handlers[h := AtSend(m)][h := Quiet] == s.handlers[h := Quiet];
    assert s.handlers[h := AtSend(m)][h := AtDrop(m)] == s.handlers[h := AtDrop(m)];
    schedule := [Receive(h, m)] + [TrySend(h, false)];
  }

  /** The handler is a run of the step system: its own selects and counters in order, with turns of the consumer
      in the gaps, leave channel and counters as the method does. */
  lemma HandleImplementsSteps(s: State, h: nat, m: Message, gap1: seq<bool>, gap2: seq<bool>) returns (schedule: seq<Action>)
    requires h < |s.handlers| && s.handlers[h].Quiet? && s.consumer.Ready?
    ensures Stands(s, Run(s, schedule), h, Quiet, Handled(ViewOf(s), s.capacity, m, gap1, gap2))
  {
    schedule := ReceiveRuns(s, h, m);
    if |s.queue| >= s.capacity {
      var s1 := Run(s, schedule);
      var wait1 := ConsumeRuns(s, s1, h, AtDrop(m), gap1);
      var s2 := Run(s1, wait1);
      var drop := DiscardRuns(s, s2, h, m);
      var s3 := Run(s2, drop);
      var wait2 := ConsumeRuns(s, s3, h, AtResend(m), gap2);
      var s4 := Run(s3, wait2);
      var send := ResendRuns(s, s4, h, m);
      RunAppends(s, schedule, wait1);
      RunAppends(s, schedule + wait1, drop);
      RunAppends(s, schedule + wait1 + drop, wait2);
      RunAppends(s, schedule + wait1 + drop + wait2, send);
      schedule := schedule + wait1 + drop + wait2 + send;
    }
  }
}
