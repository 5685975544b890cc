/** The telemetry ingest pipeline as a step system: any number of SubmitMetric and SubmitBatch
    calls, one writer goroutine behind a bounded channel (or synchronous writes when the capacity
    is zero), the clock, Redis expiry, Redis and database errors and caller cancellation, all
    interleaved. A step whose guard does not hold leaves the state alone. */
module Ingest {
  import opened Common
  import opened Telemetry
  import opened Dedup

  /** What travels through the write channel. */
  datatype Job = Job(call: nat, points: seq<Admitted>)

  datatype Reply =
    | Invalid
    | DuplicateIgnored(slot: Slot)
    | StoredReply(points: seq<Admitted>)
    | AcceptedReply(points: seq<Admitted>, acceptedCount: nat, rejectedCount: nat)
    | QueueFull
    | Canceled
    | Failed

  /** Where a call is: about to resolve `todo[0]`, about to claim its slot, about to hand the kept
      points over, waiting on its `done` channel, or finished. */
  datatype Pc =
    | Resolving(todo: seq<Request>, kept: seq<Admitted>, rejected: nat)
    | Claiming(time: Micros, todo: seq<Request>, kept: seq<Admitted>, rejected: nat)
    | Sending(kept: seq<Admitted>, rejected: nat)
    | Waiting(kept: seq<Admitted>, rejected: nat)
    | Replied(reply: Reply)

  datatype Call = Call(batch: bool, reqs: seq<Request>, pc: Pc)

  datatype Worker = Idle | Holding(job: Job) | Reporting(job: Job, ok: bool) | Stopped

  /** One statement executed against the metrics table. */
  datatype Entry = Entry(job: Job, bulk: bool, outcome: Outcome)

  datatype State = State(
    capacity: nat,
    now: Micros,
    ledger: Ledger,
    calls: map<nat, Call>,
    canceled: set<nat>,
    done: map<nat, seq<bool>>,
    queue: seq<Job>,
    worker: Worker,
    table: Table,
    enqueued: seq<Job>,
    log: seq<Entry>)

  datatype Action =
    | Tick(elapsed: nat)
    | Expire(slot: Slot)
    | Start(call: nat, batch: bool, reqs: seq<Request>)
    | Cancel(call: nat)
    | DoResolve(call: nat)
    | DoClaim(call: nat, redis: Redis)
    | Send(call: nat, giveUp: bool)
    | WriteNow(call: nat, outcome: Outcome)
    | Await(call: nat, giveUp: bool)
    | Take
    | DoInsert(outcome: Outcome)
    | Report
    | Halt

  function Init(capacity: nat, now: Micros): State {
    State(capacity, now, EMPTY, map[], {}, map[], [], Idle, map[], [], [])
  }

  function SetPc(s: State, c: nat, pc: Pc): State
    requires c in s.calls
  {
    s.(calls := s.calls[c := s.calls[c].(pc := pc)])
  }

  /** Where a call goes once one request has been dealt with. */
  function Next(todo: seq<Request>, kept: seq<Admitted>, rejected: nat): Pc {
    if todo != [] then Resolving(todo, kept, rejected)
    else if kept == [] then Replied(Invalid)
    else Sending(kept, rejected)
  }

  function Opening(batch: bool, reqs: seq<Request>): Pc {
    if reqs == [] || |reqs| > MAX_BATCH_SIZE then Replied(Invalid) else Resolving(reqs, [], 0)
  }

  function ResolveStep(s: State, c: nat): State
    requires c in s.calls && s.calls[c].pc.Resolving?
  {
    var pc := s.calls[c].pc;
    if pc.todo == [] then s else
    match Resolve(pc.todo[0], s.now)
    case Rejected => SetPc(s, c, Next(pc.todo[1..], pc.kept, pc.rejected + 1))
    case At(time) => SetPc(s, c, Claiming(time, pc.todo, pc.kept, pc.rejected))
  }

  function ClaimStep(s: State, c: nat, redis: Redis): State
    requires c in s.calls && s.calls[c].pc.Claiming?
  {
    var pc := s.calls[c].pc;
    if pc.todo == [] then s else
    var p := MakePoint(pc.todo[0], pc.time);
    var slot := SlotOf(p);
    var s' := s.(ledger := Try(s.ledger, slot, s.now, redis));
    if Admits(s.ledger.claims, slot, s.now, redis) then
      SetPc(s', c, Next(pc.todo[1..], pc.kept + [Admitted(p, |s.ledger.admissions|)], pc.rejected))
    else if s.calls[c].batch then SetPc(s', c, Next(pc.todo[1..], pc.kept, pc.rejected + 1))
    else SetPc(s', c, Replied(DuplicateIgnored(slot)))
  }

  /** The first select: the channel send, the cancelled context, or the default. */
  function SendStep(s: State, c: nat, giveUp: bool): State
    requires c in s.calls && s.calls[c].pc.Sending?
  {
    var pc := s.calls[c].pc;
    if giveUp then (if c in s.canceled then SetPc(s, c, Replied(Canceled)) else s)
    else if |s.queue| < s.capacity then
      var job := Job(c, pc.kept);
      SetPc(s, c, Waiting(pc.kept, pc.rejected))
        .(queue := s.queue + [job], enqueued := s.enqueued + [job], done := s.done[c := []])
    else if c in s.canceled then s
    else SetPc(s, c, Replied(QueueFull))
  }

  function Success(batch: bool, kept: seq<Admitted>, rejected: nat): Reply {
    if batch then AcceptedReply(kept, |kept|, rejected) else StoredReply(kept)
  }

  /** Synchronous mode: the call writes the table itself. */
  function WriteNowStep(s: State, c: nat, o: Outcome): State
    requires c in s.calls && s.calls[c].pc.Sending?
  {
    var pc := s.calls[c].pc;
    var bulk := s.calls[c].batch;
    if !bulk && |pc.kept| != 1 then s else
    var w := Write(s.table, pc.kept, bulk, o);
    SetPc(s, c, Replied(if w.ok then Success(bulk, pc.kept, pc.rejected) else Failed))
      .(table := w.table, log := s.log + [Entry(Job(c, pc.kept), bulk, o)])
  }

  /** The second select: the result on `done`, or the cancelled context. */
  function AwaitStep(s: State, c: nat, giveUp: bool): State
    requires c in s.calls && s.calls[c].pc.Waiting?
  {
    var pc := s.calls[c].pc;
    if giveUp then (if c in s.canceled then SetPc(s, c, Replied(Canceled)) else s)
    else if c in s.done && s.done[c] != [] then
      SetPc(s, c, Replied(if s.done[c][0] then Success(s.calls[c].batch, pc.kept, pc.rejected) else Failed))
        .(done := s.done[c := s.done[c][1..]])
    else s
  }

  function InsertStep(s: State, o: Outcome): State
    requires s.worker.Holding?
  {
    var job := s.worker.job;
    var w := Write(s.table, job.points, |job.points| != 1, o);
    s.(table := w.table, log := s.log + [Entry(job, |job.points| != 1, o)], worker := Reporting(job, w.ok))
  }

  /** `done` has room for one result; the worker would block on a full one. */
  function ReportStep(s: State): State
    requires s.worker.Reporting?
  {
    var c := s.worker.job.call;
    if c in s.done && |s.done[c]| < 1 then s.(done := s.done[c := s.done[c] + [s.worker.ok]], worker := Idle)
    else s
  }

  function Step(s: State, a: Action): State {
    match a
    case Tick(elapsed) => s.(now := s.now + elapsed)
    case Expire(slot) => s.(ledger := Forget(s.ledger, slot, s.now))
    case Start(c, batch, reqs) =>
      if c in s.calls || (!batch && |reqs| != 1) then s
      else s.(calls := s.calls[c := Call(batch, reqs, Opening(batch, reqs))])
    case Cancel(c) => s.(canceled := s.canceled + {c})
    case DoResolve(c) => if c in s.calls && s.calls[c].pc.Resolving? then ResolveStep(s, c) else s
    case DoClaim(c, redis) => if c in s.calls && s.calls[c].pc.Claiming? then ClaimStep(s, c, redis) else s
    case Send(c, giveUp) => if c in s.calls && s.calls[c].pc.Sending? && s.capacity > 0 then SendStep(s, c, giveUp) else s
    case WriteNow(c, o) => if c in s.calls && s.calls[c].pc.Sending? && s.capacity == 0 then WriteNowStep(s, c, o) else s
    case Await(c, giveUp) => if c in s.calls && s.calls[c].pc.Waiting? then AwaitStep(s, c, giveUp) else s
    case Take => if s.worker.Idle? && s.queue != [] then s.(queue := s.queue[1..], worker := Holding(s.queue[0])) else s
    case DoInsert(o) => if s.worker.Holding? then InsertStep(s, o) else s
    case Report => if s.worker.Reporting? then ReportStep(s) else s
    case Halt => if s.worker.Idle? then s.(worker := Stopped) else s
  }

  /** The state after a schedule of steps. */
  function Run(s: State, schedule: seq<Action>): State {
    if schedule == [] then s else Step(Run(s, schedule[..|schedule| - 1]), schedule[|schedule| - 1])
  }

  ghost predicate WellFormed(log: seq<Entry>) {
    forall i :: 0 <= i < |log| && !log[i].bulk ==> |log[i].job.points| == 1
  }

  /** The table that executing a log of statements, in order, makes of `t`. */
  function Replay(t: Table, log: seq<Entry>): Table
    requires WellFormed(log)
  {
    if log == [] then t
    else
      var e := log[|log| - 1];
      Write(Replay(t, log[..|log| - 1]), e.job.points, e.bulk, e.outcome).table
  }

  function Jobs(log: seq<Entry>): seq<Job> {
    seq(|log|, i requires 0 <= i < |log| => log[i].job)
  }
}
