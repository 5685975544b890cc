/** The service's methods as runs of the step system, and runs that refute tempting claims. */
module Solo {
  import opened Common
  import opened Telemetry
  import opened Dedup
  import opened Screening
  import opened Ingest
  import opened IngestProofs
  import opened Service

  /** The clock does not go back between the readings of a batch. */
  ghost predicate Causal(now: Micros, visits: seq<Visit>) {
    && (forall i :: 0 <= i < |visits| ==> now <= visits[i].resolveAt <= visits[i].claimAt)
    && (forall i, j :: 0 <= i < j < |visits| ==> visits[i].claimAt <= visits[j].resolveAt)
  }

  /** One iteration of the batch loop, as steps. */
  function TurnSchedule(now: Micros, c: nat, v: Visit): seq<Action>
    requires now <= v.resolveAt <= v.claimAt
  {
    [Tick(v.resolveAt - now), DoResolve(c), Tick(v.claimAt - v.resolveAt), DoClaim(c, v.redis)]
  }

  function Turn(s: State, c: nat, v: Visit): State
    requires s.now <= v.resolveAt <= v.claimAt
  {
    Run(s, TurnSchedule(s.now, c, v))
  }

  lemma RunFour(s: State, a: Action, b: Action, d: Action, e: Action)
    ensures Run(s, [a, b, d, e]) == Step(Step(Step(Step(s, a), b), d), e)
  {
    RunOne(s, a);
    RunAppends(s, [a], [b]);
    RunOne(Step(s, a), b);
    RunAppends(s, [a] + [b], [d]);
    RunOne(Step(Step(s, a), b), d);
    RunAppends(s, [a] + [b] + [d], [e]);
    RunOne(Step(Step(Step(s, a), b), d), e);
    assert [a] + [b] + [d] + [e] == [a, b, d, e];
  }

  lemma ResolveTurn(s: State, c: nat, v: Visit)
    requires s.now <= v.resolveAt
    requires c in s.calls && s.calls[c].pc.Resolving? && s.calls[c].pc.todo != []
    ensures var pc := s.calls[c].pc;
      Step(Step(s, Tick(v.resolveAt - s.now)), DoResolve(c)) == SetPc(s.(now := v.resolveAt), c,
        match Resolve(pc.todo[0], v.resolveAt)
        case Rejected => Next(pc.todo[1..], pc.kept, pc.rejected + 1)
        case At(time) => Claiming(time, pc.todo, pc.kept, pc.rejected))
  {
  }

  lemma ClaimTurn(s: State, c: nat, v: Visit)
    requires s.now <= v.claimAt && c in s.calls
    ensures Step(Step(s, Tick(v.claimAt - s.now)), DoClaim(c, v.redis)) ==
      if s.calls[c].pc.Claiming? then ClaimStep(s.(now := v.claimAt), c, v.redis) else s.(now := v.claimAt)
  {
  }

  lemma TurnNested(s: State, c: nat, v: Visit)
    requires s.now <= v.resolveAt <= v.claimAt
    ensures var r := Step(Step(s, Tick(v.resolveAt - s.now)), DoResolve(c));
      Turn(s, c, v) == Step(Step(r, Tick(v.claimAt - v.resolveAt)), DoClaim(c, v.redis))
  {
    RunFour(s, Tick(v.resolveAt - s.now), DoResolve(c), Tick(v.claimAt - v.resolveAt), DoClaim(c, v.redis));
  }

  lemma TurnSteps(s: State, c: nat, v: Visit)
    requires s.now <= v.resolveAt <= v.claimAt
    requires c in s.calls && s.calls[c].pc.Resolving? && s.calls[c].pc.todo != []
    ensures var pc, s' := s.calls[c].pc, s.(now := v.claimAt);
      Turn(s, c, v) ==
        match Resolve(pc.todo[0], v.resolveAt)
        case Rejected => SetPc(s', c, Next(pc.todo[1..], pc.kept, pc.rejected + 1))
        case At(time) => ClaimStep(SetPc(s', c, Claiming(time, pc.todo, pc.kept, pc.rejected)), c, v.redis)
  {
    var pc, r := s.calls[c].pc, Step(Step(s, Tick(v.resolveAt - s.now)), DoResolve(c));
    TurnNested(s, c, v);
    ResolveTurn(s, c, v);
    ClaimTurn(r, c, v);
    match Resolve(pc.todo[0], v.resolveAt)
    case Rejected => assert !r.calls[c].pc.Claiming?;
    case At(time) => assert r.(now := v.claimAt) == SetPc(s.(now := v.claimAt), c, Claiming(time, pc.todo, pc.kept, pc.rejected));
  }

  /** The claim of a batch call handles a request that passed validation. */
  lemma ClaimHandles(s: State, c: nat, v: Visit, time: Micros, todo: seq<Request>, kept: seq<Admitted>, rejected: nat)
    requires c in s.calls && s.calls[c].batch && todo != [] && s.now == v.claimAt && Resolve(todo[0], v.resolveAt) == At(time)
    ensures var sc := Handle(Screened(s.ledger, kept, rejected), todo[0], v);
      ClaimStep(SetPc(s, c, Claiming(time, todo, kept, rejected)), c, v.redis) ==
        SetPc(s.(ledger := sc.ledger), c, Next(todo[1..], sc.kept, sc.rejected))
  {
  }

  /** One turn is one application of Handle. */
  lemma TurnHandles(s: State, c: nat, v: Visit)
    requires s.now <= v.resolveAt <= v.claimAt
    requires c in s.calls && s.calls[c].batch && s.calls[c].pc.Resolving? && s.calls[c].pc.todo != []
    ensures var pc := s.calls[c].pc;
      var sc := Handle(Screened(s.ledger, pc.kept, pc.rejected), pc.todo[0], v);
      Turn(s, c, v) == SetPc(s.(now := v.claimAt, ledger := sc.ledger), c, Next(pc.todo[1..], sc.kept, sc.rejected))
  {
    var pc := s.calls[c].pc;
    TurnSteps(s, c, v);
    match Resolve(pc.todo[0], v.resolveAt)
    case Rejected =>
    case At(time) => ClaimHandles(s.(now := v.claimAt), c, v, time, pc.todo, pc.kept, pc.rejected);
  }

  /** A step of the clock or of call `c`. */
  predicate Own(act: Action, c: nat) {
    act.Tick? || Moves(act, c)
  }

  /** Only the clock and call `c` move. */
  ghost predicate OwnSteps(schedule: seq<Action>, c: nat) {
    forall i :: 0 <= i < |schedule| ==> Own(schedule[i], c)
  }

  /** `schedule` leads from `s` to `s'` by steps of the clock and call `c` alone. */
  ghost predicate Leads(s: State, schedule: seq<Action>, s': State, c: nat) {
    OwnSteps(schedule, c) && Run(s, schedule) == s'
  }

  lemma LeadsOn(s: State, a: seq<Action>, s1: State, b: seq<Action>, s2: State, c: nat)
    requires Leads(s, a, s1, c) && Leads(s1, b, s2, c)
    ensures Leads(s, a + b, s2, c)
  {
    RunAppends(s, a, b);
  }

  lemma TurnLeads(s: State, c: nat, v: Visit)
    requires s.now <= v.resolveAt <= v.claimAt
    ensures Leads(s, TurnSchedule(s.now, c, v), Turn(s, c, v), c)
  {
  }

  /** The state after the loop of a batch call has handled its first `n` requests. */
  function Midway(s: State, c: nat, reqs: seq<Request>, visits: seq<Visit>, n: nat): State
    requires |visits| == |reqs| && n <= |reqs| && c in s.calls
  {
    var sc := Prefix(s.ledger, reqs, visits, n);
    SetPc(s.(now := if n == 0 then s.now else visits[n - 1].claimAt, ledger := sc.ledger), c, Next(reqs[n..], sc.kept, sc.rejected))
  }

  lemma LoopImplementsSteps(s: State, c: nat, reqs: seq<Request>, visits: seq<Visit>, n: nat)
    requires |visits| == |reqs| && n < |reqs| && Causal(s.now, visits)
    requires c in s.calls && s.calls[c].batch && s.calls[c].pc == Resolving(reqs, [], 0)
    ensures Midway(s, c, reqs, visits, 0) == s
    ensures Midway(s, c, reqs, visits, n).now <= visits[n].resolveAt
    ensures Turn(Midway(s, c, reqs, visits, n), c, visits[n]) == Midway(s, c, reqs, visits, n + 1)
  {
    assert reqs[0..] == reqs;
    assert s.calls[c := s.calls[c]] == s.calls;
    PrefixStep(s.ledger, reqs, visits, n);
    var sn := Midway(s, c, reqs, visits, n);
    assert reqs[n..][0] == reqs[n] && reqs[n..][1..] == reqs[n + 1..];
    TurnHandles(sn, c, visits[n]);
    assert sn.calls[c := Midway(s, c, reqs, visits, n + 1).calls[c]] == Midway(s, c, reqs, visits, n + 1).calls;
  }

  lemma {:induction false} LoopRuns(s: State, c: nat, reqs: seq<Request>, visits: seq<Visit>, n: nat) returns (schedule: seq<Action>)
    requires |visits| == |reqs| && n <= |reqs| && reqs != [] && Causal(s.now, visits)
    requires c in s.calls && s.calls[c].batch && s.calls[c].pc == Resolving(reqs, [], 0)
    ensures Leads(s, schedule, Midway(s, c, reqs, visits, n), c)
  {
    schedule := [];
    LoopImplementsSteps(s, c, reqs, visits, if n == 0 then 0 else n - 1);
    if n > 0 {
      var sn := Midway(s, c, reqs, visits, n - 1);
      var before := LoopRuns(s, c, reqs, visits, n - 1);
      var turn := TurnSchedule(sn.now, c, visits[n - 1]);
      TurnLeads(sn, c, visits[n - 1]);
      LeadsOn(s, before, sn, turn, Midway(s, c, reqs, visits, n), c);
      schedule := before + turn;
    }
  }

  /** The bulk insert of a call that kept something; one that kept nothing has replied. */
  lemma WriteMany(s: State, c: nat, kept: seq<Admitted>, rejected: nat, o: Outcome)
    requires c in s.calls && s.calls[c].batch && s.calls[c].pc == Next([], kept, rejected) && s.capacity == 0
    ensures var w, s' := InsertMetricBatch(s.table, kept, o), Step(s, WriteNow(c, o));
      && s'.ledger == s.ledger && c in s'.calls
      && if kept == [] then s'.table == s.table && s'.calls[c].pc == Replied(Invalid)
         else s'.table == w.table && s'.calls[c].pc == Replied(if w.ok then AcceptedReply(kept, |kept|, rejected) else Failed)
  {
  }

  lemma LoopEnds(s: State, c: nat, reqs: seq<Request>, visits: seq<Visit>)
    requires |visits| == |reqs| && c in s.calls
    ensures var sc, s' := Screen(s.ledger, reqs, visits), Midway(s, c, reqs, visits, |reqs|);
      && s'.ledger == sc.ledger && s'.table == s.table && s'.capacity == s.capacity
      && s'.calls[c] == s.calls[c].(pc := Next([], sc.kept, sc.rejected))
  {
    assert reqs[..|reqs|] == reqs && visits[..|reqs|] == visits;
    assert reqs[|reqs|..] == [];
  }

  lemma WriteAfterLoop(s: State, c: nat, reqs: seq<Request>, visits: seq<Visit>, o: Outcome)
    requires |visits| == |reqs| && 0 < |reqs| <= MAX_BATCH_SIZE && s.capacity == 0
    requires c in s.calls && s.calls[c].batch
    ensures var r, s' := SubmitMany(s.ledger, s.table, reqs, visits, o), Step(Midway(s, c, reqs, visits, |reqs|), WriteNow(c, o));
      s'.ledger == r.ledger && s'.table == r.table && c in s'.calls && s'.calls[c].pc == Replied(r.reply)
  {
    var sc := Screen(s.ledger, reqs, visits);
    LoopEnds(s, c, reqs, visits);
    WriteMany(Midway(s, c, reqs, visits, |reqs|), c, sc.kept, sc.rejected, o);
  }

  /** Synchronous SubmitBatch is a run of the step system: for every batch, there is a schedule of the
      call's own steps and clock ticks that leaves claims, table and reply as the method does. */
  lemma BatchImplementsSteps(s: State, c: nat, reqs: seq<Request>, visits: seq<Visit>, o: Outcome) returns (schedule: seq<Action>)
    requires |visits| == |reqs| && Causal(s.now, visits) && s.capacity == 0 && c !in s.calls
    ensures OwnSteps(schedule, c)
    ensures var r, s' := SubmitMany(s.ledger, s.table, reqs, visits, o), Run(s, schedule);
      s'.ledger == r.ledger && s'.table == r.table && c in s'.calls && s'.calls[c].pc == Replied(r.reply)
  {
    var start := Start(c, true, reqs);
    var s0 := Step(s, start);
    RunOne(s, start);
    schedule := [start];
    if 0 < |reqs| <= MAX_BATCH_SIZE {
      var sn := Midway(s0, c, reqs, visits, |reqs|);
      var loop := LoopRuns(s0, c, reqs, visits, |reqs|);
      LeadsOn(s, [start], s0, loop, sn, c);
      RunOne(sn, WriteNow(c, o));
      LeadsOn(s, [start] + loop, sn, [WriteNow(c, o)], Step(sn, WriteNow(c, o)), c);
      WriteAfterLoop(s0, c, reqs, visits, o);
      schedule := [start] + loop + [WriteNow(c, o)];
    }
  }

  // ---------- SubmitMetric ----------

  predicate Timely(now: Micros, v: Visit) {
    now <= v.resolveAt <= v.claimAt
  }

  /** The first half of a SubmitMetric call: validation and claim. */
  function Attempt(s: State, c: nat, req: Request, v: Visit): State
    requires Timely(s.now, v)
  {
    Turn(Step(s, Start(c, false, [req])), c, v)
  }

  /** Where validation and claim lead. */
  function AttemptPc(l: Ledger, req: Request, v: Visit): Pc {
    match Resolve(req, v.resolveAt)
    case Rejected => Replied(Invalid)
    case At(time) =>
      var p := MakePoint(req, time);
      if Admits(l.claims, SlotOf(p), v.claimAt, v.redis) then Sending([Admitted(p, |l.admissions|)], 0)
      else Replied(DuplicateIgnored(SlotOf(p)))
  }

  function AttemptLedger(l: Ledger, req: Request, v: Visit): Ledger {
    match Resolve(req, v.resolveAt)
    case Rejected => l
    case At(time) => Try(l, SlotOf(MakePoint(req, time)), v.claimAt, v.redis)
  }

  lemma ClaimOne(s: State, c: nat, req: Request, v: Visit, time: Micros)
    requires c in s.calls && s.calls[c] == Call(false, [req], Resolving([req], [], 0)) && s.now == v.claimAt
    requires Resolve(req, v.resolveAt) == At(time)
    ensures ClaimStep(SetPc(s, c, Claiming(time, [req], [], 0)), c, v.redis) ==
      s.(ledger := AttemptLedger(s.ledger, req, v), calls := s.calls[c := Call(false, [req], AttemptPc(s.ledger, req, v))])
  {
    var none: seq<Admitted> := [];
    var a := Admitted(MakePoint(req, time), |s.ledger.admissions|);
    assert none + [a] == [a] && [req][1..] == [];
  }

  lemma AttemptIs(s: State, c: nat, req: Request, v: Visit)
    requires c !in s.calls && Timely(s.now, v)
    ensures Attempt(s, c, req, v) == s.(now := v.claimAt, ledger := AttemptLedger(s.ledger, req, v),
      calls := s.calls[c := Call(false, [req], AttemptPc(s.ledger, req, v))])
  {
    var call := Call(false, [req], Resolving([req], [], 0));
    var s0 := Step(s, Start(c, false, [req]));
    assert s0 == s.(calls := s.calls[c := call]);
    TurnSteps(s0, c, v);
    match Resolve(req, v.resolveAt)
    case Rejected =>
      assert [req][1..] == [];
    case At(time) =>
      ClaimOne(s0.(now := v.claimAt), c, req, v, time);
  }

  /** One synchronous SubmitMetric call from start to finish. */
  function Submit(s: State, c: nat, req: Request, v: Visit, o: Outcome): State
    requires Timely(s.now, v)
  {
    Step(Attempt(s, c, req, v), WriteNow(c, o))
  }

  lemma WriteOne(s: State, c: nat, req: Request, a: Admitted, o: Outcome)
    requires c in s.calls && s.calls[c] == Call(false, [req], Sending([a], 0)) && s.capacity == 0
    ensures var w := InsertMetric(s.table, a, o);
      Step(s, WriteNow(c, o)) == s.(table := w.table, log := s.log + [Entry(Job(c, [a]), false, o)],
        calls := s.calls[c := Call(false, [req], Replied(if w.ok then StoredReply([a]) else Failed))])
  {
  }

  lemma SubmitIs(s: State, c: nat, req: Request, v: Visit, o: Outcome)
    requires c !in s.calls && Timely(s.now, v) && s.capacity == 0
    ensures var r, s' := SubmitOne(s.ledger, s.table, req, v, o), Submit(s, c, req, v, o);
      && s'.now == v.claimAt && s'.capacity == 0 && s'.ledger == r.ledger && s'.table == r.table
      && s'.calls == s.calls[c := Call(false, [req], Replied(r.reply))]
  {
    var s1 := Attempt(s, c, req, v);
    AttemptIs(s, c, req, v);
    if s1.calls[c].pc.Sending? {
      WriteOne(s1, c, req, s1.calls[c].pc.kept[0], o);
    }
  }

  /** Synchronous SubmitMetric is a run of the step system, for every answer of Redis and the database:
      a schedule of the call's own steps and clock ticks leaves claims, table and reply as the method does. */
  lemma SubmitImplementsSteps(s: State, c: nat, req: Request, v: Visit, o: Outcome) returns (schedule: seq<Action>)
    requires c !in s.calls && Timely(s.now, v) && s.capacity == 0
    ensures OwnSteps(schedule, c)
    ensures var r, s' := SubmitOne(s.ledger, s.table, req, v, o), Run(s, schedule);
      s'.ledger == r.ledger && s'.table == r.table && c in s'.calls && s'.calls[c].pc == Replied(r.reply)
  {
    var start, write := Start(c, false, [req]), WriteNow(c, o);
    var s0 := Step(s, start);
    var s1 := Attempt(s, c, req, v);
    var turn := TurnSchedule(s0.now, c, v);
    TurnLeads(s0, c, v);
    RunOne(s, start);
    RunOne(s1, write);
    LeadsOn(s, [start], s0, turn, s1, c);
    LeadsOn(s, [start] + turn, s1, [write], Step(s1, write), c);
    SubmitIs(s, c, req, v, o);
    schedule := [start] + turn + [write];
  }

  /** A redelivered request is absorbed: within 600 s of an admission that claimed its device and
      second it is answered "duplicate ignored", and nothing but the clock and the call itself changes. */
  lemma RedeliveryAbsorbed(s: State, c: nat, req: Request, v: Visit, i: nat)
    requires Inv(s) && c !in s.calls && Timely(s.now, v) && v.redis == Healthy && Resolve(req, v.resolveAt).At?
    requires i < |s.ledger.admissions| && s.ledger.admissions[i].marked && v.claimAt < s.ledger.admissions[i].at + DEDUP_TTL
    requires s.ledger.admissions[i].slot == SlotOf(MakePoint(req, Resolve(req, v.resolveAt).time))
    ensures Attempt(s, c, req, v) ==
      s.(now := v.claimAt, calls := s.calls[c := Call(false, [req], Replied(DuplicateIgnored(s.ledger.admissions[i].slot)))])
  {
    WaitConsistent(s.ledger, s.now, v.claimAt);
    DuplicateIffRecentAdmission(s.ledger, s.ledger.admissions[i].slot, v.claimAt);
    AttemptIs(s, c, req, v);
  }

  // ---------- the writer goroutine ----------

  /** How a queued call that has its claim can end. */
  datatype Fate = FullQueue | CanceledSending | CanceledWaiting(o: Outcome) | Answered(o: Outcome)

  predicate Possible(s: State, fate: Fate) {
    && s.capacity > 0
    && (fate.FullQueue? ==> |s.queue| == s.capacity)
    && (fate.CanceledWaiting? || fate.Answered? ==> s.worker.Idle? && s.queue == [])
  }

  /** One turn of the worker. */
  function Work(s: State, o: Outcome): State {
    Step(Step(Step(s, Take), DoInsert(o)), Report)
  }

  function Conclude(s: State, c: nat, fate: Fate): State {
    match fate
    case FullQueue => Step(s, Send(c, false))
    case CanceledSending => Step(Step(s, Cancel(c)), Send(c, true))
    case CanceledWaiting(o) => Work(Step(Step(Step(s, Send(c, false)), Cancel(c)), Await(c, true)), o)
    case Answered(o) => Step(Work(Step(s, Send(c, false)), o), Await(c, false))
  }

  function FateReply(fate: Fate, a: Admitted): Reply {
    match fate
    case FullQueue => QueueFull
    case CanceledSending => Canceled
    case CanceledWaiting(_) => Canceled
    case Answered(o) => if o == Works then StoredReply([a]) else Failed
  }

  /** The insert of the call's point took effect. */
  predicate Inserted(fate: Fate) {
    (fate.CanceledWaiting? || fate.Answered?) && fate.o != FailsClean
  }

  lemma SendAlone(s: State, c: nat, req: Request, a: Admitted)
    requires s.capacity > 0 && s.queue == [] && c in s.calls && s.calls[c] == Call(false, [req], Sending([a], 0))
    ensures var job := Job(c, [a]);
      Step(s, Send(c, false)) == s.(queue := [job], enqueued := s.enqueued + [job], done := s.done[c := []],
        calls := s.calls[c := Call(false, [req], Waiting([a], 0))])
  {
  }

  lemma WorkAlone(s: State, c: nat, a: Admitted, o: Outcome)
    requires s.worker.Idle? && s.queue == [Job(c, [a])] && c in s.done && s.done[c] == []
    ensures var w := InsertMetric(s.table, a, o);
      Work(s, o) == s.(queue := [], table := w.table, done := s.done[c := [w.ok]], log := s.log + [Entry(Job(c, [a]), false, o)])
  {
    TurnImplementsSteps(s, o);
    assert s.done[c] + [InsertMetric(s.table, a, o).ok] == [InsertMetric(s.table, a, o).ok];
    assert s.queue[1..] == [];
  }

  lemma AwaitAlone(s: State, c: nat, req: Request, a: Admitted, ok: bool)
    requires c in s.calls && s.calls[c] == Call(false, [req], Waiting([a], 0)) && c in s.done && s.done[c] == [ok]
    ensures var s' := Step(s, Await(c, false));
      && s'.table == s.table && s'.ledger == s.ledger && s'.now == s.now
      && s'.worker == s.worker && s'.queue == s.queue
      && s'.calls == s.calls[c := Call(false, [req], Replied(if ok then StoredReply([a]) else Failed))]
  {
  }

  lemma ConcludeCanceled(s: State, c: nat, req: Request, a: Admitted, o: Outcome)
    requires c in s.calls && s.calls[c] == Call(false, [req], Sending([a], 0)) && Possible(s, CanceledWaiting(o))
    ensures var s', w := Conclude(s, c, CanceledWaiting(o)), InsertMetric(s.table, a, o);
      && s'.table == w.table && s'.ledger == s.ledger && s'.now == s.now
      && s'.calls == s.calls[c := Call(false, [req], Replied(Canceled))]
  {
    SendAlone(s, c, req, a);
    var s1 := Step(s, Send(c, false));
    var s2 := Step(Step(s1, Cancel(c)), Await(c, true));
    assert s2 == s1.(canceled := s1.canceled + {c}, calls := s1.calls[c := Call(false, [req], Replied(Canceled))]);
    WorkAlone(s2, c, a, o);
  }

  lemma ConcludeAnswered(s: State, c: nat, req: Request, a: Admitted, o: Outcome)
    requires c in s.calls && s.calls[c] == Call(false, [req], Sending([a], 0)) && Possible(s, Answered(o))
    ensures var s', w := Conclude(s, c, Answered(o)), InsertMetric(s.table, a, o);
      && s'.table == w.table && s'.ledger == s.ledger && s'.now == s.now && s'.worker.Idle? && s'.queue == []
      && s'.calls == s.calls[c := Call(false, [req], Replied(if w.ok then StoredReply([a]) else Failed))]
  {
    SendAlone(s, c, req, a);
    var s1 := Step(s, Send(c, false));
    WorkAlone(s1, c, a, o);
    AwaitAlone(Work(s1, o), c, req, a, InsertMetric(s.table, a, o).ok);
  }

  /** A queued call's end: its reply, and its row exactly when the insert took effect. */
  lemma ConcludeIs(s: State, c: nat, req: Request, a: Admitted, fate: Fate)
    requires c in s.calls && c !in s.canceled && s.calls[c] == Call(false, [req], Sending([a], 0)) && Possible(s, fate)
    ensures var s' := Conclude(s, c, fate);
      && s'.ledger == s.ledger && s'.now == s.now
      && s'.calls == s.calls[c := Call(false, [req], Replied(FateReply(fate, a)))]
      && s'.table == if Inserted(fate) && KeyOf(a.point) !in s.table then s.table[KeyOf(a.point) := a] else s.table
  {
    match fate
    case FullQueue =>
    case CanceledSending =>
    case CanceledWaiting(o) => ConcludeCanceled(s, c, req, a, o);
    case Answered(o) => ConcludeAnswered(s, c, req, a, o);
  }

  /** Undisturbed, a valid request for an unclaimed device and second is stored through the queue:
      its row is the only one added, and the caller is told so. */
  lemma QueuedSubmitStores(s: State, c: nat, req: Request, v: Visit)
    requires c !in s.calls && c !in s.canceled && Possible(s, Answered(Works)) && Timely(s.now, v) && Resolve(req, v.resolveAt).At?
    requires var p := MakePoint(req, Resolve(req, v.resolveAt).time); !Live(s.ledger.claims, SlotOf(p), v.claimAt) && KeyOf(p) !in s.table
    ensures var s' := Conclude(Attempt(s, c, req, v), c, Answered(Works));
      var a := Admitted(MakePoint(req, Resolve(req, v.resolveAt).time), |s.ledger.admissions|);
      s'.table == s.table[KeyOf(a.point) := a] && c in s'.calls && s'.calls[c].pc == Replied(StoredReply([a]))
  {
    AttemptIs(s, c, req, v);
    ConcludeIs(Attempt(s, c, req, v), c, req, Admitted(MakePoint(req, Resolve(req, v.resolveAt).time), |s.ledger.admissions|), Answered(Works));
  }

  // ---------- what "duplicate ignored" means ----------

  /** `req` and, later, `req'` resolve to one device and second that is unclaimed when the first comes;
      the second comes within the TTL of that. */
  predicate Rivals(l: Ledger, req: Request, v: Visit, req': Request, v': Visit) {
    && Resolve(req, v.resolveAt).At? && Resolve(req', v'.resolveAt).At?
    && var p, p' := PointOf(req, v), PointOf(req', v');
       SlotOf(p) == SlotOf(p') && !Live(l.claims, SlotOf(p), v.claimAt) && v.claimAt <= v'.claimAt < v.claimAt + DEDUP_TTL
  }

  function PointOf(req: Request, v: Visit): Point
    requires Resolve(req, v.resolveAt).At?
  {
    MakePoint(req, Resolve(req, v.resolveAt).time)
  }

  /** The rival is turned away exactly when the first attempt's SETNX took effect. */
  lemma RivalTurnedAway(l: Ledger, req: Request, v: Visit, req': Request, v': Visit)
    requires Rivals(l, req, v, req', v') && v'.redis == Healthy
    ensures var l1, slot := AttemptLedger(l, req, v), SlotOf(PointOf(req', v'));
      && AttemptPc(l, req, v) == Sending([Admitted(PointOf(req, v), |l.admissions|)], 0)
      && (!Admits(l1.claims, slot, v'.claimAt, Healthy) <==> v.redis != ErrorLost)
      && (v.redis != ErrorLost ==> AttemptPc(l1, req', v') == Replied(DuplicateIgnored(slot)))
  {
  }

  /** Synchronous calls: after a first attempt with any outcome, a request for the same device and second
      within 600 s is answered "duplicate ignored" exactly when the first one's SETNX took effect. What it
      asks for is then in the table exactly when its key was there before the first attempt, or is the
      first one's and that insert took effect. */
  lemma DuplicateStoredIff(s: State, c: nat, req: Request, v: Visit, o: Outcome, c': nat, req': Request, v': Visit, o': Outcome)
    requires s.capacity == 0 && c !in s.calls && c' !in s.calls && c != c'
    requires Timely(s.now, v) && Timely(v.claimAt, v') && v'.redis == Healthy && Rivals(s.ledger, req, v, req', v')
    ensures Submit(s, c, req, v, o).now == v.claimAt
    ensures var s' := Submit(Submit(s, c, req, v, o), c', req', v', o');
      var k, k' := KeyOf(PointOf(req, v)), KeyOf(PointOf(req', v'));
      && c' in s'.calls && s'.calls[c'].pc.Replied?
      && (s'.calls[c'].pc.reply.DuplicateIgnored? <==> v.redis != ErrorLost)
      && (s'.calls[c'].pc.reply.DuplicateIgnored? ==> (k' in s'.table <==> k' in s.table || (k' == k && o != FailsClean)))
  {
    SubmitIs(s, c, req, v, o);
    SubmitIs(Submit(s, c, req, v, o), c', req', v', o');
    RivalTurnedAway(s.ledger, req, v, req', v');
  }

  /** Queued calls, whichever way the first one ends: refused by a full queue, canceled before or after it was
      enqueued, or answered. Its claim stays, so the second request is a duplicate, and what it asks for
      is in the table under the same condition. */
  lemma QueuedDuplicateStoredIff(s: State, c: nat, req: Request, v: Visit, fate: Fate, c': nat, req': Request, v': Visit)
    requires Possible(s, fate) && c !in s.calls && c' !in s.calls && c != c' && c !in s.canceled
    requires Timely(s.now, v) && Timely(v.claimAt, v') && v.redis != ErrorLost && v'.redis == Healthy
    requires Rivals(s.ledger, req, v, req', v')
    ensures Conclude(Attempt(s, c, req, v), c, fate).now == v.claimAt
    ensures var s' := Attempt(Conclude(Attempt(s, c, req, v), c, fate), c', req', v');
      var k, k' := KeyOf(PointOf(req, v)), KeyOf(PointOf(req', v'));
      && c in s'.calls && s'.calls[c].pc == Replied(FateReply(fate, Admitted(PointOf(req, v), |s.ledger.admissions|)))
      && c' in s'.calls && s'.calls[c'].pc == Replied(DuplicateIgnored(SlotOf(PointOf(req', v'))))
      && (k' in s'.table <==> k' in s.table || (k' == k && Inserted(fate)))
  {
    var s1 := Attempt(s, c, req, v);
    AttemptIs(s, c, req, v);
    RivalTurnedAway(s.ledger, req, v, req', v');
    ConcludeIs(s1, c, req, Admitted(PointOf(req, v), |s.ledger.admissions|), fate);
    AttemptIs(Conclude(s1, c, fate), c', req', v');
  }

  /** The claim outlives a failed insert: whatever the outcome of the first attempt, its retry is a duplicate,
      and the row is there exactly when it was before or the insert took effect. */
  lemma RetryAfterFailureIsLost(s: State, c: nat, req: Request, v: Visit, o: Outcome, c': nat, v': Visit, o': Outcome)
    requires s.capacity == 0 && c !in s.calls && c' !in s.calls && c != c'
    requires Timely(s.now, v) && Timely(v.claimAt, v') && v.redis != ErrorLost && v'.redis == Healthy
    requires Rivals(s.ledger, req, v, req, v') && PointOf(req, v) == PointOf(req, v')
    ensures Submit(s, c, req, v, o).now == v.claimAt
    ensures var s' := Submit(Submit(s, c, req, v, o), c', req, v', o');
      && c' in s'.calls && s'.calls[c'].pc.Replied? && s'.calls[c'].pc.reply.DuplicateIgnored?
      && (KeyOf(PointOf(req, v)) in s'.table <==> KeyOf(PointOf(req, v)) in s.table || o != FailsClean)
  {
    DuplicateStoredIff(s, c, req, v, o, c', req, v', o');
  }

  /** The metric name is not part of the claim: a second metric of the same device and second is dropped. */
  lemma SecondMetricIsLost(s: State, c: nat, req: Request, v: Visit, o: Outcome, c': nat, metric: string, v': Visit, o': Outcome)
    requires s.capacity == 0 && c !in s.calls && c' !in s.calls && c != c' && metric != req.metric
    requires Timely(s.now, v) && Timely(v.claimAt, v') && v.redis != ErrorLost && v'.redis == Healthy
    requires Rivals(s.ledger, req, v, req.(metric := metric), v')
    ensures Submit(s, c, req, v, o).now == v.claimAt
    ensures var s' := Submit(Submit(s, c, req, v, o), c', req.(metric := metric), v', o');
      var k' := KeyOf(PointOf(req.(metric := metric), v'));
      && c' in s'.calls && s'.calls[c'].pc.Replied? && s'.calls[c'].pc.reply.DuplicateIgnored?
      && (k' in s'.table <==> k' in s.table)
  {
    DuplicateStoredIff(s, c, req, v, o, c', req.(metric := metric), v', o');
  }

  /** "Stored successfully" does not mean that the submitted value is the stored one: once the claim has
      run out, the insert meets the old row, keeps it, and still succeeds. The submitted point is in the
      table after a working insert exactly when its key was not there before. */
  lemma StoredMeansNewRowIffKeyWasAbsent(s: State, c: nat, req: Request, v: Visit)
    requires s.capacity == 0 && c !in s.calls && Timely(s.now, v) && Resolve(req, v.resolveAt).At?
    requires forall k :: k in s.table ==> s.table[k].adm < |s.ledger.admissions|
    requires Admits(s.ledger.claims, SlotOf(PointOf(req, v)), v.claimAt, v.redis)
    ensures var a := Admitted(PointOf(req, v), |s.ledger.admissions|);
      var s', k := Submit(s, c, req, v, Works), KeyOf(a.point);
      && c in s'.calls && s'.calls[c].pc == Replied(StoredReply([a])) && k in s'.table
      && (s'.table[k] == a <==> k !in s.table)
      && (k in s.table ==> s'.table == s.table)
  {
    SubmitIs(s, c, req, v, Works);
  }
}
