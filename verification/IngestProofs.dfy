/** What holds in every reachable state of the ingest pipeline. */
module IngestProofs {
  import opened Common
  import opened Telemetry
  import opened Dedup
  import opened Ingest

  // ---------- deduplication ----------

  lemma StepKeepsLedger(s: State, a: Action)
    requires Consistent(s.ledger, s.now)
    ensures Consistent(Step(s, a).ledger, Step(s, a).now)
  {
    match a
    case Tick(elapsed) => WaitConsistent(s.ledger, s.now, s.now + elapsed);
    case Expire(slot) => ForgetConsistent(s.ledger, slot, s.now);
    case DoClaim(c, redis) =>
      if c in s.calls && s.calls[c].pc.Claiming? && s.calls[c].pc.todo != [] {
        TryConsistent(s.ledger, SlotOf(MakePoint(s.calls[c].pc.todo[0], s.calls[c].pc.time)), s.now, redis);
      }
    case _ =>
  }

  // ---------- where points are ----------

  /** The points a call still carries. Once sent, they travel with the job. */
  function Kept(pc: Pc): seq<Admitted> {
    if pc.Waiting? || pc.Replied? then [] else pc.kept
  }

  /** The places an admitted point can be: with its call, in the channel, in the worker's hand,
      or in a statement that has been executed. */
  datatype Place = InCall(call: nat, i: nat) | InQueue(j: nat, i: nat) | InHand(i: nat) | InLog(j: nat, i: nat)

  predicate Carries(s: State, pl: Place, a: Admitted) {
    match pl
    case InCall(c, i) => c in s.calls && i < |Kept(s.calls[c].pc)| && Kept(s.calls[c].pc)[i] == a
    case InQueue(j, i) => j < |s.queue| && i < |s.queue[j].points| && s.queue[j].points[i] == a
    case InHand(i) => s.worker.Holding? && i < |s.worker.job.points| && s.worker.job.points[i] == a
    case InLog(j, i) => j < |s.log| && i < |s.log[j].job.points| && s.log[j].job.points[i] == a
  }

  /** Where a point that is at `pl` after the step was before it. */
  function Origin(s: State, a: Action, pl: Place): Place {
    match (a, pl)
    case (Send(c, _), InQueue(j, i)) => if j == |s.queue| then InCall(c, i) else pl
    case (WriteNow(c, _), InLog(j, i)) => if j == |s.log| then InCall(c, i) else pl
    case (Take, InQueue(j, i)) => if s.worker.Idle? && s.queue != [] then InQueue(j + 1, i) else pl
    case (Take, InHand(i)) => if s.worker.Idle? && s.queue != [] then InQueue(0, i) else pl
    case (DoInsert(_), InLog(j, i)) => if j == |s.log| then InHand(i) else pl
    case _ => pl
  }

  /** A carried point was admitted for its own slot, and is valid. */
  ghost predicate Provenance(s: State) {
    forall pl, a :: Carries(s, pl, a) ==>
      && a.adm < |s.ledger.admissions|
      && s.ledger.admissions[a.adm].slot == SlotOf(a.point)
      && ValidPoint(a.point, s.now)
  }

  ghost predicate Unique(s: State) {
    forall p, q, a, b :: Carries(s, p, a) && Carries(s, q, b) && a.adm == b.adm ==> p == q
  }

  /** The claim step of a call admits the point it was resolving, under the next number. */
  predicate Admitting(s: State, act: Action, pl: Place, a: Admitted) {
    && act.DoClaim? && act.call in s.calls && s.calls[act.call].pc.Claiming? && s.calls[act.call].pc.todo != []
    && pl == InCall(act.call, |s.calls[act.call].pc.kept|)
    && a == Admitted(MakePoint(s.calls[act.call].pc.todo[0], s.calls[act.call].pc.time), |s.ledger.admissions|)
    && Step(s, act).ledger.admissions == s.ledger.admissions + [Admission(SlotOf(a.point), s.now, act.redis, act.redis != ErrorLost && !Live(s.ledger.claims, SlotOf(a.point), s.now))]
  }

  lemma ResolveOrigin(s: State, c: nat, pl: Place, a: Admitted)
    requires c in s.calls && s.calls[c].pc.Resolving? && Carries(ResolveStep(s, c), pl, a)
    ensures Carries(s, pl, a)
  {
  }

  lemma ClaimOrigin(s: State, c: nat, redis: Redis, pl: Place, a: Admitted)
    requires c in s.calls && s.calls[c].pc.Claiming? && Carries(ClaimStep(s, c, redis), pl, a)
    ensures Carries(s, pl, a) || Admitting(s, DoClaim(c, redis), pl, a)
  {
  }

  lemma SendOrigin(s: State, c: nat, giveUp: bool, pl: Place, a: Admitted)
    requires c in s.calls && s.calls[c].pc.Sending? && Carries(SendStep(s, c, giveUp), pl, a)
    ensures Carries(s, if pl.InQueue? && pl.j == |s.queue| then InCall(c, pl.i) else pl, a)
  {
  }

  lemma WriteNowOrigin(s: State, c: nat, o: Outcome, pl: Place, a: Admitted)
    requires c in s.calls && s.calls[c].pc.Sending? && Carries(WriteNowStep(s, c, o), pl, a)
    ensures Carries(s, if pl.InLog? && pl.j == |s.log| then InCall(c, pl.i) else pl, a)
  {
  }

  lemma AwaitOrigin(s: State, c: nat, giveUp: bool, pl: Place, a: Admitted)
    requires c in s.calls && s.calls[c].pc.Waiting? && Carries(AwaitStep(s, c, giveUp), pl, a)
    ensures Carries(s, pl, a)
  {
  }

  lemma InsertOrigin(s: State, o: Outcome, pl: Place, a: Admitted)
    requires s.worker.Holding? && Carries(InsertStep(s, o), pl, a)
    ensures Carries(s, if pl.InLog? && pl.j == |s.log| then InHand(pl.i) else pl, a)
  {
  }

  lemma TakeOrigin(s: State, pl: Place, a: Admitted)
    requires Carries(Step(s, Take), pl, a)
    ensures Carries(s, Origin(s, Take, pl), a)
  {
  }

  lemma OtherOrigin(s: State, act: Action, pl: Place, a: Admitted)
    requires act.Tick? || act.Expire? || act.Start? || act.Cancel? || act.Report? || act.Halt?
    requires Carries(Step(s, act), pl, a)
    ensures Carries(s, pl, a)
  {
  }

  /** Every point after a step was somewhere before it, or was admitted by it. */
  lemma PointsComeFrom(s: State, act: Action, pl: Place, a: Admitted)
    requires Carries(Step(s, act), pl, a)
    ensures Carries(s, Origin(s, act, pl), a) || Admitting(s, act, pl, a)
  {
    match act
    case DoResolve(c) => if c in s.calls && s.calls[c].pc.Resolving? { ResolveOrigin(s, c, pl, a); }
    case DoClaim(c, redis) => if c in s.calls && s.calls[c].pc.Claiming? { ClaimOrigin(s, c, redis, pl, a); }
    case Send(c, giveUp) => if c in s.calls && s.calls[c].pc.Sending? && s.capacity > 0 { SendOrigin(s, c, giveUp, pl, a); }
    case WriteNow(c, o) => if c in s.calls && s.calls[c].pc.Sending? && s.capacity == 0 { WriteNowOrigin(s, c, o, pl, a); }
    case Await(c, giveUp) => if c in s.calls && s.calls[c].pc.Waiting? { AwaitOrigin(s, c, giveUp, pl, a); }
    case DoInsert(o) => if s.worker.Holding? { InsertOrigin(s, o, pl, a); }
    case Take => TakeOrigin(s, pl, a);
    case _ => OtherOrigin(s, act, pl, a);
  }

  lemma TimeAndAdmissionsGrow(s: State, act: Action)
    ensures s.now <= Step(s, act).now
    ensures s.ledger.admissions <= Step(s, act).ledger.admissions
  {
  }

  /** A resolved request is valid by the time it is claimed. */
  predicate Pending(pc: Pc, now: Micros) {
    pc.Claiming? && pc.todo != [] ==> ValidPoint(MakePoint(pc.todo[0], pc.time), now)
  }

  ghost predicate PendingValid(s: State) {
    forall c :: c in s.calls ==> Pending(s.calls[c].pc, s.now)
  }

  predicate Moves(act: Action, c: nat) {
    (act.Start? || act.DoResolve? || act.DoClaim? || act.Send? || act.WriteNow? || act.Await?) && act.call == c
  }

  /** Only its own steps move a call. */
  lemma OthersLeaveCall(s: State, act: Action, c: nat)
    requires c in Step(s, act).calls && !Moves(act, c)
    ensures c in s.calls && Step(s, act).calls[c] == s.calls[c]
  {
  }

  /** Where a call about to claim comes from. */
  lemma ClaimingComesFrom(s: State, act: Action, c: nat)
    requires c in Step(s, act).calls && Step(s, act).calls[c].pc.Claiming?
    ensures var pc := Step(s, act).calls[c].pc;
      && c in s.calls
      && (s.calls[c].pc == pc || (pc.todo != [] && Resolve(pc.todo[0], s.now) == At(pc.time)))
  {
    if Moves(act, c) {
      match act
      case Start(_, _, _) =>
      case DoResolve(_) =>
      case DoClaim(_, _) =>
      case _ =>
    } else {
      OthersLeaveCall(s, act, c);
    }
  }

  lemma StepKeepsPending(s: State, act: Action)
    requires PendingValid(s)
    ensures PendingValid(Step(s, act))
  {
    var s' := Step(s, act);
    TimeAndAdmissionsGrow(s, act);
    forall c | c in s'.calls ensures Pending(s'.calls[c].pc, s'.now) {
      if s'.calls[c].pc.Claiming? {
        ClaimingComesFrom(s, act, c);
        assert Pending(s.calls[c].pc, s.now);
      }
    }
  }

  lemma StepKeepsProvenance(s: State, act: Action)
    requires Provenance(s) && PendingValid(s)
    ensures Provenance(Step(s, act))
  {
    TimeAndAdmissionsGrow(s, act);
    forall pl, a | Carries(Step(s, act), pl, a)
      ensures a.adm < |Step(s, act).ledger.admissions|
        && Step(s, act).ledger.admissions[a.adm].slot == SlotOf(a.point)
        && ValidPoint(a.point, Step(s, act).now)
    {
      PointsComeFrom(s, act, pl, a);
    }
  }

  /** Two places of the new state never share an origin. */
  lemma OriginInjective(s: State, act: Action, p: Place, q: Place, a: Admitted, b: Admitted)
    requires Carries(Step(s, act), p, a) && Carries(Step(s, act), q, b)
    requires Origin(s, act, p) == Origin(s, act, q)
    ensures p == q
  {
    match act
    case Send(_, _) =>
    case WriteNow(_, _) =>
    case Take =>
    case DoInsert(_) =>
    case _ =>
  }

  lemma StepKeepsUnique(s: State, act: Action)
    requires Provenance(s) && Unique(s)
    ensures Unique(Step(s, act))
  {
    forall p, q, a, b | Carries(Step(s, act), p, a) && Carries(Step(s, act), q, b) && a.adm == b.adm
      ensures p == q
    {
      PointsComeFrom(s, act, p, a);
      PointsComeFrom(s, act, q, b);
      if Carries(s, Origin(s, act, p), a) && Carries(s, Origin(s, act, q), b) {
        OriginInjective(s, act, p, q, a, b);
      }
    }
  }

  // ---------- calls ----------

  /** Every request of a call is still to do, kept, or rejected. */
  predicate Accounted(call: Call) {
    && (!call.batch ==> |call.reqs| == 1)
    && match call.pc
       case Resolving(todo, kept, rejected) => todo != [] && |todo| + |kept| + rejected == |call.reqs| && (!call.batch ==> rejected == 0)
       case Claiming(_, todo, kept, rejected) => todo != [] && |todo| + |kept| + rejected == |call.reqs| && (!call.batch ==> rejected == 0)
       case Sending(kept, rejected) => kept != [] && |kept| + rejected == |call.reqs|
       case Waiting(kept, rejected) => kept != [] && |kept| + rejected == |call.reqs|
       case Replied(AcceptedReply(points, accepted, rejected)) => call.batch && points != [] && accepted == |points| && accepted + rejected == |call.reqs|
       case Replied(StoredReply(points)) => !call.batch && |points| == 1
       case Replied(_) => true
  }

  ghost predicate AllAccounted(s: State) {
    forall c :: c in s.calls ==> Accounted(s.calls[c])
  }

  lemma ResolveAccounts(s: State, c: nat)
    requires c in s.calls && s.calls[c].pc.Resolving? && Accounted(s.calls[c])
    ensures Accounted(ResolveStep(s, c).calls[c])
  {
  }

  lemma ClaimAccounts(s: State, c: nat, redis: Redis)
    requires c in s.calls && s.calls[c].pc.Claiming? && Accounted(s.calls[c])
    ensures Accounted(ClaimStep(s, c, redis).calls[c])
  {
  }

  lemma HandOverAccounts(s: State, act: Action)
    requires (act.Send? || act.WriteNow? || act.Await?) && act.call in s.calls && Accounted(s.calls[act.call])
    ensures act.call in Step(s, act).calls && Accounted(Step(s, act).calls[act.call])
  {
    match act
    case Send(_, _) =>
    case WriteNow(_, _) =>
    case Await(_, _) =>
  }

  lemma StepAccounts(s: State, act: Action, c: nat)
    requires c in Step(s, act).calls && (c in s.calls ==> Accounted(s.calls[c]))
    ensures Accounted(Step(s, act).calls[c])
  {
    if !Moves(act, c) {
      OthersLeaveCall(s, act, c);
    } else if act.DoResolve? {
      if c in s.calls && s.calls[c].pc.Resolving? { ResolveAccounts(s, c); }
    } else if act.DoClaim? {
      if c in s.calls && s.calls[c].pc.Claiming? { ClaimAccounts(s, c, act.redis); }
    } else if !act.Start? && c in s.calls {
      HandOverAccounts(s, act);
    }
  }

  lemma StepKeepsAccounted(s: State, act: Action)
    requires AllAccounted(s)
    ensures AllAccounted(Step(s, act))
  {
    forall c | c in Step(s, act).calls ensures Accounted(Step(s, act).calls[c]) { StepAccounts(s, act, c); }
  }

  // ---------- requests ----------

  /** Point `a` is what request `req` asks to store. Without a timestamp the time is the clock's. */
  predicate Matches(a: Admitted, req: Request) {
    && a.point.device == req.device && a.point.metric == req.metric
    && a.point.value == req.value && a.point.status == req.status
    && (req.unixSeconds > 0 ==> a.point.time == req.unixSeconds * 1_000_000)
  }

  /** `ps` are points of the requests at positions `idx`, increasing and below `n`. */
  ghost predicate Selects(idx: seq<nat>, ps: seq<Admitted>, reqs: seq<Request>, n: nat) {
    && |idx| == |ps| && n <= |reqs|
    && (forall k :: 0 <= k < |ps| ==> idx[k] < n && Matches(ps[k], reqs[idx[k]]))
    && (forall j, k :: 0 <= j < k < |idx| ==> idx[j] < idx[k])
  }

  /** The points of a subsequence of the first `n` requests, in order. */
  ghost predicate Selected(ps: seq<Admitted>, reqs: seq<Request>, n: nat) {
    exists idx: seq<nat> :: Selects(idx, ps, reqs, n)
  }

  function Todo(pc: Pc): seq<Request> {
    if pc.Resolving? || pc.Claiming? then pc.todo else []
  }

  /** The points a call holds, waits for, or reports. */
  function PointsOf(pc: Pc): seq<Admitted> {
    match pc
    case Replied(StoredReply(points)) => points
    case Replied(AcceptedReply(points, _, _)) => points
    case Replied(_) => []
    case _ => pc.kept
  }

  /** A call's points are those of a subsequence of the requests it has dealt with. */
  ghost predicate Traced(call: Call) {
    && |Todo(call.pc)| <= |call.reqs|
    && call.reqs[|call.reqs| - |Todo(call.pc)|..] == Todo(call.pc)
    && Selected(PointsOf(call.pc), call.reqs, |call.reqs| - |Todo(call.pc)|)
    && (call.pc.Claiming? && call.pc.todo != [] && call.pc.todo[0].unixSeconds > 0 ==> call.pc.time == call.pc.todo[0].unixSeconds * SECOND)
  }

  ghost predicate AllTraced(s: State) {
    forall c :: c in s.calls ==> Traced(s.calls[c])
  }

  lemma SelectsNone(reqs: seq<Request>, n: nat)
    requires n <= |reqs|
    ensures Selected([], reqs, n)
  {
    assert Selects([], [], reqs, n);
  }

  lemma Passes(ps: seq<Admitted>, reqs: seq<Request>, n: nat)
    requires Selected(ps, reqs, n) && n < |reqs|
    ensures Selected(ps, reqs, n + 1)
  {
    var idx :| Selects(idx, ps, reqs, n);
    assert Selects(idx, ps, reqs, n + 1);
  }

  lemma Picks(ps: seq<Admitted>, a: Admitted, reqs: seq<Request>, n: nat)
    requires Selected(ps, reqs, n) && n < |reqs| && Matches(a, reqs[n])
    ensures Selected(ps + [a], reqs, n + 1)
  {
    var idx :| Selects(idx, ps, reqs, n);
    assert Selects(idx + [n], ps + [a], reqs, n + 1);
  }

  /** One request dealt with, its point picked or not. */
  lemma NextTraced(call: Call, kept: seq<Admitted>, rejected: nat)
    requires (call.pc.Resolving? || call.pc.Claiming?) && call.pc.todo != [] && |call.pc.todo| <= |call.reqs|
    requires call.reqs[|call.reqs| - |call.pc.todo|..] == call.pc.todo
    requires Selected(kept, call.reqs, |call.reqs| - |call.pc.todo| + 1)
    ensures Traced(call.(pc := Next(call.pc.todo[1..], kept, rejected)))
  {
    assert call.reqs[|call.reqs| - |call.pc.todo| + 1..] == call.pc.todo[1..];
    SelectsNone(call.reqs, |call.reqs|);
  }

  /** A resolved request waits for its claim under its own time. */
  lemma ClaimingTraced(call: Call, time: Micros)
    requires call.pc.Resolving? && call.pc.todo != [] && Traced(call)
    requires call.pc.todo[0].unixSeconds > 0 ==> time == call.pc.todo[0].unixSeconds * SECOND
    ensures Traced(call.(pc := Claiming(time, call.pc.todo, call.pc.kept, call.pc.rejected)))
  {
  }

  lemma RejectedTraced(call: Call)
    requires call.pc.Resolving? && call.pc.todo != [] && Traced(call)
    ensures Traced(call.(pc := Next(call.pc.todo[1..], call.pc.kept, call.pc.rejected + 1)))
  {
    Passes(call.pc.kept, call.reqs, |call.reqs| - |call.pc.todo|);
    NextTraced(call, call.pc.kept, call.pc.rejected + 1);
  }

  /** Where resolving a request leads its call. */
  predicate ResolvesTo(call: Call, call': Call)
    requires call.pc.Resolving?
  {
    var pc := call.pc;
    || call' == call
    || (pc.todo != [] && call' == call.(pc := Next(pc.todo[1..], pc.kept, pc.rejected + 1)))
    || (pc.todo != [] && call'.pc.Claiming? && call' == call.(pc := Claiming(call'.pc.time, pc.todo, pc.kept, pc.rejected))
        && (pc.todo[0].unixSeconds > 0 ==> call'.pc.time == pc.todo[0].unixSeconds * SECOND))
  }

  lemma ResolveStepResolves(s: State, c: nat)
    requires c in s.calls && s.calls[c].pc.Resolving?
    ensures ResolvesTo(s.calls[c], ResolveStep(s, c).calls[c])
  {
  }

  lemma ResolvesTraced(call: Call, call': Call)
    requires call.pc.Resolving? && Traced(call) && ResolvesTo(call, call')
    ensures Traced(call')
  {
    if call' != call {
      if call'.pc.Claiming? { ClaimingTraced(call, call'.pc.time); } else { RejectedTraced(call); }
    }
  }

  lemma ResolveTraced(s: State, c: nat)
    requires c in s.calls && s.calls[c].pc.Resolving? && Traced(s.calls[c])
    ensures Traced(ResolveStep(s, c).calls[c])
  {
    ResolveStepResolves(s, c);
    ResolvesTraced(s.calls[c], ResolveStep(s, c).calls[c]);
  }

  /** Where the claim of a request leads its call, when the next admission has number `adm`. */
  predicate ClaimsTo(call: Call, call': Call, adm: nat)
    requires call.pc.Claiming?
  {
    var pc := call.pc;
    || call' == call
    || (pc.todo != [] && call' == call.(pc := Next(pc.todo[1..], pc.kept + [Admitted(MakePoint(pc.todo[0], pc.time), adm)], pc.rejected)))
    || (pc.todo != [] && call' == call.(pc := Next(pc.todo[1..], pc.kept, pc.rejected + 1)))
    || (call'.pc.Replied? && call'.pc.reply.DuplicateIgnored? && call' == call.(pc := call'.pc))
  }

  lemma ClaimStepClaims(s: State, c: nat, redis: Redis)
    requires c in s.calls && s.calls[c].pc.Claiming?
    ensures ClaimsTo(s.calls[c], ClaimStep(s, c, redis).calls[c], |s.ledger.admissions|)
  {
  }

  lemma PickedTraced(call: Call, adm: nat)
    requires call.pc.Claiming? && call.pc.todo != [] && Traced(call)
    ensures Traced(call.(pc := Next(call.pc.todo[1..], call.pc.kept + [Admitted(MakePoint(call.pc.todo[0], call.pc.time), adm)], call.pc.rejected)))
  {
    var pc := call.pc;
    var a := Admitted(MakePoint(pc.todo[0], pc.time), adm);
    assert call.reqs[|call.reqs| - |pc.todo|] == pc.todo[0];
    Picks(pc.kept, a, call.reqs, |call.reqs| - |pc.todo|);
    NextTraced(call, pc.kept + [a], pc.rejected);
  }

  lemma PassedTraced(call: Call)
    requires call.pc.Claiming? && call.pc.todo != [] && Traced(call)
    ensures Traced(call.(pc := Next(call.pc.todo[1..], call.pc.kept, call.pc.rejected + 1)))
  {
    Passes(call.pc.kept, call.reqs, |call.reqs| - |call.pc.todo|);
    NextTraced(call, call.pc.kept, call.pc.rejected + 1);
  }

  lemma DuplicateTraced(call: Call, slot: Slot)
    ensures Traced(call.(pc := Replied(DuplicateIgnored(slot))))
  {
    SelectsNone(call.reqs, |call.reqs|);
    assert call.reqs[|call.reqs|..] == [];
  }

  lemma ClaimsTraced(call: Call, call': Call, adm: nat)
    requires call.pc.Claiming? && Traced(call) && ClaimsTo(call, call', adm)
    ensures Traced(call')
  {
    if call.pc.todo != [] {
      PickedTraced(call, adm);
      PassedTraced(call);
    }
    if call'.pc.Replied? && call'.pc.reply.DuplicateIgnored? {
      DuplicateTraced(call, call'.pc.reply.slot);
    }
  }

  lemma ClaimTraced(s: State, c: nat, redis: Redis)
    requires c in s.calls && s.calls[c].pc.Claiming? && Traced(s.calls[c])
    ensures Traced(ClaimStep(s, c, redis).calls[c])
  {
    ClaimStepClaims(s, c, redis);
    ClaimsTraced(s.calls[c], ClaimStep(s, c, redis).calls[c], |s.ledger.admissions|);
  }

  /** A call past the screening keeps its points or gives them up. */
  lemma HandOverKeeps(s: State, act: Action)
    requires (act.Send? || act.WriteNow? || act.Await?) && act.call in s.calls
    ensures act.call in Step(s, act).calls
    ensures var call, call' := s.calls[act.call], Step(s, act).calls[act.call];
      || call' == call
      || (call'.reqs == call.reqs && Todo(call.pc) == Todo(call'.pc) == [] && !call'.pc.Claiming?
          && (PointsOf(call'.pc) == PointsOf(call.pc) || PointsOf(call'.pc) == []))
  {
    match act
    case Send(_, _) =>
    case WriteNow(_, _) =>
    case Await(_, _) =>
  }

  lemma GivesUp(call: Call, call': Call)
    requires Traced(call) && call'.reqs == call.reqs && Todo(call.pc) == Todo(call'.pc) == [] && !call'.pc.Claiming?
    requires PointsOf(call'.pc) == PointsOf(call.pc) || PointsOf(call'.pc) == []
    ensures Traced(call')
  {
    SelectsNone(call.reqs, |call.reqs|);
  }

  lemma OpeningTraced(batch: bool, reqs: seq<Request>)
    ensures Traced(Call(batch, reqs, Opening(batch, reqs)))
  {
    SelectsNone(reqs, 0);
    SelectsNone(reqs, |reqs|);
  }

  lemma StepTraces(s: State, act: Action, c: nat)
    requires c in Step(s, act).calls && (c in s.calls ==> Traced(s.calls[c]))
    ensures Traced(Step(s, act).calls[c])
  {
    if !Moves(act, c) {
      OthersLeaveCall(s, act, c);
    } else if act.Start? {
      OpeningTraced(act.batch, act.reqs);
    } else if act.DoResolve? {
      if c in s.calls && s.calls[c].pc.Resolving? { ResolveTraced(s, c); }
    } else if act.DoClaim? {
      if c in s.calls && s.calls[c].pc.Claiming? { ClaimTraced(s, c, act.redis); }
    } else if c in s.calls {
      HandOverKeeps(s, act);
      if Step(s, act).calls[c] != s.calls[c] { GivesUp(s.calls[c], Step(s, act).calls[c]); }
    }
  }

  lemma StepKeepsTraced(s: State, act: Action)
    requires AllTraced(s)
    ensures AllTraced(Step(s, act))
  {
    forall c | c in Step(s, act).calls ensures Traced(Step(s, act).calls[c]) { StepTraces(s, act, c); }
  }

  // ---------- jobs ----------

  /** Jobs whose result has not been posted yet, oldest first. */
  function Active(s: State): seq<Job> {
    (if s.worker.Holding? || s.worker.Reporting? then [s.worker.job] else []) + s.queue
  }

  /** A job's own call waits for exactly its points, or has given up; nothing was posted for it yet. */
  predicate Awaited(s: State, job: Job) {
    && job.points != []
    && job.call in s.calls && job.call in s.done && s.done[job.call] == []
    && (s.calls[job.call].pc.Replied? || (s.calls[job.call].pc.Waiting? && s.calls[job.call].pc.kept == job.points))
  }

  ghost predicate JobsInv(s: State) {
    && (forall i :: 0 <= i < |Active(s)| ==> Awaited(s, Active(s)[i]))
    && (forall i, j :: 0 <= i < j < |Active(s)| ==> Active(s)[i].call != Active(s)[j].call)
    && (forall c :: c in s.done ==> c in s.calls && |s.done[c]| <= 1 && (s.calls[c].pc.Waiting? || s.calls[c].pc.Replied?))
  }

  lemma SendKeepsJobs(s: State, c: nat, giveUp: bool)
    requires JobsInv(s) && c in s.calls && Accounted(s.calls[c]) && s.calls[c].pc.Sending?
    ensures JobsInv(SendStep(s, c, giveUp))
  {
    var s' := SendStep(s, c, giveUp);
    var active := Active(s);
    assert Active(s') == active || Active(s') == active + [Job(c, s.calls[c].pc.kept)];
    forall i | 0 <= i < |active| ensures Awaited(s', active[i]) && active[i].call != c {
      assert Awaited(s, active[i]);
    }
    forall i | 0 <= i < |Active(s')| ensures Awaited(s', Active(s')[i]) {
      if i < |active| { assert Active(s')[i] == active[i]; }
    }
  }

  lemma ReportKeepsJobs(s: State)
    requires JobsInv(s) && s.worker.Reporting?
    ensures JobsInv(ReportStep(s))
  {
    var s' := ReportStep(s);
    assert Active(s)[0] == s.worker.job;
    assert Awaited(s, Active(s)[0]);
    assert Active(s') == Active(s)[1..];
    forall i | 0 <= i < |Active(s')| ensures Awaited(s', Active(s')[i]) {
      assert Awaited(s, Active(s)[i + 1]);
    }
  }

  lemma AwaitKeepsJobs(s: State, c: nat, giveUp: bool)
    requires JobsInv(s) && c in s.calls && s.calls[c].pc.Waiting?
    ensures JobsInv(AwaitStep(s, c, giveUp))
  {
    var s' := AwaitStep(s, c, giveUp);
    assert Active(s') == Active(s);
    forall i | 0 <= i < |Active(s')| ensures Awaited(s', Active(s')[i]) {
      assert Awaited(s, Active(s)[i]);
    }
  }

  /** The `done` channel of a job whose result is about to be posted is empty. */
  lemma RoomForResult(s: State)
    requires JobsInv(s) && s.worker.Reporting?
    ensures s.worker.job.call in s.done && s.done[s.worker.job.call] == []
  {
    assert Active(s)[0] == s.worker.job && Awaited(s, Active(s)[0]);
  }

  /** What the steps of callers, clock and Redis leave alone. */
  lemma CallerFrame(s: State, act: Action)
    requires act.Tick? || act.Expire? || act.Start? || act.Cancel? || act.DoResolve? || act.DoClaim? || act.Await?
    ensures var s' := Step(s, act); s' == s.(now := s'.now, ledger := s'.ledger, calls := s'.calls, canceled := s'.canceled, done := s'.done)
    ensures !act.Await? ==> Step(s, act).done == s.done
  {
  }

  /** Steps other than Send, Await and Report leave alone what waits for a result. */
  lemma OtherFrame(s: State, act: Action)
    requires !act.Send? && !act.Await? && !act.Report?
    ensures Active(Step(s, act)) == Active(s) && Step(s, act).done == s.done
    ensures forall c :: c in s.calls && (s.calls[c].pc.Waiting? || s.calls[c].pc.Replied?) ==>
      c in Step(s, act).calls && Step(s, act).calls[c] == s.calls[c]
  {
  }

  /** A step that touches neither the jobs nor the calls they belong to. */
  lemma OtherStepsKeepJobs(s: State, s': State)
    requires JobsInv(s) && Active(s') == Active(s) && s'.done == s.done
    requires forall c :: c in s.done ==> c in s.calls && c in s'.calls && s'.calls[c] == s.calls[c]
    ensures JobsInv(s')
  {
    forall i | 0 <= i < |Active(s')| ensures Awaited(s', Active(s')[i]) {
      assert Awaited(s, Active(s)[i]);
    }
  }

  lemma StepKeepsJobs(s: State, act: Action)
    requires JobsInv(s) && AllAccounted(s)
    ensures JobsInv(Step(s, act))
  {
    match act
    case Send(c, giveUp) => if Step(s, act) != s { SendKeepsJobs(s, c, giveUp); }
    case Await(c, giveUp) => if Step(s, act) != s { AwaitKeepsJobs(s, c, giveUp); }
    case Report => if Step(s, act) != s { ReportKeepsJobs(s); }
    case _ =>
      OtherFrame(s, act);
      OtherStepsKeepJobs(s, Step(s, act));
  }

  // ---------- the log ----------

  /** The jobs not yet written, oldest first. */
  function Unwritten(s: State): seq<Job> {
    (if s.worker.Holding? then [s.worker.job] else []) + s.queue
  }

  /** The table is the replay of the log; with a queue, the log and the unwritten jobs
      are the jobs in the order they entered the channel. */
  ghost predicate LogInv(s: State) {
    && WellFormed(s.log) && s.table == Replay(map[], s.log)
    && (s.capacity > 0 ==> s.enqueued == Jobs(s.log) + Unwritten(s))
    && (s.capacity == 0 ==> s.queue == [] && (s.worker.Idle? || s.worker.Stopped?))
    && |s.queue| <= s.capacity
  }

  lemma AppendKeepsReplay(t: Table, log: seq<Entry>, e: Entry)
    requires WellFormed(log) && (!e.bulk ==> |e.job.points| == 1)
    ensures WellFormed(log + [e])
    ensures Replay(t, log + [e]) == Write(Replay(t, log), e.job.points, e.bulk, e.outcome).table
    ensures Jobs(log + [e]) == Jobs(log) + [e.job]
  {
    assert (log + [e])[..|log|] == log;
  }

  lemma WriteNowKeepsLog(s: State, c: nat, o: Outcome)
    requires LogInv(s) && c in s.calls && s.calls[c].pc.Sending? && s.capacity == 0
    ensures LogInv(WriteNowStep(s, c, o))
  {
    if s.calls[c].batch || |s.calls[c].pc.kept| == 1 {
      AppendKeepsReplay(map[], s.log, Entry(Job(c, s.calls[c].pc.kept), s.calls[c].batch, o));
    }
  }

  lemma Regroup(done: seq<Job>, job: Job, rest: seq<Job>)
    ensures done + ([job] + rest) == done + [job] + rest
  {
  }

  lemma InsertKeepsLog(s: State, o: Outcome)
    requires LogInv(s) && s.worker.Holding?
    ensures LogInv(InsertStep(s, o))
  {
    var s', job := InsertStep(s, o), s.worker.job;
    AppendKeepsReplay(map[], s.log, Entry(job, |job.points| != 1, o));
    assert Unwritten(s') == s.queue && Jobs(s'.log) == Jobs(s.log) + [job];
    Regroup(Jobs(s.log), job, s.queue);
  }

  lemma SendKeepsLog(s: State, c: nat, giveUp: bool)
    requires LogInv(s) && c in s.calls && s.calls[c].pc.Sending? && s.capacity > 0
    ensures LogInv(SendStep(s, c, giveUp))
  {
    var job := Job(c, s.calls[c].pc.kept);
    assert Jobs(s.log) + Unwritten(s) + [job] == Jobs(s.log) + (Unwritten(s) + [job]);
  }

  lemma StepKeepsLog(s: State, act: Action)
    requires LogInv(s)
    ensures LogInv(Step(s, act))
  {
    match act
    case WriteNow(c, o) => if Step(s, act) != s { WriteNowKeepsLog(s, c, o); }
    case DoInsert(o) => if Step(s, act) != s { InsertKeepsLog(s, o); }
    case Send(c, giveUp) => if Step(s, act) != s { SendKeepsLog(s, c, giveUp); }
    case Take => assert Unwritten(Step(s, act)) == Unwritten(s);
    case Report =>
    case Halt =>
    case _ => CallerFrame(s, act);
  }

  // ---------- jobs and requests ----------

  /** A job's points are those of requests of its call. */
  ghost predicate JobTraced(calls: map<nat, Call>, job: Job) {
    job.call in calls && Selected(job.points, calls[job.call].reqs, |calls[job.call].reqs|)
  }

  ghost predicate JobsTraced(s: State) {
    && (forall i :: 0 <= i < |Active(s)| ==> JobTraced(s.calls, Active(s)[i]))
    && (forall j :: 0 <= j < |s.log| ==> JobTraced(s.calls, s.log[j].job))
  }

  /** A call never changes its requests. */
  lemma RequestsStay(s: State, act: Action, c: nat)
    requires c in s.calls
    ensures c in Step(s, act).calls && Step(s, act).calls[c].reqs == s.calls[c].reqs
  {
    if Moves(act, c) {
      match act
      case Start(_, _, _) =>
      case DoResolve(_) =>
      case DoClaim(_, _) =>
      case _ => HandOverKeeps(s, act);
    }
  }

  /** The job a call hands over. */
  predicate HandsOver(s: State, act: Action, job: Job) {
    (act.Send? || act.WriteNow?) && act.call in s.calls && s.calls[act.call].pc.Sending? && job == Job(act.call, s.calls[act.call].pc.kept)
  }

  lemma ActiveComesFrom(s: State, act: Action, i: nat)
    requires i < |Active(Step(s, act))|
    ensures var job := Active(Step(s, act))[i];
      HandsOver(s, act, job) || exists j :: 0 <= j < |Active(s)| && Active(s)[j] == job
  {
    var job := Active(Step(s, act))[i];
    match act
    case Send(c, _) =>
      if !HandsOver(s, act, job) { assert Active(s)[i] == job; }
    case Await(_, _) => assert Active(s)[i] == job;
    case Report =>
      if Step(s, act) == s { assert Active(s)[i] == job; } else { assert Active(s)[i + 1] == job; }
    case _ =>
      OtherFrame(s, act);
      assert Active(s)[i] == job;
  }

  lemma LogComesFrom(s: State, act: Action, j: nat)
    requires j < |Step(s, act).log|
    ensures var job := Step(s, act).log[j].job;
      || HandsOver(s, act, job)
      || (j < |s.log| && s.log[j].job == job)
      || (s.worker.Holding? && job == s.worker.job)
  {
  }

  lemma HandedOverTraced(s: State, act: Action, job: Job)
    requires AllTraced(s) && HandsOver(s, act, job)
    ensures JobTraced(s.calls, job)
  {
    assert Traced(s.calls[act.call]);
  }

  lemma JobStaysTraced(s: State, act: Action, job: Job)
    requires JobTraced(s.calls, job)
    ensures JobTraced(Step(s, act).calls, job)
  {
    RequestsStay(s, act, job.call);
  }

  lemma StepKeepsJobsTraced(s: State, act: Action)
    requires AllTraced(s) && JobsTraced(s)
    ensures JobsTraced(Step(s, act))
  {
    var s' := Step(s, act);
    forall i | 0 <= i < |Active(s')| ensures JobTraced(s'.calls, Active(s')[i]) {
      ActiveComesFrom(s, act, i);
      if HandsOver(s, act, Active(s')[i]) { HandedOverTraced(s, act, Active(s')[i]); }
      JobStaysTraced(s, act, Active(s')[i]);
    }
    forall j | 0 <= j < |s'.log| ensures JobTraced(s'.calls, s'.log[j].job) {
      LogComesFrom(s, act, j);
      if HandsOver(s, act, s'.log[j].job) { HandedOverTraced(s, act, s'.log[j].job); }
      else if !(j < |s.log| && s.log[j].job == s'.log[j].job) { assert Active(s)[0] == s'.log[j].job; }
      JobStaysTraced(s, act, s'.log[j].job);
    }
  }

  // ---------- replies ----------

  /** Success, wherever it has got to, means the rows are there. */
  ghost predicate RepliesInv(s: State) {
    && (s.worker.Reporting? && s.worker.ok ==> Stored(s.table, s.worker.job.points))
    && (forall c :: c in s.calls && s.calls[c].pc.Waiting? && c in s.done && s.done[c] != [] && s.done[c][0] ==>
          Stored(s.table, s.calls[c].pc.kept))
    && (forall c :: c in s.calls && s.calls[c].pc.Replied? ==> Honest(s.table, s.calls[c].pc.reply))
  }

  predicate Honest(t: Table, r: Reply) {
    match r
    case StoredReply(points) => Stored(t, points)
    case AcceptedReply(points, _, _) => Stored(t, points)
    case _ => true
  }

  lemma HonestStays(s: State, t': Table)
    requires RepliesInv(s) && Extends(s.table, t')
    ensures RepliesInv(s.(table := t'))
  {
    forall ps | Stored(s.table, ps) ensures Stored(t', ps) { StoredStays(s.table, t', ps); }
  }

  lemma InsertKeepsReplies(s: State, o: Outcome)
    requires RepliesInv(s) && s.worker.Holding?
    ensures RepliesInv(InsertStep(s, o))
  {
    WriteRows(s.table, s.worker.job.points, |s.worker.job.points| != 1, o);
    HonestStays(s, InsertStep(s, o).table);
  }

  lemma WriteNowKeepsReplies(s: State, c: nat, o: Outcome)
    requires RepliesInv(s) && AllAccounted(s) && c in s.calls && s.calls[c].pc.Sending?
    ensures RepliesInv(WriteNowStep(s, c, o))
  {
    if s.calls[c].batch || |s.calls[c].pc.kept| == 1 {
      WriteRows(s.table, s.calls[c].pc.kept, s.calls[c].batch, o);
      HonestStays(s, WriteNowStep(s, c, o).table);
    }
  }

  lemma ReportKeepsReplies(s: State)
    requires RepliesInv(s) && JobsInv(s) && s.worker.Reporting?
    ensures RepliesInv(ReportStep(s))
  {
    assert Active(s)[0] == s.worker.job;
    assert Awaited(s, Active(s)[0]);
  }

  /** A caller's step keeps success honest: the only success it can report is the one on `done`. */
  lemma AwaitKeepsReplies(s: State, c: nat, giveUp: bool)
    requires RepliesInv(s) && AllAccounted(s) && c in s.calls && s.calls[c].pc.Waiting?
    ensures RepliesInv(AwaitStep(s, c, giveUp))
  {
  }

  lemma SendKeepsReplies(s: State, c: nat, giveUp: bool)
    requires RepliesInv(s) && c in s.calls && s.calls[c].pc.Sending?
    ensures RepliesInv(SendStep(s, c, giveUp))
  {
  }

  /** Screening neither waits nor reports success. */
  lemma ScreeningReplies(s: State, act: Action, c: nat)
    requires (act.Start? || act.DoResolve? || act.DoClaim?) && c in Step(s, act).calls
    ensures var pc := Step(s, act).calls[c].pc;
      || (c in s.calls && pc == s.calls[c].pc)
      || (!pc.Waiting? && (pc.Replied? ==> !pc.reply.StoredReply? && !pc.reply.AcceptedReply?))
  {
    if Moves(act, c) {
      match act
      case Start(_, _, _) =>
      case DoResolve(_) =>
      case DoClaim(_, _) =>
    } else {
      OthersLeaveCall(s, act, c);
    }
  }

  lemma ScreeningKeepsReplies(s: State, act: Action)
    requires RepliesInv(s) && (act.Start? || act.DoResolve? || act.DoClaim?)
    ensures RepliesInv(Step(s, act))
  {
    var s' := Step(s, act);
    CallerFrame(s, act);
    forall c | c in s'.calls
      ensures s'.calls[c].pc.Waiting? ==> c in s.calls && s'.calls[c].pc == s.calls[c].pc
      ensures s'.calls[c].pc.Replied? ==> Honest(s'.table, s'.calls[c].pc.reply)
    {
      ScreeningReplies(s, act, c);
    }
  }

  lemma StepKeepsReplies(s: State, act: Action)
    requires RepliesInv(s) && JobsInv(s) && AllAccounted(s)
    ensures RepliesInv(Step(s, act))
  {
    match act
    case WriteNow(c, o) => if Step(s, act) != s { WriteNowKeepsReplies(s, c, o); }
    case DoInsert(o) => if Step(s, act) != s { InsertKeepsReplies(s, o); }
    case Report => if Step(s, act) != s { ReportKeepsReplies(s); }
    case Await(c, giveUp) => if Step(s, act) != s { AwaitKeepsReplies(s, c, giveUp); }
    case Send(c, giveUp) => if Step(s, act) != s { SendKeepsReplies(s, c, giveUp); }
    case Start(_, _, _) => ScreeningKeepsReplies(s, act);
    case DoResolve(_) => ScreeningKeepsReplies(s, act);
    case DoClaim(_, _) => ScreeningKeepsReplies(s, act);
    case _ =>
  }

  // ---------- all reachable states ----------

  ghost predicate Inv(s: State) {
    && Consistent(s.ledger, s.now)
    && Provenance(s) && Unique(s) && PendingValid(s)
    && AllAccounted(s) && AllTraced(s) && JobsTraced(s) && JobsInv(s) && LogInv(s) && RepliesInv(s)
  }

  lemma StepKeepsInv(s: State, act: Action)
    requires Inv(s)
    ensures Inv(Step(s, act))
  {
    StepKeepsLedger(s, act);
    StepKeepsPending(s, act);
    StepKeepsProvenance(s, act);
    StepKeepsUnique(s, act);
    StepKeepsAccounted(s, act);
    StepKeepsTraced(s, act);
    StepKeepsJobsTraced(s, act);
    StepKeepsJobs(s, act);
    StepKeepsLog(s, act);
    StepKeepsReplies(s, act);
  }

  lemma {:induction false} Reachable(capacity: nat, t0: Micros, schedule: seq<Action>)
    ensures Inv(Run(Init(capacity, t0), schedule))
  {
    if schedule != [] {
      Reachable(capacity, t0, schedule[..|schedule| - 1]);
      StepKeepsInv(Run(Init(capacity, t0), schedule[..|schedule| - 1]), schedule[|schedule| - 1]);
    }
  }

  lemma {:induction false} RunAppends(s: State, a: seq<Action>, b: seq<Action>)
    ensures Run(s, a + b) == Run(Run(s, a), b)
  {
    if b == [] {
      assert a + b == a;
    } else {
      RunAppends(s, a, b[..|b| - 1]);
      assert (a + b)[..|a + b| - 1] == a + b[..|b| - 1];
    }
  }

  lemma RunOne(s: State, act: Action)
    ensures Run(s, [act]) == Step(s, act)
  {
    assert [act][..0] == [];
  }
}
