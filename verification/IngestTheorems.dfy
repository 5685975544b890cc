/** What the ingest pipeline guarantees over all schedules, and what it does not. */
module IngestTheorems {
  import opened Common
  import opened Telemetry
  import opened Dedup
  import opened Ingest
  import opened IngestProofs

  function After(capacity: nat, t0: Micros, schedule: seq<Action>): State {
    Run(Init(capacity, t0), schedule)
  }

  /** Deduplication: two points let through for one device and second by a working Redis
      passed SETNX at least 600 s apart, however the calls interleaved. */
  lemma AdmissionsSpaced(capacity: nat, t0: Micros, schedule: seq<Action>)
    ensures var adms := After(capacity, t0, schedule).ledger.admissions;
      forall i, j :: 0 <= i < j < |adms| && adms[i].redis == Healthy && adms[j].redis == Healthy && adms[i].slot == adms[j].slot ==>
        adms[j].at - adms[i].at >= 600_000_000
  {
    Reachable(capacity, t0, schedule);
  }

  /** `a` is the i-th point of the j-th statement. */
  predicate Logged(log: seq<Entry>, j: int, i: int, a: Admitted) {
    0 <= j < |log| && 0 <= i < |log[j].job.points| && log[j].job.points[i] == a
  }

  lemma {:induction false} RowsComeFromLog(log: seq<Entry>, k: Key)
    requires WellFormed(log) && k in Replay(map[], log)
    ensures KeyOf(Replay(map[], log)[k].point) == k
    ensures exists j, i :: Logged(log, j, i, Replay(map[], log)[k])
  {
    var init, e := log[..|log| - 1], log[|log| - 1];
    WriteRows(Replay(map[], init), e.job.points, e.bulk, e.outcome);
    if k in Replay(map[], init) {
      RowsComeFromLog(init, k);
      var j, i :| Logged(init, j, i, Replay(map[], init)[k]);
      assert Logged(log, j, i, Replay(map[], log)[k]);
    } else {
      var i :| 0 <= i < |e.job.points| && e.job.points[i] == Replay(map[], log)[k];
      assert Logged(log, |log| - 1, i, Replay(map[], log)[k]);
    }
  }

  lemma RowsAreLogged(s: State)
    requires LogInv(s)
    ensures forall k :: k in s.table ==> KeyOf(s.table[k].point) == k && exists j: nat, i: nat :: Carries(s, InLog(j, i), s.table[k])
  {
    forall k | k in s.table
      ensures KeyOf(s.table[k].point) == k && exists j: nat, i: nat :: Carries(s, InLog(j, i), s.table[k])
    {
      RowsComeFromLog(s.log, k);
      var j, i :| Logged(s.log, j, i, s.table[k]);
      assert Carries(s, InLog(j, i), s.table[k]);
    }
  }

  /** No two rows share an admission, and none shares one with a point still on its way. */
  lemma RowsAreUnique(s: State)
    requires LogInv(s) && Unique(s)
    ensures forall k, k' :: k in s.table && k' in s.table && s.table[k].adm == s.table[k'].adm ==> k == k'
    ensures forall k, p, a :: k in s.table && Carries(s, p, a) && a.adm == s.table[k].adm ==> p.InLog?
  {
    RowsAreLogged(s);
  }

  /** Rows and their admissions. */
  ghost predicate OwnAdmissions(s: State) {
    && (forall k :: k in s.table ==> KeyOf(s.table[k].point) == k)
    && (forall k :: k in s.table ==> s.table[k].adm < |s.ledger.admissions|)
    && (forall k :: k in s.table ==> s.ledger.admissions[s.table[k].adm].slot == Slot(k.device, k.time / 1_000_000))
    && (forall k, k' :: k in s.table && k' in s.table && s.table[k].adm == s.table[k'].adm ==> k == k')
    && (forall k, p, a :: k in s.table && Carries(s, p, a) && a.adm == s.table[k].adm ==> p.InLog?)
  }

  lemma RowsOwnAdmissions(s: State)
    requires LogInv(s) && Provenance(s) && Unique(s)
    ensures OwnAdmissions(s)
  {
    RowsAreLogged(s);
    RowsAreUnique(s);
  }

  /** Each admitted point is in one place only, each row comes from an admission of its own
      for the row's device and second, and that point is nowhere else in the pipeline. */
  lemma RowsAreOwnAdmissions(capacity: nat, t0: Micros, schedule: seq<Action>)
    ensures var s := After(capacity, t0, schedule);
      && (forall p, q, a, b :: Carries(s, p, a) && Carries(s, q, b) && a.adm == b.adm ==> p == q)
      && OwnAdmissions(s)
  {
    Reachable(capacity, t0, schedule);
    RowsOwnAdmissions(After(capacity, t0, schedule));
  }

  /** Rows of one device and second were admitted by a working Redis at least 600 s apart. */
  lemma RowsSpaced(capacity: nat, t0: Micros, schedule: seq<Action>, k: Key, k': Key)
    requires var s := After(capacity, t0, schedule);
      k in s.table && k' in s.table && k != k' && k.device == k'.device && k.time / 1_000_000 == k'.time / 1_000_000
    ensures var s := After(capacity, t0, schedule);
      && s.table[k].adm < |s.ledger.admissions| && s.table[k'].adm < |s.ledger.admissions|
      && (var a, a' := s.ledger.admissions[s.table[k].adm], s.ledger.admissions[s.table[k'].adm];
          a.redis == Healthy && a'.redis == Healthy ==> a.at - a'.at >= 600_000_000 || a'.at - a.at >= 600_000_000)
  {
    RowsAreOwnAdmissions(capacity, t0, schedule);
    AdmissionsSpaced(capacity, t0, schedule);
  }

  /** Some row has the point's time, device and metric. */
  ghost predicate HasRow(t: Table, p: Point) {
    exists k :: k in t && t[k].point.time == p.time && t[k].point.device == p.device && t[k].point.metric == p.metric
  }

  lemma StoredHasRows(s: State, ps: seq<Admitted>)
    requires LogInv(s) && Stored(s.table, ps)
    ensures forall i :: 0 <= i < |ps| ==> HasRow(s.table, ps[i].point)
  {
    RowsAreLogged(s);
  }

  /** Whatever the schedule, every row of the table holds exactly what a request of some call asked to store:
      its device, metric, value and status, and its second if it named one. */
  lemma RowsMatchRequests(capacity: nat, t0: Micros, schedule: seq<Action>, k: Key)
    requires k in After(capacity, t0, schedule).table
    ensures var s := After(capacity, t0, schedule);
      var p := s.table[k].point;
      && k.time == p.time && k.device == p.device && k.metric == p.metric
      && exists c, i :: c in s.calls && 0 <= i < |s.calls[c].reqs| && Matches(s.table[k], s.calls[c].reqs[i])
  {
    Reachable(capacity, t0, schedule);
    var s := After(capacity, t0, schedule);
    RowsComeFromLog(s.log, k);
    var j, i :| Logged(s.log, j, i, s.table[k]);
    var job := s.log[j].job;
    assert JobTraced(s.calls, job);
    var idx :| Selects(idx, job.points, s.calls[job.call].reqs, |s.calls[job.call].reqs|);
    assert Matches(job.points[i], s.calls[job.call].reqs[idx[i]]);
  }

  /** A success reply, from the moment it is given, means that the table has a row under every accepted
      key, with queue or without, whatever was cancelled. The accepted keys are those of the call's own
      requests, of its only one or of a subsequence in order, and a batch reply accounts for all of them. */
  lemma SuccessMeansStored(capacity: nat, t0: Micros, schedule: seq<Action>, c: nat)
    requires c in After(capacity, t0, schedule).calls
    ensures var s := After(capacity, t0, schedule);
      var reqs := s.calls[c].reqs;
      match s.calls[c].pc
      case Replied(StoredReply(points)) =>
        |points| == |reqs| == 1 && Matches(points[0], reqs[0]) && HasRow(s.table, points[0].point)
      case Replied(AcceptedReply(points, accepted, rejected)) =>
        && Stored(s.table, points) && Selected(points, reqs, |reqs|)
        && (forall i :: 0 <= i < |points| ==> HasRow(s.table, points[i].point))
        && |points| == accepted > 0 && accepted + rejected == |reqs|
      case _ => true
  {
    Reachable(capacity, t0, schedule);
    SuccessIsTrue(After(capacity, t0, schedule), c);
  }

  lemma SuccessIsTrue(s: State, c: nat)
    requires LogInv(s) && AllAccounted(s) && AllTraced(s) && RepliesInv(s) && c in s.calls
    ensures match s.calls[c].pc
      case Replied(StoredReply(points)) =>
        |points| == |s.calls[c].reqs| == 1 && Matches(points[0], s.calls[c].reqs[0]) && HasRow(s.table, points[0].point)
      case Replied(AcceptedReply(points, accepted, rejected)) =>
        && Stored(s.table, points) && Selected(points, s.calls[c].reqs, |s.calls[c].reqs|)
        && (forall i :: 0 <= i < |points| ==> HasRow(s.table, points[i].point))
        && |points| == accepted > 0 && accepted + rejected == |s.calls[c].reqs|
      case _ => true
  {
    assert Accounted(s.calls[c]) && Traced(s.calls[c]);
    match s.calls[c].pc
    case Replied(StoredReply(points)) => StoredHasRows(s, points);
    case Replied(AcceptedReply(points, _, _)) => StoredHasRows(s, points);
    case _ =>
  }

  lemma QueueOrder(s: State)
    requires LogInv(s) && s.capacity > 0
    ensures s.enqueued == Jobs(s.log) + (if s.worker.Holding? then [s.worker.job] else []) + s.queue
  {
    if s.worker.Holding? {
      Regroup(Jobs(s.log), s.worker.job, s.queue);
    } else {
      assert Unwritten(s) == s.queue && Jobs(s.log) + [] == Jobs(s.log);
    }
  }

  /** With a queue, the table is what executing a prefix of the enqueued jobs in order gives;
      the rest are in the worker's hand or still queued, and the channel never overflows. */
  lemma Linearised(capacity: nat, t0: Micros, schedule: seq<Action>)
    requires capacity > 0
    ensures var s := After(capacity, t0, schedule);
      && WellFormed(s.log) && s.table == Replay(map[], s.log)
      && s.enqueued == Jobs(s.log) + (if s.worker.Holding? then [s.worker.job] else []) + s.queue
      && |s.queue| <= capacity
  {
    Reachable(capacity, t0, schedule);
    CapacityFixed(Init(capacity, t0), schedule);
    QueueOrder(After(capacity, t0, schedule));
  }

  lemma {:induction false} CapacityFixed(s: State, schedule: seq<Action>)
    ensures Run(s, schedule).capacity == s.capacity
  {
    if schedule != [] {
      CapacityFixed(s, schedule[..|schedule| - 1]);
      var before, act := Run(s, schedule[..|schedule| - 1]), schedule[|schedule| - 1];
      assert Step(before, act).capacity == before.capacity;
    }
  }

  /** No admission occurs twice in the log. */
  ghost predicate OnceOnly(log: seq<Entry>) {
    forall j, i, a, j', i', a' :: Logged(log, j, i, a) && Logged(log, j', i', a') && a.adm == a'.adm ==> j == j' && i == i'
  }

  /** Every point of `ps` is a row. */
  ghost predicate AllIn(t: Table, ps: seq<Admitted>) {
    forall i :: 0 <= i < |ps| ==> KeyOf(ps[i].point) in t && t[KeyOf(ps[i].point)] == ps[i]
  }

  /** No row carries the admission of a point of `ps`. */
  ghost predicate NoneIn(t: Table, ps: seq<Admitted>) {
    forall k, i :: k in t && 0 <= i < |ps| ==> t[k].adm != ps[i].adm
  }

  lemma {:induction false} BulkEntryAllOrNothing(log: seq<Entry>, j: nat)
    requires WellFormed(log) && OnceOnly(log) && j < |log| && log[j].bulk
    ensures AllIn(Replay(map[], log), log[j].job.points) || NoneIn(Replay(map[], log), log[j].job.points)
  {
    var init, e := log[..|log| - 1], log[|log| - 1];
    var t, t' := Replay(map[], init), Replay(map[], log);
    WriteRows(t, e.job.points, e.bulk, e.outcome);
    forall b, i, a | Logged(init, b, i, a) ensures Logged(log, b, i, a) {}
    if j < |init| {
      BulkEntryAllOrNothing(init, j);
      if NoneIn(t, log[j].job.points) {
        forall k, i | k in t' && 0 <= i < |log[j].job.points| ensures t'[k].adm != log[j].job.points[i].adm {
          assert Logged(log, j, i, log[j].job.points[i]);
          if k !in t {
            var n :| 0 <= n < |e.job.points| && e.job.points[n] == t'[k];
            assert Logged(log, |init|, n, t'[k]);
          }
        }
      }
    } else {
      BulkAllOrNothing(t, e.job.points, e.outcome);
      if t' == t {
        forall k, i | k in t && 0 <= i < |e.job.points| ensures t[k].adm != e.job.points[i].adm {
          RowsComeFromLog(init, k);
          var b, n :| Logged(init, b, n, t[k]);
          assert Logged(log, b, n, t[k]);
          assert Logged(log, j, i, e.job.points[i]);
        }
      }
    }
  }

  /** Multi-point jobs are written whole or not at all, and stay that way. */
  lemma JobsAllOrNothing(capacity: nat, t0: Micros, schedule: seq<Action>, j: nat)
    requires j < |After(capacity, t0, schedule).log| && |After(capacity, t0, schedule).log[j].job.points| >= 2
    ensures var s := After(capacity, t0, schedule);
      AllIn(s.table, s.log[j].job.points) || NoneIn(s.table, s.log[j].job.points)
  {
    Reachable(capacity, t0, schedule);
    var s := After(capacity, t0, schedule);
    forall b, i, a, b', i', a' | Logged(s.log, b, i, a) && Logged(s.log, b', i', a') && a.adm == a'.adm
      ensures b == b' && i == i'
    {
      assert Carries(s, InLog(b, i), a) && Carries(s, InLog(b', i'), a');
    }
    BulkEntryAllOrNothing(s.log, j);
  }

  predicate Sane(p: Point, now: Micros) {
    && p.device != "" && p.metric != "" && p.value.Finite? && -1e308 <= p.value.r <= 1e308
    && p.time - now <= 5_000_000
  }

  /** Whatever is carried or stored has names, a finite value and a time at most 5 s ahead. */
  lemma PointsValid(capacity: nat, t0: Micros, schedule: seq<Action>)
    ensures var s := After(capacity, t0, schedule);
      && (forall pl, a :: Carries(s, pl, a) ==> Sane(a.point, s.now))
      && (forall k :: k in s.table ==> Sane(s.table[k].point, s.now))
  {
    Reachable(capacity, t0, schedule);
    RowsAreLogged(After(capacity, t0, schedule));
  }

  /** The worker can always post its result: the `done` channel of its job is empty. */
  lemma WorkerNeverBlocks(capacity: nat, t0: Micros, schedule: seq<Action>)
    requires After(capacity, t0, schedule).worker.Reporting?
    ensures var s := After(capacity, t0, schedule);
      s.worker.job.call in s.done && Step(s, Report) == s.(worker := Idle, done := s.done[s.worker.job.call := [s.worker.ok]])
  {
    Reachable(capacity, t0, schedule);
    var s := After(capacity, t0, schedule);
    RoomForResult(s);
    PostIsWhole(s);
  }

  lemma PostIsWhole(s: State)
    requires s.worker.Reporting? && s.worker.job.call in s.done && s.done[s.worker.job.call] == []
    ensures Step(s, Report) == s.(worker := Idle, done := s.done[s.worker.job.call := [s.worker.ok]])
  {
    assert s.done[s.worker.job.call] + [s.worker.ok] == [s.worker.ok];
  }

  // ---------- refused calls ----------

  /** Admission `n` has happened, and its point is nowhere. */
  ghost predicate Gone(s: State, n: nat) {
    n < |s.ledger.admissions| && forall pl, a :: Carries(s, pl, a) ==> a.adm != n
  }

  lemma StepKeepsGone(s: State, act: Action, n: nat)
    requires Gone(s, n)
    ensures Gone(Step(s, act), n)
  {
    TimeAndAdmissionsGrow(s, act);
    forall pl, a | Carries(Step(s, act), pl, a) ensures a.adm != n { PointsComeFrom(s, act, pl, a); }
  }

  lemma {:induction false} GoneForGood(s: State, schedule: seq<Action>, n: nat)
    requires Inv(s) && Gone(s, n)
    ensures Inv(Run(s, schedule)) && Gone(Run(s, schedule), n)
    ensures s.ledger.admissions <= Run(s, schedule).ledger.admissions
  {
    if schedule != [] {
      var before, act := Run(s, schedule[..|schedule| - 1]), schedule[|schedule| - 1];
      GoneForGood(s, schedule[..|schedule| - 1], n);
      StepKeepsInv(before, act);
      StepKeepsGone(before, act, n);
      TimeAndAdmissionsGrow(before, act);
    }
  }

  /** The call's send was refused, by a full queue or by its canceled context. */
  predicate Refused(s: State, c: nat, giveUp: bool) {
    c in s.calls && s.calls[c].pc.Sending? && s.capacity > 0 && SendStep(s, c, giveUp).calls[c].pc.Replied?
  }

  lemma RefusalIs(s: State, c: nat, giveUp: bool)
    requires Refused(s, c, giveUp)
    ensures Step(s, Send(c, giveUp)) == SetPc(s, c, Replied(if giveUp then Canceled else QueueFull))
  {
  }

  lemma RepliedCarriesLess(s: State, c: nat, reply: Reply, pl: Place, a: Admitted)
    requires c in s.calls && Carries(SetPc(s, c, Replied(reply)), pl, a)
    ensures Carries(s, pl, a) && !(pl.InCall? && pl.call == c)
  {
  }

  /** A refused call lets go of its points. */
  lemma RefusalLetsGo(s: State, c: nat, reply: Reply, i: nat)
    requires Provenance(s) && Unique(s) && c in s.calls && s.calls[c].pc.Sending? && i < |s.calls[c].pc.kept|
    ensures Gone(SetPc(s, c, Replied(reply)), s.calls[c].pc.kept[i].adm)
  {
    var a := s.calls[c].pc.kept[i];
    assert Carries(s, InCall(c, i), a);
    forall pl, b | Carries(SetPc(s, c, Replied(reply)), pl, b) ensures b.adm != a.adm {
      RepliedCarriesLess(s, c, reply, pl, b);
    }
  }

  /** Admission `n` has no row, and while the claim it wrote lasts, a working Redis turns away every other
      request for its device and second. */
  ghost predicate Lost(s: State, n: nat) {
    && n < |s.ledger.admissions|
    && (forall k :: k in s.table ==> s.table[k].adm != n)
    && var adm := s.ledger.admissions[n];
       adm.marked && s.now < adm.at + DEDUP_TTL ==> !Admits(s.ledger.claims, adm.slot, s.now, Healthy)
  }

  lemma GoneIsLost(s: State, n: nat)
    requires LogInv(s) && Consistent(s.ledger, s.now) && Gone(s, n)
    ensures Lost(s, n)
  {
    RowsAreLogged(s);
    DuplicateIffRecentAdmission(s.ledger, s.ledger.admissions[n].slot, s.now);
  }

  lemma RefusalIsGone(s: State, c: nat, giveUp: bool, i: nat)
    requires Inv(s) && Refused(s, c, giveUp) && i < |s.calls[c].pc.kept|
    ensures var s1, a := Step(s, Send(c, giveUp)), s.calls[c].pc.kept[i];
      Inv(s1) && Gone(s1, a.adm) && s1.ledger.admissions[a.adm].slot == SlotOf(a.point)
  {
    assert Carries(s, InCall(c, i), s.calls[c].pc.kept[i]);
    RefusalIs(s, c, giveUp);
    RefusalLetsGo(s, c, if giveUp then Canceled else QueueFull, i);
    StepKeepsInv(s, Send(c, giveUp));
  }

  lemma LostForGood(s: State, schedule: seq<Action>, n: nat)
    requires Inv(s) && Gone(s, n)
    ensures Lost(Run(s, schedule), n) && Run(s, schedule).ledger.admissions[n] == s.ledger.admissions[n]
  {
    GoneForGood(s, schedule, n);
    GoneIsLost(Run(s, schedule), n);
  }

  /** A call refused by a full queue, or canceled before its job was enqueued, is lost, whatever happens
      afterwards: no row ever carries one of its points, and while the claims last its retries are dropped. */
  lemma RefusedCallIsLost(capacity: nat, t0: Micros, before: seq<Action>, c: nat, giveUp: bool, i: nat, after: seq<Action>)
    requires Refused(After(capacity, t0, before), c, giveUp) && i < |After(capacity, t0, before).calls[c].pc.kept|
    ensures var s := After(capacity, t0, before);
      var s', a := Run(Step(s, Send(c, giveUp)), after), s.calls[c].pc.kept[i];
      && Step(s, Send(c, giveUp)) == SetPc(s, c, Replied(if giveUp then Canceled else QueueFull))
      && Lost(s', a.adm) && s'.ledger.admissions[a.adm].slot == SlotOf(a.point)
  {
    var s := After(capacity, t0, before);
    Reachable(capacity, t0, before);
    RefusalIs(s, c, giveUp);
    RefusalIsGone(s, c, giveUp, i);
    LostForGood(Step(s, Send(c, giveUp)), after, s.calls[c].pc.kept[i].adm);
  }
}
