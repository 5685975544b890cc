/** The telemetry service as an object: its methods as the code runs them when nothing interleaves. */
module Service {
  import opened Common
  import opened Telemetry
  import opened Dedup
  import opened Screening
  import opened Ingest

  /** Redis last_seen keys after a series of points: each write replaces the one before. */
  function LastSeen(m: map<string, int>, ps: seq<Admitted>): map<string, int> {
    if ps == [] then m
    else
      var p := ps[|ps| - 1].point;
      LastSeen(m, ps[..|ps| - 1])[p.device := Unix(p.time)]
  }

  /** The statements of a worker that takes jobs in order. */
  function Entries(jobs: seq<Job>, outcomes: seq<Outcome>): seq<Entry>
    requires |outcomes| == |jobs|
  {
    seq(|jobs|, i requires 0 <= i < |jobs| => Entry(jobs[i], |jobs[i].points| != 1, outcomes[i]))
  }

  /** The table and the `done` channels after the worker served some jobs. */
  datatype Served = Served(table: Table, done: map<nat, seq<bool>>)

  function ServeOne(sv: Served, job: Job, o: Outcome): Served
    requires job.call in sv.done
  {
    var w := Write(sv.table, job.points, |job.points| != 1, o);
    Served(w.table, sv.done[job.call := sv.done[job.call] + [w.ok]])
  }

  function Serve(sv: Served, jobs: seq<Job>, outcomes: seq<Outcome>): (r: Served)
    requires |outcomes| == |jobs|
    requires forall i :: 0 <= i < |jobs| ==> jobs[i].call in sv.done
    ensures r.done.Keys == sv.done.Keys
  {
    if jobs == [] then sv
    else ServeOne(Serve(sv, jobs[..|jobs| - 1], outcomes[..|jobs| - 1]), jobs[|jobs| - 1], outcomes[|jobs| - 1])
  }

  /** Redis claims, table and reply after one undisturbed synchronous call. */
  datatype Submitted = Submitted(ledger: Ledger, table: Table, reply: Reply)

  function SubmitOne(l: Ledger, t: Table, req: Request, v: Visit, o: Outcome): Submitted {
    match Resolve(req, v.resolveAt)
    case Rejected => Submitted(l, t, Invalid)
    case At(time) =>
      var p := MakePoint(req, time);
      var l' := Try(l, SlotOf(p), v.claimAt, v.redis);
      if !Admits(l.claims, SlotOf(p), v.claimAt, v.redis) then Submitted(l', t, DuplicateIgnored(SlotOf(p)))
      else
        var a := Admitted(p, |l.admissions|);
        var w := InsertMetric(t, a, o);
        Submitted(l', w.table, if w.ok then StoredReply([a]) else Failed)
  }

  function SubmitMany(l: Ledger, t: Table, reqs: seq<Request>, visits: seq<Visit>, o: Outcome): Submitted
    requires |visits| == |reqs|
  {
    if reqs == [] || |reqs| > MAX_BATCH_SIZE then Submitted(l, t, Invalid)
    else
      var sc := Screen(l, reqs, visits);
      var w := InsertMetricBatch(t, sc.kept, o);
      if sc.kept == [] then Submitted(sc.ledger, t, Invalid)
      else Submitted(sc.ledger, w.table, if w.ok then AcceptedReply(sc.kept, |sc.kept|, sc.rejected) else Failed)
  }

  /** Point `p` is what `req`, validated at `at`, asks to store. */
  predicate Asked(p: Point, req: Request, at: Micros) {
    && p.device == req.device && p.metric == req.metric && p.value == req.value && p.status == req.status
    && p.time == if req.unixSeconds <= 0 then at else req.unixSeconds * 1_000_000
  }

  /** Old rows stay, and every new row is what one of the requests asks for, under its time, device and metric. */
  ghost predicate GainsAsked(t: Table, t': Table, reqs: seq<Request>, visits: seq<Visit>)
    requires |visits| == |reqs|
  {
    && Extends(t, t')
    && forall k :: k in t' && k !in t ==>
         && k.time == t'[k].point.time && k.device == t'[k].point.device && k.metric == t'[k].point.metric
         && exists i :: 0 <= i < |reqs| && Asked(t'[k].point, reqs[i], visits[i].resolveAt)
  }

  /** The request is valid when the clock shows `now`. */
  predicate Acceptable(req: Request, now: Micros) {
    && req.device != "" && req.metric != "" && req.value.Finite? && -1e308 <= req.value.r <= 1e308
    && (req.unixSeconds <= 0 || req.unixSeconds * 1_000_000 <= now + 5_000_000)
  }

  /** Redis errs, or holds no live claim on the device and second. */
  predicate Unclaimed(l: Ledger, device: string, time: Micros, v: Visit) {
    v.redis != Healthy || Slot(device, time / 1_000_000) !in l.claims || l.claims[Slot(device, time / 1_000_000)] <= v.claimAt
  }

  /** What SubmitMetric comes to: which requests are invalid and which are duplicates, that success is a
      valid, unclaimed request on a working database, and exactly what the new row holds. */
  lemma SubmitOneStores(l: Ledger, t: Table, req: Request, v: Visit, o: Outcome)
    ensures var r := SubmitOne(l, t, req, v, o);
      var time := if req.unixSeconds <= 0 then v.resolveAt else req.unixSeconds * 1_000_000;
      var free, k := Unclaimed(l, req.device, time, v), Key(time, req.device, req.metric);
      && (r.reply.Invalid? <==> !Acceptable(req, v.resolveAt))
      && (r.reply.DuplicateIgnored? <==> Acceptable(req, v.resolveAt) && !free)
      && (r.reply.StoredReply? <==> Acceptable(req, v.resolveAt) && free && o == Works)
      && (k in r.table <==> k in t || (Acceptable(req, v.resolveAt) && free && o != FailsClean))
      && GainsAsked(t, r.table, [req], [v])
      && (r.reply.StoredReply? ==> |r.reply.points| == 1 && Asked(r.reply.points[0].point, req, v.resolveAt))
  {
    ResolveIff(req, v.resolveAt);
    assert [req][0] == req && [v][0] == v;
    if Resolve(req, v.resolveAt).At? {
      var p := MakePoint(req, Resolve(req, v.resolveAt).time);
      assert Asked(p, req, v.resolveAt);
      SingleInsertAdds(t, Admitted(p, |l.admissions|), o);
    }
  }

  lemma PointAtAsked(reqs: seq<Request>, visits: seq<Visit>, i: nat)
    requires |visits| == |reqs| && i < |reqs| && Valid(reqs, visits, i)
    ensures Asked(PointAt(reqs, visits, i), reqs[i], visits[i].resolveAt)
  {
    ResolveIff(reqs[i], visits[i].resolveAt);
  }

  lemma KeptAsked(l: Ledger, reqs: seq<Request>, visits: seq<Visit>, k: nat)
    requires |visits| == |reqs| && k < |Screen(l, reqs, visits).kept|
    ensures exists i :: 0 <= i < |reqs| && Asked(Screen(l, reqs, visits).kept[k].point, reqs[i], visits[i].resolveAt)
  {
    assert reqs[..|reqs|] == reqs && visits[..|reqs|] == visits;
    KeptFrom(l, reqs, visits, |reqs|, k);
    var i: nat :| i < |reqs| && LetThrough(l, reqs, visits, i) && Screen(l, reqs, visits).kept[k].point == PointAt(reqs, visits, i);
    PointAtAsked(reqs, visits, i);
  }

  /** What SubmitBatch comes to: an empty batch and one of more than 1000 requests are refused without effect;
      otherwise every new row holds exactly what one of the requests asks for, and success accepts points
      of the requests and accounts for all of them. */
  lemma SubmitManyStores(l: Ledger, t: Table, reqs: seq<Request>, visits: seq<Visit>, o: Outcome)
    requires |visits| == |reqs|
    ensures var r := SubmitMany(l, t, reqs, visits, o);
      && (reqs == [] || |reqs| > 1000 ==> r == Submitted(l, t, Invalid))
      && (0 < |reqs| <= 1000 && Screen(l, reqs, visits).kept != [] ==> !r.reply.Invalid?)
      && GainsAsked(t, r.table, reqs, visits)
      && (r.reply.AcceptedReply? ==>
            && r.reply.acceptedCount == |r.reply.points| && r.reply.acceptedCount + r.reply.rejectedCount == |reqs|
            && Stored(r.table, r.reply.points)
            && forall k :: 0 <= k < |r.reply.points| ==> exists i :: 0 <= i < |reqs| && Asked(r.reply.points[k].point, reqs[i], visits[i].resolveAt))
  {
    var kept := Screen(l, reqs, visits).kept;
    forall k | 0 <= k < |kept| ensures exists i :: 0 <= i < |reqs| && Asked(kept[k].point, reqs[i], visits[i].resolveAt) {
      KeptAsked(l, reqs, visits, k);
    }
    ScreenCounts(l, reqs, visits);
    WriteRows(t, kept, true, o);
  }

  class TelemetryService {
    /** Redis: deduplication claims (with the history of admissions) and last_seen keys. */
    var ledger: Ledger
    var lastSeen: map<string, int>
    /** The metrics table. */
    var table: Table
    /** The write channel and the `done` channels of its jobs. */
    var writeCh: seq<Job>
    var done: map<nat, seq<bool>>

    constructor ()
      ensures ledger == EMPTY && lastSeen == map[] && table == map[] && writeCh == [] && done == map[]
    {
      ledger, lastSeen, table, writeCh, done := EMPTY, map[], map[], [], map[];
    }

    /** SETNX with the deduplication TTL; a Redis error counts as newly set. */
    method TryMarkDedup(slot: Slot, now: Micros, redis: Redis) returns (created: bool)
      modifies this`ledger
      ensures created == Admits(old(ledger).claims, slot, now, redis)
      ensures ledger == Try(old(ledger), slot, now, redis)
    {
      var claims := ledger.claims;
      var live := slot in claims && now < claims[slot];
      created := true;
      if redis == Healthy && live {
        created := false;
      }
      if redis != ErrorLost && !live {
        claims := claims[slot := now + DEDUP_TTL];
      }
      var admissions := ledger.admissions;
      if created {
        admissions := admissions + [Admission(slot, now, redis, redis != ErrorLost && !live)];
      }
      ledger := Ledger(claims, admissions);
    }

    /** Synchronous SubmitBatch. */
    method SubmitBatch(reqs: seq<Request>, visits: seq<Visit>, outcome: Outcome) returns (reply: Reply)
      requires |visits| == |reqs|
      modifies this`ledger, this`table, this`lastSeen
      ensures Submitted(ledger, table, reply) == SubmitMany(old(ledger), old(table), reqs, visits, outcome)
      ensures GainsAsked(old(table), table, reqs, visits)
      ensures lastSeen == if reply.AcceptedReply? then LastSeen(old(lastSeen), reply.points) else old(lastSeen)
    {
      SubmitManyStores(ledger, table, reqs, visits, outcome);
      if |reqs| == 0 {
        return Invalid;
      }
      if |reqs| > MAX_BATCH_SIZE {
        return Invalid;
      }
      var points, rejected := [], 0;
      for i := 0 to |reqs|
        invariant Screened(ledger, points, rejected) == Prefix(old(ledger), reqs, visits, i)
        invariant table == old(table) && lastSeen == old(lastSeen)
      {
        PrefixStep(old(ledger), reqs, visits, i);
        var resolved := Resolve(reqs[i], visits[i].resolveAt);
        if resolved.Rejected? {
          rejected := rejected + 1;
          continue;
        }
        var p := Point(resolved.time, reqs[i].device, reqs[i].metric, reqs[i].value, reqs[i].status);
        var adm := |ledger.admissions|;
        var created := TryMarkDedup(SlotOf(p), visits[i].claimAt, visits[i].redis);
        if !created {
          rejected := rejected + 1;
          continue;
        }
        points := points + [Admitted(p, adm)];
      }
      assert reqs[..|reqs|] == reqs && visits[..|reqs|] == visits;
      if |points| == 0 {
        return Invalid;
      }
      var w := InsertMetricBatch(table, points, outcome);
      table := w.table;
      if !w.ok {
        return Failed;
      }
      MarkLastSeen(points);
      reply := AcceptedReply(points, |points|, rejected);
    }

    /** The side effects of a stored batch on last_seen. */
    method MarkLastSeen(points: seq<Admitted>)
      modifies this`lastSeen
      ensures lastSeen == LastSeen(old(lastSeen), points)
    {
      for i := 0 to |points|
        invariant lastSeen == LastSeen(old(lastSeen), points[..i])
      {
        assert points[..i + 1][..i] == points[..i];
        lastSeen := lastSeen[points[i].point.device := Unix(points[i].point.time)];
      }
      assert points[..|points|] == points;
    }

    /** Synchronous SubmitMetric. */
    method SubmitMetric(req: Request, v: Visit, outcome: Outcome) returns (reply: Reply)
      modifies this`ledger, this`table, this`lastSeen
      ensures Submitted(ledger, table, reply) == SubmitOne(old(ledger), old(table), req, v, outcome)
      ensures GainsAsked(old(table), table, [req], [v])
      ensures lastSeen == if reply.StoredReply? then LastSeen(old(lastSeen), reply.points) else old(lastSeen)
    {
      SubmitOneStores(ledger, table, req, v, outcome);
      var resolved := Resolve(req, v.resolveAt);
      if resolved.Rejected? {
        return Invalid;
      }
      var p := Point(resolved.time, req.device, req.metric, req.value, req.status);
      var adm := |ledger.admissions|;
      var created := TryMarkDedup(SlotOf(p), v.claimAt, v.redis);
      if !created {
        return DuplicateIgnored(SlotOf(p));
      }
      var point := Admitted(p, adm);
      var w := InsertMetric(table, point, outcome);
      table := w.table;
      if !w.ok {
        return Failed;
      }
      MarkLastSeen([point]);
      reply := StoredReply([point]);
    }

    /** The writer goroutine, until it has dealt with as many jobs as the database answered. */
    method RunMetricWriteWorker(outcomes: seq<Outcome>)
      requires |outcomes| <= |writeCh|
      requires forall i :: 0 <= i < |outcomes| ==> writeCh[i].call in done
      modifies this`table, this`writeCh, this`done
      ensures writeCh == old(writeCh)[|outcomes|..]
      ensures Served(table, done) == Serve(Served(old(table), old(done)), old(writeCh)[..|outcomes|], outcomes)
    {
      ghost var all := writeCh;
      for n := 0 to |outcomes|
        invariant writeCh == all[n..]
        invariant Served(table, done) == Serve(Served(old(table), old(done)), all[..n], outcomes[..n])
      {
        var job := writeCh[0];
        writeCh := writeCh[1..];
        var w;
        if |job.points| == 1 {
          w := InsertMetric(table, job.points[0], outcomes[n]);
        } else {
          w := InsertMetricBatch(table, job.points, outcomes[n]);
        }
        table := w.table;
        done := done[job.call := done[job.call] + [w.ok]];
        assert all[..n + 1][..n] == all[..n] && outcomes[..n + 1][..n] == outcomes[..n];
      }
      assert outcomes[..|outcomes|] == outcomes;
    }
  }

  /** The worker executes the jobs in order. */
  lemma {:induction false} ServeReplays(sv: Served, jobs: seq<Job>, outcomes: seq<Outcome>)
    requires |outcomes| == |jobs| && forall i :: 0 <= i < |jobs| ==> jobs[i].call in sv.done
    ensures WellFormed(Entries(jobs, outcomes))
    ensures Serve(sv, jobs, outcomes).table == Replay(sv.table, Entries(jobs, outcomes))
  {
    if jobs != [] {
      var n := |jobs| - 1;
      ServeReplays(sv, jobs[..n], outcomes[..n]);
      assert Entries(jobs, outcomes)[..n] == Entries(jobs[..n], outcomes[..n]);
    }
  }

  /** Each job gets exactly one result, and a success means that its rows are in the table. */
  lemma {:induction false} ServeAnswersEachJobOnce(sv: Served, jobs: seq<Job>, outcomes: seq<Outcome>, i: nat)
    requires |outcomes| == |jobs| && i < |jobs|
    requires forall k :: 0 <= k < |jobs| ==> jobs[k].call in sv.done && sv.done[jobs[k].call] == []
    requires forall k, m :: 0 <= k < m < |jobs| ==> jobs[k].call != jobs[m].call
    ensures var r := Serve(sv, jobs, outcomes);
      |r.done[jobs[i].call]| == 1 && (r.done[jobs[i].call][0] ==> Stored(r.table, jobs[i].points))
  {
    var n := |jobs| - 1;
    var before := Serve(sv, jobs[..n], outcomes[..n]);
    WriteRows(before.table, jobs[n].points, |jobs[n].points| != 1, outcomes[n]);
    if i < n {
      ServeAnswersEachJobOnce(sv, jobs[..n], outcomes[..n], i);
      if before.done[jobs[i].call][0] {
        StoredStays(before.table, ServeOne(before, jobs[n], outcomes[n]).table, jobs[i].points);
      }
    } else {
      ServeLeavesOthers(sv, jobs[..n], outcomes[..n], jobs[n].call);
    }
  }

  lemma {:induction false} ServeLeavesOthers(sv: Served, jobs: seq<Job>, outcomes: seq<Outcome>, c: nat)
    requires |outcomes| == |jobs| && c in sv.done
    requires forall k :: 0 <= k < |jobs| ==> jobs[k].call in sv.done && jobs[k].call != c
    ensures Serve(sv, jobs, outcomes).done[c] == sv.done[c]
  {
    if jobs != [] {
      ServeLeavesOthers(sv, jobs[..|jobs| - 1], outcomes[..|jobs| - 1], c);
    }
  }

  /** One turn of the worker's loop is Take, DoInsert and Report of the step system. */
  lemma TurnImplementsSteps(s: State, o: Outcome)
    requires s.worker.Idle? && s.queue != [] && s.queue[0].call in s.done && s.done[s.queue[0].call] == []
    ensures var sv := ServeOne(Served(s.table, s.done), s.queue[0], o);
      Step(Step(Step(s, Take), DoInsert(o)), Report) ==
        s.(queue := s.queue[1..], table := sv.table, done := sv.done, log := s.log + [Entry(s.queue[0], |s.queue[0].points| != 1, o)])
  {
  }

  /** last_seen of a device is the second of its last point of the batch, not of its latest;
      a device with neither point nor key before has none after. */
  lemma {:induction false} LastSeenIsLastWritten(m: map<string, int>, ps: seq<Admitted>, device: string)
    ensures device in LastSeen(m, ps) <==> device in m || exists i :: 0 <= i < |ps| && ps[i].point.device == device
    ensures device in LastSeen(m, ps) ==>
      || (device in m && LastSeen(m, ps)[device] == m[device] && forall i :: 0 <= i < |ps| ==> ps[i].point.device != device)
      || (exists i :: 0 <= i < |ps| && ps[i].point.device == device && LastSeen(m, ps)[device] == ps[i].point.time / 1_000_000
            && forall j :: i < j < |ps| ==> ps[j].point.device != device)
  {
    if ps != [] {
      LastSeenIsLastWritten(m, ps[..|ps| - 1], device);
    }
  }
}
