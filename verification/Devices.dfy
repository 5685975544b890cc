/** The device registry's cache-aside protocol: PostgreSQL rows as committed versions, the Redis device
    cache with a TTL, and the service's calls and background goroutines interleaved step by step. */
module Devices {
  import opened Common

  const DEVICE_CACHE_TTL: int := 300 * SECOND

  datatype Row = Row(device: string, floor: string, kind: string, firmware: string, status: string, createdAt: Micros, updatedAt: Micros)

  /** A committed version of a device's row; `at` is the step that committed it. */
  datatype Version = Version(row: Row, at: nat)

  /** A cached device. The last three fields are history: which committed version it is, and the
      steps at which its row was read and the entry written. */
  datatype Entry = Entry(row: Row, expiry: Micros, version: nat, read: nat, wrote: nat)

  /** What a call or goroutine does next. */
  datatype Task =
    | ReadCache(device: string)
    | ReadRow(device: string)
    | ReadCert(row: Row)
    | Refresh(device: string)
    | Warm(row: Row, version: nat, read: nat)
    | CheckNew(row: Row)
    | Insert(row: Row)
    | Update(device: string, status: string)
    | Invalidate(device: string, version: nat)
    | Ended

  /** A completed invalidation: the version its update committed, and the step of the deletion. */
  datatype Flush = Flush(device: string, version: nat, at: nat)

  /** An answer of GetDevice. */
  datatype Answer = Answer(device: string, row: Row)

  datatype State = State(
    now: Micros,
    step: nat,
    rows: map<string, seq<Version>>,
    certs: set<string>,
    cache: map<string, Entry>,
    tasks: map<nat, Task>,
    flushes: seq<Flush>,
    answers: seq<Answer>)

  /** `Advance(t, o, child)` lets task `t` do its next operation with outcome `o`; a goroutine it
      starts gets the number `child`. */
  datatype Action =
    | Tick(elapsed: nat)
    | Evict(device: string)
    | Begin(t: nat, task: Task)
    | Advance(t: nat, outcome: Outcome, child: nat)

  function Init(now: Micros): State {
    State(now, 0, map[], {}, map[], map[], [], [])
  }

  /** The calls of the service. Those without a device name are refused at once. */
  predicate IsCall(task: Task) {
    task.CheckNew? || ((task.ReadCache? || task.Update?) && task.device != "")
  }

  predicate Exists(s: State, d: string) {
    d in s.rows && s.rows[d] != []
  }

  /** The row a SELECT returns. */
  function Current(s: State, d: string): Row
    requires Exists(s, d)
  {
    s.rows[d][|s.rows[d]| - 1].row
  }

  /** The row an UPDATE of the status writes. */
  function Updated(s: State, d: string, status: string): Row
    requires Exists(s, d)
  {
    Current(s, d).(status := status, updatedAt := s.now)
  }

  predicate Hit(s: State, d: string) {
    d in s.cache && s.now < s.cache[d].expiry
  }

  function Goto(s: State, t: nat, task: Task): State {
    s.(tasks := s.tasks[t := task])
  }

  /** A task that spawns a goroutine and moves on. */
  function Spawn(s: State, t: nat, task: Task, child: nat, goroutine: Task): State {
    s.(tasks := s.tasks[t := task][child := goroutine])
  }

  function AdvanceTask(s: State, t: nat, o: Outcome, child: nat): State
    requires t in s.tasks
  {
    match s.tasks[t]
    case ReadCache(d) =>
      if o == Works && Hit(s, d) then
        Spawn(s, t, Ended, child, Refresh(d)).(answers := s.answers + [Answer(d, s.cache[d].row)])
      else Goto(s, t, ReadRow(d))
    case ReadRow(d) =>
      if o == Works && Exists(s, d) then
        Spawn(s, t, ReadCert(Current(s, d)), child, Warm(Current(s, d), |s.rows[d]| - 1, s.step))
      else Goto(s, t, Ended)
    case ReadCert(row) =>
      if o == Works && row.device in s.certs then Goto(s, t, Ended).(answers := s.answers + [Answer(row.device, row)])
      else Goto(s, t, Ended)
    case Refresh(d) =>
      if o == Works && Exists(s, d) then Goto(s, t, Warm(Current(s, d), |s.rows[d]| - 1, s.step))
      else Goto(s, t, Ended)
    case Warm(row, version, read) =>
      if o == FailsClean then Goto(s, t, Ended)
      else Goto(s, t, Ended).(cache := s.cache[row.device := Entry(row, s.now + DEVICE_CACHE_TTL, version, read, s.step)])
    case CheckNew(row) =>
      if o == Works && row.device != "" && row.floor != "" && row.kind != "" && !Exists(s, row.device) then Goto(s, t, Insert(row))
      else Goto(s, t, Ended)
    case Insert(row) =>
      if o == FailsClean || Exists(s, row.device) then Goto(s, t, Ended)
      else
        var s' := s.(rows := s.rows[row.device := [Version(row, s.step)]], certs := s.certs + {row.device});
        if o == Works then Spawn(s', t, Ended, child, Warm(row, 0, s.step)) else Goto(s', t, Ended)
    case Update(d, status) =>
      if o == FailsClean || !Exists(s, d) then Goto(s, t, Ended)
      else
        var s' := s.(rows := s.rows[d := s.rows[d] + [Version(Updated(s, d, status), s.step)]]);
        Goto(s', t, if o == Works then Invalidate(d, |s.rows[d]|) else Ended)
    case Invalidate(d, version) =>
      if o == FailsClean then Goto(s, t, Ended)
      else Goto(s, t, Ended).(cache := s.cache - {d}, flushes := s.flushes + [Flush(d, version, s.step)])
    case Ended => s
  }

  function Act(s: State, a: Action): State {
    match a
    case Tick(elapsed) => s.(now := s.now + elapsed)
    case Evict(d) => s.(cache := s.cache - {d})
    case Begin(t, task) => if t in s.tasks || !IsCall(task) then s else s.(tasks := s.tasks[t := task])
    case Advance(t, o, child) => if t !in s.tasks || child in s.tasks || child == t then s else AdvanceTask(s, t, o, child)
  }

  function Step(s: State, a: Action): State {
    Act(s, a).(step := s.step + 1)
  }

  function Run(s: State, schedule: seq<Action>): State {
    if schedule == [] then s else Step(Run(s, schedule[..|schedule| - 1]), schedule[|schedule| - 1])
  }

  lemma {:induction false} RunAppends(s: State, a: seq<Action>, b: seq<Action>)
    ensures Run(s, a + b) == Run(Run(s, a), b)
  {
    if b == [] {
      assert a + b == a;
    } else {
      RunAppends(s, a, b[..|b| - 1]);
      assert (a + b)[..|a + b| - 1] == a + b[..|b| - 1];
    }
  }

  lemma RunOne(s: State, a: Action)
    ensures Run(s, [a]) == Step(s, a)
  {
    assert [a][..0] == [];
  }

  lemma RunThree(s: State, a: Action, b: Action, c: Action)
    ensures Run(s, [a, b, c]) == Step(Step(Step(s, a), b), c)
  {
    RunOne(s, a);
    RunOne(Step(s, a), b);
    RunOne(Step(Step(s, a), b), c);
    RunAppends(s, [a], [b]);
    RunAppends(s, [a] + [b], [c]);
    assert [a] + [b] + [c] == [a, b, c];
  }

  lemma RunFour(s: State, a: Action, b: Action, c: Action, d: Action)
    ensures Run(s, [a, b, c, d]) == Step(Step(Step(Step(s, a), b), c), d)
  {
    RunThree(s, a, b, c);
    RunOne(Step(Step(Step(s, a), b), c), d);
    RunAppends(s, [a, b, c], [d]);
    assert [a, b, c] + [d] == [a, b, c, d];
  }

  // ---------- invariant ----------

  /** The committed versions of one device, in the order of their commits. */
  ghost predicate History(d: string, vs: seq<Version>, step: nat) {
    && vs != []
    && (forall v :: 0 <= v < |vs| ==> vs[v].row.device == d && vs[v].at < step)
    && (forall v, w :: 0 <= v < w < |vs| ==> vs[v].at < vs[w].at)
  }

  /** `row` was the current version, number `version`, at step `read`. */
  predicate WasCurrent(vs: seq<Version>, row: Row, version: nat, read: nat) {
    && version < |vs| && vs[version].row == row && vs[version].at <= read
    && (version + 1 < |vs| ==> read < vs[version + 1].at)
  }

  /** Later versions were committed at `step` or after. */
  ghost predicate Extends(vs: seq<Version>, vs': seq<Version>, step: nat) {
    vs <= vs' && forall v :: |vs| <= v < |vs'| ==> vs'[v].at >= step
  }

  lemma WasCurrentStays(vs: seq<Version>, vs': seq<Version>, step: nat, row: Row, version: nat, read: nat)
    requires WasCurrent(vs, row, version, read) && read < step && Extends(vs, vs', step)
    ensures WasCurrent(vs', row, version, read)
  {
  }

  predicate Committed(s: State, d: string, row: Row) {
    d in s.rows && exists v :: 0 <= v < |s.rows[d]| && s.rows[d][v].row == row && row.device == d
  }

  ghost predicate RowsInv(s: State) {
    s.certs == s.rows.Keys && forall d :: d in s.rows ==> History(d, s.rows[d], s.step)
  }

  ghost predicate Grows(s: State, s': State) {
    s'.step == s.step + 1 && forall d :: d in s.rows ==> d in s'.rows && Extends(s.rows[d], s'.rows[d], s.step)
  }

  predicate TaskInv(s: State, task: Task) {
    match task
    case ReadCert(row) => Committed(s, row.device, row)
    case Warm(row, version, read) => row.device in s.rows && WasCurrent(s.rows[row.device], row, version, read) && read < s.step
    case Invalidate(d, version) => d in s.rows && version < |s.rows[d]|
    case _ => true
  }

  predicate EntryInv(s: State, d: string, e: Entry) {
    d in s.rows && e.row.device == d && WasCurrent(s.rows[d], e.row, e.version, e.read) && e.read < s.step && e.wrote < s.step
  }

  predicate FlushInv(s: State, f: Flush) {
    && f.at < s.step && f.device in s.rows && f.version < |s.rows[f.device]|
    && (f.device in s.cache && s.cache[f.device].version < f.version ==> f.at < s.cache[f.device].wrote)
  }

  ghost predicate Inv(s: State) {
    && RowsInv(s)
    && (forall t :: t in s.tasks ==> TaskInv(s, s.tasks[t]))
    && (forall d :: d in s.cache ==> EntryInv(s, d, s.cache[d]))
    && (forall i :: 0 <= i < |s.flushes| ==> FlushInv(s, s.flushes[i]))
    && (forall i :: 0 <= i < |s.answers| ==> Committed(s, s.answers[i].device, s.answers[i].row))
  }

  lemma AppendHistory(d: string, vs: seq<Version>, row: Row, step: nat)
    requires History(d, vs, step) && row.device == d
    ensures History(d, vs + [Version(row, step)], step + 1) && Extends(vs, vs + [Version(row, step)], step)
  {
  }

  /** Only inserts and updates touch the rows. */
  lemma OthersLeaveRows(s: State, a: Action)
    requires a.Advance? && a.t in s.tasks ==> !s.tasks[a.t].Insert? && !s.tasks[a.t].Update?
    ensures Step(s, a).rows == s.rows && Step(s, a).certs == s.certs && Step(s, a).step == s.step + 1
  {
  }

  lemma InsertExtends(s: State, a: Action)
    requires a.Advance? && a.t in s.tasks && s.tasks[a.t].Insert? && RowsInv(s)
    ensures var s', d := Step(s, a), s.tasks[a.t].row.device;
      && s'.step == s.step + 1
      && if d in s'.rows && d !in s.rows
         then s'.rows == s.rows[d := [Version(s.tasks[a.t].row, s.step)]] && s'.certs == s.certs + {d}
         else s'.rows == s.rows && s'.certs == s.certs
  {
  }

  lemma UpdateExtends(s: State, a: Action)
    requires a.Advance? && a.t in s.tasks && s.tasks[a.t].Update?
    ensures var s', d := Step(s, a), s.tasks[a.t].device;
      && s'.step == s.step + 1 && s'.certs == s.certs
      && (s'.rows == s.rows || (Exists(s, d) && s'.rows == s.rows[d := s.rows[d] + [Version(Updated(s, d, s.tasks[a.t].status), s.step)]]))
  {
  }

  /** A step keeps the histories and extends at most one. */
  lemma StepKeepsRows(s: State, a: Action)
    requires RowsInv(s)
    ensures RowsInv(Step(s, a)) && Grows(s, Step(s, a))
  {
    var s' := Step(s, a);
    if a.Advance? && a.t in s.tasks && s.tasks[a.t].Insert? {
      InsertExtends(s, a);
    } else if a.Advance? && a.t in s.tasks && s.tasks[a.t].Update? {
      UpdateExtends(s, a);
      var d := s.tasks[a.t].device;
      if s'.rows != s.rows {
        AppendHistory(d, s.rows[d], Updated(s, d, s.tasks[a.t].status), s.step);
      }
    } else {
      OthersLeaveRows(s, a);
    }
  }

  lemma CurrentWasCurrent(s: State, d: string)
    requires RowsInv(s) && Exists(s, d)
    ensures Current(s, d).device == d && WasCurrent(s.rows[d], Current(s, d), |s.rows[d]| - 1, s.step)
    ensures Committed(s, d, Current(s, d))
  {
  }

  lemma CommittedStays(s: State, s': State, d: string, row: Row)
    requires Committed(s, d, row) && Grows(s, s')
    ensures Committed(s', d, row)
  {
    var v :| 0 <= v < |s.rows[d]| && s.rows[d][v].row == row && row.device == d;
    assert s'.rows[d][v] == s.rows[d][v];
  }

  lemma TaskStays(s: State, s': State, task: Task)
    requires TaskInv(s, task) && Grows(s, s')
    ensures TaskInv(s', task)
  {
    if task.Warm? {
      WasCurrentStays(s.rows[task.row.device], s'.rows[task.row.device], s.step, task.row, task.version, task.read);
    } else if task.ReadCert? {
      CommittedStays(s, s', task.row.device, task.row);
    }
  }

  predicate HoldsNothing(task: Task) {
    !task.ReadCert? && !task.Warm? && !task.Invalidate?
  }

  /** A task that a step creates or moves on holds nothing, or what the step has just read or committed. */
  lemma TasksComeFrom(s: State, a: Action, t: nat)
    requires t in Step(s, a).tasks && (t in s.tasks ==> Step(s, a).tasks[t] != s.tasks[t])
    ensures var s', task := Step(s, a), Step(s, a).tasks[t];
      || HoldsNothing(task)
      || (a.Advance? && a.t in s.tasks && !s.tasks[a.t].Insert? && !s.tasks[a.t].Update?
          && exists d :: Exists(s, d) && (task == ReadCert(Current(s, d)) || task == Warm(Current(s, d), |s.rows[d]| - 1, s.step)))
      || (a.Advance? && a.t in s.tasks && s.tasks[a.t].Insert?
          && task == Warm(s.tasks[a.t].row, 0, s.step) && s'.rows == s.rows[task.row.device := [Version(task.row, s.step)]])
      || (a.Advance? && a.t in s.tasks && s.tasks[a.t].Update? && Exists(s, s.tasks[a.t].device)
          && task == Invalidate(s.tasks[a.t].device, |s.rows[s.tasks[a.t].device]|)
          && s'.rows == s.rows[task.device := s.rows[task.device] + [Version(Updated(s, task.device, s.tasks[a.t].status), s.step)]])
  {
    if a.Advance? && a.t in s.tasks && (s.tasks[a.t].ReadRow? || s.tasks[a.t].Refresh?) {
      assert Exists(s, s.tasks[a.t].device) || HoldsNothing(Step(s, a).tasks[t]);
    }
  }

  lemma NewTaskInv(s: State, a: Action, t: nat)
    requires Inv(s) && Grows(s, Step(s, a))
    requires t in Step(s, a).tasks && (t in s.tasks ==> Step(s, a).tasks[t] != s.tasks[t])
    ensures TaskInv(Step(s, a), Step(s, a).tasks[t])
  {
    var s', task := Step(s, a), Step(s, a).tasks[t];
    TasksComeFrom(s, a, t);
    if d :| Exists(s, d) && (task == ReadCert(Current(s, d)) || task == Warm(Current(s, d), |s.rows[d]| - 1, s.step)) {
      CurrentWasCurrent(s, d);
      if !s.tasks[a.t].Insert? && !s.tasks[a.t].Update? {
        OthersLeaveRows(s, a);
      }
    }
  }

  lemma StepKeepsTasks(s: State, a: Action)
    requires Inv(s) && RowsInv(Step(s, a)) && Grows(s, Step(s, a))
    ensures forall t :: t in Step(s, a).tasks ==> TaskInv(Step(s, a), Step(s, a).tasks[t])
  {
    var s' := Step(s, a);
    forall t | t in s'.tasks ensures TaskInv(s', s'.tasks[t]) {
      if t in s.tasks && s'.tasks[t] == s.tasks[t] {
        TaskStays(s, s', s.tasks[t]);
      } else {
        NewTaskInv(s, a, t);
      }
    }
  }

  /** Where a cache entry after a step comes from. */
  lemma EntriesComeFrom(s: State, a: Action, d: string)
    requires d in Step(s, a).cache
    ensures var e := Step(s, a).cache[d];
      || (d in s.cache && e == s.cache[d])
      || (a.Advance? && a.t in s.tasks && s.tasks[a.t].Warm? && s.tasks[a.t].row.device == d
          && e == Entry(s.tasks[a.t].row, s.now + DEVICE_CACHE_TTL, s.tasks[a.t].version, s.tasks[a.t].read, s.step))
  {
  }

  lemma StepKeepsCache(s: State, a: Action)
    requires Inv(s) && Grows(s, Step(s, a))
    ensures forall d :: d in Step(s, a).cache ==> EntryInv(Step(s, a), d, Step(s, a).cache[d])
  {
    var s' := Step(s, a);
    forall d | d in s'.cache ensures EntryInv(s', d, s'.cache[d]) {
      EntriesComeFrom(s, a, d);
      var e := s'.cache[d];
      WasCurrentStays(s.rows[d], s'.rows[d], s.step, e.row, e.version, e.read);
    }
  }

  lemma FlushesComeFrom(s: State, a: Action, i: nat)
    requires i < |Step(s, a).flushes|
    ensures |s.flushes| <= |Step(s, a).flushes|
    ensures if i < |s.flushes| then Step(s, a).flushes[i] == s.flushes[i]
      else a.Advance? && a.t in s.tasks && s.tasks[a.t].Invalidate? && Step(s, a).rows == s.rows
           && Step(s, a).flushes[i] == Flush(s.tasks[a.t].device, s.tasks[a.t].version, s.step)
           && s.tasks[a.t].device !in Step(s, a).cache
  {
  }

  lemma StepKeepsFlushes(s: State, a: Action)
    requires Inv(s) && Grows(s, Step(s, a))
    ensures forall i :: 0 <= i < |Step(s, a).flushes| ==> FlushInv(Step(s, a), Step(s, a).flushes[i])
  {
    var s' := Step(s, a);
    forall i | 0 <= i < |s'.flushes| ensures FlushInv(s', s'.flushes[i]) {
      FlushesComeFrom(s, a, i);
      var f := s'.flushes[i];
      if i < |s.flushes| {
        assert FlushInv(s, f);
        if f.device in s'.cache { EntriesComeFrom(s, a, f.device); }
      }
    }
  }

  lemma AnswersComeFrom(s: State, a: Action, i: nat)
    requires i < |Step(s, a).answers|
    ensures |s.answers| <= |Step(s, a).answers|
    ensures var n := Step(s, a).answers[i];
      if i < |s.answers| then n == s.answers[i]
      else Step(s, a).rows == s.rows && a.Advance? && a.t in s.tasks
           && ((s.tasks[a.t].ReadCache? && Hit(s, s.tasks[a.t].device) && n == Answer(s.tasks[a.t].device, s.cache[s.tasks[a.t].device].row))
               || (s.tasks[a.t].ReadCert? && n == Answer(s.tasks[a.t].row.device, s.tasks[a.t].row)))
  {
  }

  lemma StepKeepsAnswers(s: State, a: Action)
    requires Inv(s) && Grows(s, Step(s, a))
    ensures forall i :: 0 <= i < |Step(s, a).answers| ==> Committed(Step(s, a), Step(s, a).answers[i].device, Step(s, a).answers[i].row)
  {
    var s' := Step(s, a);
    forall i | 0 <= i < |s'.answers| ensures Committed(s', s'.answers[i].device, s'.answers[i].row) {
      AnswersComeFrom(s, a, i);
      var n := s'.answers[i];
      if i < |s.answers| {
        CommittedStays(s, s', n.device, n.row);
      } else if s.tasks[a.t].ReadCache? {
        assert EntryInv(s, n.device, s.cache[n.device]);
      }
    }
  }

  lemma StepKeepsInv(s: State, a: Action)
    requires Inv(s)
    ensures Inv(Step(s, a))
  {
    StepKeepsRows(s, a);
    StepKeepsTasks(s, a);
    StepKeepsCache(s, a);
    StepKeepsFlushes(s, a);
    StepKeepsAnswers(s, a);
  }

  lemma {:induction false} Reachable(now: Micros, schedule: seq<Action>)
    ensures Inv(Run(Init(now), schedule))
  {
    if schedule != [] {
      Reachable(now, schedule[..|schedule| - 1]);
      StepKeepsInv(Run(Init(now), schedule[..|schedule| - 1]), schedule[|schedule| - 1]);
    }
  }

  // ---------- results ----------

  /** Over all interleavings, every cache entry and every GetDevice answer is a committed version of that
      same device's row, and every device row has its certificate row. */
  lemma NeverFabricated(now: Micros, schedule: seq<Action>)
    ensures var s := Run(Init(now), schedule);
      && (forall d :: d in s.cache ==> Committed(s, d, s.cache[d].row))
      && (forall i :: 0 <= i < |s.answers| ==> Committed(s, s.answers[i].device, s.answers[i].row))
      && s.certs == s.rows.Keys
  {
    Reachable(now, schedule);
    var s := Run(Init(now), schedule);
    forall d | d in s.cache ensures Committed(s, d, s.cache[d].row) {
      assert EntryInv(s, d, s.cache[d]);
    }
  }

  lemma OlderStraddles(vs: seq<Version>, d: string, step: nat, e: Entry, version: nat)
    requires History(d, vs, step) && WasCurrent(vs, e.row, e.version, e.read) && e.version < version < |vs|
    ensures e.read < vs[version].at
  {
    if e.version + 1 < version {
      assert vs[e.version + 1].at < vs[version].at;
    }
  }

  /** An entry older than a completed update was read before that update committed
      and written after it had deleted the cache entry: its set was under way throughout. */
  lemma StaleEntryStraddlesUpdate(now: Micros, schedule: seq<Action>, i: nat)
    requires i < |Run(Init(now), schedule).flushes|
    ensures var s := Run(Init(now), schedule);
      var f := s.flushes[i];
      && f.device in s.rows && f.version < |s.rows[f.device]|
      && (f.device in s.cache && s.cache[f.device].version < f.version ==>
            s.cache[f.device].read < s.rows[f.device][f.version].at && f.at < s.cache[f.device].wrote)
  {
    Reachable(now, schedule);
    var s := Run(Init(now), schedule);
    var f := s.flushes[i];
    assert FlushInv(s, f);
    if f.device in s.cache && s.cache[f.device].version < f.version {
      assert EntryInv(s, f.device, s.cache[f.device]);
      OlderStraddles(s.rows[f.device], f.device, s.step, s.cache[f.device], f.version);
    }
  }

  /** The cache shows a version of `d` older than `v`. */
  predicate ShowsOld(s: State, d: string, v: nat) {
    Hit(s, d) && s.cache[d].version < v
  }

  /** Task `t` is about to write such a version. */
  predicate Straggler(s: State, t: nat, d: string, v: nat) {
    t in s.tasks && s.tasks[t].Warm? && s.tasks[t].row.device == d && s.tasks[t].version < v
  }

  ghost predicate Clean(s: State, d: string, v: nat) {
    Inv(s) && d in s.rows && v < |s.rows[d]| && !ShowsOld(s, d, v) && forall t :: !Straggler(s, t, d, v)
  }

  lemma StepShowsNoOld(s: State, a: Action, d: string, v: nat)
    requires !ShowsOld(s, d, v) && forall t :: !Straggler(s, t, d, v)
    ensures !ShowsOld(Step(s, a), d, v)
  {
    if d in Step(s, a).cache {
      EntriesComeFrom(s, a, d);
      if a.Advance? { assert !Straggler(s, a.t, d, v); }
    }
  }

  /** A background write that a step starts is of the current version. */
  lemma NewWarmIsCurrent(s: State, a: Action, t: nat)
    requires RowsInv(s) && t in Step(s, a).tasks && Step(s, a).tasks[t].Warm?
    requires t in s.tasks ==> Step(s, a).tasks[t] != s.tasks[t]
    ensures var task := Step(s, a).tasks[t];
      task.row.device in s.rows ==> task.version + 1 >= |s.rows[task.row.device]|
  {
    TasksComeFrom(s, a, t);
    var task := Step(s, a).tasks[t];
    if x :| Exists(s, x) && task == Warm(Current(s, x), |s.rows[x]| - 1, s.step) {
      CurrentWasCurrent(s, x);
    } else {
      InsertIsNew(s, a);
    }
  }

  lemma InsertIsNew(s: State, a: Action)
    requires a.Advance? && a.t in s.tasks && s.tasks[a.t].Insert?
    ensures Exists(s, s.tasks[a.t].row.device) ==> forall t :: t in Step(s, a).tasks && Step(s, a).tasks[t].Warm? ==> t in s.tasks && s.tasks[t] == Step(s, a).tasks[t]
  {
  }

  lemma StepStaysClean(s: State, a: Action, d: string, v: nat)
    requires Clean(s, d, v)
    ensures Clean(Step(s, a), d, v)
  {
    var s' := Step(s, a);
    StepKeepsInv(s, a);
    StepKeepsRows(s, a);
    StepShowsNoOld(s, a, d, v);
    forall t ensures !Straggler(s', t, d, v) {
      assert !Straggler(s, t, d, v);
      if t in s'.tasks && s'.tasks[t].Warm? && (t in s.tasks ==> s'.tasks[t] != s.tasks[t]) {
        NewWarmIsCurrent(s, a, t);
      }
    }
  }

  lemma {:induction false} RunStaysClean(s: State, schedule: seq<Action>, d: string, v: nat)
    requires Clean(s, d, v)
    ensures Clean(Run(s, schedule), d, v)
  {
    if schedule != [] {
      RunStaysClean(s, schedule[..|schedule| - 1], d, v);
      StepStaysClean(Run(s, schedule[..|schedule| - 1]), schedule[|schedule| - 1], d, v);
    }
  }

  lemma {:induction false} FreshNumber(used: set<nat>) returns (n: nat)
    ensures forall k :: k in used ==> k < n
  {
    if used == {} {
      n := 0;
    } else {
      var m :| m in used;
      var rest := used - {m};
      n := FreshNumber(rest);
      if n <= m { n := m + 1; }
      assert forall k :: k in used ==> k == m || k in rest;
    }
  }

  ghost predicate MayShowOld(s: State, d: string, v: nat) {
    exists schedule :: ShowsOld(Run(s, schedule), d, v)
  }

  lemma StragglerWrites(s: State, t: nat, d: string, v: nat)
    requires Straggler(s, t, d, v)
    ensures MayShowOld(s, d, v)
  {
    var child := FreshNumber(s.tasks.Keys);
    var schedule := [Advance(t, Works, child)];
    assert schedule[..0] == [];
    assert Run(s, schedule) == Step(s, schedule[0]);
    assert ShowsOld(Run(s, schedule), d, v);
  }

  lemma AlreadyShows(s: State, d: string, v: nat)
    requires ShowsOld(s, d, v)
    ensures MayShowOld(s, d, v)
  {
    var none: seq<Action> := [];
    assert ShowsOld(Run(s, none), d, v);
  }

  /** The cache can come to show a version older than `v` exactly when it does already, or a background
      write of such a version is still pending: once those are gone, `v` or newer is all it ever shows. */
  lemma StaleIffStraggler(s: State, d: string, v: nat)
    requires Inv(s) && d in s.rows && v < |s.rows[d]|
    ensures MayShowOld(s, d, v) <==> (ShowsOld(s, d, v) || exists t :: Straggler(s, t, d, v))
  {
    if ShowsOld(s, d, v) {
      AlreadyShows(s, d, v);
    } else if t :| Straggler(s, t, d, v) {
      StragglerWrites(s, t, d, v);
    } else {
      forall schedule ensures !ShowsOld(Run(s, schedule), d, v) {
        RunStaysClean(s, schedule, d, v);
      }
    }
  }

  /** The invalidation's own error is ignored: after an update that went through, the cache still shows an older
      version, with no goroutine involved, if and only if it showed the device before and the deletion failed. */
  lemma FailedInvalidationLeavesOldEntry(s: State, t: nat, child: nat, o: Outcome)
    requires Inv(s) && t in s.tasks && s.tasks[t].Update? && Exists(s, s.tasks[t].device) && child !in s.tasks
    ensures var d := s.tasks[t].device;
      var s' := Step(Step(s, Advance(t, Works, child)), Advance(t, o, child));
      && t in s'.tasks && s'.tasks[t].Ended? && Exists(s', d) && |s'.rows[d]| == |s.rows[d]| + 1
      && (ShowsOld(s', d, |s.rows[d]|) <==> Hit(s, d) && o == FailsClean)
  {
    var d := s.tasks[t].device;
    assert d in s.cache ==> EntryInv(s, d, s.cache[d]);
  }

  /** Undisturbed, an update makes the current row one with the new status and time and every other field as
      before, and leaves no entry in the cache. */
  lemma UpdateTakesEffect(s: State, t: nat, child: nat)
    requires t in s.tasks && s.tasks[t].Update? && Exists(s, s.tasks[t].device) && child !in s.tasks
    ensures var d := s.tasks[t].device;
      var s' := Step(Step(s, Advance(t, Works, child)), Advance(t, Works, child));
      && Exists(s', d) && Current(s', d).status == s.tasks[t].status && Current(s', d).updatedAt == s.now
      && Current(s', d).device == Current(s, d).device && Current(s', d).floor == Current(s, d).floor && Current(s', d).kind == Current(s, d).kind
      && Current(s', d).firmware == Current(s, d).firmware && Current(s', d).createdAt == Current(s, d).createdAt
      && s'.cache == s.cache - {d} && s'.flushes == s.flushes + [Flush(d, |s.rows[d]|, s.step + 1)] && s'.tasks[t] == Ended
  {
  }

  /** A row written to the cache shows for 300 s and no longer. */
  lemma CachedForFiveMinutes(s: State, t: nat, child: nat, elapsed: nat)
    requires t in s.tasks && s.tasks[t].Warm? && child !in s.tasks
    ensures var s', d := Step(Step(s, Advance(t, Works, child)), Tick(elapsed)), s.tasks[t].row.device;
      d in s'.cache && s'.cache[d].row == s.tasks[t].row && (Hit(s', d) <==> elapsed < 300_000_000)
  {
  }

  /** Undisturbed, a GetDevice that misses the cache answers with the current row and starts the write
      that makes the cache show it. */
  lemma MissAnswersCurrentRow(s: State, t: nat, child: nat, child': nat)
    requires RowsInv(s) && t in s.tasks && s.tasks[t].ReadCache? && child !in s.tasks && child' !in s.tasks && child != child'
    requires Exists(s, s.tasks[t].device) && !Hit(s, s.tasks[t].device)
    ensures var d := s.tasks[t].device;
      var s3 := Step(Step(Step(s, Advance(t, Works, child)), Advance(t, Works, child)), Advance(t, Works, child'));
      && s3.answers == s.answers + [Answer(d, Current(s, d))]
      && child in s3.tasks && s3.tasks[child] == Warm(Current(s, d), |s.rows[d]| - 1, s.step + 1)
  {
    var d := s.tasks[t].device;
    CurrentWasCurrent(s, d);
    var s2 := Step(Step(s, Advance(t, Works, child)), Advance(t, Works, child));
    assert s2.tasks[t] == ReadCert(Current(s, d)) && s2.tasks == s.tasks[t := ReadCert(Current(s, d))][child := Warm(Current(s, d), |s.rows[d]| - 1, s.step + 1)];
  }

  // ---------- the service object ----------

  datatype Cached = Cached(row: Row, expiry: Micros)

  /** A missing device is an error like any other: the driver's no-rows error is not the one compared with. */
  datatype Result = Found(row: Row) | Error

  /** A goroutine that has been started and not run yet. */
  datatype Goroutine = CacheDevice(row: Row) | RefreshDevice(device: string)

  /** What the service's stores hold, and the goroutines it has started. */
  datatype View = View(devices: map<string, Row>, certificates: set<string>, cache: map<string, Cached>, spawned: seq<Goroutine>)

  /** Every cached or about-to-be-cached row carries the name it is looked up by, and every device has a certificate. */
  predicate Sound(v: View) {
    && v.certificates == v.devices.Keys
    && (forall d :: d in v.devices ==> v.devices[d].device == d)
    && (forall d :: d in v.cache ==> v.cache[d].row.device == d)
    && (forall g :: g in v.spawned && g.CacheDevice? ==> g.row.device in v.devices)
  }

  predicate Complete(row: Row) {
    row.device != "" && row.floor != "" && row.kind != ""
  }

  /** CreateDevice: the stores afterwards, and whether it reports success. */
  function Create(v: View, row: Row, o: Outcome): (View, bool) {
    if !Complete(row) || row.device in v.devices || o == FailsClean then (v, false)
    else
      var v' := v.(devices := v.devices[row.device := row], certificates := v.certificates + {row.device});
      if o == Works then (v'.(spawned := v.spawned + [CacheDevice(row)]), true) else (v', false)
  }

  function Get(v: View, d: string, now: Micros, cacheOk: bool, dbOk: bool, certOk: bool): (View, Result) {
    if d == "" then (v, Error)
    else if cacheOk && d in v.cache && now < v.cache[d].expiry then (v.(spawned := v.spawned + [RefreshDevice(d)]), Found(v.cache[d].row))
    else if !dbOk || d !in v.devices then (v, Error)
    else (v.(spawned := v.spawned + [CacheDevice(v.devices[d])]), if certOk && d in v.certificates then Found(v.devices[d]) else Error)
  }

  function UpdateStatus(v: View, d: string, status: string, now: Micros, o: Outcome, deleteOk: bool): (View, Result) {
    if d == "" || d !in v.devices || o == FailsClean then (v, Error)
    else
      var row := v.devices[d].(status := status, updatedAt := now);
      var v' := v.(devices := v.devices[d := row]);
      if o == FailsApplied then (v', Error)
      else (if deleteOk then v'.(cache := v.cache - {d}) else v', Found(row))
  }

  /** A goroutine from start to end. */
  function Warmed(v: View, g: Goroutine, now: Micros, dbOk: bool, setOk: bool): View {
    match g
    case CacheDevice(row) => if setOk then v.(cache := v.cache[row.device := Cached(row, now + DEVICE_CACHE_TTL)]) else v
    case RefreshDevice(d) =>
      if dbOk && setOk && d in v.devices then v.(cache := v.cache[v.devices[d].device := Cached(v.devices[d], now + DEVICE_CACHE_TTL)]) else v
  }

  /** When CreateDevice reports success, and the row it then stores. */
  lemma CreateReports(v: View, row: Row, o: Outcome)
    ensures var (v', created) := Create(v, row, o);
      && (created <==> row.device != "" && row.floor != "" && row.kind != "" && row.device !in v.devices && o == Works)
      && (created ==> row.device in v'.devices && v'.devices[row.device] == row && row.device in v'.certificates)
      && (forall d :: d in v.devices ==> d in v'.devices && v'.devices[d] == v.devices[d])
  {
  }

  /** When GetDevice answers a row, which one, and the goroutine it starts. */
  lemma GetAnswers(v: View, d: string, now: Micros, cacheOk: bool, dbOk: bool, certOk: bool)
    requires Sound(v)
    ensures var (v', r) := Get(v, d, now, cacheOk, dbOk, certOk);
      var hit := d != "" && cacheOk && d in v.cache && now < v.cache[d].expiry;
      var read := d != "" && !hit && dbOk && d in v.devices;
      && (r.Found? <==> hit || (read && certOk))
      && (hit ==> r == Found(v.cache[d].row)) && (read && certOk ==> r == Found(v.devices[d]))
      && v'.devices == v.devices && v'.certificates == v.certificates && v'.cache == v.cache
      && v'.spawned == v.spawned + if hit then [RefreshDevice(d)] else if read then [CacheDevice(v.devices[d])] else []
  {
    assert v.spawned + [] == v.spawned;
  }

  /** `after` is `before` with another status and time of update. */
  predicate Restated(before: Row, after: Row, status: string, now: Micros) {
    && after.status == status && after.updatedAt == now
    && after.device == before.device && after.floor == before.floor && after.kind == before.kind
    && after.firmware == before.firmware && after.createdAt == before.createdAt
  }

  /** What UpdateDeviceStatus answers: a row exactly when the update goes through, and then the one now stored, with
      the new status and time and every other field as before; a GetDevice that misses the cache right
      after answers the same row. */
  lemma UpdateAnswers(v: View, d: string, status: string, now: Micros, o: Outcome, deleteOk: bool, later: Micros, cacheOk: bool)
    requires Sound(v)
    ensures var (v', r) := UpdateStatus(v, d, status, now, o, deleteOk);
      && (r.Found? <==> d != "" && d in v.devices && o == Works)
      && (r.Found? ==>
            && d in v'.devices && r.row == v'.devices[d] && Restated(v.devices[d], r.row, status, now)
            && (deleteOk ==> d !in v'.cache)
            && (!(cacheOk && d in v'.cache && later < v'.cache[d].expiry) ==> Get(v', d, later, cacheOk, true, true).1 == Found(r.row)))
      && (forall x :: x in v.devices && x != d ==> x in v'.devices && v'.devices[x] == v.devices[x])
  {
  }

  class DeviceService {
    var devices: map<string, Row>
    var certificates: set<string>
    var cache: map<string, Cached>
    var spawned: seq<Goroutine>

    function Fields(): View
      reads this
    {
      View(devices, certificates, cache, spawned)
    }

    constructor ()
      ensures Sound(Fields()) && Fields() == View(map[], {}, map[], [])
    {
      devices, certificates, cache, spawned := map[], {}, map[], [];
    }

    method CreateDevice(row: Row, outcome: Outcome) returns (created: bool)
      requires Sound(Fields())
      modifies this
      ensures Sound(Fields()) && (Fields(), created) == Create(old(Fields()), row, outcome)
      ensures created <==> row.device != "" && row.floor != "" && row.kind != "" && row.device !in old(devices) && outcome == Works
    {
      if row.device == "" || row.floor == "" || row.kind == "" {
        return false;
      }
      if row.device in devices {
        return false;
      }
      // Both rows go in, or neither.
      if outcome == FailsClean {
        return false;
      }
      devices := devices[row.device := row];
      certificates := certificates + {row.device};
      if outcome == FailsApplied {
        return false;
      }
      spawned := spawned + [CacheDevice(row)];
      created := true;
    }

    method GetDevice(d: string, now: Micros, cacheOk: bool, dbOk: bool, certOk: bool) returns (r: Result)
      requires Sound(Fields())
      modifies this`spawned
      ensures Sound(Fields()) && (Fields(), r) == Get(old(Fields()), d, now, cacheOk, dbOk, certOk)
    {
      if d == "" {
        return Error;
      }
      if cacheOk && d in cache && now < cache[d].expiry {
        spawned := spawned + [RefreshDevice(d)];
        return Found(cache[d].row);
      }
      if !dbOk {
        return Error;
      }
      if d !in devices {
        return Error;
      }
      var row := devices[d];
      spawned := spawned + [CacheDevice(row)];
      if !certOk || d !in certificates {
        return Error;
      }
      r := Found(row);
    }

    method UpdateDeviceStatus(d: string, status: string, now: Micros, outcome: Outcome, deleteOk: bool) returns (r: Result)
      requires Sound(Fields())
      modifies this`devices, this`cache
      ensures Sound(Fields()) && (Fields(), r) == UpdateStatus(old(Fields()), d, status, now, outcome, deleteOk)
      ensures r.Found? <==> d != "" && d in old(devices) && outcome == Works
      ensures r.Found? ==> d in devices && r.row == devices[d] && Restated(old(devices)[d], r.row, status, now)
    {
      if d == "" {
        return Error;
      }
      if outcome == FailsClean || d !in devices {
        return Error;
      }
      devices := devices[d := devices[d].(status := status, updatedAt := now)];
      if outcome == FailsApplied {
        return Error;
      }
      if deleteOk {
        cache := cache - {d};
      }
      r := Found(devices[d]);
    }

    /** The oldest goroutine runs to its end. */
    method RunGoroutine(now: Micros, dbOk: bool, setOk: bool)
      requires Sound(Fields()) && spawned != []
      modifies this`spawned, this`cache
      ensures Sound(Fields()) && Fields() == Warmed(old(Fields()), old(spawned)[0], now, dbOk, setOk).(spawned := old(spawned)[1..])
    {
      var g := spawned[0];
      spawned := spawned[1..];
      var row;
      if g.RefreshDevice? {
        if !dbOk || g.device !in devices {
          return;
        }
        row := devices[g.device];
      } else {
        row := g.row;
      }
      if setOk {
        cache := cache[row.device := Cached(row, now + DEVICE_CACHE_TTL)];
      }
    }
  }

  // ---------- the methods as runs ----------

  /** The service's stores are those of the step system, without its history. */
  ghost predicate Mirrors(v: View, s: State) {
    && v.certificates == s.certs
    && (forall d :: d in v.devices <==> Exists(s, d))
    && (forall d :: d in v.devices ==> v.devices[d] == Current(s, d))
    && v.cache.Keys == s.cache.Keys
    && (forall d :: d in v.cache ==> v.cache[d] == Cached(s.cache[d].row, s.cache[d].expiry))
  }

  /** Task `t` of the step system is goroutine `g`. */
  predicate Awaits(s: State, t: nat, g: Goroutine) {
    t in s.tasks && match g
      case CacheDevice(row) => s.tasks[t].Warm? && s.tasks[t].row == row
      case RefreshDevice(d) => s.tasks[t] == Refresh(d)
  }

  /** A call started goroutine `child`, or none. */
  ghost predicate Starts(v: View, v': View, s': State, child: nat) {
    v'.spawned == v.spawned || exists g :: v'.spawned == v.spawned + [g] && Awaits(s', child, g)
  }

  function Told(ok: bool): Outcome {
    if ok then Works else FailsClean
  }

  ghost predicate Unused(s: State, t: nat) {
    forall k :: k >= t ==> k !in s.tasks
  }

  lemma MirrorsStay(v: View, v': View, s: State, s': State)
    requires Mirrors(v, s) && s'.rows == s.rows && s'.certs == s.certs && s'.cache == s.cache && v' == v.(spawned := v'.spawned)
    ensures Mirrors(v', s')
  {
    assert forall d :: Exists(s', d) <==> Exists(s, d);
  }

  lemma MirrorsInsert(v: View, s: State, s': State, row: Row, at: nat)
    requires Mirrors(v, s) && s'.rows == s.rows[row.device := [Version(row, at)]] && s'.certs == s.certs + {row.device} && s'.cache == s.cache
    ensures Mirrors(v.(devices := v.devices[row.device := row], certificates := v.certificates + {row.device}), s')
  {
    assert forall d :: d != row.device ==> (Exists(s', d) <==> Exists(s, d));
  }

  lemma MirrorsUpdate(v: View, s: State, s': State, d: string, row: Row, at: nat)
    requires Mirrors(v, s) && Exists(s, d) && s'.rows == s.rows[d := s.rows[d] + [Version(row, at)]] && s'.certs == s.certs && s'.cache == s.cache
    ensures Mirrors(v.(devices := v.devices[d := row]), s')
  {
    assert forall x :: x != d ==> (Exists(s', x) <==> Exists(s, x));
  }

  lemma MirrorsCache(v: View, v': View, s: State, s': State)
    requires Mirrors(v, s) && s'.rows == s.rows && s'.certs == s.certs && v' == v.(cache := v'.cache) && v'.cache.Keys == s'.cache.Keys
    requires forall d :: d in v'.cache ==> v'.cache[d] == Cached(s'.cache[d].row, s'.cache[d].expiry)
    ensures Mirrors(v', s')
  {
    assert forall d :: Exists(s', d) <==> Exists(s, d);
  }

  lemma CheckSteps(s: State, t: nat, row: Row)
    requires Unused(s, t)
    ensures var s2 := Step(Step(s, Begin(t, CheckNew(row))), Advance(t, Works, t + 1));
      && s2.rows == s.rows && s2.certs == s.certs && s2.cache == s.cache && t + 1 !in s2.tasks
      && t in s2.tasks && s2.tasks[t] == if Complete(row) && !Exists(s, row.device) then Insert(row) else Ended
  {
  }

  lemma InsertStep(s: State, t: nat, o: Outcome)
    requires t in s.tasks && t + 1 !in s.tasks && (s.tasks[t].Ended? || (s.tasks[t].Insert? && !Exists(s, s.tasks[t].row.device)))
    ensures var s' := Step(s, Advance(t, o, t + 1));
      && s'.cache == s.cache
      && if s.tasks[t].Ended? || o == FailsClean then s'.rows == s.rows && s'.certs == s.certs
         else
           var row := s.tasks[t].row;
           && s'.rows == s.rows[row.device := [Version(row, s.step)]] && s'.certs == s.certs + {row.device}
           && (o == Works ==> Awaits(s', t + 1, CacheDevice(row)))
  {
  }

  /** CreateDevice is a run of its task, with the same rows, certificates and goroutine. */
  lemma CreateImplementsSteps(v: View, s: State, t: nat, row: Row, o: Outcome)
    requires Mirrors(v, s) && Unused(s, t)
    ensures var s' := Run(s, [Begin(t, CheckNew(row)), Advance(t, Works, t + 1), Advance(t, o, t + 1)]);
      && Mirrors(Create(v, row, o).0, s') && Starts(v, Create(v, row, o).0, s', t + 1)
      && (Create(v, row, o).1 <==> row.device != "" && row.floor != "" && row.kind != "" && !Exists(s, row.device) && o == Works)
  {
    var s2 := Step(Step(s, Begin(t, CheckNew(row))), Advance(t, Works, t + 1));
    var s' := Step(s2, Advance(t, o, t + 1));
    RunThree(s, Begin(t, CheckNew(row)), Advance(t, Works, t + 1), Advance(t, o, t + 1));
    CheckSteps(s, t, row);
    InsertStep(s2, t, o);
    MirrorsStay(v, v, s, s2);
    var v1 := v.(devices := v.devices[row.device := row], certificates := v.certificates + {row.device});
    if s2.tasks[t].Ended? || o == FailsClean {
      MirrorsStay(v, v, s2, s');
    } else {
      MirrorsInsert(v, s2, s', row, s2.step);
      MirrorsStay(v1, Create(v, row, o).0, s', s');
    }
  }

  lemma ReadCacheSteps(s: State, t: nat, d: string, cacheOk: bool)
    requires Unused(s, t) && d != ""
    ensures var s2 := Step(Step(s, Begin(t, ReadCache(d))), Advance(t, Told(cacheOk), t + 1));
      && s2.rows == s.rows && s2.certs == s.certs && s2.cache == s.cache && t + 2 !in s2.tasks && t + 3 !in s2.tasks && t in s2.tasks
      && if cacheOk && Hit(s, d) then s2.tasks[t] == Ended && Awaits(s2, t + 1, RefreshDevice(d)) && s2.answers == s.answers + [Answer(d, s.cache[d].row)]
         else s2.tasks[t] == ReadRow(d) && t + 1 !in s2.tasks && s2.answers == s.answers
  {
  }

  lemma EndedSteps(s: State, t: nat, a: nat, o: Outcome)
    requires t in s.tasks && s.tasks[t].Ended?
    ensures Step(s, Advance(t, o, a)) == s.(step := s.step + 1)
  {
  }

  lemma ReadRowStep(s: State, t: nat, dbOk: bool)
    requires t in s.tasks && s.tasks[t].ReadRow? && t + 1 !in s.tasks && t + 2 !in s.tasks
    ensures var s', d := Step(s, Advance(t, Told(dbOk), t + 1)), s.tasks[t].device;
      && s'.rows == s.rows && s'.certs == s.certs && s'.cache == s.cache && s'.answers == s.answers && t in s'.tasks && t + 2 !in s'.tasks
      && if dbOk && Exists(s, d) then s'.tasks[t] == ReadCert(Current(s, d)) && Awaits(s', t + 1, CacheDevice(Current(s, d)))
         else s'.tasks[t] == Ended
  {
  }

  lemma ReadCertStep(s: State, t: nat, certOk: bool)
    requires t in s.tasks && s.tasks[t].ReadCert? && t + 2 !in s.tasks
    ensures var s', row := Step(s, Advance(t, Told(certOk), t + 2)), s.tasks[t].row;
      && s'.rows == s.rows && s'.certs == s.certs && s'.cache == s.cache && s'.tasks == s.tasks[t := Ended]
      && s'.answers == s.answers + if certOk && row.device in s.certs then [Answer(row.device, row)] else []
  {
    assert s.answers + [] == s.answers;
  }

  /** The cache hit: the answer is given and the goroutine started; the call has ended. */
  lemma HitSteps(s: State, t: nat, d: string, dbOk: bool, certOk: bool)
    requires Unused(s, t) && d != "" && Hit(s, d)
    ensures var s2 := Step(Step(s, Begin(t, ReadCache(d))), Advance(t, Told(true), t + 1));
      var s' := Step(Step(s2, Advance(t, Told(dbOk), t + 2)), Advance(t, Told(certOk), t + 3));
      && s'.rows == s.rows && s'.certs == s.certs && s'.cache == s.cache
      && Awaits(s', t + 1, RefreshDevice(d)) && s'.answers == s.answers + [Answer(d, s.cache[d].row)]
  {
    var s2 := Step(Step(s, Begin(t, ReadCache(d))), Advance(t, Told(true), t + 1));
    ReadCacheSteps(s, t, d, true);
    EndedSteps(s2, t, t + 2, Told(dbOk));
    EndedSteps(Step(s2, Advance(t, Told(dbOk), t + 2)), t, t + 3, Told(certOk));
  }

  /** The cache miss: the row decides, then the certificate. */
  lemma MissSteps(s: State, t: nat, d: string, cacheOk: bool, dbOk: bool, certOk: bool)
    requires RowsInv(s) && Unused(s, t) && d != "" && !(cacheOk && Hit(s, d))
    ensures var s2 := Step(Step(s, Begin(t, ReadCache(d))), Advance(t, Told(cacheOk), t + 1));
      var s' := Step(Step(s2, Advance(t, Told(dbOk), t + 1)), Advance(t, Told(certOk), t + 2));
      && s'.rows == s.rows && s'.certs == s.certs && s'.cache == s.cache
      && (dbOk && Exists(s, d) ==> Awaits(s', t + 1, CacheDevice(Current(s, d))))
      && s'.answers == s.answers + if dbOk && Exists(s, d) && certOk then [Answer(d, Current(s, d))] else []
  {
    var s2 := Step(Step(s, Begin(t, ReadCache(d))), Advance(t, Told(cacheOk), t + 1));
    var s3 := Step(s2, Advance(t, Told(dbOk), t + 1));
    ReadCacheSteps(s, t, d, cacheOk);
    ReadRowStep(s2, t, dbOk);
    assert s.answers + [] == s.answers;
    if dbOk && Exists(s, d) {
      CurrentWasCurrent(s, d);
      ReadCertStep(s3, t, certOk);
    } else {
      EndedSteps(s3, t, t + 2, Told(certOk));
    }
  }

  /** GetDevice, when it finds the device cached, is a run of its task, with the same answer and goroutine ... */
  lemma HitImplementsSteps(v: View, s: State, t: nat, d: string, dbOk: bool, certOk: bool)
    requires Mirrors(v, s) && Unused(s, t) && d != "" && Hit(s, d)
    ensures var s' := Run(s, [Begin(t, ReadCache(d)), Advance(t, Told(true), t + 1), Advance(t, Told(dbOk), t + 2), Advance(t, Told(certOk), t + 3)]);
      var (v', r) := Get(v, d, s.now, true, dbOk, certOk);
      Mirrors(v', s') && Starts(v, v', s', t + 1) && r.Found? && s'.answers == s.answers + [Answer(d, r.row)]
  {
    RunFour(s, Begin(t, ReadCache(d)), Advance(t, Told(true), t + 1), Advance(t, Told(dbOk), t + 2), Advance(t, Told(certOk), t + 3));
    HitSteps(s, t, d, dbOk, certOk);
    MirrorsStay(v, Get(v, d, s.now, true, dbOk, certOk).0, s,
      Run(s, [Begin(t, ReadCache(d)), Advance(t, Told(true), t + 1), Advance(t, Told(dbOk), t + 2), Advance(t, Told(certOk), t + 3)]));
  }

  /** ... and so it is when it does not, or the cache fails. */
  lemma MissImplementsSteps(v: View, s: State, t: nat, d: string, cacheOk: bool, dbOk: bool, certOk: bool)
    requires Mirrors(v, s) && RowsInv(s) && Unused(s, t) && d != "" && !(cacheOk && Hit(s, d))
    ensures var s' := Run(s, [Begin(t, ReadCache(d)), Advance(t, Told(cacheOk), t + 1), Advance(t, Told(dbOk), t + 1), Advance(t, Told(certOk), t + 2)]);
      var (v', r) := Get(v, d, s.now, cacheOk, dbOk, certOk);
      Mirrors(v', s') && Starts(v, v', s', t + 1) && s'.answers == s.answers + if r.Found? then [Answer(d, r.row)] else []
  {
    RunFour(s, Begin(t, ReadCache(d)), Advance(t, Told(cacheOk), t + 1), Advance(t, Told(dbOk), t + 1), Advance(t, Told(certOk), t + 2));
    MissSteps(s, t, d, cacheOk, dbOk, certOk);
    MirrorsStay(v, Get(v, d, s.now, cacheOk, dbOk, certOk).0, s,
      Run(s, [Begin(t, ReadCache(d)), Advance(t, Told(cacheOk), t + 1), Advance(t, Told(dbOk), t + 1), Advance(t, Told(certOk), t + 2)]));
  }

  lemma UpdateStep(s: State, t: nat, d: string, status: string, o: Outcome)
    requires Unused(s, t) && d != ""
    ensures var s2 := Step(Step(s, Begin(t, Update(d, status))), Advance(t, o, t + 1));
      && s2.certs == s.certs && s2.cache == s.cache && t in s2.tasks && t + 1 !in s2.tasks
      && if Exists(s, d) && o != FailsClean then
           && s2.rows == s.rows[d := s.rows[d] + [Version(Updated(s, d, status), s.step + 1)]]
           && s2.tasks[t] == if o == Works then Invalidate(d, |s.rows[d]|) else Ended
         else s2.rows == s.rows && s2.tasks[t] == Ended
  {
  }

  lemma InvalidateStep(s: State, t: nat, deleteOk: bool)
    requires t in s.tasks && s.tasks[t].Invalidate? && t + 1 !in s.tasks
    ensures var s' := Step(s, Advance(t, Told(deleteOk), t + 1));
      s'.rows == s.rows && s'.certs == s.certs && s'.cache == if deleteOk then s.cache - {s.tasks[t].device} else s.cache
  {
  }

  lemma UpdateEnds(v1: View, s2: State, t: nat, deleteOk: bool)
    requires Mirrors(v1, s2) && t in s2.tasks && t + 1 !in s2.tasks && (s2.tasks[t].Invalidate? || s2.tasks[t].Ended?)
    ensures Mirrors(if s2.tasks[t].Invalidate? && deleteOk then v1.(cache := v1.cache - {s2.tasks[t].device}) else v1,
      Step(s2, Advance(t, Told(deleteOk), t + 1)))
  {
    var s' := Step(s2, Advance(t, Told(deleteOk), t + 1));
    if s2.tasks[t].Invalidate? {
      InvalidateStep(s2, t, deleteOk);
      MirrorsCache(v1, if deleteOk then v1.(cache := v1.cache - {s2.tasks[t].device}) else v1, s2, s');
    } else {
      EndedSteps(s2, t, t + 1, Told(deleteOk));
      MirrorsStay(v1, v1, s2, s');
    }
  }

  /** UpdateDeviceStatus is a run of its task, with the same row and cache. */
  lemma UpdateImplementsSteps(v: View, s: State, t: nat, d: string, status: string, o: Outcome, deleteOk: bool)
    requires Mirrors(v, s) && Unused(s, t) && d != ""
    ensures var s' := Run(s, [Begin(t, Update(d, status)), Advance(t, o, t + 1), Advance(t, Told(deleteOk), t + 1)]);
      var (v', r) := UpdateStatus(v, d, status, s.now, o, deleteOk);
      && Mirrors(v', s')
      && (r.Found? <==> Exists(s, d) && o == Works)
      && (r.Found? ==> Exists(s', d) && r.row == Current(s', d))
  {
    var s2 := Step(Step(s, Begin(t, Update(d, status))), Advance(t, o, t + 1));
    RunThree(s, Begin(t, Update(d, status)), Advance(t, o, t + 1), Advance(t, Told(deleteOk), t + 1));
    UpdateStep(s, t, d, status, o);
    if Exists(s, d) && o != FailsClean {
      assert v.devices[d] == Current(s, d);
      MirrorsUpdate(v, s, s2, d, Updated(s, d, status), s.step + 1);
      UpdateEnds(v.(devices := v.devices[d := Updated(s, d, status)]), s2, t, deleteOk);
    } else {
      MirrorsStay(v, v, s, s2);
      UpdateEnds(v, s2, t, deleteOk);
    }
  }

  lemma WarmStep(s: State, t: nat, child: nat, setOk: bool)
    requires t in s.tasks && s.tasks[t].Warm? && child !in s.tasks
    ensures var s', task := Step(s, Advance(t, Told(setOk), child)), s.tasks[t];
      && s'.rows == s.rows && s'.certs == s.certs
      && s'.cache == if setOk then s.cache[task.row.device := Entry(task.row, s.now + DEVICE_CACHE_TTL, task.version, task.read, s.step)] else s.cache
  {
  }

  lemma RefreshStep(s: State, t: nat, child: nat, dbOk: bool)
    requires t in s.tasks && s.tasks[t].Refresh? && child !in s.tasks
    ensures var s', d := Step(s, Advance(t, Told(dbOk), child)), s.tasks[t].device;
      && s'.rows == s.rows && s'.certs == s.certs && s'.cache == s.cache && s'.now == s.now && t in s'.tasks && child !in s'.tasks
      && if dbOk && Exists(s, d) then Awaits(s', t, CacheDevice(Current(s, d))) else s'.tasks[t] == Ended
  {
  }

  lemma WarmMirrors(v: View, s: State, t: nat, row: Row, child: nat, setOk: bool)
    requires Mirrors(v, s) && Awaits(s, t, CacheDevice(row)) && child !in s.tasks
    ensures Mirrors(if setOk then v.(cache := v.cache[row.device := Cached(row, s.now + DEVICE_CACHE_TTL)]) else v, Step(s, Advance(t, Told(setOk), child)))
  {
    WarmStep(s, t, child, setOk);
    MirrorsCache(v, if setOk then v.(cache := v.cache[row.device := Cached(row, s.now + DEVICE_CACHE_TTL)]) else v, s, Step(s, Advance(t, Told(setOk), child)));
  }

  lemma RefreshMirrors(v: View, s: State, t: nat, d: string, child: nat, dbOk: bool, setOk: bool)
    requires Mirrors(v, s) && Awaits(s, t, RefreshDevice(d)) && child !in s.tasks
    ensures Mirrors(Warmed(v, RefreshDevice(d), s.now, dbOk, setOk), Step(Step(s, Advance(t, Told(dbOk), child)), Advance(t, Told(setOk), child)))
  {
    var s1 := Step(s, Advance(t, Told(dbOk), child));
    RefreshStep(s, t, child, dbOk);
    MirrorsStay(v, v, s, s1);
    if dbOk && Exists(s, d) {
      WarmMirrors(v, s1, t, Current(s, d), child, setOk);
    } else {
      EndedSteps(s1, t, child, Told(setOk));
      MirrorsStay(v, v, s1, Step(s1, Advance(t, Told(setOk), child)));
    }
  }

  /** A goroutine is a run of its task, with the same cache. */
  lemma GoroutineImplementsSteps(v: View, s: State, t: nat, g: Goroutine, child: nat, dbOk: bool, setOk: bool)
    requires Mirrors(v, s) && Awaits(s, t, g) && child !in s.tasks
    ensures var write := [Advance(t, Told(setOk), child)];
      Mirrors(Warmed(v, g, s.now, dbOk, setOk), Run(s, if g.CacheDevice? then write else [Advance(t, Told(dbOk), child)] + write))
  {
    var read, write := Advance(t, Told(dbOk), child), Advance(t, Told(setOk), child);
    match g
    case CacheDevice(row) =>
      RunOne(s, write);
      WarmMirrors(v, s, t, row, child, setOk);
    case RefreshDevice(d) =>
      RunOne(s, read);
      RunOne(Step(s, read), write);
      RunAppends(s, [read], [write]);
      RefreshMirrors(v, s, t, d, child, dbOk, setOk);
  }
}
