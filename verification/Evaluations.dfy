/** The evaluator's loop as a run of the alerting step system. */
module Evaluations {
  import opened Common
  import opened Keys
  import opened Thresholds
  import opened Alerts
  import opened Evaluator

  /** What is left to do for a threshold. */
  function Rank(pc: Pc): nat {
    match pc
    case Store(_, _) => 6
    case Decide(_) => 5
    case Check(_) => 4
    case Record(_, _) => 3
    case Publish(_, _) => 2
    case Mark(_, _) => 1
    case _ => 0
  }

  function Delay(now: Micros, pc: Pc, v: Visit): nat {
    if pc.Check? && now < v.checkAt then v.checkAt - now
    else if pc.Record? && now < v.insertAt then v.insertAt - now
    else if pc.Mark? && now < v.setAt then v.setAt - now
    else 0
  }

  function Answer(pc: Pc, v: Visit): Outcome {
    match pc
    case Decide(_) => v.insert
    case Check(_) => if v.getOk then Works else FailsClean
    case Record(_, _) => v.insert
    case Mark(_, _) => v.mark
    case _ => Works
  }

  /** The evaluation's next step, at its time. */
  function Move(s: State, e: nat, v: Visit): State
    requires e in s.evals
  {
    var pc := s.evals[e].pc;
    Step(Step(s, Tick(Delay(s.now, pc, v))), Advance(e, Answer(pc, v)))
  }

  lemma MoveIs(s: State, e: nat, v: Visit)
    requires e in s.evals
    ensures var pc := s.evals[e].pc;
      var s0 := s.(now := s.now + Delay(s.now, pc, v));
      var fx := AdvanceEval(s0, e, Answer(pc, v));
      && Move(s, e, v) == fx.state.(log := s.log + fx.events)
      && (fx.events == [] ==> Move(s, e, v).log == s.log)
  {
    assert s.log + [] == s.log;
  }

  /** Each step brings the end of the threshold nearer. */
  lemma MoveRanks(s: State, e: nat, v: Visit)
    requires e in s.evals
    ensures e in Move(s, e, v).evals
    ensures var n, n' := Rank(s.evals[e].pc), Rank(Move(s, e, v).evals[e].pc);
      n > 0 ==> n' < n
  {
    MoveIs(s, e, v);
  }

  /** The steps to the end of the threshold the evaluation is at. */
  function Finish(s: State, e: nat, v: Visit): State
    requires e in s.evals
    decreases Rank(s.evals[e].pc)
  {
    if Rank(s.evals[e].pc) == 0 then s
    else
      MoveRanks(s, e, v);
      Finish(Move(s, e, v), e, v)
  }

  /** One turn of the loop, as steps. */
  function Turn(s: State, e: nat, v: Visit): State
    requires e in s.evals
  {
    MoveRanks(s, e, v);
    Finish(Move(s, e, v), e, v)
  }

  /** What the log tells of an alert row. */
  datatype Row = Row(device: string, silenced: bool)

  function LoggedRows(log: seq<Event>): seq<Row> {
    if log == [] then []
    else
      var v := log[|log| - 1];
      LoggedRows(log[..|log| - 1])
      + if v.Recorded? then [Row(v.device, false)] else if v.RecordedSilenced? then [Row(v.device, true)] else []
  }

  function LoggedPublications(log: seq<Event>): seq<string> {
    if log == [] then []
    else
      var v := log[|log| - 1];
      LoggedPublications(log[..|log| - 1]) + if v.Published? then [v.device] else []
  }

  function RowsOf(alerts: seq<Alert>): seq<Row> {
    seq(|alerts|, i requires 0 <= i < |alerts| => Row(alerts[i].device, alerts[i].silenced))
  }

  function DevicesOf(published: seq<Publication>): seq<string> {
    seq(|published|, i requires 0 <= i < |published| => published[i].alert.device)
  }

  /** The stores of the loop and the state of the step system agree: same history and keys, and the log
      tells of the same alert rows and publications in the same order. */
  ghost predicate Mirrors(w: World, s: State) {
    && w.history == s.history && w.redis == s.redis
    && RowsOf(w.alerts) == LoggedRows(s.log) && DevicesOf(w.published) == LoggedPublications(s.log)
  }

  /** Evaluation `e` is for `q`, past its lookup, and about to do `pc`. */
  predicate Stands(s: State, e: nat, q: Request, pc: Pc) {
    e in s.evals && s.evals[e] == Eval(q.device, q.metric, q.value, q.thresholds, q.silenced, pc)
  }

  lemma LogOne(log: seq<Event>, v: Event)
    ensures LoggedRows(log + [v]) == LoggedRows(log) + if v.Recorded? then [Row(v.device, false)] else if v.RecordedSilenced? then [Row(v.device, true)] else []
    ensures LoggedPublications(log + [v]) == LoggedPublications(log) + if v.Published? then [v.device] else []
  {
    assert (log + [v])[..|log|] == log;
  }

  lemma AlertOne(alerts: seq<Alert>, a: Alert)
    ensures RowsOf(alerts + [a]) == RowsOf(alerts) + [Row(a.device, a.silenced)]
  {
  }

  lemma PublishOne(published: seq<Publication>, p: Publication)
    ensures DevicesOf(published + [p]) == DevicesOf(published) + [p.alert.device]
  {
  }

  lemma MarkMirrors(w: World, s: State, e: nat, q: Request, v: Visit, i: nat, c: nat)
    requires Stands(s, e, q, Mark(i, c)) && Mirrors(w, s) && s.now <= v.setAt
    ensures var s' := Finish(s, e, v);
      && Stands(s', e, q, Scan(i + 1)) && s'.now == v.setAt
      && Mirrors(w.(redis := if v.mark == FailsClean then w.redis else w.redis[q.device := v.setAt + ALERT_TTL]), s')
  {
    MoveIs(s, e, v);
    LogOne(s.log, KeySet(q.device, v.setAt));
  }

  lemma PublishMirrors(w: World, s: State, e: nat, q: Request, v: Visit, i: nat, c: nat, alert: Alert)
    requires Stands(s, e, q, Publish(i, c)) && Mirrors(w, s) && s.now <= v.setAt && alert.device == q.device
    ensures var s' := Finish(s, e, v);
      && Stands(s', e, q, Scan(i + 1)) && s'.now == v.setAt
      && Mirrors(w.(published := w.published + [Publication(alert, v.checkAt, v.insertAt, v.setAt)],
                    redis := if v.mark == FailsClean then w.redis else w.redis[q.device := v.setAt + ALERT_TTL]), s')
  {
    MoveIs(s, e, v);
    LogOne(s.log, Published(q.device, s.now, e));
    PublishOne(w.published, Publication(alert, v.checkAt, v.insertAt, v.setAt));
    MarkMirrors(w.(published := w.published + [Publication(alert, v.checkAt, v.insertAt, v.setAt)]), Move(s, e, v), e, q, v, i, c);
  }

  lemma RecordMoves(w: World, s: State, e: nat, q: Request, v: Visit, i: nat, c: nat, alert: Alert)
    requires Stands(s, e, q, Record(i, c)) && Mirrors(w, s) && s.now <= v.insertAt && alert.device == q.device && !alert.silenced
    ensures var s' := Move(s, e, v);
      && Stands(s', e, q, if v.insert == Works then Publish(i, c) else Scan(i + 1)) && s'.now == v.insertAt
      && Mirrors(if v.insert == FailsClean then w else w.(alerts := w.alerts + [alert]), s')
      && Finish(s, e, v) == Finish(s', e, v)
  {
    MoveIs(s, e, v);
    LogOne(s.log, Recorded(q.device, v.insertAt, e, c));
    AlertOne(w.alerts, alert);
  }

  lemma RecordMirrors(w: World, s: State, e: nat, q: Request, v: Visit, i: nat, c: nat, alert: Alert)
    requires Stands(s, e, q, Record(i, c)) && Mirrors(w, s) && s.now <= v.insertAt <= v.setAt && alert.device == q.device && !alert.silenced
    ensures var s' := Finish(s, e, v);
      && Stands(s', e, q, Scan(i + 1)) && s'.now <= v.setAt
      && Mirrors(Alarm(w, q, alert, v), s')
  {
    RecordMoves(w, s, e, q, v, i, c, alert);
    if v.insert == Works {
      PublishMirrors(w.(alerts := w.alerts + [alert]), Move(s, e, v), e, q, v, i, c, alert);
    }
  }

  lemma CheckMirrors(w: World, s: State, e: nat, q: Request, v: Visit, i: nat, alert: Alert)
    requires Stands(s, e, q, Check(i)) && Mirrors(w, s) && s.now <= v.checkAt <= v.insertAt <= v.setAt && alert.device == q.device && !alert.silenced
    ensures var s' := Finish(s, e, v);
      && Stands(s', e, q, Scan(i + 1)) && s'.now <= v.setAt
      && Mirrors(if Suppressed(w.redis, q.device, v) then w else Alarm(w, q, alert, v), s')
  {
    MoveIs(s, e, v);
    var passed := !Suppressed(w.redis, q.device, v);
    LogOne(s.log, Checked(q.device, v.checkAt, e, v.getOk, passed));
    if passed {
      RecordMirrors(w, Move(s, e, v), e, q, v, i, |s.log|, alert);
    }
  }

  /** A threshold that fired, from the silence test on. */
  lemma DecideMirrors(w: World, s: State, e: nat, q: Request, v: Visit, i: nat)
    requires i < |q.thresholds| && Stands(s, e, q, Decide(i)) && Mirrors(w, s) && s.now <= v.checkAt <= v.insertAt <= v.setAt
    ensures var s' := Finish(s, e, v);
      var alert := MakeAlert(q, q.thresholds[i], v.triggeredAt);
      && Stands(s', e, q, Scan(i + 1)) && s'.now <= v.setAt
      && Mirrors(
           if q.silenced then (if v.insert == FailsClean then w else w.(alerts := w.alerts + [alert]))
           else if Suppressed(w.redis, q.device, v) then w
           else Alarm(w, q, alert, v), s')
  {
    MoveIs(s, e, v);
    var alert := MakeAlert(q, q.thresholds[i], v.triggeredAt);
    if q.silenced {
      LogOne(s.log, RecordedSilenced(q.device, s.now, e));
      AlertOne(w.alerts, alert);
    } else {
      CheckMirrors(w, Move(s, e, v), e, q, v, i, alert);
    }
  }

  lemma StoreMirrors(w: World, s: State, e: nat, q: Request, v: Visit, i: nat, fires: bool)
    requires Stands(s, e, q, Store(i, fires)) && Mirrors(w, s)
    ensures var s' := Move(s, e, v);
      && Stands(s', e, q, if fires then Decide(i) else Scan(i + 1)) && s'.now == s.now
      && Mirrors(w.(history := w.history[LastValueKey(q.device, q.metric) := q.value]), s')
      && Finish(s, e, v) == Finish(s', e, v)
  {
    MoveIs(s, e, v);
  }

  lemma ScanMoves(w: World, s: State, e: nat, q: Request, v: Visit, i: nat)
    requires i < |q.thresholds| && Stands(s, e, q, Scan(i)) && Mirrors(w, s)
    ensures var s', t := Move(s, e, v), q.thresholds[i];
      var fires := Fires(t, q.value, LastOf(w.history, LastValueKey(q.device, q.metric)));
      && Stands(s', e, q, if t.kind == Change then Store(i, fires) else if fires then Decide(i) else Scan(i + 1)) && s'.now == s.now
      && Mirrors(w, s')
  {
    MoveIs(s, e, v);
  }

  /** One turn of the loop does to the stores what the evaluation's steps for that threshold do. */
  lemma TurnImplementsSteps(w: World, s: State, e: nat, q: Request, v: Visit, i: nat)
    requires i < |q.thresholds| && Stands(s, e, q, Scan(i)) && Mirrors(w, s) && s.now <= v.checkAt <= v.insertAt <= v.setAt
    ensures var s' := Turn(s, e, v);
      && Stands(s', e, q, Scan(i + 1)) && s'.now <= v.setAt
      && Mirrors(Consider(w, q, q.thresholds[i], v), s')
  {
    var t := q.thresholds[i];
    var fires := Fires(t, q.value, LastOf(w.history, LastValueKey(q.device, q.metric)));
    var w1 := w.(history := Remember(w.history, q, t));
    ScanMoves(w, s, e, q, v, i);
    var s1 := Move(s, e, v);
    if t.kind == Change {
      StoreMirrors(w, s1, e, q, v, i, fires);
      s1 := Move(s1, e, v);
    }
    if fires {
      DecideMirrors(w1, s1, e, q, v, i);
    }
  }

  /** Only the clock and the evaluation itself move. */
  ghost predicate Undisturbed(schedule: seq<Action>, e: nat) {
    forall i :: 0 <= i < |schedule| ==> schedule[i].Tick? || (schedule[i].Advance? && schedule[i].e == e)
  }

  lemma {:induction false} RunAppends(s: State, a: seq<Action>, b: seq<Action>)
    ensures Run(s, a + b) == Run(Run(s, a), b)
  {
    if b == [] {
      assert a + b == a;
    } else {
      RunAppends(s, a, b[..|b| - 1]);
      assert (a + b)[..|a + b| - 1] == a + b[..|b| - 1];
    }
  }

  lemma MoveRuns(s: State, e: nat, v: Visit) returns (schedule: seq<Action>)
    requires e in s.evals
    ensures Undisturbed(schedule, e) && Run(s, schedule) == Move(s, e, v) && e in Move(s, e, v).evals
  {
    var pc := s.evals[e].pc;
    schedule := [Tick(Delay(s.now, pc, v)), Advance(e, Answer(pc, v))];
    assert schedule[..1] == [schedule[0]] && schedule[..1][..0] == [];
    assert Run(s, schedule[..1]) == Step(s, schedule[0]);
    MoveIs(s, e, v);
  }

  lemma {:induction false} FinishRuns(s: State, e: nat, v: Visit) returns (schedule: seq<Action>)
    requires e in s.evals
    ensures Undisturbed(schedule, e) && Run(s, schedule) == Finish(s, e, v)
    decreases Rank(s.evals[e].pc)
  {
    schedule := [];
    if Rank(s.evals[e].pc) > 0 {
      MoveRanks(s, e, v);
      var s1 := Move(s, e, v);
      var first := MoveRuns(s, e, v);
      var rest := FinishRuns(s1, e, v);
      RunAppends(s, first, rest);
      schedule := first + rest;
    }
  }

  /** The clock does not go back between the operations of an evaluation. */
  ghost predicate Causal(now: Micros, visits: seq<Visit>) {
    && (forall i :: 0 <= i < |visits| ==> now <= visits[i].checkAt <= visits[i].insertAt <= visits[i].setAt)
    && (forall i, j :: 0 <= i < j < |visits| ==> visits[i].setAt <= visits[j].checkAt)
  }

  /** What holds of the step system after `n` turns. */
  ghost predicate Agrees(w: World, s: State, e: nat, q: Request, n: nat, limit: Micros) {
    Stands(s, e, q, Scan(n)) && Mirrors(w, s) && s.now <= limit
  }

  lemma TurnRuns(w: World, s: State, e: nat, q: Request, v: Visit, i: nat, limit: Micros) returns (schedule: seq<Action>)
    requires i < |q.thresholds| && Agrees(w, s, e, q, i, limit) && limit <= v.checkAt <= v.insertAt <= v.setAt
    ensures Undisturbed(schedule, e) && Agrees(Consider(w, q, q.thresholds[i], v), Run(s, schedule), e, q, i + 1, v.setAt)
  {
    TurnImplementsSteps(w, s, e, q, v, i);
    var first := MoveRuns(s, e, v);
    var rest := FinishRuns(Move(s, e, v), e, v);
    RunAppends(s, first, rest);
    schedule := first + rest;
  }

  /** The evaluator's loop is a run of the step system: there is a schedule of the evaluation's own steps and
      clock ticks, with nothing else in between, that leaves the stores as the loop does. */
  lemma {:induction false} LoopImplementsSteps(w: World, s: State, e: nat, q: Request, visits: seq<Visit>, n: nat) returns (schedule: seq<Action>)
    requires n <= |q.thresholds| == |visits| && Stands(s, e, q, Scan(0)) && Mirrors(w, s) && Causal(s.now, visits)
    ensures Undisturbed(schedule, e)
    ensures Agrees(Loop(w, q, visits, n), Run(s, schedule), e, q, n, if n == 0 then s.now else visits[n - 1].setAt)
  {
    schedule := [];
    if n > 0 {
      var before := LoopImplementsSteps(w, s, e, q, visits, n - 1);
      var limit := if n == 1 then s.now else visits[n - 2].setAt;
      var turn := TurnRuns(Loop(w, q, visits, n - 1), Run(s, before), e, q, visits[n - 1], n - 1, limit);
      RunAppends(s, before, turn);
      schedule := before + turn;
    }
  }
}
